/** The Interpolation Engine: `resolveReturn` and `interpolate`
    (src/index.js:116-132). A `return` action's data is resolved against the
    context before it becomes the result of the action list. */
module Interpolation {
  import opened Wrappers
  import opened Json

  type Context = map<string, Value>

  /** The index of the first `}` in `s` at or after `from`. */
  function FindClose(s: string, from: nat): (r: Option<nat>)
    ensures r.Some? ==> from <= r.value < |s| && s[r.value] == '}'
    ensures r.Some? ==> forall k :: from <= k < r.value ==> s[k] != '}'
    ensures r.None? ==> forall k :: from <= k < |s| ==> s[k] != '}'
    decreases |s| - from
  {
    if from >= |s| then None
    else if s[from] == '}' then Some(from)
    else FindClose(s, from + 1)
  }

  /** `context[key] ?? ''`, turned into text by `String.prototype.replace`. */
  function Lookup(ctx: Context, key: string): (text: string) {
    if key in ctx && !Nullish(ctx[key]) then ToJsString(ctx[key]) else ""
  }

  /** `str.replace(/\$\{([^}]+)\}/g, (_, key) => context[key] ?? '')`: scanning
      from the left, `${` followed by a non-empty run of characters other than
      `}` and then a `}` is replaced by the context value of that run, and the
      scan resumes after the `}`; every other character is copied. */
  function Interpolate(s: string, ctx: Context): (r: string)
    decreases |s|
  {
    if |s| == 0 then ""
    else if |s| >= 2 && s[0] == '$' && s[1] == '{' && FindClose(s, 2).Some? && FindClose(s, 2).value > 2 then
      var j := FindClose(s, 2).value;
      Lookup(ctx, s[2..j]) + Interpolate(s[j + 1..], ctx)
    else
      [s[0]] + Interpolate(s[1..], ctx)
  }

  /** `s[i..j+1]` is a placeholder `${key}`: `key` is non-empty and holds no `}`. */
  predicate PlaceholderAt(s: string, i: int, j: int) {
    && 0 <= i && i + 2 < j < |s|
    && s[i] == '$' && s[i + 1] == '{' && s[j] == '}'
    && forall k :: i + 2 <= k < j ==> s[k] != '}'
  }

  ghost predicate HasPlaceholder(s: string) {
    exists i, j :: PlaceholderAt(s, i, j)
  }

  /** No `${` occurs in `s`. */
  predicate NoOpening(s: string) {
    forall i :: 0 <= i < |s| - 1 ==> !(s[i] == '$' && s[i + 1] == '{')
  }

  /** Where no `${` opens at the head, the first character is copied. */
  lemma InterpolateCopiesHead(s: string, ctx: Context)
    requires |s| > 0 && !(|s| >= 2 && s[0] == '$' && s[1] == '{')
    ensures Interpolate(s, ctx) == [s[0]] + Interpolate(s[1..], ctx)
  {
  }

  /** A placeholder at the head is replaced and the scan resumes after it. */
  lemma InterpolateReplacesHead(s: string, j: int, ctx: Context)
    requires PlaceholderAt(s, 0, j)
    ensures Interpolate(s, ctx) == Lookup(ctx, s[2..j]) + Interpolate(s[j + 1..], ctx)
  {
    assert FindClose(s, 2) == Some(j);
  }

  /** Interpolation leaves a string alone unless it holds a placeholder. */
  lemma {:induction false} InterpolateChangesOnlyPlaceholders(s: string, ctx: Context)
    ensures Interpolate(s, ctx) == s || HasPlaceholder(s)
    decreases |s|
  {
    if |s| == 0 {
    } else if |s| >= 2 && s[0] == '$' && s[1] == '{' && FindClose(s, 2).Some? && FindClose(s, 2).value > 2 {
      assert PlaceholderAt(s, 0, FindClose(s, 2).value);
    } else {
      var t := s[1..];
      InterpolateChangesOnlyPlaceholders(t, ctx);
      if HasPlaceholder(t) {
        var i, j :| PlaceholderAt(t, i, j);
        assert PlaceholderAt(s, i + 1, j + 1);
      } else {
        assert s == [s[0]] + t;
      }
    }
  }

  /** A string with no placeholder is returned unchanged. */
  lemma InterpolateWithoutPlaceholder(s: string, ctx: Context)
    requires !HasPlaceholder(s)
    ensures Interpolate(s, ctx) == s
  {
    InterpolateChangesOnlyPlaceholders(s, ctx);
  }

  /** A placeholder `${key}` at the head is replaced by the value of `key`. */
  lemma PlaceholderAtHead(key: string, t: string, ctx: Context)
    requires key != [] && '}' !in key
    ensures Interpolate("${" + key + "}" + t, ctx) == Lookup(ctx, key) + Interpolate(t, ctx)
  {
    var s := "${" + key + "}" + t;
    var j := 2 + |key|;
    forall k | 2 <= k < j ensures s[k] != '}' {
      assert s[k] == key[k - 2];
    }
    assert PlaceholderAt(s, 0, j);
    InterpolateReplacesHead(s, j, ctx);
    assert s[2..j] == key;
    assert s[j + 1..] == t;
  }

  /** A prefix that opens no placeholder, also not across its end, is copied. */
  lemma {:induction false} InterpolateCopiesPrefix(p: string, u: string, ctx: Context)
    requires NoOpening(p)
    requires |p| > 0 && |u| > 0 ==> !(p[|p| - 1] == '$' && u[0] == '{')
    ensures Interpolate(p + u, ctx) == p + Interpolate(u, ctx)
    decreases |p|
  {
    if |p| > 0 {
      var p' := p[1..];
      assert NoOpening(p') by {
        forall i | 0 <= i < |p'| - 1 ensures !(p'[i] == '$' && p'[i + 1] == '{') {
          assert p'[i] == p[i + 1] && p'[i + 1] == p[i + 2];
        }
      }
      InterpolateCopiesPrefix(p', u, ctx);
      var s := p + u;
      assert s[1..] == p' + u;
      InterpolateCopiesHead(s, ctx);
      assert p == [p[0]] + p';
    } else {
      assert p + u == u;
    }
  }

  /** The first placeholder `${key}` after a prefix that opens none is replaced
      by the context value of `key` (the empty string when it is missing,
      `null` or `undefined`), and interpolation goes on after it. */
  lemma InterpolateFirstPlaceholder(p: string, key: string, t: string, ctx: Context)
    requires NoOpening(p)
    requires key != [] && '}' !in key
    ensures Interpolate(p + "${" + key + "}" + t, ctx) == p + Lookup(ctx, key) + Interpolate(t, ctx)
  {
    var tail := "${" + key + "}" + t;
    assert p + "${" + key + "}" + t == p + tail;
    InterpolateCopiesPrefix(p, tail, ctx);
    PlaceholderAtHead(key, t, ctx);
  }

  /** A placeholder whose key the context lacks, or holds `null` or
      `undefined` under, resolves to the empty string. */
  lemma MissingKeyResolvesToEmpty(key: string, ctx: Context)
    requires key != [] && '}' !in key
    requires key !in ctx || Nullish(ctx[key])
    ensures Interpolate("${" + key + "}", ctx) == ""
  {
    InterpolateFirstPlaceholder("", key, "", ctx);
    assert "" + "${" + key + "}" + "" == "${" + key + "}";
  }

  /** `resolveReturn`: strings are interpolated, arrays and objects are
      resolved element by element, every other value is returned as it is. */
  function ResolveReturn(data: Value, ctx: Context): (r: Value)
    decreases data
  {
    match data
    case Str(s) => Str(Interpolate(s, ctx))
    case Arr(xs) => Arr(seq(|xs|, i requires 0 <= i < |xs| => ResolveReturn(xs[i], ctx)))
    case Obj(m) => Obj(map k | k in m :: ResolveReturn(m[k], ctx))
    case _ => data
  }

  /** `a` and `b` have the same shape: the same kind at every node, the same
      length for arrays, the same keys for objects, equal non-string scalars. */
  ghost predicate SameShape(a: Value, b: Value)
    decreases a
  {
    match a
    case Str(_) => b.Str?
    case Arr(xs) => b.Arr? && |b.items| == |xs| && forall i :: 0 <= i < |xs| ==> SameShape(xs[i], b.items[i])
    case Obj(m) => b.Obj? && b.fields.Keys == m.Keys && forall k :: k in m ==> SameShape(m[k], b.fields[k])
    case _ => a == b
  }

  /** Some string anywhere in the tree holds a placeholder. */
  ghost predicate AnyPlaceholder(v: Value)
    decreases v
  {
    match v
    case Str(s) => HasPlaceholder(s)
    case Arr(xs) => exists i :: 0 <= i < |xs| && AnyPlaceholder(xs[i])
    case Obj(m) => exists k :: k in m && AnyPlaceholder(m[k])
    case _ => false
  }

  /** Resolution preserves the shape of the value tree. */
  lemma {:induction false} ResolvePreservesShape(data: Value, ctx: Context)
    ensures SameShape(data, ResolveReturn(data, ctx))
    decreases data
  {
    match data
    case Arr(xs) =>
      forall i | 0 <= i < |xs| ensures SameShape(xs[i], ResolveReturn(data, ctx).items[i]) {
        ResolvePreservesShape(xs[i], ctx);
      }
    case Obj(m) =>
      forall k | k in m ensures SameShape(m[k], ResolveReturn(data, ctx).fields[k]) {
        ResolvePreservesShape(m[k], ctx);
      }
    case _ =>
  }

  /** A tree with no placeholder left resolves to itself (resolution is
      idempotent on already-resolved trees in this sense). */
  lemma {:induction false} ResolveWithoutPlaceholder(data: Value, ctx: Context)
    requires !AnyPlaceholder(data)
    ensures ResolveReturn(data, ctx) == data
    decreases data
  {
    match data
    case Str(s) =>
      InterpolateWithoutPlaceholder(s, ctx);
    case Arr(xs) =>
      forall i | 0 <= i < |xs| ensures ResolveReturn(xs[i], ctx) == xs[i] {
        ResolveWithoutPlaceholder(xs[i], ctx);
      }
      assert ResolveReturn(data, ctx).items == xs;
    case Obj(m) =>
      forall k | k in m ensures ResolveReturn(m[k], ctx) == m[k] {
        ResolveWithoutPlaceholder(m[k], ctx);
      }
      assert ResolveReturn(data, ctx).fields == m;
    case _ =>
  }

  /** Resolving twice is not the same as resolving once when a context value
      itself holds a placeholder. */
  lemma ResolveIsNotIdempotent()
    ensures var ctx := map["a" := Str("${b}"), "b" := Str("x")];
            ResolveReturn(Str("${a}"), ctx) == Str("${b}") &&
            ResolveReturn(ResolveReturn(Str("${a}"), ctx), ctx) == Str("x")
  {
    var ctx := map["a" := Str("${b}"), "b" := Str("x")];
    assert PlaceholderAt("${a}", 0, 3);
    InterpolateReplacesHead("${a}", 3, ctx);
    assert "${a}"[2..3] == "a";
    assert PlaceholderAt("${b}", 0, 3);
    InterpolateReplacesHead("${b}", 3, ctx);
    assert "${b}"[2..3] == "b";
  }
}
