/** Properties of `processActions` proved on the reference semantics. */
module SemanticsLaws {
  import opened Json
  import opened Interpolation
  import opened Semantics

  /** Whatever the context and however often it is repeated, the action never
      ends the enclosing list. */
  ghost predicate NeverStops(fx: Effects, action: Value)
    requires !Nullish(action)
  {
    forall n: nat, ctx: Context :: Repeat(fx, action, n, ctx).Continue?
  }

  /** Repetitions run one after another: `m + n` repetitions are `m` of them
      followed, unless they ended the list, by `n` more on the context they left. */
  lemma {:induction false} RepeatSequencing(fx: Effects, action: Value, m: nat, n: nat, ctx: Context)
    requires !Nullish(action)
    ensures Repeat(fx, action, m + n, ctx) ==
              match Repeat(fx, action, m, ctx)
              case Stop(o, c) => Stop(o, c)
              case Continue(c) => Repeat(fx, action, n, c)
    decreases m
  {
    if m > 0 && !Detached(action) {
      var r := Step(fx, action, ctx);
      if r.completion.Normal? && !IsReturn(action) {
        RepeatSequencing(fx, action, m - 1, n, r.context);
      }
    } else if m > 0 {
      RepeatSequencing(fx, action, m - 1, n, ctx);
    }
  }

  /** The context after `n` runs of a body, each on the context the previous one left. */
  function BodyRuns(fx: Effects, action: Value, n: nat, ctx: Context): (r: Context)
    requires !Nullish(action)
    decreases n
  {
    if n == 0 then ctx else BodyRuns(fx, action, n - 1, Step(fx, action, ctx).context)
  }

  /** A blocking action that is not a `return` and never throws runs its body
      exactly `n` times, in sequence, and lets the list go on. */
  lemma {:induction false} RepeatRunsBodyNTimes(fx: Effects, action: Value, n: nat, ctx: Context)
    requires !Nullish(action) && !Detached(action) && !IsReturn(action)
    requires forall c: Context :: Step(fx, action, c).completion.Normal?
    ensures Repeat(fx, action, n, ctx) == Continue(BodyRuns(fx, action, n, ctx))
    decreases n
  {
    if n > 0 {
      RepeatRunsBodyNTimes(fx, action, n - 1, Step(fx, action, ctx).context);
    }
  }

  /** A detached (`wait: false`) action yields nothing and never ends the list;
      in this model it leaves the context as it was. */
  lemma {:induction false} DetachedActionIsSkipped(fx: Effects, action: Value, n: nat, ctx: Context)
    requires !Nullish(action) && Detached(action)
    ensures Repeat(fx, action, n, ctx) == Continue(ctx)
    decreases n
  {
    if n > 0 {
      DetachedActionIsSkipped(fx, action, n - 1, ctx);
    }
  }

  /** The first repetition of a blocking `return` ends the list with the data
      resolved against the current context: no later repetition and no later
      action runs, and the context is unchanged. */
  lemma BlockingReturnEndsList(fx: Effects, actions: seq<Value>, i: nat, ctx: Context)
    requires i < |actions| && !Nullish(actions[i])
    requires IsReturn(actions[i]) && !Detached(actions[i]) && RepeatCount(actions[i]) >= 1
    ensures Steps(fx, actions, i, ctx) == Stop(Done(ResolveReturn(Get(actions[i], "data"), ctx)), ctx)
  {
    var a := actions[i];
    assert Step(fx, a, ctx) == StepResult(Normal(ResolveReturn(Get(a, "data"), ctx)), ctx);
  }

  /** A blocking action whose body throws ends the list with `{error: message}`
      instead of rethrowing; no later repetition and no later action runs. */
  lemma BlockingThrowEndsList(fx: Effects, actions: seq<Value>, i: nat, ctx: Context)
    requires i < |actions| && !Nullish(actions[i])
    requires !Detached(actions[i]) && RepeatCount(actions[i]) >= 1
    requires Step(fx, actions[i], ctx).completion.Abrupt?
    ensures Steps(fx, actions, i, ctx) ==
              Stop(Done(ErrorRecord(Step(fx, actions[i], ctx).completion.message)), Step(fx, actions[i], ctx).context)
  {
  }

  /** The list loop is sequential: running `a + b` from an index inside `a`
      runs `a` and, only when `a` ran out, goes on with `b` on the context `a` left. */
  lemma {:induction false} StepsSequencing(fx: Effects, a: seq<Value>, b: seq<Value>, i: nat, ctx: Context)
    requires i <= |a|
    ensures Steps(fx, a + b, i, ctx) ==
              match Steps(fx, a, i, ctx)
              case Stop(o, c) => Stop(o, c)
              case Continue(c) => Steps(fx, a + b, |a|, c)
    decreases |a| - i
  {
    if i < |a| {
      assert (a + b)[i] == a[i];
      if !Nullish(a[i]) {
        var f := Repeat(fx, a[i], RepeatCount(a[i]), ctx);
        if f.Continue? {
          StepsSequencing(fx, a, b, i + 1, f.context);
        }
      }
    }
  }

  /** Once a prefix of the list has ended the call, nothing after it runs:
      the outcome and the final context are those of the prefix alone. */
  lemma StoppedPrefixIgnoresRest(fx: Effects, a: seq<Value>, b: seq<Value>, ctx: Context)
    requires Steps(fx, a, 0, ctx).Stop?
    ensures Run(fx, a + b, ctx) == Run(fx, a, ctx)
  {
    StepsSequencing(fx, a, b, 0, ctx);
  }

  /** A list whose actions never end it yields the empty array `[]`. */
  lemma {:induction false} StepsContinue(fx: Effects, actions: seq<Value>, i: nat, ctx: Context)
    requires i <= |actions|
    requires forall j :: i <= j < |actions| ==> !Nullish(actions[j]) && NeverStops(fx, actions[j])
    ensures Steps(fx, actions, i, ctx).Continue?
    decreases |actions| - i
  {
    if i < |actions| {
      var f := Repeat(fx, actions[i], RepeatCount(actions[i]), ctx);
      assert f.Continue?;
      StepsContinue(fx, actions, i + 1, f.context);
    }
  }

  lemma ListWithoutStopsYieldsEmpty(fx: Effects, actions: seq<Value>, ctx: Context)
    requires forall j :: 0 <= j < |actions| ==> !Nullish(actions[j]) && NeverStops(fx, actions[j])
    ensures Run(fx, actions, ctx).0 == Done(Arr([]))
  {
    StepsContinue(fx, actions, 0, ctx);
  }

  /** `action` is a blocking `code` action whose own script throws `null` or
      `undefined` on some context. */
  ghost predicate ThrowsNullish(fx: Effects, action: Value) {
    && Kind(action) == Str("code") && !Detached(action)
    && exists c: Context :: fx.script(Get(action, "source"), c).completion.ThrewNullish?
  }

  /** An element of a list from which an exception can leave that list: a
      `null` or `undefined` element, or a `code` element whose script throws one. */
  ghost predicate Escapes(fx: Effects, action: Value) {
    Nullish(action) || ThrowsNullish(fx, action)
  }

  /** An exception escapes `processActions` only from an element of the list
      itself: a `null` or `undefined` element, or a `code` element whose script
      throws `null` or `undefined`. Every other error inside an action, an
      exception escaping a nested `multi` included, is turned into a value. */
  lemma {:induction false} StepsRaiseOnlyOnNullish(fx: Effects, actions: seq<Value>, i: nat, ctx: Context)
    requires i <= |actions|
    requires Steps(fx, actions, i, ctx).Stop? && Steps(fx, actions, i, ctx).outcome.Raised?
    ensures exists j :: i <= j < |actions| && Escapes(fx, actions[j])
    decreases |actions| - i
  {
    if i < |actions| && Nullish(actions[i]) {
      assert Escapes(fx, actions[i]);
    } else if i < |actions| {
      var f := Repeat(fx, actions[i], RepeatCount(actions[i]), ctx);
      RepeatRaisesOnlyOnNullishThrow(fx, actions[i], RepeatCount(actions[i]), ctx);
      if f.Continue? {
        StepsRaiseOnlyOnNullish(fx, actions, i + 1, f.context);
      } else {
        assert Escapes(fx, actions[i]);
      }
    }
  }

  /** The repetitions of one action raise only when it is a blocking `code`
      action whose script throws `null` or `undefined`: any other error of a
      blocking body, an exception escaping a `multi`'s inner list included,
      becomes an `{error}` value. */
  lemma {:induction false} RepeatRaisesOnlyOnNullishThrow(fx: Effects, action: Value, n: nat, ctx: Context)
    requires !Nullish(action)
    ensures Repeat(fx, action, n, ctx).Stop? && Repeat(fx, action, n, ctx).outcome.Raised? ==> ThrowsNullish(fx, action)
    decreases n
  {
    if n > 0 {
      if Detached(action) {
        RepeatRaisesOnlyOnNullishThrow(fx, action, n - 1, ctx);
      } else {
        var r := Step(fx, action, ctx);
        if r.completion.Normal? && !IsReturn(action) {
          RepeatRaisesOnlyOnNullishThrow(fx, action, n - 1, r.context);
        } else if r.completion.ThrewNullish? {
          assert Kind(action) == Str("code");
          assert fx.script(Get(action, "source"), ctx).completion.ThrewNullish?;
        }
      }
    }
  }

  lemma RunRaisesOnlyOnNullish(fx: Effects, actions: seq<Value>, ctx: Context)
    requires Run(fx, actions, ctx).0.Raised?
    ensures exists j :: 0 <= j < |actions| && Escapes(fx, actions[j])
  {
    StepsRaiseOnlyOnNullish(fx, actions, 0, ctx);
  }

  /** A blocking `code` action whose script throws `null` or `undefined` makes
      the `catch` block itself throw when it reads `err.message`: the
      exception leaves the list. */
  lemma NullishThrowEscapes(fx: Effects, actions: seq<Value>, i: nat, ctx: Context)
    requires i < |actions| && !Nullish(actions[i])
    requires Kind(actions[i]) == Str("code") && !Detached(actions[i]) && RepeatCount(actions[i]) >= 1
    requires fx.script(Get(actions[i], "source"), ctx).completion.ThrewNullish?
    ensures var r := fx.script(Get(actions[i], "source"), ctx);
            Steps(fx, actions, i, ctx)
              == Stop(Raised(ReadError(NullishValue(r.completion.isNull), "message")), r.context)
  {
    assert Step(fx, actions[i], ctx) == fx.script(Get(actions[i], "source"), ctx);
  }

  /** A `multi` runs its inner list on the same context object; unless an
      element of that list escapes, the inner list completes and its result
      is the `multi`'s result. */
  lemma MultiSharesContext(fx: Effects, action: Value, items: seq<Value>, ctx: Context)
    requires action.Obj? && Kind(action) == Str("multi") && Get(action, "actions") == Arr(items)
    ensures Step(fx, action, ctx).context == Run(fx, items, ctx).1
    ensures Run(fx, items, ctx).0.Done? || exists j :: 0 <= j < |items| && Escapes(fx, items[j])
    ensures Run(fx, items, ctx).0.Done? ==> Step(fx, action, ctx).completion == Normal(Run(fx, items, ctx).0.value)
  {
    if Run(fx, items, ctx).0.Raised? {
      RunRaisesOnlyOnNullish(fx, items, ctx);
    }
  }

  /** A blocking `multi` whose inner list completes never ends the enclosing
      list, not even when its inner list reaches a `return` or an error: the
      outer list goes on with the context the inner list left. Only an
      element of the inner list that escapes keeps it from completing. */
  lemma MultiContinuesList(fx: Effects, actions: seq<Value>, i: nat, items: seq<Value>, ctx: Context)
    requires i < |actions| && actions[i].Obj?
    requires Kind(actions[i]) == Str("multi") && Get(actions[i], "actions") == Arr(items)
    requires !Detached(actions[i]) && RepeatCount(actions[i]) == 1
    ensures Run(fx, items, ctx).0.Done? || exists j :: 0 <= j < |items| && Escapes(fx, items[j])
    ensures Run(fx, items, ctx).0.Done? ==> Steps(fx, actions, i, ctx) == Steps(fx, actions, i + 1, Run(fx, items, ctx).1)
  {
    MultiSharesContext(fx, actions[i], items, ctx);
    var after := Run(fx, items, ctx).1;
    assert Repeat(fx, actions[i], 0, after) == Continue(after);
  }

  /** However often it is repeated, a `multi` whose inner list holds no
      element that escapes never ends the enclosing list. */
  lemma {:induction false} MultiNeverStops(fx: Effects, action: Value, items: seq<Value>, n: nat, ctx: Context)
    requires action.Obj? && Kind(action) == Str("multi") && Get(action, "actions") == Arr(items)
    ensures Repeat(fx, action, n, ctx).Continue? || exists j :: 0 <= j < |items| && Escapes(fx, items[j])
    decreases n
  {
    if n > 0 && !Detached(action) {
      MultiSharesContext(fx, action, items, ctx);
      if Run(fx, items, ctx).0.Done? {
        MultiNeverStops(fx, action, items, n - 1, Run(fx, items, ctx).1);
      }
    } else if n > 0 {
      MultiNeverStops(fx, action, items, n - 1, ctx);
    }
  }

  /** An exception escaping the inner list of a blocking `multi` is caught by
      the `try` of the list that holds the `multi` (src/index.js:105-108):
      that list ends with `{error: message}`, unlike after a nested `return`. */
  lemma RaisingMultiEndsList(fx: Effects, actions: seq<Value>, i: nat, items: seq<Value>, ctx: Context)
    requires i < |actions| && actions[i].Obj?
    requires Kind(actions[i]) == Str("multi") && Get(actions[i], "actions") == Arr(items)
    requires !Detached(actions[i]) && RepeatCount(actions[i]) >= 1
    requires Run(fx, items, ctx).0.Raised?
    ensures Steps(fx, actions, i, ctx) == Stop(Done(ErrorRecord(Run(fx, items, ctx).0.message)), Run(fx, items, ctx).1)
  {
    assert Step(fx, actions[i], ctx) == StepResult(Abrupt(Run(fx, items, ctx).0.message), Run(fx, items, ctx).1);
  }

  /** A blocking `multi` whose `actions` is neither an array nor a string
      throws in `for..of`, and the enclosing list ends with that error. */
  lemma NonIterableMultiEndsList(fx: Effects, actions: seq<Value>, i: nat, ctx: Context)
    requires i < |actions| && !Nullish(actions[i])
    requires Kind(actions[i]) == Str("multi") && !Get(actions[i], "actions").Arr? && !Get(actions[i], "actions").Str?
    requires !Detached(actions[i]) && RepeatCount(actions[i]) >= 1
    ensures Steps(fx, actions, i, ctx) == Stop(Done(ErrorRecord(NotIterable)), ctx)
  {
    assert Step(fx, actions[i], ctx) == StepResult(Abrupt(NotIterable), ctx);
  }

  /** `[multi([null]), return("after")]`: the `null` inside the `multi` ends the
      whole list with the TypeError's message; the `return` never runs. */
  lemma NullInsideMultiEndsList(fx: Effects, ctx: Context)
    ensures var group := Obj(map["type" := Str("multi"), "actions" := Arr([Null])]);
            var after := Obj(map["type" := Str("return"), "data" := Str("after")]);
            Run(fx, [group, after], ctx).0
              == Done(ErrorRecord(Str("Cannot read properties of null (reading 'repeat')")))
  {
    var group := Obj(map["type" := Str("multi"), "actions" := Arr([Null])]);
    var after := Obj(map["type" := Str("return"), "data" := Str("after")]);
    assert Kind(group) == Str("multi") && Get(group, "actions") == Arr([Null]);
    assert Get(group, "repeat") == Undefined && !Detached(group);
    assert Steps(fx, [Null], 0, ctx) == Stop(Raised(ReadError(Null, "repeat")), ctx);
    RaisingMultiEndsList(fx, [group, after], 0, [Null], ctx);
    NullRepeatMessage();
  }

  /** The TypeError message for reading `repeat` of `null`. */
  lemma NullRepeatMessage()
    ensures ReadError(Null, "repeat") == Str("Cannot read properties of null (reading 'repeat')")
  {
    assert ToJsString(Null) == "null";
    assert "Cannot read properties of " + "null" + " (reading '" + "repeat" + "')"
        == "Cannot read properties of null (reading 'repeat')";
  }

  /** A blocking http action whose request fails ends the list with
      `{error: message}` and leaves the context as it was. */
  lemma FailedRequestEndsList(fx: Effects, actions: seq<Value>, i: nat, ctx: Context)
    requires i < |actions| && !Nullish(actions[i])
    requires Kind(actions[i]) == Str("http") && !Detached(actions[i]) && RepeatCount(actions[i]) >= 1
    requires fx.transport(OutboundRequest(fx.encode, actions[i])).TransportFailed?
    ensures Steps(fx, actions, i, ctx)
              == Stop(Done(ErrorRecord(fx.transport(OutboundRequest(fx.encode, actions[i])).message)), ctx)
  {
    assert Step(fx, actions[i], ctx) == Dispatch(fx, actions[i], ctx);
  }

  /** A blocking http action run once that gets a response, of any status,
      lets the list go on with at most its `saveToContext` key written. */
  lemma RespondedRequestContinues(fx: Effects, actions: seq<Value>, i: nat, ctx: Context)
    requires i < |actions| && !Nullish(actions[i])
    requires Kind(actions[i]) == Str("http") && !Detached(actions[i]) && RepeatCount(actions[i]) == 1
    requires fx.transport(OutboundRequest(fx.encode, actions[i])).Responded?
    ensures var body := fx.transport(OutboundRequest(fx.encode, actions[i])).body;
            Steps(fx, actions, i, ctx)
              == Steps(fx, actions, i + 1, SaveToContext(ctx, Get(actions[i], "saveToContext"), body))
  {
    var body := fx.transport(OutboundRequest(fx.encode, actions[i])).body;
    var after := SaveToContext(ctx, Get(actions[i], "saveToContext"), body);
    assert Step(fx, actions[i], ctx) == StepResult(Normal(body), after);
    assert Repeat(fx, actions[i], 0, after) == Continue(after);
  }

  /** Two transport answers that differ at most in the HTTP status. */
  predicate SameButStatus(a: HttpResponse, b: HttpResponse) {
    match a
    case Responded(_, body) => b.Responded? && b.body == body
    case TransportFailed(message) => b == a
  }

  /** The status is never looked at (`validateStatus` accepts every status):
      a transport that answers every request like another one up to the
      status gives the same results and contexts, at every level. */
  lemma {:induction false} StepIgnoresStatus(fx: Effects, transport: HttpRequest -> HttpResponse, action: Value, ctx: Context)
    requires !Nullish(action)
    requires forall q :: SameButStatus(fx.transport(q), transport(q))
    ensures Step(fx, action, ctx) == Step(fx.(transport := transport), action, ctx)
    decreases action, 0, 0
  {
    var gx := fx.(transport := transport);
    if Kind(action) == Str("http") {
      assert SameButStatus(fx.transport(OutboundRequest(fx.encode, action)), transport(OutboundRequest(fx.encode, action)));
    } else if Kind(action) == Str("multi") && action.Obj? && "actions" in action.fields && action.fields["actions"].Arr? {
      RunIgnoresStatus(fx, transport, action.fields["actions"].items, ctx);
    }
  }

  lemma {:induction false} RepeatIgnoresStatus(fx: Effects, transport: HttpRequest -> HttpResponse, action: Value, n: nat, ctx: Context)
    requires !Nullish(action)
    requires forall q :: SameButStatus(fx.transport(q), transport(q))
    ensures Repeat(fx, action, n, ctx) == Repeat(fx.(transport := transport), action, n, ctx)
    decreases action, 1, n
  {
    if n > 0 {
      if Detached(action) {
        RepeatIgnoresStatus(fx, transport, action, n - 1, ctx);
      } else {
        StepIgnoresStatus(fx, transport, action, ctx);
        RepeatIgnoresStatus(fx, transport, action, n - 1, Step(fx, action, ctx).context);
      }
    }
  }

  lemma {:induction false} StepsIgnoreStatus(fx: Effects, transport: HttpRequest -> HttpResponse, actions: seq<Value>, i: nat, ctx: Context)
    requires i <= |actions|
    requires forall q :: SameButStatus(fx.transport(q), transport(q))
    ensures Steps(fx, actions, i, ctx) == Steps(fx.(transport := transport), actions, i, ctx)
    decreases Arr(actions), 2, |actions| - i
  {
    if i < |actions| && !Nullish(actions[i]) {
      RepeatIgnoresStatus(fx, transport, actions[i], RepeatCount(actions[i]), ctx);
      var f := Repeat(fx, actions[i], RepeatCount(actions[i]), ctx);
      if f.Continue? {
        StepsIgnoreStatus(fx, transport, actions, i + 1, f.context);
      }
    }
  }

  lemma {:induction false} RunIgnoresStatus(fx: Effects, transport: HttpRequest -> HttpResponse, actions: seq<Value>, ctx: Context)
    requires forall q :: SameButStatus(fx.transport(q), transport(q))
    ensures Run(fx, actions, ctx) == Run(fx.(transport := transport), actions, ctx)
    decreases Arr(actions), 3, 0
  {
    StepsIgnoreStatus(fx, transport, actions, 0, ctx);
  }

  /** `log`, `wait` and unknown kinds acknowledge and never end the list or
      touch the context, however often they are repeated. */
  lemma {:induction false} AcknowledgingActionsAreInert(fx: Effects, action: Value, n: nat, ctx: Context)
    requires !Nullish(action)
    requires Kind(action) == Str("log") || Kind(action) == Str("wait") ||
             Kind(action) !in {Str("set"), Str("code"), Str("http"), Str("return"), Str("multi")}
    ensures Repeat(fx, action, n, ctx) == Continue(ctx)
    decreases n
  {
    if n > 0 {
      AcknowledgingActionsAreInert(fx, action, n - 1, ctx);
    }
  }

  /** An unknown kind yields a diagnostic value instead of failing. */
  lemma UnknownKindIsSoftError(fx: Effects, action: Value, ctx: Context)
    requires !Nullish(action)
    requires Kind(action) !in {Str("set"), Str("code"), Str("http"), Str("wait"), Str("log"), Str("return"), Str("multi")}
    ensures Step(fx, action, ctx) == StepResult(Normal(ErrorRecord(Str("Unknown action type: " + ToJsString(Kind(action))))), ctx)
  {
  }

  /** However often it is repeated, a blocking `set` leaves the context with
      exactly that key written and every other key as it was. */
  lemma {:induction false} RepeatedSetWritesOneKey(fx: Effects, action: Value, n: nat, ctx: Context)
    requires !Nullish(action) && Kind(action) == Str("set") && !Detached(action) && n >= 1
    ensures var key := ToJsString(Get(action, "key"));
            Repeat(fx, action, n, ctx) == Continue(ctx[key := Get(action, "value")])
    decreases n
  {
    var c := ctx[ToJsString(Get(action, "key")) := Get(action, "value")];
    assert Repeat(fx, action, 1, ctx) == Continue(c) by {
      assert Repeat(fx, action, 0, c) == Continue(c);
    }
    if n > 1 {
      RepeatSequencing(fx, action, 1, n - 1, ctx);
      RepeatedSetWritesOneKey(fx, action, n - 1, c);
      assert c[ToJsString(Get(action, "key")) := Get(action, "value")] == c;
    }
  }
}
