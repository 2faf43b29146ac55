/** Microservice collection in lib/simulator.js: `collectMicroservices`
    (lines 11-23) walks a step tree and gathers the `_microservice` records of
    its http steps into a Set; `runSimulation` (lines 25-32) applies it to the
    top-level requests of type `'http'` only. A JavaScript Set keeps
    insertion order and holds each element once; it is modelled as a sequence
    without duplicates to which `Add` appends only new elements. */
module Simulator {
  import opened Wrappers
  import opened Json

  /** `set.add(x)` */
  function Add(found: seq<Value>, x: Value): (r: seq<Value>) {
    if x in found then found else found + [x]
  }

  /** `xs.forEach(x => set.add(x))` */
  function AddAll(found: seq<Value>, xs: seq<Value>): (r: seq<Value>)
    decreases |xs|
  {
    if xs == [] then found else AddAll(Add(found, xs[0]), xs[1..])
  }

  /** `step && step.type === 'http' && step._microservice` */
  predicate OwnsRecord(step: Value) {
    Truthy(step) && Get(step, "type") == Str("http") && Truthy(Get(step, "_microservice"))
  }

  /** `Array.isArray(step.actions)` */
  predicate HasChildren(step: Value) {
    step.Obj? && "actions" in step.fields && step.fields["actions"].Arr?
  }

  /** The collection a step contributes, or the TypeError raised by reading
      `step.actions` of a `null` or `undefined` step somewhere in the tree. */
  function Collect(step: Value): (r: Result<seq<Value>, Value>)
    decreases step, 1, 0
  {
    if Nullish(step) then Failure(ReadError(step, "actions"))
    else
      var own := if OwnsRecord(step) then [Get(step, "_microservice")] else [];
      if HasChildren(step) then CollectChildren(step.fields["actions"].items, 0, own) else Success(own)
  }

  /** The loop over `step.actions` from index `i` on, adding into `acc`. */
  function CollectChildren(items: seq<Value>, i: nat, acc: seq<Value>): (r: Result<seq<Value>, Value>)
    requires i <= |items|
    decreases Arr(items), 0, |items| - i
  {
    if i == |items| then Success(acc)
    else
      match Collect(items[i])
      case Failure(e) => Failure(e)
      case Success(sub) => CollectChildren(items, i + 1, AddAll(acc, sub))
  }

  /** `collectMicroservices(step)`, adding into a local set as the source does. */
  method CollectMicroservices(step: Value) returns (r: Result<seq<Value>, Value>)
    decreases step
    ensures r == Collect(step)
  {
    var found: seq<Value> := [];
    if Truthy(step) && Get(step, "type") == Str("http") && Truthy(Get(step, "_microservice")) {
      found := found + [Get(step, "_microservice")];
    }
    assert found == if OwnsRecord(step) then [Get(step, "_microservice")] else [];
    if Nullish(step) {
      return Failure(ReadError(step, "actions"));
    }
    if step.Obj? && "actions" in step.fields && step.fields["actions"].Arr? {
      var items := step.fields["actions"].items;
      ghost var own := found;
      var i := 0;
      while i < |items|
        invariant 0 <= i <= |items|
        invariant CollectChildren(items, 0, own) == CollectChildren(items, i, found)
      {
        var sub := CollectMicroservices(items[i]);
        if sub.Failure? {
          return Failure(sub.error);
        }
        var ms := sub.value;
        ghost var before := found;
        var j := 0;
        while j < |ms|
          invariant 0 <= j <= |ms|
          invariant AddAll(before, ms) == AddAll(found, ms[j..])
        {
          if ms[j] !in found {
            found := found + [ms[j]];
          }
          assert ms[j..][1..] == ms[j + 1..];
          j := j + 1;
        }
        i := i + 1;
      }
      assert Collect(step) == CollectChildren(items, 0, own);
    }
    return Success(found);
  }

  /** The top-level collection of `runSimulation`: only requests that are
      truthy and of type `'http'` are walked. */
  function CollectRequests(requests: seq<Value>, i: nat, acc: seq<Value>): (r: Result<seq<Value>, Value>)
    requires i <= |requests|
    decreases |requests| - i
  {
    if i == |requests| then Success(acc)
    else if !(Truthy(requests[i]) && Get(requests[i], "type") == Str("http")) then CollectRequests(requests, i + 1, acc)
    else
      match Collect(requests[i])
      case Failure(e) => Failure(e)
      case Success(sub) => CollectRequests(requests, i + 1, AddAll(acc, sub))
  }

  /** The `requests.forEach` loop of `runSimulation`. */
  method StartingMicroservices(requests: seq<Value>) returns (r: Result<seq<Value>, Value>)
    ensures r == CollectRequests(requests, 0, [])
  {
    var found: seq<Value> := [];
    var i := 0;
    while i < |requests|
      invariant 0 <= i <= |requests|
      invariant CollectRequests(requests, 0, []) == CollectRequests(requests, i, found)
    {
      var req := requests[i];
      if Truthy(req) && Get(req, "type") == Str("http") {
        var sub := CollectMicroservices(req);
        if sub.Failure? {
          return Failure(sub.error);
        }
        var ms := sub.value;
        ghost var before := found;
        var j := 0;
        while j < |ms|
          invariant 0 <= j <= |ms|
          invariant AddAll(before, ms) == AddAll(found, ms[j..])
        {
          if ms[j] !in found {
            found := found + [ms[j]];
          }
          assert ms[j..][1..] == ms[j + 1..];
          j := j + 1;
        }
      }
      i := i + 1;
    }
    return Success(found);
  }
}

/** What the collection promises: it holds exactly the `_microservice`
    records found anywhere in the tree, each once, and it fails exactly when
    some node of the tree is `null` or `undefined`. */
module SimulatorLaws {
  import opened Wrappers
  import opened Json
  import opened Simulator

  /** Each element occurs once, as in a Set. */
  predicate NoDuplicates(xs: seq<Value>) {
    forall i, j :: 0 <= i < j < |xs| ==> xs[i] != xs[j]
  }

  /** `x` is the `_microservice` record of the step or of a step below it. */
  ghost predicate Contributes(step: Value, x: Value)
    decreases step
  {
    (OwnsRecord(step) && x == Get(step, "_microservice"))
    || (HasChildren(step) && exists i :: 0 <= i < |step.fields["actions"].items| && Contributes(step.fields["actions"].items[i], x))
  }

  /** Some node of the tree is `null` or `undefined`. */
  ghost predicate NullishWithin(step: Value)
    decreases step
  {
    Nullish(step)
    || (HasChildren(step) && exists i :: 0 <= i < |step.fields["actions"].items| && NullishWithin(step.fields["actions"].items[i]))
  }

  lemma {:induction false} AddAllMembers(acc: seq<Value>, xs: seq<Value>, x: Value)
    ensures x in AddAll(acc, xs) <==> x in acc || x in xs
    decreases |xs|
  {
    if xs != [] {
      AddAllMembers(Add(acc, xs[0]), xs[1..], x);
      assert xs == [xs[0]] + xs[1..];
    }
  }

  lemma {:induction false} AddAllKeepsNoDuplicates(acc: seq<Value>, xs: seq<Value>)
    requires NoDuplicates(acc)
    ensures NoDuplicates(AddAll(acc, xs))
    decreases |xs|
  {
    if xs != [] {
      var next := Add(acc, xs[0]);
      assert NoDuplicates(next) by {
        if xs[0] !in acc {
          forall i, j | 0 <= i < j < |next| ensures next[i] != next[j] {
            if j == |acc| {
              assert next[i] == acc[i];
            }
          }
        }
      }
      AddAllKeepsNoDuplicates(next, xs[1..]);
    }
  }

  lemma {:induction false} CollectMembers(step: Value, x: Value)
    requires Collect(step).Success?
    ensures x in Collect(step).value <==> Contributes(step, x)
    decreases step, 1, 0
  {
    var own := if OwnsRecord(step) then [Get(step, "_microservice")] else [];
    if HasChildren(step) {
      var items := step.fields["actions"].items;
      ChildrenMembers(items, 0, own, x);
    }
  }

  lemma {:induction false} ChildrenMembers(items: seq<Value>, i: nat, acc: seq<Value>, x: Value)
    requires i <= |items|
    requires CollectChildren(items, i, acc).Success?
    ensures x in CollectChildren(items, i, acc).value
        <==> x in acc || exists k :: i <= k < |items| && Contributes(items[k], x)
    decreases Arr(items), 0, |items| - i
  {
    if i < |items| {
      var sub := Collect(items[i]).value;
      CollectMembers(items[i], x);
      AddAllMembers(acc, sub, x);
      ChildrenMembers(items, i + 1, AddAll(acc, sub), x);
      if x in CollectChildren(items, i, acc).value && x !in acc && Contributes(items[i], x) {
        assert i <= i < |items| && Contributes(items[i], x);
      }
      if exists k :: i <= k < |items| && Contributes(items[k], x) {
        var k :| i <= k < |items| && Contributes(items[k], x);
        if k != i {
          assert i + 1 <= k < |items| && Contributes(items[k], x);
        }
      }
    }
  }

  lemma {:induction false} CollectHasNoDuplicates(step: Value)
    requires Collect(step).Success?
    ensures NoDuplicates(Collect(step).value)
    decreases step, 1, 0
  {
    var own := if OwnsRecord(step) then [Get(step, "_microservice")] else [];
    if HasChildren(step) {
      ChildrenHaveNoDuplicates(step.fields["actions"].items, 0, own);
    }
  }

  lemma {:induction false} ChildrenHaveNoDuplicates(items: seq<Value>, i: nat, acc: seq<Value>)
    requires i <= |items|
    requires NoDuplicates(acc)
    requires CollectChildren(items, i, acc).Success?
    ensures NoDuplicates(CollectChildren(items, i, acc).value)
    decreases Arr(items), 0, |items| - i
  {
    if i < |items| {
      var sub := Collect(items[i]).value;
      AddAllKeepsNoDuplicates(acc, sub);
      ChildrenHaveNoDuplicates(items, i + 1, AddAll(acc, sub));
    }
  }

  lemma {:induction false} CollectFailsOnNullish(step: Value)
    ensures Collect(step).Failure? <==> NullishWithin(step)
    decreases step, 1, 0
  {
    if !Nullish(step) && HasChildren(step) {
      var items := step.fields["actions"].items;
      var own := if OwnsRecord(step) then [Get(step, "_microservice")] else [];
      ChildrenFailOnNullish(items, 0, own);
    }
  }

  lemma {:induction false} ChildrenFailOnNullish(items: seq<Value>, i: nat, acc: seq<Value>)
    requires i <= |items|
    ensures CollectChildren(items, i, acc).Failure?
        <==> exists k :: i <= k < |items| && NullishWithin(items[k])
    decreases Arr(items), 0, |items| - i
  {
    if i < |items| {
      CollectFailsOnNullish(items[i]);
      if Collect(items[i]).Success? {
        ChildrenFailOnNullish(items, i + 1, AddAll(acc, Collect(items[i]).value));
        if exists k :: i <= k < |items| && NullishWithin(items[k]) {
          var k :| i <= k < |items| && NullishWithin(items[k]);
          assert k != i;
          assert i + 1 <= k < |items| && NullishWithin(items[k]);
        }
      } else {
        assert i <= i < |items| && NullishWithin(items[i]);
      }
    }
  }

  /** A top-level request takes part when it is truthy and of type 'http'. */
  predicate Started(request: Value) {
    Truthy(request) && Get(request, "type") == Str("http")
  }

  lemma {:induction false} RequestsMembers(requests: seq<Value>, i: nat, acc: seq<Value>, x: Value)
    requires i <= |requests|
    requires CollectRequests(requests, i, acc).Success?
    ensures x in CollectRequests(requests, i, acc).value
        <==> x in acc || exists k :: i <= k < |requests| && Started(requests[k]) && Contributes(requests[k], x)
    decreases |requests| - i
  {
    if i < |requests| {
      if !Started(requests[i]) {
        RequestsMembers(requests, i + 1, acc, x);
        if exists k :: i <= k < |requests| && Started(requests[k]) && Contributes(requests[k], x) {
          var k :| i <= k < |requests| && Started(requests[k]) && Contributes(requests[k], x);
          assert i + 1 <= k < |requests| && Started(requests[k]) && Contributes(requests[k], x);
        }
      } else {
        var sub := Collect(requests[i]).value;
        CollectMembers(requests[i], x);
        AddAllMembers(acc, sub, x);
        RequestsMembers(requests, i + 1, AddAll(acc, sub), x);
        if x in CollectRequests(requests, i, acc).value && x !in acc && Contributes(requests[i], x) {
          assert i <= i < |requests| && Started(requests[i]) && Contributes(requests[i], x);
        }
        if exists k :: i <= k < |requests| && Started(requests[k]) && Contributes(requests[k], x) {
          var k :| i <= k < |requests| && Started(requests[k]) && Contributes(requests[k], x);
          if k != i {
            assert i + 1 <= k < |requests| && Started(requests[k]) && Contributes(requests[k], x);
          }
        }
      }
    }
  }

  /** Only requests of type 'http' are walked, so a `null` node below a request
      of another type is never reached. */
  lemma {:induction false} RequestsFailOnNullish(requests: seq<Value>, i: nat, acc: seq<Value>)
    requires i <= |requests|
    ensures CollectRequests(requests, i, acc).Failure?
        <==> exists k :: i <= k < |requests| && Started(requests[k]) && NullishWithin(requests[k])
    decreases |requests| - i
  {
    if i < |requests| {
      if !Started(requests[i]) {
        RequestsFailOnNullish(requests, i + 1, acc);
        if exists k :: i <= k < |requests| && Started(requests[k]) && NullishWithin(requests[k]) {
          var k :| i <= k < |requests| && Started(requests[k]) && NullishWithin(requests[k]);
          assert i + 1 <= k < |requests| && Started(requests[k]) && NullishWithin(requests[k]);
        }
      } else {
        CollectFailsOnNullish(requests[i]);
        if Collect(requests[i]).Success? {
          RequestsFailOnNullish(requests, i + 1, AddAll(acc, Collect(requests[i]).value));
          if exists k :: i <= k < |requests| && Started(requests[k]) && NullishWithin(requests[k]) {
            var k :| i <= k < |requests| && Started(requests[k]) && NullishWithin(requests[k]);
            assert k != i;
            assert i + 1 <= k < |requests| && Started(requests[k]) && NullishWithin(requests[k]);
          }
        } else {
          assert i <= i < |requests| && Started(requests[i]) && NullishWithin(requests[i]);
        }
      }
    }
  }

  lemma {:induction false} RequestsHaveNoDuplicates(requests: seq<Value>, i: nat, acc: seq<Value>)
    requires i <= |requests|
    requires NoDuplicates(acc)
    requires CollectRequests(requests, i, acc).Success?
    ensures NoDuplicates(CollectRequests(requests, i, acc).value)
    decreases |requests| - i
  {
    if i < |requests| {
      if !Started(requests[i]) {
        RequestsHaveNoDuplicates(requests, i + 1, acc);
      } else {
        var sub := Collect(requests[i]).value;
        AddAllKeepsNoDuplicates(acc, sub);
        RequestsHaveNoDuplicates(requests, i + 1, AddAll(acc, sub));
      }
    }
  }
}
