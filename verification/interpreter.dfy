/** The Interpreter and the Node Runtime's inbound side, as the source runs
    them: one context object that every action of an invocation updates in
    place (src/index.js:49, 61, 166), nested loops over the actions and their
    repetitions with early exits (src/index.js:51-113), and the middleware
    that decodes the payload header and starts a fresh invocation
    (src/index.js:15-37). */
module Interpreter {
  import opened Wrappers
  import opened Json
  import opened Interpolation
  import opened Semantics

  /** One invocation of `processActions`: the shared context object, and the
      effects it may call. Nested `multi` lists run on the same object. */
  class Invocation {
    const fx: Effects
    var context: Context

    /** A top-level call: `parentContext || {}` with no parent is a fresh `{}`. */
    constructor (fx: Effects)
      ensures this.fx == fx && context == map[]
    {
      this.fx := fx;
      context := map[];
    }

    /** `processActions(actions, context)` on this invocation's context. */
    method ProcessActions(actions: seq<Value>) returns (outcome: Outcome)
      modifies this
      decreases Arr(actions), 1
      ensures (outcome, context) == Run(fx, actions, old(context))
    {
      ghost var start := old(context);
      var i := 0;
      while i < |actions|
        invariant 0 <= i <= |actions|
        invariant Run(fx, actions, start) == Finish(Steps(fx, actions, i, context))
      {
        var action := actions[i];
        if Nullish(action) {
          // reading `action.repeat` throws before any try block is entered
          return Raised(ReadError(action, "repeat"));
        }
        var count := RepeatCount(action);
        var k := 0;
        while k < count
          invariant 0 <= k <= count
          invariant Run(fx, actions, start) == Finish(Then(fx, actions, i, Repeat(fx, action, count - k, context)))
        {
          if !Detached(action) {
            var completion := Perform(action);
            match completion
            case Abrupt(e) =>
              return Done(ErrorRecord(e));
            case ThrewNullish(isNull) =>
              // reading `err.message` in the catch block throws in turn
              return Raised(ReadError(NullishValue(isNull), "message"));
            case Normal(v) =>
              if IsReturn(action) {
                return Done(v);
              }
          }
          k := k + 1;
        }
        i := i + 1;
      }
      return Done(Arr([]));
    }

    /** The body of one repetition of a non-nullish action, by kind. */
    method Perform(action: Value) returns (completion: Completion)
      requires !Nullish(action)
      modifies this
      decreases action, 0
      ensures StepResult(completion, context) == Step(fx, action, old(context))
    {
      var kind := Kind(action);
      if kind == Str("set") {
        var key := Get(action, "key");
        var value := Get(action, "value");
        context := context[ToJsString(key) := value];
        completion := Normal(Obj(map["status" := Str("set"), "key" := key, "value" := value]));
      } else if kind == Str("code") {
        var r := fx.script(Get(action, "source"), context);
        context := r.context;
        completion := r.completion;
      } else if kind == Str("http") {
        completion := DispatchHttpRequest(action);
      } else if kind == Str("wait") {
        completion := Normal(WaitedRecord(action));
      } else if kind == Str("log") {
        completion := Normal(LoggedRecord(action));
      } else if kind == Str("return") {
        completion := Normal(ResolveReturn(Get(action, "data"), context));
      } else if kind == Str("multi") {
        if action.Obj? && "actions" in action.fields && action.fields["actions"].Arr? {
          var outcome := ProcessActions(action.fields["actions"].items);
          match outcome
          case Done(v) => completion := Normal(v);
          case Raised(e) => completion := Abrupt(e);
        } else if action.Obj? && "actions" in action.fields && action.fields["actions"].Str? {
          completion := Normal(Arr([]));
        } else {
          completion := Abrupt(NotIterable);
        }
      } else {
        completion := Normal(UnknownRecord(kind));
      }
    }

    /** `dispatchHttpRequest(action, context)`: send the request and, when
        `saveToContext` is set and the response body is truthy, store it. */
    method DispatchHttpRequest(action: Value) returns (completion: Completion)
      modifies this
      ensures StepResult(completion, context) == Dispatch(fx, action, old(context))
    {
      var request := OutboundRequest(fx.encode, action);
      var response := fx.transport(request);
      match response
      case TransportFailed(e) =>
        completion := Abrupt(e);
      case Responded(_, body) =>
        var key := Get(action, "saveToContext");
        if Truthy(key) && Truthy(body) {
          context := context[ToJsString(key) := body];
        }
        completion := Normal(body);
    }
  }

  /** An HTTP reply of the inbound endpoint. */
  datatype Reply = Reply(status: int, body: Value)

  const MissingHeaderMessage: string := "Missing X-Simulation-Payload header"
  const InvalidPayloadMessage: string := "Invalid simulation payload"

  /** The inbound middleware: a missing or empty payload header is a 400; a
      payload that does not decode is a 400; otherwise the decoded value, as
      a list, runs on a fresh context and its result is the 200 body. An
      exception escaping `processActions` is reported like a bad payload. */
  method HandleRequest(fx: Effects, header: Option<string>) returns (reply: Reply)
    ensures header == None || header == Some("") ==>
              reply == Reply(400, ErrorRecord(Str(MissingHeaderMessage)))
    ensures header.Some? && header.value != "" && fx.decode(header.value).None? ==>
              reply == Reply(400, ErrorRecord(Str(InvalidPayloadMessage)))
    ensures header.Some? && header.value != "" && fx.decode(header.value).Some? ==>
              var outcome := Run(fx, AsActionList(fx.decode(header.value).value), map[]).0;
              reply == (if outcome.Done? then Reply(200, outcome.value) else Reply(400, ErrorRecord(Str(InvalidPayloadMessage))))
  {
    if header == None || header == Some("") {
      return Reply(400, ErrorRecord(Str(MissingHeaderMessage)));
    }
    var decoded := fx.decode(header.value);
    if decoded.None? {
      return Reply(400, ErrorRecord(Str(InvalidPayloadMessage)));
    }
    var actions := if decoded.value.Arr? then decoded.value.items else [decoded.value];
    var invocation := new Invocation(fx);
    var outcome := invocation.ProcessActions(actions);
    match outcome
    case Done(v) => reply := Reply(200, v);
    case Raised(_) => reply := Reply(400, ErrorRecord(Str(InvalidPayloadMessage)));
  }
}
