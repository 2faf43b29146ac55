/** The reference semantics of `processActions` (src/index.js:48-114), of the
    per-kind action bodies (src/index.js:59-86) and of the part of
    `dispatchHttpRequest` that builds the outbound request and saves the
    response (src/index.js:147-177). The class in interpreter.dfy runs the same
    loops imperatively and is proved equal to these functions.

    The effects the interpreter cannot see are parameters: the sandboxed
    script hook, the HTTP transport and the payload encoding. */
module Semantics {
  import opened Wrappers
  import opened Json
  import opened Interpolation

  /** How an action body ends: with a value; by throwing a value whose
      `message` is read (`err.message`, `undefined` for a thrown value without
      one); or by throwing `null` (`isNull`) or `undefined`, whose `message`
      cannot be read at all. */
  datatype Completion = Normal(value: Value) | Abrupt(message: Value) | ThrewNullish(isNull: bool)

  /** A completion together with the context after it. */
  datatype StepResult = StepResult(completion: Completion, context: Context)

  /** How a `processActions` call ends: with a value (the resolved `return`,
      `{error}` or `[]`), or by an exception that escapes the call: reading
      `action.repeat` of a `null`/`undefined` element (src/index.js:52), or
      reading `err.message` of a thrown `null`/`undefined` (src/index.js:107). */
  datatype Outcome = Done(value: Value) | Raised(message: Value)

  /** Where the list loop stands after some repetitions of an action: it
      continues with the given context, or the whole call ends. */
  datatype Flow = Continue(context: Context) | Stop(outcome: Outcome, context: Context)

  datatype HttpRequest = HttpRequest(url: string, verb: Value, headers: Object)

  datatype HttpResponse = Responded(status: int, body: Value) | TransportFailed(message: Value)

  /** The external collaborators: the sandboxed script hook (`executeCode`,
      which may update the context and returns or throws anything, `null`
      included), the network
      (`axios`) and the payload codec (base64 of JSON). */
  datatype Effects = Effects(
    script: (Value, Context) -> StepResult,
    transport: HttpRequest -> HttpResponse,
    encode: Value -> string,
    decode: string -> Option<Value>)


  const PayloadHeader: string := "X-Simulation-Payload"

  /** The message of the TypeError raised by `for..of` over a value that is not iterable. */
  const NotIterable: Value := Str("actions is not iterable")

  /** The thrown `null` or `undefined`. */
  function NullishValue(isNull: bool): (v: Value)
    ensures Nullish(v)
  {
    if isNull then Null else Undefined
  }

  function ErrorRecord(message: Value): (r: Value) {
    Obj(map["error" := message])
  }

  function Kind(action: Value): (r: Value) {
    Get(action, "type")
  }

  /** `action.wait === false`: the action is launched and not awaited. */
  predicate Detached(action: Value) {
    Get(action, "wait") == Bool(false)
  }

  /** `action.type === 'return'`: the check that ends the list (src/index.js:102). */
  predicate IsReturn(action: Value) {
    Kind(action) == Str("return")
  }

  /** How many times `for (let i = 0; i < (action.repeat || 1); i++)` runs.
      A string action reads `String.prototype.repeat`, a function, which is
      truthy and compares false with every number. */
  function RepeatCount(action: Value): (n: nat)
    requires !Nullish(action)
    ensures action.Str? ==> n == 0
    ensures !action.Str? && !Truthy(Get(action, "repeat")) ==> n == 1
    ensures !action.Str? && Get(action, "repeat").Num? && Get(action, "repeat").n > 0 ==> n == Get(action, "repeat").n
    ensures !action.Str? && Get(action, "repeat").Num? && Get(action, "repeat").n < 0 ==> n == 0
  {
    if action.Str? then 0
    else
      var r := OrElse(Get(action, "repeat"), Num(1));
      if r.Num? then (if r.n > 0 then r.n else 0)
      else if r == Bool(true) then 1
      else 0
  }

  /** The `set` body: write `context[key]`, acknowledge with the key and value. */
  function SetStep(action: Value, ctx: Context): (r: StepResult)
    ensures r.completion == Normal(Obj(map["status" := Str("set"), "key" := Get(action, "key"), "value" := Get(action, "value")]))
    ensures r.context.Keys == ctx.Keys + {ToJsString(Get(action, "key"))}
    ensures r.context[ToJsString(Get(action, "key"))] == Get(action, "value")
    ensures forall k :: k in ctx && k != ToJsString(Get(action, "key")) ==> r.context[k] == ctx[k]
  {
    var key := Get(action, "key");
    var value := Get(action, "value");
    StepResult(Normal(Obj(map["status" := Str("set"), "key" := key, "value" := value])), ctx[ToJsString(key) := value])
  }

  /** The `wait` acknowledgement; the timer itself is not modelled. */
  function WaitedRecord(action: Value): (r: Value) {
    Obj(map["status" := Str("waited"), "duration" := OrElse(Get(action, "duration"), Num(1000))])
  }

  /** The `log` acknowledgement; the logger output is not modelled. */
  function LoggedRecord(action: Value): (r: Value) {
    Obj(map["status" := Str("logged"), "message" := OrElse(Get(action, "message"), Str("No message provided"))])
  }

  /** The soft diagnostic for an action kind the switch does not know. */
  function UnknownRecord(kind: Value): (r: Value) {
    ErrorRecord(Str("Unknown action type: " + ToJsString(kind)))
  }

  /** `{ ...headers }` for the `headers` field of an http action (default `{}`). */
  function SpreadHeaders(headers: Value): (r: Object) {
    if headers.Obj? then headers.fields else map[]
  }

  /** The outbound headers: the caller's headers, then the continuation
      payload, which replaces a caller header of the same name. */
  function OutboundHeaders(encode: Value -> string, headers: Value, actions: Value): (r: Object)
    ensures PayloadHeader in r && r[PayloadHeader] == Str(encode(actions))
    ensures forall k :: k != PayloadHeader ==> (k in r <==> k in SpreadHeaders(headers))
    ensures forall k :: k in r && k != PayloadHeader ==> r[k] == SpreadHeaders(headers)[k]
  {
    SpreadHeaders(headers)[PayloadHeader := Str(encode(actions))]
  }

  /** The request `dispatchHttpRequest` sends for an http action: URL
      `${origin}${path}`, method defaulting to GET, and the nested action list
      (default `[]`) encoded into the payload header. */
  function OutboundRequest(encode: Value -> string, action: Value): (r: HttpRequest) {
    HttpRequest(
      ToJsString(Get(action, "origin")) + ToJsString(Get(action, "path")),
      OrDefault(Get(action, "method"), Str("GET")),
      OutboundHeaders(encode, Get(action, "headers"), OrDefault(Get(action, "actions"), Arr([]))))
  }

  /** `if (saveToContext) { if (result) context[saveToContext] = result; }` */
  function SaveToContext(ctx: Context, key: Value, result: Value): (r: Context)
    ensures Truthy(key) && Truthy(result) ==> ToJsString(key) in r && r[ToJsString(key)] == result
    ensures forall k :: k != ToJsString(key) ==> (k in r <==> k in ctx)
    ensures forall k :: k in ctx && k != ToJsString(key) ==> r[k] == ctx[k]
    ensures !(Truthy(key) && Truthy(result)) ==> r == ctx
  {
    if Truthy(key) && Truthy(result) then ctx[ToJsString(key) := result] else ctx
  }

  /** `dispatchHttpRequest`: every HTTP status is accepted (`validateStatus`
      always holds) and its body is the result; a transport failure is
      rethrown. Only a response is ever saved into the context. */
  function Dispatch(fx: Effects, action: Value, ctx: Context): (r: StepResult)
  {
    match fx.transport(OutboundRequest(fx.encode, action))
    case Responded(_, body) => StepResult(Normal(body), SaveToContext(ctx, Get(action, "saveToContext"), body))
    case TransportFailed(message) => StepResult(Abrupt(message), ctx)
  }

  /** One run of an action body, by kind (the `processAction` closure). */
  function Step(fx: Effects, action: Value, ctx: Context): (r: StepResult)
    requires !Nullish(action)
    decreases action, 0, 0
  {
    var kind := Kind(action);
    if kind == Str("set") then SetStep(action, ctx)
    else if kind == Str("code") then fx.script(Get(action, "source"), ctx)
    else if kind == Str("http") then Dispatch(fx, action, ctx)
    else if kind == Str("wait") then StepResult(Normal(WaitedRecord(action)), ctx)
    else if kind == Str("log") then StepResult(Normal(LoggedRecord(action)), ctx)
    else if kind == Str("return") then StepResult(Normal(ResolveReturn(Get(action, "data"), ctx)), ctx)
    else if kind == Str("multi") then
      match action
      case Obj(m) =>
        if "actions" in m && m["actions"].Arr? then
          var (outcome, after) := Run(fx, m["actions"].items, ctx);
          match outcome
          case Done(v) => StepResult(Normal(v), after)
          case Raised(e) => StepResult(Abrupt(e), after)
        else if "actions" in m && m["actions"].Str? then
          // each character becomes a string action, which runs zero times
          StepResult(Normal(Arr([])), ctx)
        else StepResult(Abrupt(NotIterable), ctx)
      case _ => StepResult(Abrupt(NotIterable), ctx)
    else StepResult(Normal(UnknownRecord(kind)), ctx)
  }

  /** The remaining `n` repetitions of one action (the inner `for` loop). */
  function Repeat(fx: Effects, action: Value, n: nat, ctx: Context): (f: Flow)
    requires !Nullish(action)
    decreases action, 1, n
  {
    if n == 0 then Continue(ctx)
    else if Detached(action) then Repeat(fx, action, n - 1, ctx)
    else
      var r := Step(fx, action, ctx);
      match r.completion
      case Abrupt(e) => Stop(Done(ErrorRecord(e)), r.context)
      case ThrewNullish(isNull) => Stop(Raised(ReadError(NullishValue(isNull), "message")), r.context)
      case Normal(v) => if IsReturn(action) then Stop(Done(v), r.context) else Repeat(fx, action, n - 1, r.context)
  }

  /** The actions from index `i` on (the outer `for` loop). */
  function Steps(fx: Effects, actions: seq<Value>, i: nat, ctx: Context): (f: Flow)
    requires i <= |actions|
    decreases Arr(actions), 2, |actions| - i
  {
    if i == |actions| then Continue(ctx)
    else if Nullish(actions[i]) then Stop(Raised(ReadError(actions[i], "repeat")), ctx)
    else
      match Repeat(fx, actions[i], RepeatCount(actions[i]), ctx)
      case Stop(o, c) => Stop(o, c)
      case Continue(c) => Steps(fx, actions, i + 1, c)
  }

  /** `processActions(actions, context)`: the outcome and the final context;
      a list that runs out yields `[]`. */
  function Run(fx: Effects, actions: seq<Value>, ctx: Context): (r: (Outcome, Context))
    decreases Arr(actions), 3, 0
  {
    Finish(Steps(fx, actions, 0, ctx))
  }

  function Finish(f: Flow): (r: (Outcome, Context)) {
    match f
    case Continue(c) => (Done(Arr([])), c)
    case Stop(o, c) => (o, c)
  }

  /** What the list loop does after the repetitions of `actions[i]` end in `f`. */
  function Then(fx: Effects, actions: seq<Value>, i: nat, f: Flow): (g: Flow)
    requires i < |actions|
  {
    match f
    case Stop(o, c) => f
    case Continue(c) => Steps(fx, actions, i + 1, c)
  }

  /** The inbound middleware's wrapping: a decoded array is the list, any
      other decoded value is a one-element list. */
  function AsActionList(decoded: Value): (r: seq<Value>)
  {
    if decoded.Arr? then decoded.items else [decoded]
  }
}
