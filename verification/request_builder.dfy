/** The step builders of lib/request-builder.js: pure constructors that tag
    an object literal with its action kind, fill in defaults and keep the
    caller's extra fields (`...rest`). The argument object of each builder is
    a map from field names to values; a field that is absent reads as
    `undefined`. */
module RequestBuilder {
  import opened Wrappers
  import opened Json

  /** `args.key` on a builder's argument object. */
  function Field(args: Object, key: string): (v: Value) {
    if key in args then args[key] else Undefined
  }

  /** `{ type: kind, n1, n2, ...rest }` for a destructuring `{ n1, n2, ...rest }`:
      the named fields are always present (possibly `undefined`), and the rest,
      spread last, may replace `type`. */
  function Tagged(kind: string, names: set<string>, args: Object): (r: Object) {
    map["type" := Str(kind)] + (map k | k in names :: Field(args, k)) + (args - names)
  }

  /** The properties every tagging builder promises. */
  ghost predicate TaggedWith(r: Value, kind: string, names: set<string>, args: Object) {
    && r.Obj?
    && r.fields.Keys == args.Keys + names + {"type"}
    && r.fields["type"] == (if "type" in args then args["type"] else Str(kind))
    && (forall k :: k in names ==> r.fields[k] == Field(args, k))
    && (forall k :: k in args ==> r.fields[k] == args[k])
  }

  /** `log({ message, ...rest })` */
  function Log(args: Object): (r: Value)
    ensures TaggedWith(r, "log", {"message"}, args)
  {
    Obj(Tagged("log", {"message"}, args))
  }

  /** `wait({ duration, ...rest })` */
  function Wait(args: Object): (r: Value)
    ensures TaggedWith(r, "wait", {"duration"}, args)
  {
    Obj(Tagged("wait", {"duration"}, args))
  }

  /** `setContext({ key, value, ...rest })` */
  function SetContext(args: Object): (r: Value)
    ensures TaggedWith(r, "set", {"key", "value"}, args)
  {
    Obj(Tagged("set", {"key", "value"}, args))
  }

  /** The first argument of `code()`: a function (only its text matters) or a value. */
  datatype CodeSource = FunctionText(text: string) | Given(v: Value)

  const InvalidCodeMessage: string := "Invalid argument for code()"

  /** An object argument that carries its own `source`. */
  predicate HasSource(v: Value) {
    v.Obj? && "source" in v.fields
  }

  /** `code(source, opts = {})`: a function becomes `"(" + text + ")();"`, a
      string is the source itself, an object with `source` gives that source
      and merges its other fields over `opts`; anything else throws. */
  function Code(source: CodeSource, opts: Object): (r: Result<Value, string>)
    ensures r.Failure? <==> source.Given? && !source.v.Str? && !HasSource(source.v)
    ensures r.Failure? ==> r.error == InvalidCodeMessage
    ensures r.Success? ==> r.value.Obj? && "source" in r.value.fields
    ensures source.FunctionText? && "source" !in opts ==>
              r.value.fields["source"] == Str("(" + source.text + ")();")
    ensures source.Given? && source.v.Str? && "source" !in opts ==> r.value.fields["source"] == source.v
    ensures r.Success? && !(source.Given? && HasSource(source.v)) ==>
              && r.value.fields.Keys == opts.Keys + {"type", "source"}
              && r.value.fields["type"] == (if "type" in opts then opts["type"] else Str("code"))
              && forall k :: k in opts ==> r.value.fields[k] == opts[k]
    ensures source.Given? && HasSource(source.v) ==>
              var merged := (opts + source.v.fields) - {"source"};
              && r.value.fields.Keys == merged.Keys + {"type", "source"}
              && r.value.fields["source"] == source.v.fields["source"]
              && r.value.fields["type"] == (if "type" in merged then merged["type"] else Str("code"))
              && (forall k :: k in source.v.fields && k != "source" ==> r.value.fields[k] == source.v.fields[k])
              && (forall k :: k in opts && k !in source.v.fields ==> r.value.fields[k] == opts[k])
  {
    match source
    case FunctionText(text) => Success(Obj(map["type" := Str("code"), "source" := Str("(" + text + ")();")] + opts))
    case Given(v) =>
      if v.Str? then Success(Obj(map["type" := Str("code"), "source" := v] + opts))
      else if HasSource(v) then
        var merged := (opts + v.fields) - {"source"};
        Success(Obj(map["type" := Str("code"), "source" := v.fields["source"]] + merged))
      else Failure(InvalidCodeMessage)
  }

  /** `returnData(data, opts = {})`; `opts` is `None` when the call passed a
      single argument (`arguments.length === 1`). A lone non-object (or
      `null`, or an array) is the data; an object with a `data` key is spread
      as the action; otherwise the data is wrapped and `opts` spread after it. */
  function ReturnData(data: Value, opts: Option<Object>): (r: Value)
    ensures r.Obj?
    ensures opts.None? && !data.Obj? ==> r.fields == map["type" := Str("return"), "data" := data]
    ensures data.Obj? && "data" in data.fields ==>
              && r.fields.Keys == data.fields.Keys + {"type"}
              && r.fields["type"] == (if "type" in data.fields then data.fields["type"] else Str("return"))
              && forall k :: k in data.fields ==> r.fields[k] == data.fields[k]
    ensures opts.Some? && !(data.Obj? && "data" in data.fields) ==>
              && r.fields.Keys == opts.value.Keys + {"type", "data"}
              && r.fields["data"] == (if "data" in opts.value then opts.value["data"] else data)
              && r.fields["type"] == (if "type" in opts.value then opts.value["type"] else Str("return"))
              && forall k :: k in opts.value ==> r.fields[k] == opts.value[k]
    ensures opts.None? && data.Obj? && "data" !in data.fields ==>
              r.fields == map["type" := Str("return"), "data" := data]
  {
    if opts.None? && !data.Obj? then
      Obj(map["type" := Str("return"), "data" := data])
    else if data.Obj? && "data" in data.fields then
      Obj(map["type" := Str("return")] + data.fields)
    else
      Obj(map["type" := Str("return"), "data" := data] + (if opts.Some? then opts.value else map[]))
  }

  /** `multi({ actions = [], repeat = 1, wait = true })`: exactly these four
      fields; extra argument fields are dropped. */
  function Multi(args: Object): (r: Value)
    ensures r.Obj? && r.fields.Keys == {"type", "actions", "repeat", "wait"}
    ensures r.fields["type"] == Str("multi")
    ensures r.fields["actions"] == (if Field(args, "actions").Undefined? then Arr([]) else args["actions"])
    ensures r.fields["repeat"] == (if Field(args, "repeat").Undefined? then Num(1) else args["repeat"])
    ensures r.fields["wait"] == (if Field(args, "wait").Undefined? then Bool(true) else args["wait"])
  {
    Obj(map[
      "type" := Str("multi"),
      "actions" := OrDefault(Field(args, "actions"), Arr([])),
      "repeat" := OrDefault(Field(args, "repeat"), Num(1)),
      "wait" := OrDefault(Field(args, "wait"), Bool(true))])
  }

  const NoTargetMessage: string :=
    "Either an origin (protocol + host + port) or a valid microservice object must be provided"

  /** The fields `httpRequest` destructures by name; everything else is `rest`. */
  const HttpNamed: set<string> :=
    {"name", "description", "origin", "microservice", "path", "startDelaySeconds", "saveToContext", "repeat", "wait"}

  /** `{ ...base, ...rest, actions }`: later fields replace earlier ones. */
  function Overlay(base: Object, rest: Object, actions: Value): (r: Object)
    ensures r.Keys == base.Keys + rest.Keys + {"actions"}
    ensures r["actions"] == actions
    ensures forall k :: k in rest && k != "actions" ==> r[k] == rest[k]
    ensures forall k :: k in base && k !in rest && k != "actions" ==> r[k] == base[k]
  {
    (base + rest)["actions" := actions]
  }

  /** `microservice?.PORT` */
  function PortOf(args: Object): (port: Value) {
    Get(Field(args, "microservice"), "PORT")
  }

  /** `httpRequest({...})`: the target is `http://localhost:<PORT>` when a
      microservice with a truthy `PORT` is given, else the given `origin`, else
      the builder throws. */
  function HttpRequest(args: Object): (r: Result<Value, string>)
    ensures r.Failure? <==> !Truthy(PortOf(args)) && !Truthy(Field(args, "origin"))
    ensures r.Failure? ==> r.error == NoTargetMessage
    ensures r.Success? ==> r.value.Obj? && "origin" in r.value.fields && "_microservice" in r.value.fields
    ensures Truthy(PortOf(args)) ==> r.value.fields["origin"] == Str("http://localhost:" + ToJsString(PortOf(args)))
    ensures Truthy(PortOf(args)) && "_microservice" !in args ==> r.value.fields["_microservice"] == Field(args, "microservice")
    ensures !Truthy(PortOf(args)) && Truthy(Field(args, "origin")) ==> r.value.fields["origin"] == args["origin"]
    ensures !Truthy(PortOf(args)) && Truthy(Field(args, "origin")) && "_microservice" !in args ==>
              r.value.fields["_microservice"] == Undefined
  {
    var port := PortOf(args);
    var origin := Field(args, "origin");
    if !Truthy(port) && !Truthy(origin) then Failure(NoTargetMessage)
    else Success(Obj(HttpFields(args, if Truthy(port) then Str("http://localhost:" + ToJsString(port)) else origin,
                                if Truthy(port) then Field(args, "microservice") else Undefined)))
  }

  /** The fields of the `httpRequest` literal for a resolved origin and microservice. */
  function HttpFields(args: Object, origin: Value, microservice: Value): (r: Object)
    ensures "origin" in r && r["origin"] == origin
    ensures "_microservice" in r && ("_microservice" !in args ==> r["_microservice"] == microservice)
  {
    var rest := args - HttpNamed;
    Overlay(HttpBase(args, origin, microservice), rest, OrElse(Field(rest, "actions"), Arr([])))
  }

  /** Whatever the target, a built http step has type `'http'` (unless an
      extra field replaces it), the path defaulting to `''`, the defaults
      `repeat` 1, `wait` true and `startDelaySeconds` 0, the actions
      `rest.actions || []`, and every extra field of the argument. */
  lemma HttpRequestFields(args: Object)
    requires HttpRequest(args).Success?
    ensures var f := HttpRequest(args).value.fields;
            && HttpNamed - {"microservice"} + {"type", "_microservice", "actions"} <= f.Keys
            && f["type"] == (if "type" in args then args["type"] else Str("http"))
            && f["path"] == OrElse(Field(args, "path"), Str(""))
            && f["startDelaySeconds"] == OrDefault(Field(args, "startDelaySeconds"), Num(0))
            && f["repeat"] == OrDefault(Field(args, "repeat"), Num(1))
            && f["wait"] == OrDefault(Field(args, "wait"), Bool(true))
            && f["saveToContext"] == Field(args, "saveToContext")
            && f["name"] == Field(args, "name") && f["description"] == Field(args, "description")
            && f["actions"] == OrElse(Field(args, "actions"), Arr([]))
            && forall k :: k in args && k !in HttpNamed && k != "actions" ==> k in f && f[k] == args[k]
  {
    var port := PortOf(args);
    var origin := if Truthy(port) then Str("http://localhost:" + ToJsString(port)) else Field(args, "origin");
    var microservice := if Truthy(port) then Field(args, "microservice") else Undefined;
    assert HttpRequest(args).value.fields == HttpFields(args, origin, microservice);
    HttpFieldsDefaults(args, origin, microservice);
    HttpFieldsKeepExtras(args, origin, microservice);
  }

  /** The named fields of the literal, for any resolved target. */
  lemma HttpFieldsDefaults(args: Object, origin: Value, microservice: Value)
    ensures var f := HttpFields(args, origin, microservice);
            && HttpNamed - {"microservice"} + {"type", "_microservice", "actions"} <= f.Keys
            && f["path"] == OrElse(Field(args, "path"), Str(""))
            && f["startDelaySeconds"] == OrDefault(Field(args, "startDelaySeconds"), Num(0))
            && f["repeat"] == OrDefault(Field(args, "repeat"), Num(1))
            && f["wait"] == OrDefault(Field(args, "wait"), Bool(true))
            && f["saveToContext"] == Field(args, "saveToContext")
            && f["name"] == Field(args, "name") && f["description"] == Field(args, "description")
            && f["actions"] == OrElse(Field(args, "actions"), Arr([]))
  {
    var rest := args - HttpNamed;
    var base := HttpBase(args, origin, microservice);
    assert "path" !in rest && "startDelaySeconds" !in rest && "repeat" !in rest && "wait" !in rest;
    assert "saveToContext" !in rest && "name" !in rest && "description" !in rest;
    assert Field(rest, "actions") == Field(args, "actions");
  }

  /** The type tag and the extra fields of the literal, for any resolved target. */
  lemma HttpFieldsKeepExtras(args: Object, origin: Value, microservice: Value)
    ensures var f := HttpFields(args, origin, microservice);
            && f["type"] == (if "type" in args then args["type"] else Str("http"))
            && forall k :: k in args && k !in HttpNamed && k != "actions" ==> k in f && f[k] == args[k]
  {
    var rest := args - HttpNamed;
    assert "type" in args <==> "type" in rest;
  }

  /** The named part of the `httpRequest` literal, before `...rest`. */
  function HttpBase(args: Object, origin: Value, microservice: Value): (r: Object)
    ensures r.Keys == HttpNamed - {"microservice"} + {"type", "_microservice"}
    ensures r["type"] == Str("http") && r["origin"] == origin && r["_microservice"] == microservice
    ensures r["name"] == Field(args, "name") && r["description"] == Field(args, "description")
    ensures r["path"] == OrElse(Field(args, "path"), Str(""))
    ensures r["startDelaySeconds"] == OrDefault(Field(args, "startDelaySeconds"), Num(0))
    ensures r["saveToContext"] == Field(args, "saveToContext")
    ensures r["repeat"] == OrDefault(Field(args, "repeat"), Num(1))
    ensures r["wait"] == OrDefault(Field(args, "wait"), Bool(true))
  {
    map[
      "type" := Str("http"),
      "name" := Field(args, "name"),
      "description" := Field(args, "description"),
      "origin" := origin,
      "path" := OrElse(Field(args, "path"), Str("")),
      "startDelaySeconds" := OrDefault(Field(args, "startDelaySeconds"), Num(0)),
      "saveToContext" := Field(args, "saveToContext"),
      "repeat" := OrDefault(Field(args, "repeat"), Num(1)),
      "wait" := OrDefault(Field(args, "wait"), Bool(true)),
      "_microservice" := microservice]
  }

  /** `Microservice({ SERVICE_NAME, PORT, LOG_LEVEL = "INFO", OASTLM_MODULE_DISABLED = false })`:
      exactly these four fields. */
  function Microservice(args: Object): (r: Value)
    ensures r.Obj? && r.fields.Keys == {"SERVICE_NAME", "PORT", "LOG_LEVEL", "OASTLM_MODULE_DISABLED"}
    ensures r.fields["SERVICE_NAME"] == Field(args, "SERVICE_NAME") && r.fields["PORT"] == Field(args, "PORT")
    ensures r.fields["LOG_LEVEL"] == (if Field(args, "LOG_LEVEL").Undefined? then Str("INFO") else args["LOG_LEVEL"])
    ensures r.fields["OASTLM_MODULE_DISABLED"] ==
              (if Field(args, "OASTLM_MODULE_DISABLED").Undefined? then Bool(false) else args["OASTLM_MODULE_DISABLED"])
  {
    Obj(map[
      "SERVICE_NAME" := Field(args, "SERVICE_NAME"),
      "PORT" := Field(args, "PORT"),
      "LOG_LEVEL" := OrDefault(Field(args, "LOG_LEVEL"), Str("INFO")),
      "OASTLM_MODULE_DISABLED" := OrDefault(Field(args, "OASTLM_MODULE_DISABLED"), Bool(false))])
  }
}
