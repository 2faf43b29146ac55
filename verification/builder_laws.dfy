/** The builders of lib/request-builder.js and the interpreter of
    src/index.js agree: a step a builder makes is read back by
    `processActions`, `dispatchHttpRequest` and `collectMicroservices` the way
    the builder's arguments intend. */
module BuilderLaws {
  import opened Wrappers
  import opened Json
  import opened Interpolation
  import opened Semantics
  import opened Simulator
  import RequestBuilder
  import SemanticsLaws

  /** A built `set` step writes its value under its key and nothing else. */
  lemma BuiltSetWritesKey(fx: Effects, args: Object, ctx: Context)
    requires "type" !in args
    ensures var r := Step(fx, RequestBuilder.SetContext(args), ctx);
            && r.context == ctx[ToJsString(RequestBuilder.Field(args, "key")) := RequestBuilder.Field(args, "value")]
            && r.completion.Normal?
  {
    var step := RequestBuilder.SetContext(args);
    assert Get(step, "type") == Str("set");
    assert Get(step, "key") == RequestBuilder.Field(args, "key");
    assert Get(step, "value") == RequestBuilder.Field(args, "value");
  }

  /** `returnData(v)` with a single non-object argument, placed first in a
      list, ends the list with `v` resolved against the context. */
  lemma BuiltReturnEndsList(fx: Effects, data: Value, rest: seq<Value>, ctx: Context)
    requires !data.Obj?
    ensures Run(fx, [RequestBuilder.ReturnData(data, None)] + rest, ctx) == (Done(ResolveReturn(data, ctx)), ctx)
  {
    var step := RequestBuilder.ReturnData(data, None);
    var actions := [step] + rest;
    assert Get(step, "type") == Str("return") && Get(step, "data") == data;
    assert Get(step, "repeat") == Undefined && Get(step, "wait") == Undefined;
    assert RepeatCount(step) == 1;
    SemanticsLaws.BlockingReturnEndsList(fx, actions, 0, ctx);
  }

  /** `multi({ actions })` runs its list once, in the enclosing context, and
      the enclosing list goes on with the context the inner list leaves;
      only an element of the inner list that escapes keeps it from
      completing. */
  lemma BuiltMultiRunsOnce(fx: Effects, items: seq<Value>, rest: seq<Value>, ctx: Context)
    ensures Run(fx, items, ctx).0.Done? || exists j :: 0 <= j < |items| && SemanticsLaws.Escapes(fx, items[j])
    ensures Run(fx, items, ctx).0.Done? ==>
              Steps(fx, [RequestBuilder.Multi(map["actions" := Arr(items)])] + rest, 0, ctx)
              == Steps(fx, [RequestBuilder.Multi(map["actions" := Arr(items)])] + rest, 1, Run(fx, items, ctx).1)
  {
    var step := RequestBuilder.Multi(map["actions" := Arr(items)]);
    var actions := [step] + rest;
    assert Kind(step) == Str("multi") && Get(step, "actions") == Arr(items);
    assert Get(step, "repeat") == Num(1) && Get(step, "wait") == Bool(true);
    assert RepeatCount(step) == 1;
    SemanticsLaws.MultiContinuesList(fx, actions, 0, items, ctx);
  }

  /** A step built for a microservice is sent to `http://localhost:<PORT>`
      followed by its path, and carries its nested actions (default `[]`) in
      the payload header. */
  lemma BuiltHttpTargetsMicroservice(encode: Value -> string, args: Object)
    requires Truthy(RequestBuilder.PortOf(args))
    ensures RequestBuilder.HttpRequest(args).Success?
    ensures var request := OutboundRequest(encode, RequestBuilder.HttpRequest(args).value);
            && request.url == "http://localhost:" + ToJsString(RequestBuilder.PortOf(args))
                              + ToJsString(OrElse(RequestBuilder.Field(args, "path"), Str("")))
            && request.headers[PayloadHeader] == Str(encode(OrElse(RequestBuilder.Field(args, "actions"), Arr([]))))
  {
    var step := RequestBuilder.HttpRequest(args).value;
    RequestBuilder.HttpRequestFields(args);
    assert Get(step, "origin") == Str("http://localhost:" + ToJsString(RequestBuilder.PortOf(args)));
    assert Get(step, "path") == OrElse(RequestBuilder.Field(args, "path"), Str(""));
    assert Get(step, "actions") == OrElse(RequestBuilder.Field(args, "actions"), Arr([]));
  }

  /** A step built for a microservice, with no nested actions, is collected
      as exactly that microservice record. */
  lemma BuiltHttpIsCollected(args: Object)
    requires Truthy(RequestBuilder.PortOf(args))
    requires "type" !in args && "_microservice" !in args
    requires !Truthy(RequestBuilder.Field(args, "actions"))
    ensures RequestBuilder.HttpRequest(args).Success?
    ensures Collect(RequestBuilder.HttpRequest(args).value) == Success([RequestBuilder.Field(args, "microservice")])
  {
    var step := RequestBuilder.HttpRequest(args).value;
    RequestBuilder.HttpRequestFields(args);
    assert Get(step, "type") == Str("http");
    assert Get(step, "_microservice") == RequestBuilder.Field(args, "microservice");
    assert OwnsRecord(step);
    assert step.fields["actions"] == Arr([]);
  }

  /** A record made by `Microservice` and passed to `httpRequest` sets its port. */
  lemma MicroservicePortIsUsed(service: Object, args: Object)
    requires Truthy(RequestBuilder.Field(service, "PORT"))
    ensures var built := RequestBuilder.HttpRequest(args["microservice" := RequestBuilder.Microservice(service)]);
            && built.Success?
            && built.value.fields["origin"] == Str("http://localhost:" + ToJsString(RequestBuilder.Field(service, "PORT")))
  {
    var full := args["microservice" := RequestBuilder.Microservice(service)];
    assert RequestBuilder.PortOf(full) == RequestBuilder.Field(service, "PORT");
  }
}
