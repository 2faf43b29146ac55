# Microservice simulator: action interpreter, step builders, microservice collection

This project models the core of a microservice simulator in Dafny. Each simulated service takes a list of
tagged actions from the `X-Simulation-Payload` header of an inbound request and runs them in order against one
shared context map. The action kinds are:

- `set` writes a key;
- `code` runs a script;
- `http` calls another service and forwards a nested action list in the same header;
- `wait` and `log` only acknowledge;
- `return` ends the list with a value, after its `${key}` placeholders are filled in from the context;
- `multi` runs a nested list.

A client-side library builds these steps. A simulator collects the microservices the steps address, so that
it can start them.

The model has these modules:

- `Json` (json.dfy) is the JSON-like value tree, `undefined` included. It also holds JavaScript truthiness,
  `||` versus destructuring defaults, and `String(v)`.
- `Interpolation` (interpolation.dfy) holds `interpolate` and `resolveReturn` as pure functions and their laws.
- `Semantics` (semantics.dfy) is the reference semantics of `processActions` as mutually recursive functions:
  - `Step` is one action body;
  - `Repeat` is the `repeat` loop;
  - `Steps` is the list loop;
  - `Run` is the whole call.

  It also holds the header building and `saveToContext` part of `dispatchHttpRequest`. The sandboxed script,
  the HTTP transport and the payload codec are parameters, collected in `Effects`.
- `Interpreter` (interpreter.dfy) holds the class `Invocation`. Its `context` field is updated in place by
  the nested loops of `ProcessActions`, and each method is proved equal to the reference semantics. It also
  holds the inbound middleware, `HandleRequest`.
- `SemanticsLaws` (semantics_laws.dfy) states what the interpreter promises: repetition counts, early
  termination, error capture, the inertness of detached and acknowledging actions, and context sharing by
  `multi`.
- `RequestBuilder` (request_builder.dfy) holds the step builders, with their defaults, spreads and
  validation.
- `BuilderLaws` (builder_laws.dfy) shows that a step a builder makes is read back by the interpreter, the
  dispatcher and the collector as its arguments intend.
- `Simulator` and `SimulatorLaws` (simulator.dfy) hold `collectMicroservices` as a method that recurses and
  loops, with the `runSimulation` top-level filter around it. The laws are exact membership, no duplicates,
  and failure exactly when a node is `null` or `undefined`.

Where the code and the intent in its comments differ, the model follows the code:

- `processActions` leaves its list only when the action's own type is `'return'` (src/index.js:102). A
  `return` inside a `multi` therefore ends only the inner call. Its value becomes the `multi`'s result, which
  is discarded, and the enclosing list goes on (`SemanticsLaws.MultiContinuesList`). The comment "Immediately
  return the resolved value" does not make a nested return leave the outer list.
- A detached (`wait: false`) `return` returns from a promise callback only (src/index.js:92-94), so it never
  ends the list (`SemanticsLaws.DetachedActionIsSkipped`).
- `resolveReturn` is not idempotent. A context value may itself contain a placeholder, and resolving again
  fills that in (`Interpolation.ResolveIsNotIdempotent`).
- Only an element of the list itself makes an exception leave `processActions`
  (`SemanticsLaws.RunRaisesOnlyOnNullish`), in one of two ways:
  - a `null` or `undefined` element, because `action.repeat` (src/index.js:52) is read outside
    the `try`;
  - a blocking `code` element whose script throws `null` or `undefined`, because the `catch` block then reads `err.message`
    (src/index.js:107) and throws in turn (`SemanticsLaws.NullishThrowEscapes`).

  At the top level the middleware answers 400 "Invalid simulation payload". Inside a `multi`, the exception
  reaches the `try` of the list that holds the `multi` (src/index.js:105-108). That list turns it into an
  `{error}` value and ends, unlike after a nested `return` (`SemanticsLaws.RaisingMultiEndsList`,
  `SemanticsLaws.NullInsideMultiEndsList`). A `multi` whose `actions` is neither an array nor a string also
  ends the list that holds it (`SemanticsLaws.NonIterableMultiEndsList`). So an error inside a `multi` does
  abort the outer list when it escapes the inner one.

## Model

| member | source | states |
|---|---|---|
| Interpolation.FindClose | src/index.js:131 | the index found is the first `}` at or after the start; none is found only when no `}` follows |
| Interpolation.InterpolateCopiesHead | src/index.js:131 | a character that does not start a `${` is copied and the scan goes on after it |
| Interpolation.InterpolateReplacesHead | src/index.js:131 | a leading placeholder `${key}` is replaced by the context text for `key` and the scan resumes after its `}` |
| Interpolation.InterpolateChangesOnlyPlaceholders | src/index.js:130-132 | interpolation changes a string only if it holds a placeholder |
| Interpolation.InterpolateWithoutPlaceholder | src/index.js:130-132 | a string with no `${k}` (k non-empty, without `}`) is returned unchanged |
| Interpolation.PlaceholderAtHead | src/index.js:131 | `${key}` followed by any text becomes `context[key] ?? ''` followed by that text interpolated |
| Interpolation.InterpolateCopiesPrefix | src/index.js:131 | text without a `${` is copied verbatim before the interpolation of what follows |
| Interpolation.InterpolateFirstPlaceholder | src/index.js:130-132 | `p + "${key}" + t`, where `p` holds no `${`, becomes `p + (context[key] ?? '') + interpolate(t)` |
| Interpolation.MissingKeyResolvesToEmpty | src/index.js:131 | a placeholder whose key is absent or holds `null`/`undefined` becomes the empty string |
| Interpolation.ResolvePreservesShape | src/index.js:116-128 | `resolveReturn` keeps the shape: same array length, same object keys, strings stay strings, other scalars are returned unchanged |
| Interpolation.ResolveWithoutPlaceholder | src/index.js:116-132 | a value tree with no placeholder in any string is returned unchanged |
| Interpolation.ResolveIsNotIdempotent | src/index.js:116-132 | a concrete context for which resolving twice differs from resolving once |
| Semantics.RepeatCount | src/index.js:52-53 | the body runs `repeat \|\| 1` times: an absent, 0 or false repeat means once, a positive n means n times, a negative one means never, and a string action never runs |
| Semantics.SetStep | src/index.js:60-62 | `set` writes `context[String(key)] = value`, leaves every other key as it was, and returns `{status:'set', key, value}` |
| Semantics.OutboundHeaders | src/index.js:147-152 | the outbound headers are the caller's headers plus `X-Simulation-Payload` = encode(actions), which replaces a caller header of that name |
| Semantics.SaveToContext | src/index.js:164-170 | when both `saveToContext` and the result are truthy, the result is stored under `String(saveToContext)`; every other key keeps its presence and value; otherwise the context is unchanged |
| Interpreter.Invocation.constructor | src/index.js:49 | a fresh invocation starts from the empty context `{}` |
| Interpreter.Invocation.ProcessActions | src/index.js:48-114 | the nested loops return the outcome of the reference semantics `Run` and leave the context `Run` computes |
| Interpreter.Invocation.Perform | src/index.js:54-87 | one run of an action body, by kind, gives the completion and context of the reference semantics `Step` |
| Interpreter.Invocation.DispatchHttpRequest | src/index.js:147-177 | the http body updates the context exactly as `Dispatch` states |
| Interpreter.HandleRequest | src/index.js:15-37 | a missing or empty header is a 400 "Missing X-Simulation-Payload header"; an undecodable payload, or an exception escaping the run, is a 400 "Invalid simulation payload"; otherwise the decoded value, as the action list if it is an array and as a one-element list if not, runs on `{}` and its result is the 200 body |
| SemanticsLaws.RepeatSequencing | src/index.js:53-109 | `m + n` repetitions are `m` repetitions followed, unless they ended the list, by `n` more on the context they left |
| SemanticsLaws.RepeatRunsBodyNTimes | src/index.js:53-109 | an action whose body always completes normally runs its body exactly n times in order, each run on the previous run's context |
| SemanticsLaws.DetachedActionIsSkipped | src/index.js:89-98 | a `wait:false` action, even a `return`, never ends the list and leaves the context unchanged |
| SemanticsLaws.BlockingReturnEndsList | src/index.js:100-104 | the first blocking `return` ends the call with `resolveReturn(data, context)`; no later action and no later repetition runs |
| SemanticsLaws.BlockingThrowEndsList | src/index.js:105-108 | a blocking action that throws ends the call with `{error: message}`; nothing is rethrown and no later action runs |
| SemanticsLaws.StepsSequencing | src/index.js:51-113 | the list loop over `a + b` is the loop over `a` followed, unless it stopped, by the loop over `b` on the context it left |
| SemanticsLaws.StoppedPrefixIgnoresRest | src/index.js:100-108 | once a prefix of the list ends the call, appended actions change neither the result nor the context |
| SemanticsLaws.StepsContinue | src/index.js:51-111 | a list of actions none of which can stop the loop runs to its end |
| SemanticsLaws.ListWithoutStopsYieldsEmpty | src/index.js:113 | a list in which no blocking `return` is reached and nothing throws yields `[]` |
| SemanticsLaws.StepsRaiseOnlyOnNullish | src/index.js:51-111 | the list loop raises only if some remaining element of that list is `null` or `undefined`, or is a blocking `code` action whose own script throws `null` or `undefined` |
| SemanticsLaws.RepeatRaisesOnlyOnNullishThrow | src/index.js:99-108 | the repetitions of one action raise only when that action is a blocking `code` action whose own script throws `null` or `undefined`; every other error of a blocking body, an exception escaping a `multi`'s inner list included, becomes an `{error}` value |
| SemanticsLaws.RunRaisesOnlyOnNullish | src/index.js:48-114 | an exception escapes `processActions` only from a top-level element of the list: a `null` or `undefined` element, or a blocking `code` element whose own script throws `null` or `undefined` |
| SemanticsLaws.MultiSharesContext | src/index.js:80-82 | `multi` runs its list on the same context object and leaves the context that run leaves; the inner run completes unless one of its own elements is `null`/`undefined` or a blocking `code` action whose script throws `null`/`undefined`, and then the `multi` completes normally with its value |
| SemanticsLaws.MultiContinuesList | src/index.js:80-82 | a blocking `multi` run once whose inner list completes never ends the enclosing list, even when its inner list hits a `return`; the list goes on with the inner run's context; only an inner element that is `null`/`undefined`, or a blocking `code` element whose script throws `null`/`undefined`, keeps the inner list from completing |
| SemanticsLaws.MultiNeverStops | src/index.js:80-82 | any number of repetitions of a `multi` never end the enclosing list unless its inner list holds a `null`/`undefined` element or a blocking `code` element whose script throws `null`/`undefined` |
| SemanticsLaws.NullishThrowEscapes | src/index.js:105-108 | a blocking `code` action whose script throws `null`/`undefined` makes the list raise the TypeError of reading `message` of it |
| SemanticsLaws.RaisingMultiEndsList | src/index.js:80-108 | an exception escaping the inner list of a blocking `multi` ends the enclosing list with `{error: message}` and the inner run's context |
| SemanticsLaws.NonIterableMultiEndsList | src/index.js:80-108 | a blocking `multi` whose `actions` is neither an array nor a string ends the enclosing list with `{error: "actions is not iterable"}` |
| SemanticsLaws.NullInsideMultiEndsList | src/index.js:48-114 | `[multi([null]), return("after")]` yields `{error: "Cannot read properties of null (reading 'repeat')"}`; the `return` never runs |
| SemanticsLaws.FailedRequestEndsList | src/index.js:173-176 | a blocking http action whose request fails ends the list with `{error: message}` and the context unchanged |
| SemanticsLaws.RespondedRequestContinues | src/index.js:154-172 | a blocking http action run once that gets a response of any status lets the list go on with only its `saveToContext` key written, and only if the body is truthy |
| SemanticsLaws.StepIgnoresStatus | src/index.js:159 | changing only the HTTP statuses the transport answers with changes neither the result nor the context of an action body |
| SemanticsLaws.RepeatIgnoresStatus | src/index.js:159 | the same for the repetitions of one action |
| SemanticsLaws.StepsIgnoreStatus | src/index.js:159 | the same for the list loop |
| SemanticsLaws.RunIgnoresStatus | src/index.js:159 | the same for a whole `processActions` call: the status never changes the outcome |
| SemanticsLaws.AcknowledgingActionsAreInert | src/index.js:67-85 | `log`, `wait` and unknown kinds never end the list and never change the context |
| SemanticsLaws.UnknownKindIsSoftError | src/index.js:83-85 | an unknown type yields `{error: "Unknown action type: <type>"}` and leaves the context unchanged |
| SemanticsLaws.RepeatedSetWritesOneKey | src/index.js:60-62 | however often a blocking `set` repeats, the context afterwards is the old one with exactly that key written |
| RequestBuilder.Log | lib/request-builder.js:3-5 | the result is tagged `'log'`, always has `message` (possibly undefined) and keeps every extra field; an extra `type` replaces the tag |
| RequestBuilder.Wait | lib/request-builder.js:7-9 | the result is tagged `'wait'`, always has `duration` and keeps every extra field |
| RequestBuilder.SetContext | lib/request-builder.js:39-41 | the result is tagged `'set'`, always has `key` and `value` and keeps every extra field |
| RequestBuilder.Code | lib/request-builder.js:11-26 | a function gives source `"(" + text + ")();"`, a string gives itself, an object with `source` gives that source with its other fields merged over the options; any other argument throws "Invalid argument for code()" (iff) |
| RequestBuilder.ReturnData | lib/request-builder.js:28-37 | a lone non-object argument gives `{type:'return', data}`; an object with a `data` key is spread; otherwise `{type:'return', data, ...opts}`, where every `opts` field keeps its value and may replace `data` or `type` |
| RequestBuilder.Multi | lib/request-builder.js:43-45 | exactly the keys `type`, `actions`, `repeat`, `wait`, defaulting to `[]`, 1 and true |
| RequestBuilder.HttpRequest | lib/request-builder.js:59-69 | the target is `http://localhost:<PORT>` when the microservice has a truthy PORT (which also sets `_microservice`), else the given origin; the builder throws exactly when neither is present |
| RequestBuilder.HttpRequestFields | lib/request-builder.js:47-84 | a built http step has type `'http'`, path defaulting to `''`, `repeat` 1, `wait` true, `startDelaySeconds` 0, `actions` = `rest.actions \|\| []`, and every extra field |
| RequestBuilder.HttpFieldsDefaults | lib/request-builder.js:70-83 | for any resolved target, the literal holds the named fields with their defaults (path `''`, `startDelaySeconds` 0, `repeat` 1, `wait` true) and `actions` = `rest.actions \|\| []` |
| RequestBuilder.HttpFieldsKeepExtras | lib/request-builder.js:70-83 | for any resolved target, the literal keeps every extra field of the argument, and an extra `type` replaces the `'http'` tag |
| RequestBuilder.Microservice | lib/request-builder.js:88-90 | exactly the four fields, with `LOG_LEVEL` defaulting to "INFO" and `OASTLM_MODULE_DISABLED` to false |
| BuilderLaws.BuiltSetWritesKey | lib/request-builder.js:39-41 | a step made by `setContext` writes its value under its key when the interpreter runs it |
| BuilderLaws.BuiltReturnEndsList | lib/request-builder.js:30-31 | a step made by `returnData(v)` at the head of a list ends the call with `v` resolved against the context |
| BuilderLaws.BuiltMultiRunsOnce | lib/request-builder.js:43-45 | a step made by `multi({actions})` runs its list once on the shared context, and the enclosing list continues, unless that inner list holds a `null`/`undefined` element or a blocking `code` element whose script throws `null`/`undefined` |
| BuilderLaws.BuiltHttpTargetsMicroservice | lib/request-builder.js:60-63 | a step built for a microservice is sent to `http://localhost:<PORT><path>` and carries its nested actions in the payload header |
| BuilderLaws.BuiltHttpIsCollected | lib/request-builder.js:60-63 | a step built for a microservice, with no nested actions, is collected as exactly that microservice |
| BuilderLaws.MicroservicePortIsUsed | lib/request-builder.js:88-90 | a record made by `Microservice` with a truthy PORT sets the origin of the http step it is passed to |
| Simulator.CollectMicroservices | lib/simulator.js:11-23 | the recursive traversal, with its loops adding to a local set, returns the collection `Collect` defines, or the TypeError for a `null`/`undefined` node |
| Simulator.StartingMicroservices | lib/simulator.js:26-32 | the top-level loop returns the collection `CollectRequests` defines over the truthy requests of type `'http'` |
| SimulatorLaws.AddAllMembers | lib/simulator.js:19 | adding a list to a set gives exactly the union of their members |
| SimulatorLaws.AddAllKeepsNoDuplicates | lib/simulator.js:19 | adding to a set never duplicates an element |
| SimulatorLaws.CollectMembers | lib/simulator.js:11-23 | a record is collected iff it is the `_microservice` of some http step in the tree (whatever the types of the steps above it) |
| SimulatorLaws.ChildrenMembers | lib/simulator.js:16-21 | the loop over `step.actions` collects exactly what its elements contribute, added to what was there |
| SimulatorLaws.CollectHasNoDuplicates | lib/simulator.js:12-21 | each record appears at most once |
| SimulatorLaws.ChildrenHaveNoDuplicates | lib/simulator.js:16-21 | the loop over `step.actions` keeps the collection free of duplicates |
| SimulatorLaws.CollectFailsOnNullish | lib/simulator.js:16 | the traversal throws iff some node of the tree is `null` or `undefined` |
| SimulatorLaws.ChildrenFailOnNullish | lib/simulator.js:17-20 | the loop over `step.actions` throws iff some remaining element holds a `null` or `undefined` node |
| SimulatorLaws.RequestsMembers | lib/simulator.js:26-32 | a record is collected iff some truthy top-level request of type `'http'` contributes it; other requests are not traversed |
| SimulatorLaws.RequestsFailOnNullish | lib/simulator.js:26-32 | the top-level collection throws iff some http request holds a `null` or `undefined` node |
| SimulatorLaws.RequestsHaveNoDuplicates | lib/simulator.js:26-32 | the top-level collection holds each record at most once |

The reference definitions that these rows speak about model the following source lines:

- `Interpolation.Interpolate` models src/index.js:130-132, and `Interpolation.ResolveReturn` models src/index.js:116-128.
- `Semantics.Step` models src/index.js:54-87, `Semantics.Repeat` models 52-53 and 88-109, `Semantics.Steps`
  models 51-111, and `Semantics.Run` models 48-114.
- `Semantics.Dispatch` models src/index.js:147-177, and `Semantics.OutboundRequest` models src/index.js:147-160.
- `Simulator.Collect` models lib/simulator.js:11-22, and `Simulator.CollectRequests` models lib/simulator.js:26-32.

## Left out

- Numbers are mathematical integers. Fractions, NaN, infinities and number formatting beyond integers are not modelled.
- Semantics.RepeatCount: a `repeat` that is not a number or boolean counts as zero runs. JavaScript would coerce a numeric string such as `"3"` to 3.
- Objects are modelled as maps, without inherited prototype properties or key order. Arrays are not keyed objects, so `for..in` over an array is modelled as element-wise mapping.
- `executeCode` (the vm2 sandbox, its 3000 ms timeout and its injected logger and axios) is an oracle, `Effects.script`. It receives the source and the context and returns a completion and a new context. A thrown value reaches the model as its `message`, which is `undefined` for a thrown value without one. A thrown `null` or `undefined` reaches it as `ThrewNullish`.
- The HTTP transport (axios) is the oracle `Effects.transport`. Base64 and JSON are the abstract pair `Effects.encode` and `Effects.decode`. The oracles are deterministic functions of their arguments.
- Header lookup is case-insensitive in Express, and an Express header may be an array. Neither is modelled: the inbound header is an optional string.
- SemanticsLaws.DetachedActionIsSkipped: a `wait:false` action is modelled as having no effect at all. In the program its body runs synchronously up to its first `await`. A detached `set`, or a detached `code` whose script is synchronous, therefore writes the context before the next action runs. For example, `[set(x = "1", wait: false), return("${x}")]` gives "1" in the program and "" here. Detached `http` and `multi` actions also make requests and write the context later.
- Semantics.SetStep: values are immutable here. `context[key] = action.value` stores the action's own object, so a script that changes that object in place (`context.x.n++`) changes what later runs of the same `set` write, for example inside a repeated `multi`. The model writes the unchanged value every time.
- `wait` timers, logger output and the `verbose` logging of an action are not modelled. `wait` only returns its acknowledgement.
- Spreading `headers` that are not an object is modelled as adding no headers. JavaScript would copy a string's characters as indexed keys.
- Simulator.CollectMicroservices: the JavaScript `Set` compares records by identity; the model compares them as values. Two distinct but equal microservice objects count as one here and as two in the program.
- `runSimulation`'s process spawning, start delays, request dispatching and console output are not modelled. Only the collection loop at its start is.
- The Express server wiring, telemetry and transaction middleware, the health and greet endpoints, and `app.listen` are not modelled.
- The `logger` and `context` exports of lib/request-builder.js are not modelled. The function passed to `code()` is represented by its text only.
