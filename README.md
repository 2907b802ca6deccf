# worker-magic: request/response correlation, modelled in Dafny

worker-magic lets a page call functions that live in a Web Worker as if they
were local async functions. The worker side, `expose`, answers each request
message with exactly one response carrying the same id. The caller side,
`wrap`, numbers its requests with a counter, keeps the pending jobs in an
array and settles the right job when a response arrives. When the worker
reports an error, `wrap` rejects every pending job. After a discovery round
trip (`_getFunctionality`), it builds one proxy function per exposed name,
plus `terminate`.

The project models both sides and proves how they correlate:

- `messages.dfy` (module `Messages`): the `request` and `response` shapes of
  `src/types.ts`, the two ways a promise settles (`Outcome`), and the
  encoding of the discovery answer as an array of strings.
- `expose.dfy` (module `Expose`): the exposed object as its sequence of
  properties in `Object.keys` order. The functions' behaviour is an oracle
  `Functions` that says whether a call returns a value, throws, or returns a
  promise that fulfils or rejects. Also in this file: the `_getFunctionality`
  filter, `exec`, and the `try`/`catch` of `onmessage` (`Evaluate`,
  `Dispatch`). Class `Worker` appends one response per handled request to its
  `outbox`.
- `wrap.dfy` (module `Wrap`): the caller's state as a value `Table`, whose
  parts are:
  - the counter `jobId`;
  - the active jobs, in creation order;
  - `settled`, a log of how each job's promise was resolved or rejected,
    keyed by id;
  - the posted requests.

  The same file has one step function per handler (`Create`, `Receive`,
  `Fail`), the invariant `Inv`, and lemmas about these steps. Class `Caller`
  holds the same state in fields. Its methods are proved to perform exactly
  those steps, using `findIndex` as a loop, `splice` as a sequence update and
  the reject-all `forEach` as a loop. It also builds the proxy object
  (another loop) from the discovery result.
- `protocol.dfy` (module `Protocol`): end-to-end lemmas that connect the
  worker's `Dispatch` with the caller's `Receive`.

`Inv` says four things:

- Ids are handed out as 0, 1, 2, ….
- Request `i` is the `i`-th message posted.
- Active ids are pairwise distinct.
- Every issued id is either active exactly once or settled, never both.

Every step keeps `Inv`. From it follow:

- ids are never reused;
- a second response for the same id is dropped;
- a job settles at most once.

`src/proxy-worker.ts` is an older single-file copy of `expose` (lines 31-91)
and `wrap` (lines 94-165) with the same code. One model covers both, and some
rows below cite its lines.

Two behaviours of the code worth noting:

- `_getFunctionality` lists every function-valued key. That includes a key
  named `_getFunctionality`, which the reserved branch still answers, and a
  key named `terminate`, whose proxy `wrap` then overwrites (see
  `BuildWrapper` and `IsWrapperFor`).
- `terminate` only calls `worker.terminate()`. It changes nothing in the
  caller's state.

Modelled as parameters:

- the worker's functions, as the oracle `Functions`;
- the error value passed to `onerror`;
- the order in which responses arrive, as the response sequence of `ReceiveAll`.

## Model

| member | source | states |
|---|---|---|
| Messages.OutcomeOf | src/wrap.ts:45-47 | a `'success'` response fulfils with its payload; any other response rejects with its payload |
| Messages.ToResponse | src/expose.ts:11-25 | the posted response carries the request's id |
| Messages.OutcomeRoundTrip | src/proxy-worker.ts:38-52 | the caller settles a job with exactly the outcome the worker posted (`onSuccess` fulfils, `onError` rejects), and decoding a response loses nothing |
| Messages.DecodeNames | src/wrap.ts:64-67 | the discovery payload is read as a name list exactly when it is an array of strings, and item by item |
| Messages.NamesRoundTrip | src/wrap.ts:64-67 | reading back the array the worker sends yields exactly the name list |
| Expose.Functionality | src/expose.ts:28-33 | a name is listed exactly when some own property with that key holds a function |
| Expose.FunctionalityIsOrderedFilter | src/proxy-worker.ts:55-60 | the listed names are the function-valued keys in key order: every function-valued position appears once, positions increase, and non-functions are skipped |
| Expose.FunctionalityDistinct | src/expose.ts:29-31 | with distinct object keys, no name is listed twice |
| Expose.Lookup | src/expose.ts:37 | `functions[action]` is absent exactly when no property has that key, and otherwise is the value of a property with that key |
| Expose.InvocableIsExposed | src/proxy-worker.ts:64-67 | an action names an own property holding a function exactly when it is one of the discovered names |
| Expose.Settle | src/expose.ts:40-46 | a plain return fulfils with the returned value, a throw rejects with the thrown value, and a returned promise settles exactly as that promise does |
| Expose.Exec | src/expose.ts:36-47 | an absent or non-function action rejects with a TypeError; otherwise the result settles as the called function's result does |
| Expose.Evaluate | src/expose.ts:52-62 | the handler's result fulfils exactly when the action is `_getFunctionality` (with the name list) or names a function whose call fulfils; every other request rejects |
| Expose.Dispatch | src/expose.ts:49-63 | the response has the request's id. `_getFunctionality` gives `success` with the name list. A missing or non-function action gives `error` with the TypeError. A return or a resolved promise gives `success` with the value. A throw or a rejected promise gives `error` with the thrown value |
| Expose.DiscoveryInvokesNothing | src/expose.ts:54-55 | the discovery answer does not depend on the registered functions' behaviour and is always `success` |
| Expose.Worker.constructor | src/expose.ts:4-49 | the worker starts with the given registry and functions, and nothing posted |
| Expose.Worker.OnSuccess | src/expose.ts:11-17 | appends exactly one `success` response with the request's id and the result |
| Expose.Worker.OnError | src/expose.ts:19-25 | appends exactly one `error` response with the request's id and the error |
| Expose.Worker.OnMessage | src/proxy-worker.ts:76-90 | every request appends exactly one response, which is `Dispatch` of it (the handler's `Evaluate` result posted through `onSuccess` or `onError`) and carries its id; earlier messages are untouched |
| Wrap.IndexOf | src/wrap.ts:35-37 | -1 exactly when no active job has the id; otherwise the first position holding it |
| Wrap.FindIndex | src/wrap.ts:35-37 | the linear search returns that first matching position, or -1 when there is none |
| Wrap.InvEmpty | src/proxy-worker.ts:103-104 | the empty state (counter 0, no jobs) satisfies the invariant |
| Wrap.Create | src/wrap.ts:22-30 | the counter grows by one; exactly one job is appended and exactly one request posted, the posted request being the new job's own, with the old counter as id; nothing is settled |
| Wrap.Receive | src/wrap.ts:32-49 | counter and posted requests never change. A response whose id is not active changes nothing. One whose id is active removes one job and records the response's outcome for that id |
| Wrap.Fail | src/wrap.ts:51-58 | afterwards no job is active; every formerly active id is rejected with the error; nothing is settled that was neither settled nor active before |
| Wrap.CreateFresh | src/wrap.ts:18-26 | a new job's id is the current counter. That id is neither active nor settled, even when earlier jobs are finished. The invariant is kept |
| Wrap.SpliceIsWithout | src/wrap.ts:44 | splicing out the only job with an id equals filtering that id out, leaving the other jobs in order |
| Wrap.WithoutMembers | src/proxy-worker.ts:129 | after the splice, exactly the jobs with other ids remain |
| Wrap.ReceiveMatched | src/wrap.ts:35-47 | a response for an active job removes exactly that job (the rest in order) and settles it with the payload: fulfilled on `success`, rejected on `error`; counter and outbox unchanged |
| Wrap.ReceiveUnknown | src/wrap.ts:39-42 | a response whose id is not active changes nothing |
| Wrap.SettleAtMostOnce | src/proxy-worker.ts:124-127 | a response for an already settled job changes nothing, so it keeps its first outcome |
| Wrap.ReceiveKeepsInv | src/wrap.ts:32-49 | handling any response keeps the invariant |
| Wrap.ReceiveOther | src/proxy-worker.ts:120-129 | a response for another id leaves an active job active |
| Wrap.FailRejectsAll | src/wrap.ts:51-58 | on a worker error no job stays active. Every job that was active is rejected with that error. Earlier outcomes are kept, and nothing else is settled |
| Wrap.SettledStays | src/proxy-worker.ts:120-132 | once settled, a job keeps its outcome and never becomes active again, whatever responses follow |
| Wrap.Correlation | src/wrap.ts:32-49 | in any arrival order, an active job settles with the outcome of the first response carrying its own id. While no such response has arrived, it stays active |
| Wrap.StrayResponseHarmless | src/wrap.ts:39-42 | a response with a never-issued id, inserted anywhere in a run of responses, changes nothing about the result |
| Wrap.StaleResponseHarmless | src/proxy-worker.ts:120-127 | a late response for an already settled job, inserted anywhere in a run of responses, changes nothing about the result |
| Wrap.BuildWrapper | src/wrap.ts:69-77 | the proxy object has a proxy `Call(k)` for each discovered name `k`, plus `terminate`, and no other key |
| Wrap.Caller.constructor | src/wrap.ts:18-67 | `wrap` starts with counter 0, creates the discovery job with id 0, and posts `{id: 0, action: '_getFunctionality', payload: []}` as the first message |
| Wrap.Caller.CreateJob | src/proxy-worker.ts:107-115 | the request gets the old counter as its id. The counter grows by exactly 1. Exactly that job is appended and exactly that request is posted. Nothing is settled, and the invariant is kept |
| Wrap.Caller.OnMessage | src/wrap.ts:32-49 | the new state is `Receive` of the old one. A matching response removes and settles exactly its job. An unknown id leaves jobs and outcomes unchanged and counts one anomaly |
| Wrap.Caller.OnError | src/proxy-worker.ts:136-143 | the new state is `Fail` of the old one: no active job, every formerly active job rejected with the error, earlier outcomes kept |
| Wrap.Caller.AwaitDiscovery | src/wrap.ts:63-79 | `wrap` is pending while job 0 is. A rejected discovery rejects `wrap`, and so does a payload that is not a name list. A name list yields the proxy object for it |
| Wrap.Caller.Invoke | src/wrap.ts:72-77 | a proxy creates a job `{action: fname, payload: args}` with the next id; `terminate` posts nothing and changes no state |
| Protocol.CallRoundTrip | src/proxy-worker.ts:76-132 | a call answered by the worker settles with exactly the outcome the worker's handler computed; the other active jobs and every other recorded outcome are left as they were |
| Protocol.DiscoveryYieldsFunctionality | src/wrap.ts:63-67 | the first request is discovery with id 0. The worker's answer fulfils it, and the caller reads it back as exactly the exposed names |
| Protocol.WrapperKeys | src/proxy-worker.ts:149-162 | the proxy object's keys are exactly the function-valued keys of the exposed object plus `terminate` |
| Protocol.CallsCorrelate | tests/src/proxy-worker.test.ts:28-46 | with many calls in flight and the worker's answers arriving in any order, each answered call settles with the outcome computed for its own request |

## Left out

- The `WorkerGlobalScope` check and its early return in `expose`: this is a
  probe of the runtime environment.
- `console.error` and `console.warn`: these are logging only. The model keeps
  a ghost `anomalies` counter for responses to nonexistent jobs.
- Worker creation, `postMessage` and structured cloning: the transport is
  modelled as appending to an `outbox` sequence, and every value is assumed
  cloneable. In the source, a failing clone in `onSuccess` is caught and turns
  into an error response, and a failing clone in `onError` escapes. Neither
  case is modelled. Nor is a failing `worker.postMessage` in `createJob`
  (src/wrap.ts:27): it throws after the job was pushed (src/wrap.ts:25), so
  the proxy call throws synchronously and leaves an active job that no
  response will ever settle.
- `worker.terminate()`: it is a foreign call with no effect on the protocol
  state.
- Promise scheduling and async interleaving: each handler runs as one atomic
  step. The worker's outbox therefore lists responses in request order. In
  the source, awaited calls may finish in any order. The caller-side lemmas
  (`Correlation`, `CallsCorrelate`) take an arbitrary arrival order.
- Expose.Dispatch: assumes every promise returned by a registered function
  settles. A promise that never settles would leave the request unanswered.
- Expose.Lookup: covers own properties only. JavaScript would also find
  inherited members (`toString`, `constructor`, …) through the prototype
  chain.
- The `Object.keys` rule that integer-like keys come first, in ascending
  order: the registry is taken to be already in `Object.keys` order.
- Expose.NotAFunction: the TypeError's message text depends on the engine.
  The model fixes one text.
- Wrap.Caller.AwaitDiscovery: a discovery payload that is not an array of
  strings is modelled as rejecting `wrap`. In JavaScript, a non-array makes
  `forEach` throw, but an array of non-strings gives keys coerced to strings.
- Wrap.Caller.OnError: the settlement log is a map, so it does not record the
  order in which `forEach` rejects the jobs.
- `jobId` is an unbounded natural. JavaScript numbers stop counting exactly
  after 2^53 increments.
- The mapped type `WorkerWrapper` in `src/types.ts`: it is a typing device
  with no runtime behaviour.
- The test fixtures' arithmetic, the random failures of `throw33`, and the
  statistical 33% test: these involve nondeterminism and floating-point
  ratios. The functions are abstracted by the `Functions` oracle instead.
- `src/index.ts`: it only re-exports.
