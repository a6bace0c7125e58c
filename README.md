# nelu-kernelu kernel core in Dafny

This project models the protocol layer of a Jupyter kernel process written in JavaScript:

- the `Kernel` class, which holds the socket set, the handler registry and the session;
- the Busy/Idle status bracket every request handler runs;
- the shutdown request handler.

The kernel is one imperative class, `KernelProcess.Kernel`. Its mutable state is held in fields:

- the heartbeat socket and the four data sockets (IOPub, STDIn, Shell, Control), each a record of `bound`, `listening` and `closed` flags;
- the session status;
- `trace`, an append-only effect log of everything the kernel does, in order. This covers socket actions, heartbeat echoes, handler invocations, status publications on IOPub, messages sent through the kernel, session stop and restart, and exceptions logged at the dispatch boundary.

The handler table is a `const` map, because the constructor builds it once and nothing changes it afterwards.

Collaborators whose code is outside the core are parameters of the operations that call them, bundled in `Protocol.Collaborators`:

- the session's asynchronous `stop` and `restart`, each settling as `Ok(code)` or `Fail`;
- the opaque body of a concrete handler other than shutdown: what it sends and how it completes (plain return, fulfilled Promise, rejected Promise, synchronous throw);
- whether the handler adapter throws synchronously.

Every `await` is one sequential step.

Each kernel method is proved against a pure specification of the log segment it appends:

- `trace == old(trace) + ShutdownEvents(stop)`, `... + HandledEvents(kind, req, env)`, and so on;
- for socket and session state, against value-level functions such as `AfterShutdown` and `SessionAfterStop`.

The ordering and "exactly once" facts are proved as lemmas about those specification functions. Counting uses `Protocol.Count`.

Modules, in dependency order:

- `Protocol`: the vocabulary, plus `Count` and its lemmas.
- `Dispatch`: the handler table and its lookup.
- `Bracket`: the Busy/Idle bracket of `basic.js`.
- `Lifecycle`: bind, shutdown and the comm bridge of `kernel.js`.
- `ShutdownRequest`: the shutdown handler body of `shutdown.js`.
- `Routing`: `_onKernelMessage` and socket delivery.
- `KernelProcess`: the `Kernel` class.

The source's liveness gap is modelled as written. A handler body that throws, or whose Promise is rejected, leaves its request Busy: the bracket publishes no Idle for it.

A rejected `stop` propagates out of `shutdown` before any socket is closed (src/kernel.js:105), so `KernelProcess.Kernel.Shutdown` and `Lifecycle.ShutdownEvents` leave every socket open in that case.

`handle` in `basic.js` is an `async` function, so a synchronous throw from `_handle` becomes a rejection of its Promise. The `try`/`catch` in `_onKernelMessage` never sees it. That handler is reached only when the call itself throws synchronously, in one of two ways: the handler adapter between `kernel.js` and `basic.js`, which is not part of this model, throws (represented by `Collaborators.adapterThrows`); or the message type names an inherited property of the handler object, such as `constructor`, whose value has no `handle` method (see "## Left out").

## Model

| member | source | states |
|---|---|---|
| `Dispatch.Lookup` | src/kernel.js:129-136 | the selected handler is always one of the table's handlers; a tag in the table selects its own entry, any other tag selects the `_default` entry |
| `Dispatch.HandlerTableShape` | src/kernel.js:50-58 | the registry has exactly the seven keys `_default`, `comm_info_request`, `comm_msg`, `execute_request`, `interrupt_request`, `kernel_info_request`, `shutdown_request`, each filing its own handler kind |
| `Dispatch.TagsDistinct` | src/kernel.js:50-58 | no two handler kinds are filed under the same tag |
| `Dispatch.LookupRegistered` | src/kernel.js:129-131 | looking up a registered tag returns the handler filed under it |
| `Dispatch.LookupUnregistered` | src/kernel.js:129-136 | lookup never fails: the default handler is selected exactly when the tag is `_default` or is not a key; a tag is not a key exactly when no handler kind is filed under it |
| `Bracket.BracketShape` | src/kernel/messages/handlers/basic.js:14-20 | Busy is published before anything the body does; the body's entries follow unchanged; Idle, when published, is the last entry |
| `Bracket.BracketStatusCounts` | src/kernel/messages/handlers/basic.js:12-20 | around a body whose entries include no `Published` one (a body's sends are `SentVia`), exactly one Busy is published, exactly one Idle if the body returned a plain value or a fulfilled Promise and none otherwise, and at most two status messages in all |
| `Bracket.BracketParent` | src/kernel/messages/handlers/basic.js:12-14 | every status message the bracket publishes has the bracketed request as parent |
| `Bracket.NoIdleAfterFault` | src/kernel/messages/handlers/basic.js:15-17 | when the body throws or its Promise is rejected, Busy is published once and no Idle ever is |
| `Bracket.BaseHandleStaysBusy` | src/kernel/messages/handlers/basic.js:23-25 | a handler that keeps the base `_handle` publishes Busy and never Idle |
| `Bracket.SentEvents` | src/kernel/messages/handlers/basic.js:15 | the body's sends appear in the log one for one, in order |
| `Lifecycle.OpEvents` | src/kernel.js:91 | a `forEach` over the sockets performs the action once per socket, in table order |
| `Lifecycle.OpEventsOnce` | src/kernel.js:91 | over a socket list without repeats, every listed socket gets the action exactly once and no other socket gets it |
| `Lifecycle.BindEachDataSocketOnce` | src/kernel.js:90-93 | `bindAndGo` binds IOPub, STDIn, Shell and Control in that order, each exactly once, and never binds the heartbeat |
| `Lifecycle.ShutdownTouchesEachSocketOnce` | src/kernel.js:103-107 | shutdown removes the listeners of every socket, heartbeat included, exactly once, and closes each exactly once if the stop was fulfilled and never if it was rejected |
| `Lifecycle.ShutdownOrder` | src/kernel.js:99-110 | the session stop is in the log and occurs exactly once; every listener removal precedes it and every close follows it; every socket is detached, and sockets are closed exactly when the stop was fulfilled |
| `Lifecycle.Detached` | src/kernel.js:103-104 | removing the listeners clears `listening` and changes nothing else about the socket |
| `Lifecycle.AfterShutdown` | src/kernel.js:103-107 | after shutdown no socket listens, and a socket is closed exactly when it already was or the stop was fulfilled |
| `Lifecycle.CommBridgePreserves` | src/kernel.js:61-68 | the comm message built for a session comm event carries the event's `comm_id`, `pMessageInfo` and inner data unmodified |
| `ShutdownRequest.ShutdownCompletion` | src/kernel/messages/handlers/shutdown.js:14-17 | the shutdown body's Promise is fulfilled exactly when the kernel operation was, so the bracket publishes Idle exactly then |
| `ShutdownRequest.ShutdownBranch` | src/kernel/messages/handlers/shutdown.js:14-17 | a truthy `restart` restarts the kernel once and never stops it; a falsy or absent one stops the session once and never restarts it |
| `ShutdownRequest.ReplyAfterOperation` | src/kernel/messages/handlers/shutdown.js:10-17 | exactly one shutdown reply, built from the request, is sent if the operation was fulfilled and none if it was rejected; the reply is the last thing the body does |
| `ShutdownRequest.ShutdownRequestOrder` | src/kernel/messages/handlers/shutdown.js:9-19 | a fulfilled shutdown request runs Busy, the kernel operation, the reply, Idle; in the shutdown branch every close comes before the reply and Idle |
| `ShutdownRequest.FailedShutdownRequest` | src/kernel/messages/handlers/shutdown.js:15-17 | a rejected kernel operation sends no reply, and its request stays Busy with no Idle |
| `ShutdownRequest.ShutdownBodyUnpublished` | src/kernel/messages/handlers/shutdown.js:9-19 | the shutdown body's kernel operation and reply leave no `Published` entry (the reply is sent through the kernel), so the only `Published` entries are the bracket's own `sendTo(iopubSocket)` status messages |
| `Routing.HandledEventsQuiet` | src/kernel/messages/handlers/basic.js:8-21 | handling a request invokes no further handler and logs no exception; the body's entries include no `Published` entry, which in this model marks only the bracket's own `sendTo(iopubSocket)` publications |
| `Routing.DeliveryInvokesOnce` | src/kernel.js:43-46 | a message on a listening IOPub, Shell or Control socket invokes exactly one handler, the one its type selects; a message on STDIn or on a detached socket invokes none |
| `Routing.FaultLoggedOnlyForSyncThrow` | src/kernel.js:117-122 | exactly one exception is logged when the `handle` call throws synchronously, and none otherwise, including when the body throws or rejects inside the async `handle` |
| `Routing.RequestStatusCounts` | src/kernel.js:112-123 | a routed request publishes no status if `handle` threw synchronously, otherwise one Busy, and one Idle exactly when the selected handler's body succeeded |
| `Routing.UnknownTagBracketed` | src/kernel.js:129-136 | a request with an unregistered type is invoked on the default handler and still bracketed by Busy |
| `KernelProcess.Kernel.constructor` | src/kernel.js:19-69 | the heartbeat is bound first and is the only socket bound at creation; the heartbeat and the four data sockets share the one identity; data sockets listen and are unbound; the session runs; the registry is the seven-entry table |
| `KernelProcess.Kernel.BindAndGo` | src/kernel.js:90-93 | every data socket becomes bound and is otherwise unchanged, the heartbeat is untouched, and the log gains exactly the four binds in table order |
| `KernelProcess.Kernel.Restart` | src/kernel.js:95-97 | returns the session's restart result, leaves every socket unchanged, and logs one restart |
| `KernelProcess.Kernel.Shutdown` | src/kernel.js:99-110 | returns the stop's result; the log gains the shutdown sequence; each socket ends as `AfterShutdown` of its old state; the session is stopped or faulted by the stop's outcome |
| `KernelProcess.Kernel.RemoveAllListeners` | src/kernel.js:103-104 | every data socket and then the heartbeat lose their listeners and nothing else, logged in that order |
| `KernelProcess.Kernel.CloseAll` | src/kernel.js:106-107 | every data socket and then the heartbeat become closed and nothing else, logged in that order |
| `KernelProcess.Kernel.OnHeartbeat` | src/kernel.js:29 | the payload is echoed unchanged while the heartbeat still has its listener, and nothing happens after its listeners are removed |
| `KernelProcess.Kernel.OnSessionComm` | src/kernel.js:61-68 | one comm message carrying the event's fields is sent through the kernel, in every kernel state |
| `KernelProcess.Kernel.HandleShutdown` | src/kernel/messages/handlers/shutdown.js:9-19 | logs the kernel operation then the reply if it was fulfilled, completes as `ShutdownCompletion`, and leaves sockets and session as restart or shutdown leaves them |
| `KernelProcess.Kernel.RunBody` | src/kernel/messages/handlers/basic.js:15 | the handler body's entries and completion are those of the shutdown body for the shutdown handler and the collaborators' for any other; only the shutdown handler changes sockets or session |
| `KernelProcess.Kernel.Handle` | src/kernel/messages/handlers/basic.js:8-21 | the log gains exactly the bracket around the handler body, Idle only after a plain return or a fulfilled Promise |
| `KernelProcess.Kernel.OnKernelMessage` | src/kernel.js:112-123 | the handler selected by the type is invoked; then either the synchronous exception is logged and nothing else changes, or the request is handled with the bracket |
| `KernelProcess.Kernel.OnStdinMessage` | src/kernel.js:125-127 | does nothing: the log, the sockets, the heartbeat and the session are unchanged (the method has no `modifies` clause) |
| `KernelProcess.Kernel.OnDataMessage` | src/kernel.js:43-46 | a message on IOPub, Shell or Control is routed to `_onKernelMessage` while the socket listens, and sockets, heartbeat and session then change as handling the request with the selected handler changes them; STDIn messages, messages on detached sockets and a synchronous throw of `handle` change no socket and no session, and the first two leave no entry |

## Left out

- ZeroMQ mechanics are not modelled: socket creation, addresses, framing and `bindSync` failures. A socket is three flags, and a send is a log entry.
- The UUID identity is a constructor parameter, because it is randomness.
- Logger calls are not modelled, except the logged handler exception, which the log records as `HandlerFault`.
- The message-flavour codecs (status, shutdown reply, comm message) are not modelled, because their encodings are not part of this model. Each message is an abstract constructor that carries its parent request or its fields.
- The Session's internals are not modelled. `stop` and `restart` are steps whose settled outcome is a parameter.
- Concrete handlers other than shutdown are opaque bodies described by `Collaborators`.
- The `BaseRequestHandler` adapter between `kernel.js` and `basic.js` is not part of this model. Its reshaping of `handle(msg)` into `handle({kernel, message})` is taken as given, and its possible synchronous throw is a parameter. `Collaborators.adapterThrows` stands for a throw before the bracket runs, so before Busy is published; the "no status" clause of `Routing.RequestStatusCounts` rests on that assumption.
- Event-loop interleaving is not modelled. One request is handled at a time, and every await, and every `.then` callback of the bracket, completes before the next message arrives. The non-awaited `handle` call in `_onKernelMessage` is therefore taken to run to completion.
- JavaScript prototype-key lookups are not modelled. In the source, a tag such as `constructor`, `toString` or `__proto__` selects a truthy inherited property of the object literal `this._handlers` (src/kernel.js:50-58, 130-132); that value has no `handle` method, so `requestHandler.handle(msg)` throws a TypeError synchronously (src/kernel.js:118), which the catch logs (src/kernel.js:121): no handler runs and no Busy is published. The model's table is a map holding only the seven keys, so such a tag selects the `_default` handler and is bracketed as usual.
- JavaScript number truthiness is limited to integers: `NaN` and fractional values are not modelled. A missing `content` object, which makes the source throw inside `_handle`, is not modelled either.
- `instanceof Promise` is taken at face value. A non-native thenable returned by `_handle` would get an immediate Idle, which the model does not distinguish from a plain return.
- `Kernel.iopubSocket`, which the bracket sends status messages to, is not defined in `src/kernel.js`. The model records the publications as sent on IOPub.
- A handler body's own sends are logged as `SentVia` whatever socket their message flavour uses (the comm bridge's messages, for one, go out on IOPub). `Published` marks only the bracket's status messages, so the status counts (`Bracket.BracketStatusCounts`, `Routing.RequestStatusCounts`) cover the bracket's status messages and not a status a body might send itself.
- A failed body's rejection is never caught: it becomes an unhandled Promise rejection, whose effect (a warning, or process termination, depending on the Node runtime) is not modelled; the model keeps handling messages. For `Rejected`, the Promise that `.then(notifyOfIdleness)` returns rejects with no handler (src/kernel/messages/handlers/basic.js:17); for `Threw`, `handle`'s own Promise rejects and `_onKernelMessage` does not await it (src/kernel.js:118).
- The in-order clauses (`Lifecycle.OpEvents`, `Lifecycle.BindEachDataSocketOnce`, `KernelProcess.Kernel.BindAndGo`) take the data sockets in the order IOPub, STDIn, Shell, Control. In the source this is the `Object.values` order of the socket table, whose keys come from `JupyterSocketTypes`, which is not part of this model; it is insertion order only if those keys are not integer-like strings. The exactly-once and shutdown ordering lemmas do not depend on it.
- The effect of sending on a closed socket is not modelled. Such a send (the shutdown reply and Idle after a full shutdown) is recorded as attempted.
- Calling `bindAndGo` twice, or after shutdown, is not guarded in the model. `KernelProcess.Kernel.BindAndGo` sets `bound` again, where the transport would fail.
