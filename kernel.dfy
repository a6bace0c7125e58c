/**
 * The kernel process: its identity, its five sockets, its handler registry and
 * session, and the effect log its operations append to. Each method is one
 * operation of the kernel or of the handlers that call back into it, with every
 * `await` taken as one sequential step whose outcome is a parameter.
 */
module KernelProcess {
  import opened Protocol
  import opened Dispatch
  import opened Bracket
  import opened Lifecycle
  import opened ShutdownRequest
  import opened Routing

  /**
   * The socket set of a kernel with identity `id`: a bound heartbeat and the four
   * data sockets in table order, every one created with `id`; a closed socket
   * has no listeners left.
   */
  ghost predicate WellFormed(id: Identity, hb: SocketState, ss: seq<SocketState>)
  {
    && hb.channel == Heartbeat && hb.identity == id && hb.bound
    && (hb.closed ==> !hb.listening)
    && |ss| == |DataChannels|
    && (forall k :: 0 <= k < |ss| ==> ss[k].channel == DataChannels[k] && ss[k].identity == id)
    && (forall k :: 0 <= k < |ss| ==> ss[k].closed ==> !ss[k].listening)
  }

  /** Sockets `ss1` and heartbeat `hb1` are what `shutdown` makes of `ss0` and `hb0` after a stop that settled as `stop`. */
  ghost predicate ShutDownFrom(ss0: seq<SocketState>, hb0: SocketState, stop: Outcome,
                               ss1: seq<SocketState>, hb1: SocketState)
  {
    && |ss1| == |ss0|
    && (forall k :: 0 <= k < |ss1| ==> ss1[k] == AfterShutdown(ss0[k], stop))
    && hb1 == AfterShutdown(hb0, stop)
  }

  /**
   * Sockets, heartbeat and session `ss1`, `hb1`, `s1` are what handling a
   * request with handler `kind` makes of `ss0`, `hb0`, `s0`: only the shutdown
   * handler changes them, through a kernel restart or shutdown.
   */
  ghost predicate HandledFrom(kind: HandlerKind, req: Request, env: Collaborators,
                              ss0: seq<SocketState>, hb0: SocketState, s0: SessionStatus,
                              ss1: seq<SocketState>, hb1: SocketState, s1: SessionStatus)
  {
    if kind == ShutdownHandler && WantsRestart(req) then
      ss1 == ss0 && hb1 == hb0 && s1 == SessionAfterRestart(env.sessionResult)
    else if kind == ShutdownHandler then
      ShutDownFrom(ss0, hb0, env.sessionResult, ss1, hb1) && s1 == SessionAfterStop(env.sessionResult)
    else
      ss1 == ss0 && hb1 == hb0 && s1 == s0
  }

  class Kernel {
    /** The transport identity every socket is created with. */
    const identity: Identity
    /** The handler registry, built once by the constructor. */
    const handlers: map<string, HandlerKind>
    var heartbeat: SocketState
    /** The data sockets, in table order: IOPub, STDIn, Shell, Control. */
    var sockets: seq<SocketState>
    var session: SessionStatus
    /** Everything the kernel has done to its sockets, its session and the wire, in order. */
    var trace: seq<Event>

    ghost predicate Valid()
      reads this
    {
      && handlers == HandlerTable
      && WellFormed(identity, heartbeat, sockets)
      && |trace| > 0 && trace[0] == SocketAct(Bind, Heartbeat)
    }

    /**
     * Creates the kernel with identity `id`: the heartbeat socket is created,
     * given its echo listener and bound before any data socket exists; the four
     * data sockets are created with their listeners but not bound.
     */
    constructor (id: Identity)
      ensures Valid()
      ensures identity == id
      ensures heartbeat == SocketState(Heartbeat, id, true, true, false)
      ensures |sockets| == |DataChannels|
      ensures forall k :: 0 <= k < |sockets| ==> sockets[k] == SocketState(DataChannels[k], id, false, true, false)
      ensures session == Running
      ensures trace == [SocketAct(Bind, Heartbeat)]
    {
      identity := id;
      var hb := SocketState(Heartbeat, id, false, true, false);
      heartbeat := hb.(bound := true);
      trace := [SocketAct(Bind, Heartbeat)];
      sockets := [SocketState(IOPub, id, false, true, false), SocketState(STDIn, id, false, true, false),
                  SocketState(Shell, id, false, true, false), SocketState(Control, id, false, true, false)];
      session := Running;
      handlers := HandlerTable;
    }

    /** `bindAndGo`: binds every data socket once, in table order, and leaves the heartbeat alone. */
    method BindAndGo()
      requires Valid()
      modifies this`sockets, this`trace
      ensures Valid()
      ensures trace == old(trace) + BindEvents()
      ensures |sockets| == |old(sockets)|
      ensures forall k :: 0 <= k < |sockets| ==> sockets[k] == old(sockets)[k].(bound := true)
    {
      var i := 0;
      while i < |sockets|
        invariant 0 <= i <= |sockets| == |old(sockets)|
        invariant forall k :: 0 <= k < i ==> sockets[k] == old(sockets)[k].(bound := true)
        invariant forall k :: i <= k < |sockets| ==> sockets[k] == old(sockets)[k]
        invariant trace == old(trace) + OpEvents(Bind, DataChannels[..i])
      {
        OpEventsExtend(old(trace), Bind, DataChannels, i);
        trace := trace + [SocketAct(Bind, sockets[i].channel)];
        sockets := sockets[i := sockets[i].(bound := true)];
        i := i + 1;
      }
      assert DataChannels[..i] == DataChannels;
    }

    /** `restart`: delegates to the session and reports its result; no socket changes. */
    method Restart(result: Outcome) returns (r: Outcome)
      requires Valid()
      modifies this`session, this`trace
      ensures Valid()
      ensures r == result
      ensures trace == old(trace) + [SessionRestarted(result)]
      ensures session == SessionAfterRestart(result)
    {
      trace := trace + [SessionRestarted(result)];
      if result.Ok? {
        session := Running;
      } else {
        session := Faulted;
      }
      r := result;
    }

    /**
     * `shutdown`: removes the listeners of every data socket and of the
     * heartbeat, awaits the session's stop, and only if the stop is fulfilled
     * closes every socket and returns its code. A rejected stop propagates and
     * leaves every socket open.
     */
    method Shutdown(stop: Outcome) returns (r: Outcome)
      requires Valid()
      modifies this`sockets, this`heartbeat, this`session, this`trace
      ensures Valid()
      ensures r == stop
      ensures trace == old(trace) + ShutdownEvents(stop)
      ensures ShutDownFrom(old(sockets), old(heartbeat), stop, sockets, heartbeat)
      ensures session == SessionAfterStop(stop)
    {
      RemoveAllListeners();
      trace := trace + [SessionStopped(stop)];
      if stop.Ok? {
        session := Stopped;
        CloseAll();
      } else {
        // the rejection propagates out of `shutdown` before any socket is closed
        session := Faulted;
      }
      ShutdownAppend(old(trace), stop);
      r := stop;
    }

    /** The first step of `shutdown`: `removeAllListeners` on each data socket, then on the heartbeat. */
    method RemoveAllListeners()
      requires Valid()
      modifies this`sockets, this`heartbeat, this`trace
      ensures Valid()
      ensures trace == old(trace) + OpEvents(DetachListeners, AllChannels)
      ensures |sockets| == |old(sockets)|
      ensures forall k :: 0 <= k < |sockets| ==> sockets[k] == Detached(old(sockets)[k])
      ensures heartbeat == Detached(old(heartbeat))
    {
      var i := 0;
      while i < |sockets|
        invariant 0 <= i <= |sockets| == |old(sockets)|
        invariant forall k :: 0 <= k < i ==> sockets[k] == Detached(old(sockets)[k])
        invariant forall k :: i <= k < |sockets| ==> sockets[k] == old(sockets)[k]
        invariant trace == old(trace) + OpEvents(DetachListeners, DataChannels[..i])
        invariant heartbeat == old(heartbeat)
      {
        OpEventsExtend(old(trace), DetachListeners, DataChannels, i);
        trace := trace + [SocketAct(DetachListeners, sockets[i].channel)];
        sockets := sockets[i := Detached(sockets[i])];
        i := i + 1;
      }
      heartbeat := Detached(heartbeat);
      trace := trace + [SocketAct(DetachListeners, Heartbeat)];
      OpEventsAllChannels(DetachListeners);
    }

    /** The last step of a fulfilled `shutdown`: `close` on each data socket, then on the heartbeat. */
    method CloseAll()
      requires Valid()
      requires !heartbeat.listening && forall k :: 0 <= k < |sockets| ==> !sockets[k].listening
      modifies this`sockets, this`heartbeat, this`trace
      ensures Valid()
      ensures trace == old(trace) + OpEvents(Close, AllChannels)
      ensures |sockets| == |old(sockets)|
      ensures forall k :: 0 <= k < |sockets| ==> sockets[k] == old(sockets)[k].(closed := true)
      ensures heartbeat == old(heartbeat).(closed := true)
    {
      var i := 0;
      while i < |sockets|
        invariant 0 <= i <= |sockets| == |old(sockets)|
        invariant forall k :: 0 <= k < i ==> sockets[k] == old(sockets)[k].(closed := true)
        invariant forall k :: i <= k < |sockets| ==> sockets[k] == old(sockets)[k]
        invariant trace == old(trace) + OpEvents(Close, DataChannels[..i])
        invariant heartbeat == old(heartbeat)
      {
        OpEventsExtend(old(trace), Close, DataChannels, i);
        trace := trace + [SocketAct(Close, sockets[i].channel)];
        sockets := sockets[i := sockets[i].(closed := true)];
        i := i + 1;
      }
      heartbeat := heartbeat.(closed := true);
      trace := trace + [SocketAct(Close, Heartbeat)];
      OpEventsAllChannels(Close);
    }

    /** The heartbeat listener: echoes the payload unchanged, for as long as the listener is attached. */
    method OnHeartbeat(payload: Bytes)
      requires Valid()
      modifies this`trace
      ensures Valid()
      ensures trace == old(trace) + (if heartbeat.listening then [Echoed(payload)] else [])
    {
      if heartbeat.listening {
        trace := trace + [Echoed(payload)];
      }
    }

    /** The session comm-event listener: sends one comm message carrying the event's fields. */
    method OnSessionComm(commId: string, pMessageInfo: string, innerData: string)
      requires Valid()
      modifies this`trace
      ensures Valid()
      ensures trace == old(trace) + [SentVia(CommMessageFor(commId, pMessageInfo, innerData))]
    {
      trace := trace + [SentVia(CommMessageFor(commId, pMessageInfo, innerData))];
    }

    /** `_onStdinMessage`: input replies are not handled; nothing happens. */
    method OnStdinMessage(req: Request)
      requires Valid()
      ensures trace == old(trace) && sockets == old(sockets) && heartbeat == old(heartbeat) && session == old(session)
    {
    }

    /**
     * The shutdown handler's `_handle`: restart when `content.restart` is
     * truthy, shut down otherwise, and once that operation is fulfilled send
     * the shutdown reply (ignoring the code). A rejected operation sends no reply
     * and rejects `_handle`'s Promise.
     */
    method HandleShutdown(req: Request, result: Outcome) returns (c: Completion)
      requires Valid()
      modifies this`sockets, this`heartbeat, this`session, this`trace
      ensures Valid()
      ensures c == ShutdownCompletion(result)
      ensures trace == old(trace) + ShutdownBodyEvents(req, result)
      ensures HandledFrom(ShutdownHandler, req, Collaborators(false, [], Returned, result),
                          old(sockets), old(heartbeat), old(session), sockets, heartbeat, session)
    {
      var r: Outcome;
      if Truthy(req.restart) {
        r := Restart(result);
      } else {
        r := Shutdown(result);
      }
      if r.Ok? {
        trace := trace + [SentVia(ShutdownReply(req))];
        c := Resolved;
      } else {
        c := Rejected;
      }
      ShutdownBodyAppend(old(trace), req, result);
    }

    /**
     * The call `this._handle(kernel, message)` inside `handle`: the shutdown
     * handler runs its own body; any other handler's body sends what it sends
     * and completes as the collaborators say.
     */
    method RunBody(kind: HandlerKind, req: Request, env: Collaborators) returns (c: Completion)
      requires Valid()
      modifies this`sockets, this`heartbeat, this`session, this`trace
      ensures Valid()
      ensures c == BodyCompletion(kind, req, env)
      ensures trace == old(trace) + BodyEvents(kind, req, env)
      ensures HandledFrom(kind, req, env, old(sockets), old(heartbeat), old(session), sockets, heartbeat, session)
    {
      if kind == ShutdownHandler {
        c := HandleShutdown(req, env.sessionResult);
      } else {
        trace := trace + SentEvents(env.bodySends);
        c := env.bodyCompletion;
      }
    }

    /**
     * `handle` of the handler `kind`: publishes Busy on IOPub, runs the body,
     * then publishes Idle at once for a plain return value or after a fulfilled
     * Promise. A rejected Promise has no callback and a synchronous throw skips
     * the rest, so neither publishes Idle.
     */
    method Handle(kind: HandlerKind, req: Request, env: Collaborators)
      requires Valid()
      modifies this`sockets, this`heartbeat, this`session, this`trace
      ensures Valid()
      ensures trace == old(trace) + HandledEvents(kind, req, env)
      ensures HandledFrom(kind, req, env, old(sockets), old(heartbeat), old(session), sockets, heartbeat, session)
    {
      trace := trace + [Published(Status(Busy, req))];
      var c := RunBody(kind, req, env);
      // A plain value notifies at once, a Promise only through its fulfilment callback,
      // and a synchronous throw never gets here.
      if c == Returned || c == Resolved {
        trace := trace + [Published(Status(Idle, req))];
      }
      BracketAppend(old(trace), req, BodyEvents(kind, req, env), c);
    }

    /**
     * `_onKernelMessage`: calls `handle` on the handler the message type
     * selects; an exception that call throws synchronously is caught and logged
     * with the message type and goes no further.
     */
    method OnKernelMessage(req: Request, env: Collaborators)
      requires Valid()
      modifies this`sockets, this`heartbeat, this`session, this`trace
      ensures Valid()
      ensures trace == old(trace) + KernelMessageEvents(req, env)
      ensures if env.adapterThrows then sockets == old(sockets) && heartbeat == old(heartbeat) && session == old(session)
              else HandledFrom(HandlerFor(req.msgType), req, env, old(sockets), old(heartbeat), old(session),
                                sockets, heartbeat, session)
    {
      var kind := Lookup(handlers, req.msgType);
      trace := trace + [Invoked(kind, req.msgType)];
      if env.adapterThrows {
        trace := trace + [HandlerFault(req.msgType)];
      } else {
        Handle(kind, req, env);
      }
      KernelMessageAppend(old(trace), req, env);
    }

    /**
     * A message arriving on data socket `ch`: IOPub, Shell and Control route it
     * through `_onKernelMessage`, STDIn to `_onStdinMessage`; once the socket's
     * listeners are removed nothing happens.
     */
    method OnDataMessage(ch: Channel, req: Request, env: Collaborators)
      requires Valid()
      requires ch != Heartbeat
      requires sockets[DataIndex(ch)].bound  // nothing arrives on a socket before `bindAndGo` binds it
      modifies this`sockets, this`heartbeat, this`session, this`trace
      ensures Valid()
      ensures trace == old(trace) + DeliveryEvents(ch, old(sockets[DataIndex(ch)].listening), req, env)
      ensures if old(sockets[DataIndex(ch)].listening) && ch != STDIn && !env.adapterThrows
              then HandledFrom(HandlerFor(req.msgType), req, env, old(sockets), old(heartbeat), old(session),
                               sockets, heartbeat, session)
              else sockets == old(sockets) && heartbeat == old(heartbeat) && session == old(session)
    {
      if sockets[DataIndex(ch)].listening {
        if ch == STDIn {
          OnStdinMessage(req);
        } else {
          OnKernelMessage(req, env);
        }
      }
    }
  }
}
