/**
 * How the kernel routes an incoming message: the socket's listener calls
 * `_onKernelMessage` (IOPub, Shell, Control) or `_onStdinMessage` (STDIn), which
 * looks up one handler by `header.msg_type` and calls its `handle`.
 */
module Routing {
  import opened Protocol
  import opened Dispatch
  import opened Bracket
  import opened ShutdownRequest

  /** How the body of handler `kind` completes for this request. */
  function BodyCompletion(kind: HandlerKind, req: Request, env: Collaborators): Completion
  {
    if kind == ShutdownHandler then ShutdownCompletion(env.sessionResult) else env.bodyCompletion
  }

  /** The entries the body of handler `kind` leaves for this request. */
  function BodyEvents(kind: HandlerKind, req: Request, env: Collaborators): seq<Event>
  {
    if kind == ShutdownHandler then ShutdownBodyEvents(req, env.sessionResult) else SentEvents(env.bodySends)
  }

  /** The entries `handle` on handler `kind` leaves: the body inside the status bracket. */
  function HandledEvents(kind: HandlerKind, req: Request, env: Collaborators): seq<Event>
  {
    BracketEvents(req, BodyEvents(kind, req, env), BodyCompletion(kind, req, env))
  }

  /**
   * The entries `_onKernelMessage` leaves: the call of `handle` on the handler
   * the tag selects, then either the bracketed body or, when the call threw
   * synchronously, the logged exception.
   */
  function KernelMessageEvents(req: Request, env: Collaborators): seq<Event>
  {
    var kind := HandlerFor(req.msgType);
    [Invoked(kind, req.msgType)]
      + (if env.adapterThrows then [HandlerFault(req.msgType)] else HandledEvents(kind, req, env))
  }

  /** Appending the invocation and then what followed it appends `KernelMessageEvents`. */
  lemma KernelMessageAppend(t0: seq<Event>, req: Request, env: Collaborators)
    ensures var kind := HandlerFor(req.msgType);
      t0 + [Invoked(kind, req.msgType)]
         + (if env.adapterThrows then [HandlerFault(req.msgType)] else HandledEvents(kind, req, env))
      == t0 + KernelMessageEvents(req, env)
  {
  }

  /** The entries a message arriving on data socket `ch` leaves, given whether that socket still has its listener. */
  function DeliveryEvents(ch: Channel, listening: bool, req: Request, env: Collaborators): seq<Event>
  {
    if !listening || ch == STDIn || ch == Heartbeat then [] else KernelMessageEvents(req, env)
  }

  function IsInvocation(e: Event): bool
  {
    e.Invoked?
  }

  function IsFault(e: Event): bool
  {
    e.HandlerFault?
  }

  /**
   * A handled request leaves no invocation and no logged exception of its own,
   * and its body leaves no `Published` entry: in this model only the bracket publishes.
   */
  lemma HandledEventsQuiet(kind: HandlerKind, req: Request, env: Collaborators)
    ensures var t := HandledEvents(kind, req, env);
      forall i :: 0 <= i < |t| ==> !t[i].Invoked? && !t[i].HandlerFault?
    ensures Unpublished(BodyEvents(kind, req, env))
  {
  }

  /**
   * A message on IOPub, Shell or Control whose socket still listens calls
   * `handle` on exactly one handler, the one its tag selects; a message on
   * STDIn, or on a socket whose listeners were removed, calls none.
   */
  lemma {:induction false} DeliveryInvokesOnce(ch: Channel, listening: bool, req: Request, env: Collaborators)
    requires ch != Heartbeat
    ensures var t := DeliveryEvents(ch, listening, req, env);
      Count(t, IsInvocation) == (if listening && ch != STDIn then 1 else 0)
    ensures var t := DeliveryEvents(ch, listening, req, env);
      forall i :: 0 <= i < |t| && t[i].Invoked? ==> t[i].handler == HandlerFor(req.msgType)
  {
    if listening && ch != STDIn {
      var kind := HandlerFor(req.msgType);
      var rest := if env.adapterThrows then [HandlerFault(req.msgType)] else HandledEvents(kind, req, env);
      HandledEventsQuiet(kind, req, env);
      CountAppend([Invoked(kind, req.msgType)], rest, IsInvocation);
      CountNone(rest, IsInvocation);
    }
  }

  /**
   * The dispatch boundary logs an exception exactly when `handle` itself threw
   * synchronously. Since `handle` is an async function, a body that throws or
   * rejects never reaches the log.
   */
  lemma {:induction false} FaultLoggedOnlyForSyncThrow(req: Request, env: Collaborators)
    ensures Count(KernelMessageEvents(req, env), IsFault) == (if env.adapterThrows then 1 else 0)
  {
    var kind := HandlerFor(req.msgType);
    var rest := if env.adapterThrows then [HandlerFault(req.msgType)] else HandledEvents(kind, req, env);
    HandledEventsQuiet(kind, req, env);
    CountAppend([Invoked(kind, req.msgType)], rest, IsFault);
    if !env.adapterThrows {
      CountNone(rest, IsFault);
    }
  }

  /**
   * Status messages of one routed request: none when `handle` threw before the
   * bracket ran; otherwise one Busy and one Idle exactly when the selected
   * handler's body succeeded.
   */
  lemma {:induction false} RequestStatusCounts(req: Request, env: Collaborators)
    ensures Count(KernelMessageEvents(req, env), IsStatus(Busy)) == (if env.adapterThrows then 0 else 1)
    ensures var kind := HandlerFor(req.msgType);
      Count(KernelMessageEvents(req, env), IsStatus(Idle))
        == (if !env.adapterThrows && SendsIdle(BodyCompletion(kind, req, env)) then 1 else 0)
  {
    var kind := HandlerFor(req.msgType);
    var head := [Invoked(kind, req.msgType)];
    var rest := if env.adapterThrows then [HandlerFault(req.msgType)] else HandledEvents(kind, req, env);
    CountAppend(head, rest, IsStatus(Busy));
    CountAppend(head, rest, IsStatus(Idle));
    assert Count(head, IsStatus(Busy)) == 0 && Count(head, IsStatus(Idle)) == 0;
    if env.adapterThrows {
      assert Count(rest, IsStatus(Busy)) == 0 && Count(rest, IsStatus(Idle)) == 0;
    } else {
      HandledEventsQuiet(kind, req, env);
      BracketStatusCounts(req, BodyEvents(kind, req, env), BodyCompletion(kind, req, env));
    }
  }

  /** An unregistered tag is still bracketed, by the default handler, whose body the kernel does not see. */
  lemma UnknownTagBracketed(req: Request, env: Collaborators)
    requires req.msgType !in HandlerTable
    requires !env.adapterThrows
    ensures KernelMessageEvents(req, env)
         == [Invoked(DefaultHandler, req.msgType)] + BracketEvents(req, SentEvents(env.bodySends), env.bodyCompletion)
  {
    LookupUnregistered(req.msgType);
  }
}
