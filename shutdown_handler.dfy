/**
 * The body of the shutdown request handler: restart the kernel when the
 * request's `content.restart` is truthy, shut it down otherwise, and send the
 * shutdown reply once that operation has been fulfilled.
 */
module ShutdownRequest {
  import opened Protocol
  import opened Bracket
  import opened Lifecycle

  /** Whether the request asks for a restart rather than a full shutdown. */
  predicate WantsRestart(req: Request)
  {
    Truthy(req.restart)
  }

  /** The entries the chosen kernel operation leaves. */
  function KernelOperationEvents(req: Request, result: Outcome): seq<Event>
  {
    if WantsRestart(req) then [SessionRestarted(result)] else ShutdownEvents(result)
  }

  /** The entries `_handle` leaves: the kernel operation, then the reply if the operation was fulfilled. */
  function ShutdownBodyEvents(req: Request, result: Outcome): seq<Event>
  {
    KernelOperationEvents(req, result) + (if result.Ok? then [SentVia(ShutdownReply(req))] else [])
  }

  /** Appending the kernel operation's entries and then the reply if it is due appends the body's entries. */
  lemma ShutdownBodyAppend(t0: seq<Event>, req: Request, result: Outcome)
    ensures t0 + KernelOperationEvents(req, result) + (if result.Ok? then [SentVia(ShutdownReply(req))] else [])
         == t0 + ShutdownBodyEvents(req, result)
  {
  }

  /** `_handle`'s Promise is fulfilled when the kernel operation is, and rejected when it is. */
  function ShutdownCompletion(result: Outcome): (c: Completion)
    ensures SendsIdle(c) <==> result.Ok?
  {
    if result.Ok? then Resolved else Rejected
  }

  function IsReply(e: Event): bool
  {
    e.SentVia? && e.msg.ShutdownReply?
  }

  function IsRestart(e: Event): bool
  {
    e.SessionRestarted?
  }

  function IsStop(e: Event): bool
  {
    e.SessionStopped?
  }

  /** The shutdown body logs no `Published` entry (its reply is `SentVia`), so the bracket's status counts apply. */
  lemma ShutdownBodyUnpublished(req: Request, result: Outcome)
    ensures Unpublished(ShutdownBodyEvents(req, result))
  {
  }

  /**
   * The branch on `content.restart`: a truthy flag restarts and never stops the
   * session; a falsy or absent flag stops it exactly once and never restarts it.
   */
  lemma {:induction false} ShutdownBranch(req: Request, result: Outcome)
    ensures var t := ShutdownBodyEvents(req, result);
      Count(t, IsRestart) == (if WantsRestart(req) then 1 else 0)
    ensures var t := ShutdownBodyEvents(req, result);
      Count(t, IsStop) == (if WantsRestart(req) then 0 else 1)
  {
    var op := KernelOperationEvents(req, result);
    var reply := if result.Ok? then [SentVia(ShutdownReply(req))] else [];
    CountAppend(op, reply, IsRestart);
    CountAppend(op, reply, IsStop);
    CountNone(reply, IsRestart);
    CountNone(reply, IsStop);
    if !WantsRestart(req) {
      var detach, closes := OpEvents(DetachListeners, AllChannels), OpEvents(Close, AllChannels);
      var tail := if result.Ok? then closes else [];
      CountAppend(detach, [SessionStopped(result)], IsRestart);
      CountAppend(detach + [SessionStopped(result)], tail, IsRestart);
      CountAppend(detach, [SessionStopped(result)], IsStop);
      CountAppend(detach + [SessionStopped(result)], tail, IsStop);
      CountNone(detach, IsRestart);
      CountNone(detach, IsStop);
      CountNone(tail, IsRestart);
      CountNone(tail, IsStop);
    }
  }

  /**
   * The reply is sent once when the kernel operation is fulfilled, never when it
   * is rejected, and always after the operation and everything it did.
   */
  lemma {:induction false} ReplyAfterOperation(req: Request, result: Outcome)
    ensures Count(ShutdownBodyEvents(req, result), IsReply) == (if result.Ok? then 1 else 0)
    ensures var t := ShutdownBodyEvents(req, result);
      forall i :: 0 <= i < |t| && IsReply(t[i]) ==> i == |t| - 1 && t[i] == SentVia(ShutdownReply(req))
  {
    var op := KernelOperationEvents(req, result);
    var reply := if result.Ok? then [SentVia(ShutdownReply(req))] else [];
    CountAppend(op, reply, IsReply);
    assert forall i :: 0 <= i < |op| ==> !IsReply(op[i]);
    CountNone(op, IsReply);
  }

  /**
   * A fulfilled shutdown request, bracket included, runs in this order: Busy,
   * the kernel operation, the reply, Idle. In the shutdown branch the reply and
   * Idle are sent after every socket, IOPub included, has been closed.
   */
  lemma ShutdownRequestOrder(req: Request, code: int)
    ensures var t := BracketEvents(req, ShutdownBodyEvents(req, Ok(code)), ShutdownCompletion(Ok(code)));
      t == [Published(Status(Busy, req))] + KernelOperationEvents(req, Ok(code))
           + [SentVia(ShutdownReply(req)), Published(Status(Idle, req))]
    ensures var t := BracketEvents(req, ShutdownBodyEvents(req, Ok(code)), ShutdownCompletion(Ok(code)));
      !WantsRestart(req) ==>
        forall i :: 0 <= i < |t| && t[i].SocketAct? && t[i].action == Close ==> i < |t| - 2
  {
  }

  /**
   * A rejected kernel operation sends no reply, and the bracket leaves the
   * request Busy: no Idle follows.
   */
  lemma FailedShutdownRequest(req: Request)
    ensures var t := BracketEvents(req, ShutdownBodyEvents(req, Fail), ShutdownCompletion(Fail));
      Count(t, IsReply) == 0 && Count(t, IsStatus(Idle)) == 0 && Count(t, IsStatus(Busy)) == 1
  {
    var body := ShutdownBodyEvents(req, Fail);
    ReplyAfterOperation(req, Fail);
    BracketStatusCounts(req, body, Rejected);
    assert BracketEvents(req, body, Rejected) == [Published(Status(Busy, req))] + body;
    CountAppend([Published(Status(Busy, req))], body, IsReply);
    assert Count([Published(Status(Busy, req))], IsReply) == 0;
  }
}
