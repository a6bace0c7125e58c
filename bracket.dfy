/**
 * The status bracket every request handler runs: publish Busy on IOPub, run
 * the handler body, and publish Idle when the body returned a plain value or
 * its Promise was fulfilled. A body that throws, or whose Promise is rejected,
 * is never followed by Idle.
 */
module Bracket {
  import opened Protocol

  /** Whether the bracket publishes Idle after a body that completed this way. */
  predicate SendsIdle(c: Completion)
  {
    c == Returned || c == Resolved
  }

  /** What the base class's `_handle` does: it throws "not implemented". */
  const BaseCompletion: Completion := Threw

  /** A status message on IOPub with the given state. */
  function IsStatus(st: KernelStatus): Event -> bool
  {
    (e: Event) => e.Published? && e.msg.Status? && e.msg.state == st
  }

  function IsPublication(e: Event): bool
  {
    e.Published?
  }

  /** None of the entries is a status publication of the bracket (`Published`); a body's own sends are `SentVia`. */
  predicate Unpublished(t: seq<Event>)
  {
    forall i :: 0 <= i < |t| ==> !t[i].Published?
  }

  /** The entries a handler body leaves when it sends `msgs`, whatever socket each message goes out on. */
  function SentEvents(msgs: seq<Outbound>): (t: seq<Event>)
    ensures |t| == |msgs|
    ensures forall i :: 0 <= i < |t| ==> t[i] == SentVia(msgs[i])
  {
    if msgs == [] then [] else [SentVia(msgs[0])] + SentEvents(msgs[1..])
  }

  /** The entries `handle` leaves around a body that logged `body` and completed with `c`. */
  function BracketEvents(req: Request, body: seq<Event>, c: Completion): seq<Event>
  {
    [Published(Status(Busy, req))] + body + (if SendsIdle(c) then [Published(Status(Idle, req))] else [])
  }

  /** Appending Busy, the body's entries and then Idle if it is due, one after the other, appends the bracket. */
  lemma BracketAppend(t0: seq<Event>, req: Request, body: seq<Event>, c: Completion)
    ensures t0 + [Published(Status(Busy, req))] + body + (if SendsIdle(c) then [Published(Status(Idle, req))] else [])
         == t0 + BracketEvents(req, body, c)
  {
  }

  /**
   * Busy comes first, before anything the body does; Idle, when it comes,
   * comes last, after everything the body did; the body's own entries sit in
   * between, unchanged.
   */
  lemma BracketShape(req: Request, body: seq<Event>, c: Completion)
    ensures var t := BracketEvents(req, body, c);
      && t[0] == Published(Status(Busy, req))
      && |t| == |body| + 1 + (if SendsIdle(c) then 1 else 0)
      && t[1..1 + |body|] == body
      && (SendsIdle(c) ==> t[|t| - 1] == Published(Status(Idle, req)))
  {
  }

  /**
   * Over a body that logs no `Published` entry, the bracket publishes exactly one
   * Busy, one Idle if the body succeeded and none if it failed, and at most two
   * status messages in all.
   */
  lemma {:induction false} BracketStatusCounts(req: Request, body: seq<Event>, c: Completion)
    requires Unpublished(body)
    ensures Count(BracketEvents(req, body, c), IsStatus(Busy)) == 1
    ensures Count(BracketEvents(req, body, c), IsStatus(Idle)) == (if SendsIdle(c) then 1 else 0)
    ensures Count(BracketEvents(req, body, c), IsPublication) == (if SendsIdle(c) then 2 else 1)
  {
    var busy := [Published(Status(Busy, req))];
    var idle := if SendsIdle(c) then [Published(Status(Idle, req))] else [];
    forall p | p == IsStatus(Busy) || p == IsStatus(Idle) || p == IsPublication
      ensures Count(busy + body + idle, p) == Count(busy, p) + Count(body, p) + Count(idle, p)
    {
      CountAppend(busy, body, p);
      CountAppend(busy + body, idle, p);
    }
    CountNone(body, IsStatus(Busy));
    CountNone(body, IsStatus(Idle));
    CountNone(body, IsPublication);
  }

  /**
   * Every status message the bracket publishes is built from the request it
   * brackets, so Busy and Idle carry the same parent linkage.
   */
  lemma BracketParent(req: Request, body: seq<Event>, c: Completion)
    requires Unpublished(body)
    ensures var t := BracketEvents(req, body, c);
      forall i :: 0 <= i < |t| && t[i].Published? ==> t[i].msg.Status? && t[i].msg.parent == req
  {
  }

  /**
   * The liveness gap as written: when the body throws or its Promise is
   * rejected, Busy has been published and no Idle ever follows.
   */
  lemma NoIdleAfterFault(req: Request, body: seq<Event>, c: Completion)
    requires Unpublished(body)
    requires c == Rejected || c == Threw
    ensures Count(BracketEvents(req, body, c), IsStatus(Busy)) == 1
    ensures Count(BracketEvents(req, body, c), IsStatus(Idle)) == 0
  {
    BracketStatusCounts(req, body, c);
  }

  /** A handler that keeps the base class's `_handle` leaves its request Busy for good. */
  lemma BaseHandleStaysBusy(req: Request)
    ensures BracketEvents(req, [], BaseCompletion) == [Published(Status(Busy, req))]
    ensures Count(BracketEvents(req, [], BaseCompletion), IsStatus(Idle)) == 0
  {
  }
}
