/**
 * What the kernel's lifecycle operations leave in the effect log and do to its
 * sockets: binding the data sockets, shutting down, and republishing the
 * session's comm events.
 */
module Lifecycle {
  import opened Protocol

  /** One `action` on each channel of `chs`, in order. */
  function OpEvents(action: SocketAction, chs: seq<Channel>): (t: seq<Event>)
    ensures |t| == |chs|
    ensures forall i :: 0 <= i < |t| ==> t[i] == SocketAct(action, chs[i])
  {
    if chs == [] then [] else OpEvents(action, chs[..|chs| - 1]) + [SocketAct(action, chs[|chs| - 1])]
  }

  /** One more step of a `forEach` over `chs` appends the action on `chs[i]`. */
  lemma OpEventsExtend(t0: seq<Event>, action: SocketAction, chs: seq<Channel>, i: nat)
    requires i < |chs|
    ensures t0 + OpEvents(action, chs[..i]) + [SocketAct(action, chs[i])] == t0 + OpEvents(action, chs[..i + 1])
  {
    assert chs[..i + 1][..i] == chs[..i];
  }

  /** Appending the shutdown steps one after the other appends `ShutdownEvents`. */
  lemma ShutdownAppend(t0: seq<Event>, stop: Outcome)
    ensures t0 + OpEvents(DetachListeners, AllChannels) + [SessionStopped(stop)]
               + (if stop.Ok? then OpEvents(Close, AllChannels) else [])
         == t0 + ShutdownEvents(stop)
  {
  }

  /** An action on every socket is the action on the data sockets followed by the action on the heartbeat. */
  lemma OpEventsAllChannels(action: SocketAction)
    ensures OpEvents(action, AllChannels) == OpEvents(action, DataChannels) + [SocketAct(action, Heartbeat)]
    ensures OpEvents(action, DataChannels[..|DataChannels|]) == OpEvents(action, DataChannels)
  {
    assert AllChannels[..|AllChannels| - 1] == DataChannels;
    assert DataChannels[..|DataChannels|] == DataChannels;
  }

  /** The entries `bindAndGo` leaves: each data socket bound once, in table order. */
  function BindEvents(): seq<Event>
  {
    OpEvents(Bind, DataChannels)
  }

  /**
   * The entries `shutdown` leaves: every socket's listeners removed, the session
   * stopped, and, only when the stop was fulfilled, every socket closed.
   */
  function ShutdownEvents(stop: Outcome): seq<Event>
  {
    OpEvents(DetachListeners, AllChannels) + [SessionStopped(stop)]
      + (if stop.Ok? then OpEvents(Close, AllChannels) else [])
  }

  /** A socket after `removeAllListeners`. */
  function Detached(s: SocketState): (r: SocketState)
    ensures r.channel == s.channel && r.identity == s.identity && r.bound == s.bound && r.closed == s.closed
    ensures !r.listening
  {
    s.(listening := false)
  }

  /** A socket after `shutdown` whose stop settled as `stop`. */
  function AfterShutdown(s: SocketState, stop: Outcome): (r: SocketState)
    ensures r.channel == s.channel && r.identity == s.identity && r.bound == s.bound
    ensures !r.listening
    ensures r.closed == (s.closed || stop.Ok?)
  {
    if stop.Ok? then Detached(s).(closed := true) else Detached(s)
  }

  /** The session's state once `stop` settled as `stop`. */
  function SessionAfterStop(stop: Outcome): SessionStatus
  {
    if stop.Ok? then Stopped else Faulted
  }

  /** The session's state once `restart` settled as `result`. */
  function SessionAfterRestart(result: Outcome): SessionStatus
  {
    if result.Ok? then Running else Faulted
  }

  /** No channel occurs twice in `chs`. */
  predicate Distinct(chs: seq<Channel>)
  {
    forall i, j :: 0 <= i < j < |chs| ==> chs[i] != chs[j]
  }

  /** The log entry for `action` on `ch`. */
  function IsAct(action: SocketAction, ch: Channel): Event -> bool
  {
    (e: Event) => e == SocketAct(action, ch)
  }

  /** Over distinct channels, each channel gets the action exactly once and no other channel gets it. */
  lemma {:induction false} OpEventsOnce(action: SocketAction, chs: seq<Channel>, ch: Channel)
    requires Distinct(chs)
    ensures Count(OpEvents(action, chs), IsAct(action, ch)) == (if ch in chs then 1 else 0)
  {
    if chs != [] {
      var init, last := chs[..|chs| - 1], chs[|chs| - 1];
      assert chs == init + [last];
      OpEventsOnce(action, init, ch);
      CountAppend(OpEvents(action, init), [SocketAct(action, last)], IsAct(action, ch));
      assert Count([SocketAct(action, last)], IsAct(action, ch)) == (if last == ch then 1 else 0);
      if last == ch {
        assert ch !in init;
      }
    }
  }

  /** `bindAndGo` binds each data socket exactly once and never touches the heartbeat. */
  lemma BindEachDataSocketOnce(ch: Channel)
    ensures BindEvents() == [SocketAct(Bind, IOPub), SocketAct(Bind, STDIn), SocketAct(Bind, Shell), SocketAct(Bind, Control)]
    ensures Count(BindEvents(), IsAct(Bind, ch)) == (if ch == Heartbeat then 0 else 1)
  {
    OpEventsOnce(Bind, DataChannels, ch);
  }

  /** Shutdown removes the listeners of every socket exactly once, and closes each exactly once when the stop is fulfilled. */
  lemma ShutdownTouchesEachSocketOnce(stop: Outcome, ch: Channel)
    ensures Count(ShutdownEvents(stop), IsAct(DetachListeners, ch)) == 1
    ensures Count(ShutdownEvents(stop), IsAct(Close, ch)) == (if stop.Ok? then 1 else 0)
  {
    var detach, closes := OpEvents(DetachListeners, AllChannels), OpEvents(Close, AllChannels);
    var tail := if stop.Ok? then closes else [];
    assert ch in AllChannels;
    forall action
      ensures Count(ShutdownEvents(stop), IsAct(action, ch))
           == Count(detach, IsAct(action, ch)) + Count([SessionStopped(stop)], IsAct(action, ch)) + Count(tail, IsAct(action, ch))
    {
      CountAppend(detach, [SessionStopped(stop)], IsAct(action, ch));
      CountAppend(detach + [SessionStopped(stop)], tail, IsAct(action, ch));
    }
    OpEventsOnce(DetachListeners, AllChannels, ch);
    OpEventsOnce(Close, AllChannels, ch);
    CountNone(closes, IsAct(DetachListeners, ch));
    CountNone(detach, IsAct(Close, ch));
  }

  /**
   * Shutdown ordering: every socket's listeners are removed before the session
   * is stopped, and sockets are closed only after the stop completed and only
   * when it was fulfilled; the session is stopped exactly once.
   */
  lemma ShutdownOrder(stop: Outcome)
    ensures var t := ShutdownEvents(stop);
      forall i, j :: (0 <= i < |t| && 0 <= j < |t| && t[i].SocketAct? && t[i].action == DetachListeners
                      && t[j].SessionStopped?) ==> i < j
    ensures var t := ShutdownEvents(stop);
      forall i, j :: (0 <= i < |t| && 0 <= j < |t| && t[i].SessionStopped?
                      && t[j].SocketAct? && t[j].action == Close) ==> i < j
    ensures var t := ShutdownEvents(stop);
      forall i, j :: 0 <= i < |t| && 0 <= j < |t| && t[i].SessionStopped? && t[j].SessionStopped? ==> i == j
    ensures SessionStopped(stop) in ShutdownEvents(stop)
    ensures var t := ShutdownEvents(stop);
      forall ch :: SocketAct(DetachListeners, ch) in t
    ensures var t := ShutdownEvents(stop);
      forall ch :: SocketAct(Close, ch) in t <==> stop.Ok?
  {
    var t := ShutdownEvents(stop);
    var n := |AllChannels|;
    assert t[n] == SessionStopped(stop);
    forall ch
      ensures SocketAct(DetachListeners, ch) in t
      ensures stop.Ok? ==> SocketAct(Close, ch) in t
    {
      var k := match ch case IOPub => 0 case STDIn => 1 case Shell => 2 case Control => 3 case Heartbeat => 4;
      assert AllChannels[k] == ch;
      assert t[k] == SocketAct(DetachListeners, ch);
      if stop.Ok? {
        assert t[n + 1 + k] == SocketAct(Close, ch);
      }
    }
  }

  /** The comm message the kernel sends for a session comm event `{comm_id, data: {pMessageInfo, innerData}}`. */
  function CommMessageFor(commId: string, pMessageInfo: string, innerData: string): Outbound
  {
    CommMessage(commId, pMessageInfo, innerData)
  }

  /** Reads back the comm id, parent info and payload a comm message carries. */
  function CommFields(m: Outbound): (r: (string, string, string))
    requires m.CommMessage?
  {
    (m.commId, m.parentInfo, m.data)
  }

  /** The bridge forwards the event's comm id, parent info and payload unmodified. */
  lemma CommBridgePreserves(commId: string, pMessageInfo: string, innerData: string)
    ensures CommMessageFor(commId, pMessageInfo, innerData).CommMessage?
    ensures CommFields(CommMessageFor(commId, pMessageInfo, innerData)) == (commId, pMessageInfo, innerData)
  {
  }
}
