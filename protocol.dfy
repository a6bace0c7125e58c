/**
 * The vocabulary shared by the kernel model: channels, requests, the abstract
 * outbound messages ("message flavours"), the results of the session's
 * asynchronous operations, and the effect log the kernel appends to.
 */
module Protocol {

  /** The five endpoints of the kernel's socket set. */
  datatype Channel = Heartbeat | IOPub | STDIn | Shell | Control

  /**
   * The data sockets, in the order the kernel's socket table is created; `Object.values`
   * yields this order as long as the socket-type keys are not integer-like strings.
   */
  const DataChannels: seq<Channel> := [IOPub, STDIn, Shell, Control]

  /** The position of a data channel in the socket table. */
  function DataIndex(ch: Channel): (k: nat)
    requires ch != Heartbeat
    ensures k < |DataChannels| && DataChannels[k] == ch
  {
    match ch
    case IOPub => 0
    case STDIn => 1
    case Shell => 2
    case Control => 3
  }

  /** Every socket in the order shutdown visits them: the data sockets, then the heartbeat. */
  const AllChannels: seq<Channel> := DataChannels + [Heartbeat]

  /** The kernel's transport identity (a UUID drawn once at construction). */
  type Identity = string

  /** Raw heartbeat payload. */
  type Bytes = seq<bv8>

  /**
   * A parsed JSON value as JavaScript sees it; only its truthiness matters here.
   * Numbers are integers in this model.
   */
  datatype JsValue = Undefined | Null | Bool(b: bool) | Number(n: int) | Str(s: string) | Object

  /** JavaScript truthiness: `undefined`, `null`, `false`, `0` and `""` are falsy. */
  predicate Truthy(v: JsValue)
  {
    match v
    case Undefined => false
    case Null => false
    case Bool(b) => b
    case Number(n) => n != 0
    case Str(s) => s != ""
    case Object => true
  }

  /**
   * An incoming request: its `header.msg_type` tag, an opaque header that
   * replies and status messages link back to, and `content.restart`.
   */
  datatype Request = Request(msgType: string, header: string, restart: JsValue)

  /** The handler classes of the registry. */
  datatype HandlerKind = DefaultHandler | CommInfoHandler | CommMsgHandler | ExecuteHandler
                       | InterruptHandler | KernelInfoHandler | ShutdownHandler

  datatype KernelStatus = Busy | Idle

  /**
   * Outbound messages, each built by an external codec from a request (its
   * parent) or from session data.
   */
  datatype Outbound =
    | Status(state: KernelStatus, parent: Request)
    | ShutdownReply(parent: Request)
    | CommMessage(commId: string, parentInfo: string, data: string)
    | HandlerMessage(parent: Request, payload: string)

  /** The settled value of an awaited session operation: fulfilled with a code, or rejected. */
  datatype Outcome = Ok(code: int) | Fail

  /** How a handler body `_handle` ends. */
  datatype Completion =
    | Returned   // returned a value that is not a Promise
    | Resolved   // returned a Promise that was fulfilled
    | Rejected   // returned a Promise that was rejected
    | Threw      // threw synchronously

  datatype SocketAction = Bind | DetachListeners | Close

  /** One entry of the kernel's effect log. */
  datatype Event =
    | SocketAct(action: SocketAction, channel: Channel)
    | Echoed(payload: Bytes)                  // heartbeat reply
    | Invoked(handler: HandlerKind, msgType: string)  // `handle` called on a handler
    | Published(msg: Outbound)                // a status the bracket sends with `sendTo(iopubSocket)`
    | SentVia(msg: Outbound)                  // sent through the kernel by a message flavour
    | SessionStopped(result: Outcome)
    | SessionRestarted(result: Outcome)
    | HandlerFault(msgType: string)           // exception logged at the dispatch boundary

  /** The state of one socket: bound to its address, has listeners, closed. */
  datatype SocketState = SocketState(channel: Channel, identity: Identity, bound: bool, listening: bool, closed: bool)

  /** Where the session engine is, as far as the kernel can tell. */
  datatype SessionStatus = Running | Stopped | Faulted

  /**
   * What the collaborators outside the model do while one request is handled:
   * whether the (unmodelled) handler adapter throws before the bracket runs, what
   * an opaque handler body sends and how it completes, and how the awaited
   * session operation settles.
   */
  datatype Collaborators = Collaborators(adapterThrows: bool, bodySends: seq<Outbound>,
                                         bodyCompletion: Completion, sessionResult: Outcome)

  /** The number of entries of `t` that satisfy `p`. */
  function Count(t: seq<Event>, p: Event -> bool): (n: nat)
    ensures n <= |t|
  {
    if t == [] then 0 else (if p(t[0]) then 1 else 0) + Count(t[1..], p)
  }

  lemma {:induction false} CountAppend(s: seq<Event>, t: seq<Event>, p: Event -> bool)
    ensures Count(s + t, p) == Count(s, p) + Count(t, p)
  {
    if s == [] {
      assert s + t == t;
    } else {
      assert (s + t)[1..] == s[1..] + t;
      CountAppend(s[1..], t, p);
    }
  }

  lemma {:induction false} CountNone(t: seq<Event>, p: Event -> bool)
    requires forall i :: 0 <= i < |t| ==> !p(t[i])
    ensures Count(t, p) == 0
  {
    if t != [] {
      assert !p(t[0]);
      CountNone(t[1..], p);
    }
  }
}
