/**
 * The handler registry of the kernel: a table from message-type tag to handler,
 * and the lookup that falls back to the `_default` entry.
 */
module Dispatch {
  import opened Protocol

  const DefaultTag: string := "_default"

  /** The tag under which the registry files each handler. */
  function TagOf(k: HandlerKind): string
  {
    match k
    case DefaultHandler => DefaultTag
    case CommInfoHandler => "comm_info_request"
    case CommMsgHandler => "comm_msg"
    case ExecuteHandler => "execute_request"
    case InterruptHandler => "interrupt_request"
    case KernelInfoHandler => "kernel_info_request"
    case ShutdownHandler => "shutdown_request"
  }

  /** The table the kernel builds in its constructor. */
  const HandlerTable: map<string, HandlerKind> := map[
    DefaultTag := DefaultHandler,
    "comm_info_request" := CommInfoHandler,
    "comm_msg" := CommMsgHandler,
    "execute_request" := ExecuteHandler,
    "interrupt_request" := InterruptHandler,
    "kernel_info_request" := KernelInfoHandler,
    "shutdown_request" := ShutdownHandler
  ]

  /**
   * The handler for a tag: the table's entry when there is one, the `_default`
   * entry otherwise. It is defined for every tag of every table that has a
   * `_default` entry.
   */
  function Lookup(table: map<string, HandlerKind>, tag: string): (h: HandlerKind)
    requires DefaultTag in table
    ensures h in table.Values
    ensures tag in table ==> h == table[tag]
    ensures tag !in table ==> h == table[DefaultTag]
  {
    if tag in table then table[tag] else table[DefaultTag]
  }

  /** The handler the kernel addresses for a message of type `tag`. */
  function HandlerFor(tag: string): HandlerKind
  {
    Lookup(HandlerTable, tag)
  }

  /** The table holds exactly seven entries, one per handler kind, each under its own tag. */
  lemma HandlerTableShape()
    ensures HandlerTable.Keys == {DefaultTag, "comm_info_request", "comm_msg", "execute_request",
                                  "interrupt_request", "kernel_info_request", "shutdown_request"}
    ensures |HandlerTable| == 7
    ensures forall k :: TagOf(k) in HandlerTable && HandlerTable[TagOf(k)] == k
  {
  }

  /** Distinct handlers are filed under distinct tags. */
  lemma TagsDistinct(j: HandlerKind, k: HandlerKind)
    ensures TagOf(j) == TagOf(k) <==> j == k
  {
  }

  /** A registered tag reaches its own handler. */
  lemma LookupRegistered(k: HandlerKind)
    ensures HandlerFor(TagOf(k)) == k
  {
    HandlerTableShape();
  }

  /**
   * Lookup is total: a tag that names no registered handler reaches the
   * `_default` handler, and the default handler is reached only that way or by
   * its own tag.
   */
  lemma LookupUnregistered(tag: string)
    ensures HandlerFor(tag) == DefaultHandler <==> (tag == DefaultTag || tag !in HandlerTable)
    ensures tag !in HandlerTable <==> forall k :: TagOf(k) != tag
  {
    HandlerTableShape();
    if tag in HandlerTable {
      var k := HandlerTable[tag];
      assert TagOf(k) == tag;
    }
  }
}
