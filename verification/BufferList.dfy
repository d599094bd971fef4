/** The singly linked list that TBufferQue and TMailBox both keep: Head, Tail and a count, threaded through
    BUFF_NEXT of the buffers (Kernel/buffersQueue.cpp, Kernel/mailbox.cpp). */
module BufferLists {
  import opened Options
  import opened Buffers

  datatype List = List(head: Option<Buffer>, tail: Option<Buffer>, count: nat)

  const EMPTY: List := List(None, None, 0)

  ghost function At(items: seq<Buffer>, i: nat): Option<Buffer> {
    if i < |items| then Some(items[i]) else None
  }

  /** Head, Tail and the count fit the items. */
  ghost predicate Ends(list: List, items: seq<Buffer>) {
    && list.head == At(items, 0)
    && list.tail == (if items == [] then None else Some(items[|items| - 1]))
    && list.count == |items|
  }

  /** Each of `items` points to the one after it, the last to nothing. */
  ghost predicate Chain(store: Store, items: seq<Buffer>) {
    forall i :: 0 <= i < |items| ==> items[i] in store && store[items[i]].next == At(items, i + 1)
  }

  ghost function Track(store: Store, b: Buffer, user: User): Store
    requires b in store
  {
    store[b := store[b].(tracking := user)]
  }

  /** The store after `info` has been linked behind `items`. */
  ghost function LinkLast(store: Store, items: seq<Buffer>, info: Buffer): Store
    requires info in store && Chain(store, items)
  {
    var ended := store[info := store[info].(next := None)];
    if items == [] then ended
    else
      var last := items[|items| - 1];
      ended[last := ended[last].(next := Some(info))]
  }

  /** Linking `info` behind `items` appends it to that chain... */
  lemma LinkLastAppends(store: Store, items: seq<Buffer>, info: Buffer)
    requires info in store && info !in items && Chain(store, items)
    requires forall i, j :: 0 <= i < j < |items| ==> items[i] != items[j]
    ensures Chain(LinkLast(store, items, info), items + [info])
  {
  }
}
