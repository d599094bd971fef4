/** The kernel objects: free lists, mailboxes with their semaphores and the timer delta list
    (Kernel/buffers.cpp, Kernel/buffersQueue.cpp, Kernel/mailbox.cpp, Kernel/postOffice.cpp, Kernel/timer.cpp).

    The source has one TBuffers, one TPostOffice and one CTimer, reached through static pointers; here they are the
    one Kernel object.  The ghost field `s` is the state of KernelSpec; every method is proved to perform the step
    of that state machine by relinking buffers in place. */
module Kernels {
  import opened Options
  import opened Buffers
  import opened BufferLists
  import opened BufferClasses
  import opened Timeline
  import opened KernelSpec
  import opened KernelSafety
  import opened KernelStore
  import opened KernelShutdown

  class Kernel {
    const lengths: seq<nat>
    var store: Store
    var queues: seq<List>
    var mailboxes: seq<List>
    var sems: seq<nat>
    var dummy: Header
    const initiated: seq<nat>
    const resolution: nat
    ghost var s: State

    /** The TBuffers, TPostOffice and CTimer constructors; as the source demands, there is at least one class, no
        class is empty and the tick has a length. */
    constructor (buffersCount: array<nat>, buffersLength: array<nat>, mailBoxesNum: nat, systemResolution: nat)
      requires buffersCount != buffersLength && buffersCount.Length == buffersLength.Length && 0 < buffersLength.Length
      requires forall c :: 0 <= c < buffersCount.Length ==> 0 < buffersCount[c]
      requires 0 < systemResolution
      modifies buffersCount, buffersLength
      ensures Valid() && Initial(s) && resolution == systemResolution
      ensures |s.boxes| == mailBoxesNum && |s.pools| == |lengths| == |initiated| == buffersLength.Length
      ensures lengths == buffersLength[..] && initiated == buffersCount[..]
      ensures multiset(Classes(lengths, initiated))
              == multiset(Classes(old(buffersLength[..]), old(buffersCount[..])))
      ensures forall c :: 0 <= c < |initiated| ==> |OfClass(s, c)| == initiated[c]
    {
      SortClasses(buffersCount, buffersLength);
      var n := buffersLength.Length;
      lengths, initiated, resolution := buffersLength[..], buffersCount[..], systemResolution;
      queues, mailboxes := seq(n, _ => EMPTY), seq(mailBoxesNum, _ => EMPTY);
      sems, store := seq(mailBoxesNum, _ => 0), map[];
      dummy := Header(None, UserTimer, 0, 0, 0, 0);
      s := Blank(n, mailBoxesNum);
      new;
      CarveAll();
    }

    lemma NothingCarved()
      requires |lengths| == |initiated| && SortedTo(lengths, |lengths|) && store == map[]
      requires queues == seq(|lengths|, _ => EMPTY) && mailboxes == seq(|sems|, _ => EMPTY)
      requires sems == seq(|sems|, _ => 0) && s == Blank(|lengths|, |sems|)
      requires dummy.next == None && dummy.timerCount == 0
      ensures Carved(0)
    {
      hide OnePlaceEach, StoreOk, ListsOk;
      BlankStore(lengths, queues, mailboxes, |lengths|, |sems|);
    }

    lemma AllCarved()
      requires Carved(|lengths|)
      ensures Valid() && Initial(s)
      ensures forall c :: 0 <= c < |initiated| ==> |OfClass(s, c)| == initiated[c]
    {
      InitialIsSettled(s);
      hide OnePlaceEach, StoreOk, ListsOk;
      forall c | 0 <= c < |initiated| ensures |OfClass(s, c)| == initiated[c] {
        InitialHasAll(s, c);
      }
    }

    /** The loop over the classes in the TBuffers constructor. */
    method CarveAll()
      requires |lengths| == |initiated| && SortedTo(lengths, |lengths|) && store == map[]
      requires queues == seq(|lengths|, _ => EMPTY) && mailboxes == seq(|sems|, _ => EMPTY)
      requires sems == seq(|sems|, _ => 0) && s == Blank(|lengths|, |sems|)
      requires dummy.next == None && dummy.timerCount == 0
      modifies this`s, this`store, this`queues
      ensures Valid() && Initial(s) && |s.boxes| == |sems| && |s.pools| == |lengths|
      ensures forall c :: 0 <= c < |initiated| ==> |OfClass(s, c)| == initiated[c]
    {
      hide Valid, Rep, Initial;
      NothingCarved();
      var c := 0;
      while c < |lengths|
        invariant 0 <= c <= |lengths| && Carved(c) && |s.boxes| == |sems| && |s.pools| == |lengths|
      {
        CarveClass(c);
        c := c + 1;
      }
      AllCarved();
    }

    /** The first c classes have been carved; all buffers are free. */
    ghost predicate Carved(c: nat)
      reads this
    {
      && Rep() && Initial(s) && dummy.timerCount == 0 && Semaphores()
      && c <= |lengths| == |initiated|
      && (forall d :: 0 <= d < c ==> |s.pools[d]| == initiated[d])
      && (forall d :: c <= d < |lengths| ==> s.pools[d] == [])
    }

    /** In addition, i buffers of class c. */
    ghost predicate Carving(c: nat, i: nat)
      reads this
    {
      && Rep() && Initial(s) && dummy.timerCount == 0 && Semaphores()
      && c < |lengths| == |initiated|
      && (forall d :: 0 <= d < c ==> |s.pools[d]| == initiated[d])
      && |s.pools[c]| == i && (forall b :: b in s.where && b.cls == c ==> b.index < i)
      && (forall d :: c < d < |lengths| ==> s.pools[d] == [])
    }

    lemma StartsCarving(c: nat)
      requires Carved(c) && c < |lengths|
      ensures Carving(c, 0)
    {
      assert Holds(s.where, s.pools[c], FreeList(c));
      NobodyThere(s.where, FreeList(c));
    }

    lemma EndsCarving(c: nat)
      requires Carving(c, if c < |initiated| then initiated[c] else 0)
      ensures Carved(c + 1)
    {
    }

    /** The carving loop of the TBufferQue constructor. */
    method CarveClass(c: nat)
      requires Carved(c) && c < |lengths| == |initiated|
      modifies this`s, this`store, this`queues
      ensures Carved(c + 1) && |s.boxes| == old(|s.boxes|) && |s.pools| == old(|s.pools|)
    {
      StartsCarving(c);
      hide *;
      var i := 0;
      while i < initiated[c]
        invariant 0 <= i <= initiated[c] && Carving(c, i)
        invariant |s.boxes| == old(|s.boxes|) && |s.pools| == old(|s.pools|)
      {
        CarveOne(c, i);
        i := i + 1;
      }
      EndsCarving(c);
    }

    method CarveOne(c: nat, i: nat)
      requires Carving(c, i)
      modifies this`s, this`store, this`queues
      ensures Carving(c, i + 1) && |s.boxes| == old(|s.boxes|) && |s.pools| == old(|s.pools|)
    {
      hide Placed, StoreOk, ListsOk, Fronts, Initial;
      Carve(Buffer(c, i));
    }

    method Carve(b: Buffer)
      requires Rep() && Initial(s) && Semaphores() && b !in s.where && b.cls < |s.pools|
      modifies this`s, this`store, this`queues
      ensures Rep() && Initial(s) && Semaphores()
      ensures s == Free(Known(old(s), b), b)
    {
      hide Placed, StoreOk, ListsOk, Fronts;
      FreshKeepsStore(s, store, b);
      store := store[b := Header(None, UserFree, 0, 0, 0, 0)];
      s := Known(s, b);
      ListsStayOk(lengths, queues, mailboxes, old(s), s);
      var ok := RetBuffer(b);
      FreedIsInitial(old(s), b);
    }

    // -------------------------------------------------------------- representation

    ghost predicate Shaped()
      reads this
    {
      && ListsOk(lengths, queues, mailboxes, s)
      && |lengths| == |queues| == |s.pools| && |s.boxes| == |s.ledgers| == |sems| == |mailboxes|
    }

    ghost predicate Rep()
      reads this
    {
      && Placed(s) && Shaped() && StoreOk(s, store)
      && Fronts(dummy, s.line)
    }

    ghost predicate Semaphores()
      requires Shaped()
      reads this
    {
      forall m :: 0 <= m < |mailboxes| ==> sems[m] == s.ledgers[m].sem
    }

    ghost predicate Valid()
      reads this
    {
      Rep() && Inv(s) && Timed() && Semaphores()
    }

    /** The delta list represents the timeline. */
    ghost predicate Timed()
      reads this
    {
      DeltasOk(s.line, store) && dummy.timerCount == 0
    }

    // -------------------------------------------------------------- lists

    /** GetFromHead and the protection check behind it: the buffer leaves the list and belongs to the caller. */
    method Unlink(list: List, ghost items: seq<Buffer>, user: User) returns (rest: List, info: Option<Buffer>)
      requires Ends(list, items) && Chain(store, items)
      requires items != [] ==> store[items[0]].tracking == user
      modifies this`store
      ensures info == At(items, 0) && Ends(rest, if items == [] then [] else items[1..])
      ensures store == if items == [] then old(store) else Track(old(store), items[0], UserFree)
      ensures SameMessages(old(store), store)
    {
      if list.head == None {
        return list, None;
      }
      info := list.head;
      var next := store[info.value].next;
      rest := List(next, if next == None then None else list.tail, list.count - 1);
      assert store[info.value].tracking == user;
      store := store[info.value := store[info.value].(tracking := UserFree)];
    }

    /** The protection check of Add, and PutOnTail: only a buffer that is in no list may enter one. */
    method LinkIn(list: List, ghost items: seq<Buffer>, user: User, info: Buffer) returns (longer: List, ok: bool)
      requires Ends(list, items) && info in store
      requires store[info].tracking == UserFree ==> info !in items && Chain(Track(store, info, user), items)
      modifies this`store
      ensures ok == (old(store)[info].tracking == UserFree) && SameMessages(old(store), store)
      ensures ok ==> Ends(longer, items + [info]) && store == LinkLast(Track(old(store), info, user), items, info)
      ensures !ok ==> longer == list && store == old(store)
    {
      if store[info].tracking != UserFree {
        return list, false;
      }
      store := store[info := store[info].(tracking := user)];
      store := store[info := store[info].(next := None)];
      longer := list;
      if list.tail == None {
        longer := longer.(head := Some(info));
      } else {
        store := store[list.tail.value := store[list.tail.value].(next := Some(info))];
      }
      longer := longer.(tail := Some(info), count := list.count + 1);
      return longer, true;
    }

    // -------------------------------------------------------------- buffers

    lemma TrackingTells(b: Buffer)
      requires Rep() && b in s.where
      ensures b in store && b.cls < |queues| && (store[b].tracking == UserFree <==> s.where[b] == Held)
    {
    }

    lemma CanFree(b: Buffer)
      requires Rep() && IsAt(s, b, Held)
      ensures b in store && b.cls < |queues| && Placed(Free(s, b))
      ensures var list := s.pools[b.cls];
              var tracked := Track(store, b, UserBuffers);
              b !in list && Chain(tracked, list) && StoreOk(Free(s, b), LinkLast(tracked, list, b))
    {
      FreeKeepsPlaces(s, b);
      AppendKeepsStore(s, Free(s, b), store, b, FreeList(b.cls));
    }

    /** TBuffers::RetBuffer and TBufferQue::Add: the protection check refuses a buffer its caller does not hold. */
    method RetBuffer(b: Buffer) returns (ok: bool)
      requires Rep() && b in s.where
      modifies this`s, this`store, this`queues
      ensures Rep() && ok == (old(s).where[b] == Held) && SameMessages(old(store), store)
      ensures s == if ok then Free(old(s), b) else old(s)
    {
      hide Placed, StoreOk, SameMessages, LinkLast, Chain;
      TrackingTells(b);
      if s.where[b] == Held {
        CanFree(b);
      }
      var list;
      list, ok := LinkIn(queues[b.cls], s.pools[b.cls], UserBuffers, b);
      if ok {
        queues := queues[b.cls := list];
        s := Free(s, b);
      }
    }

    lemma CanPopFree(c: nat)
      requires Rep() && c < |queues| && s.pools[c] != []
      ensures IsAt(s, s.pools[c][0], FreeList(c)) && s.pools[c][0] in store && Placed(PopFree(s, c))
      ensures StoreOk(PopFree(s, c), Track(store, s.pools[c][0], UserFree))
      ensures Chain(store, s.pools[c]) && store[s.pools[c][0]].tracking == UserBuffers
    {
      PopFreeKeepsPlaces(s, c);
      UnlinkKeepsStore(s, PopFree(s, c), store, s.pools[c][0], FreeList(c));
      assert ChainOk(s, store, FreeList(c));
    }

    /** TBufferQue::Get. */
    method GetFree(c: nat) returns (got: Option<Buffer>)
      requires Rep() && c < |queues|
      modifies this`s, this`store, this`queues
      ensures Rep() && SameMessages(old(store), store)
      ensures old(s).pools[c] == [] ==> got == None && s == old(s)
      ensures old(s).pools[c] != [] ==> got == Some(old(s).pools[c][0]) && s == PopFree(old(s), c)
    {
      hide Placed, StoreOk, SameMessages;
      if s.pools[c] != [] {
        CanPopFree(c);
      } else {
        assert Chain(store, []);
      }
      var list;
      list, got := Unlink(queues[c], s.pools[c], UserBuffers);
      if got.Some? {
        queues := queues[c := list];
        s := PopFree(s, c);
      }
    }

    /** TBuffers::GetBuffer: skip the classes that are too short, then the ones that are empty. */
    method GetBuffer(length: nat) returns (got: Option<Buffer>)
      requires Rep()
      modifies this`s, this`store, this`queues
      ensures Rep() && SameMessages(old(store), store)
      ensures (s, got) == Allocate(lengths, old(s), length)
    {
      hide Placed, StoreOk;
      var i := 0;
      while i < |queues| && length > lengths[i]
        invariant 0 <= i <= |queues|
        invariant FirstFit(lengths, s.pools, length, 0) == FirstFit(lengths, s.pools, length, i)
      {
        i := i + 1;
      }
      while i < |queues|
        invariant 0 <= i <= |queues| && Rep() && s == old(s) && SameMessages(old(store), store)
        invariant i < |queues| ==> length <= lengths[i]
        invariant FirstFit(lengths, s.pools, length, 0) == FirstFit(lengths, s.pools, length, i)
      {
        got := GetFree(i);
        if got.Some? {
          return got;
        }
        i := i + 1;
      }
      return None;
    }

    // -------------------------------------------------------------- mailboxes

    lemma CanPost(m: nat, b: Buffer)
      requires Rep() && m < |mailboxes| && IsAt(s, b, Held)
      ensures b in store && Placed(Post(s, m, b))
      ensures var list := s.boxes[m];
              var tracked := Track(store, b, UserMbx);
              b !in list && Chain(tracked, list) && StoreOk(Post(s, m, b), LinkLast(tracked, list, b))
    {
      PostKeepsPlaces(s, m, b);
      AppendKeepsStore(s, Post(s, m, b), store, b, Mailbox(m));
    }

    /** TMailBox::Add: the semaphore is left to the caller. */
    method Enqueue(m: nat, b: Buffer) returns (ok: bool)
      requires Rep() && m < |mailboxes| && b in s.where
      modifies this`s, this`store, this`mailboxes
      ensures Rep() && ok == (old(s).where[b] == Held) && SameMessages(old(store), store)
      ensures s == if ok then Post(old(s), m, b) else old(s)
    {
      hide Placed, StoreOk, SameMessages, LinkLast, Chain;
      TrackingTells(b);
      if s.where[b] == Held {
        CanPost(m, b);
      }
      var list;
      list, ok := LinkIn(mailboxes[m], s.boxes[m], UserMbx, b);
      if ok {
        mailboxes := mailboxes[m := list];
        s := Post(s, m, b);
      }
    }

    /** TPostOffice::Add: queue the message, then release the semaphore unless it is at its maximum. */
    method Add(m: nat, b: Buffer) returns (ok: bool)
      requires Rep() && Semaphores() && b in s.where
      modifies this`s, this`sems, this`store, this`mailboxes
      ensures Rep() && Semaphores() && SameMessages(old(store), store)
      ensures ok == (m < old(|mailboxes|) && old(s).where[b] == Held)
      ensures s == if ok then Post(old(s), m, b) else old(s)
    {
      hide Placed, StoreOk;
      if m >= |mailboxes| {
        return false;
      }
      ok := Enqueue(m, b);
      if ok && sems[m] < SEMAPHORE_MAX {
        sems := sems[m := sems[m] + 1];
      }
    }

    lemma CanHandOut(m: nat)
      requires Rep() && m < |mailboxes| && s.boxes[m] != []
      ensures IsAt(s, s.boxes[m][0], Mailbox(m)) && s.boxes[m][0] in store && Placed(HandOutHead(s, m))
      ensures StoreOk(HandOutHead(s, m), Track(store, s.boxes[m][0], UserFree))
      ensures Chain(store, s.boxes[m]) && store[s.boxes[m][0]].tracking == UserMbx
    {
      HandOutHeadKeepsPlaces(s, m);
      UnlinkKeepsStore(s, HandOutHead(s, m), store, s.boxes[m][0], Mailbox(m));
      assert ChainOk(s, store, Mailbox(m));
    }

    method Dequeue(m: nat) returns (got: Option<Buffer>)
      requires Rep() && m < |mailboxes|
      modifies this`s, this`store, this`mailboxes
      ensures Rep() && SameMessages(old(store), store)
      ensures old(s).boxes[m] == [] ==> got == None && s == old(s)
      ensures old(s).boxes[m] != [] ==>
                got == Some(old(s).boxes[m][0]) && s == HandOutHead(old(s), m) && got.value in store
    {
      hide Placed, StoreOk, SameMessages;
      if s.boxes[m] != [] {
        CanHandOut(m);
      } else {
        assert Chain(store, []);
      }
      var list;
      list, got := Unlink(mailboxes[m], s.boxes[m], UserMbx);
      if got.Some? {
        mailboxes := mailboxes[m := list];
        s := HandOutHead(s, m);
      }
    }

    lemma LedgersDontMatter(ledgers: seq<Ledger>)
      requires Rep() && |ledgers| == |s.ledgers|
      ensures var t := s.(ledgers := ledgers);
              Placed(t) && StoreOk(t, store) && ListsOk(lengths, queues, mailboxes, t) && Fronts(dummy, t.line)
    {
      PlacesIgnoreLedgers(s, ledgers);
      forall p: Place ensures ChainOk(s.(ledgers := ledgers), store, p) {
        assert ChainOk(s, store, p);
      }
    }

    lemma CodeIsKept(b: Buffer)
      requires Rep() && b in s.where
      ensures b in store && store[b].msgCode == s.CodeOf(b)
    {
    }

    method Discard(m: nat, b: Buffer)
      requires Rep() && m < |mailboxes| && IsAt(s, b, Held)
      modifies this`s, this`store, this`queues
      ensures Rep() && SameMessages(old(store), store) && b.cls < |old(s).pools|
      ensures s == CountDropped(Free(old(s), b), m)
    {
      hide Placed, StoreOk, ListsOk, Fronts;
      TrackingTells(b);
      var ok := RetBuffer(b);
      LedgersDontMatter(CountDropped(s, m).ledgers);
      s := CountDropped(s, m);
    }

    /** TMailBox::Get: discarded messages at the head go back to the pool, the first live one to the caller. */
    method Receive(m: nat) returns (got: Option<Buffer>)
      requires Rep() && m < |mailboxes|
      modifies this`s, this`store, this`queues, this`mailboxes
      ensures Rep() && SameMessages(old(store), store)
      ensures Readable(old(s), m) && (s, got) == Take(old(s), m)
    {
      hide Placed, StoreOk, ListsOk, Fronts, Holds;
      InvReadable(s, m);
      ghost var was := s;
      got := Dequeue(m);
      while got.Some? && store[got.value].msgCode == DISCARDED
        invariant Rep() && Readable(was, m) && Readable(old(s), m) && Take(was, m) == Take(old(s), m)
        invariant got == At(was.boxes[m], 0) && s == if got.Some? then HandOutHead(was, m) else was
        invariant got.Some? ==> got.value in store && was.codes == s.codes && IsAt(s, got.value, Held)
        invariant SameMessages(old(store), store)
        decreases |was.boxes[m]|
      {
        CodeIsKept(got.value);
        Discard(m, got.value);
        InvReadable(s, m);
        was := s;
        got := Dequeue(m);
      }
      if got.Some? {
        CodeIsKept(got.value);
      }
    }

    // -------------------------------------------------------------- timers

    /** The loop of CTimer::Add: pass every timer that expires no later, subtracting its count on the way. */
    method Walk(b: Buffer, ghost n: nat) returns (prev: Option<Buffer>, current: Option<Buffer>, ghost i: nat)
      requires Linked(s, dummy, store) && IsAt(s, b, Held) && n < 0x1_0000_0000
      requires b in store && store[b].timerCount == n
      modifies this`store
      ensures Walking(s, old(store), store, b, n, prev, current, i)
      ensures b in store && (current.Some? ==> current.value in store)
      ensures store[b].timerCount < CountOf(dummy, store, current) || NextOf(dummy, store, current).None?
    {
      assert s.line.SerialsExist();
      hide *;
      current, prev, i := None, None, 0;
      WalkStarts(s, store, b, n);
      store := store[b := store[b].(tracking := UserTimer)];
      while store[b].timerCount >= CountOf(dummy, store, current) && NextOf(dummy, store, current).Some?
        invariant Walking(s, old(store), store, b, n, prev, current, i)
        invariant b in store && (current.Some? ==> current.value in store)
        decreases |s.line.pending| - i
      {
        WalkStep(s, dummy, old(store), store, b, n, prev, current, i);
        store := store[b := store[b].(timerCount := store[b].timerCount - CountOf(dummy, store, current))];
        prev, current, i := current, NextOf(dummy, store, current), i + 1;
        WalkReads(s, dummy, old(store), store, b, n, prev, current, i);
      }
    }

    /** BUFF_NEXT of a list element, dummy message included, is set to b. */
    method SetNextOf(link: Option<Buffer>, b: Buffer)
      requires link.Some? ==> link.value in store
      modifies this`store, this`dummy
      ensures store == SetNext(old(store), link, b)
      ensures dummy == if link.None? then old(dummy).(next := Some(b)) else old(dummy)
    {
      if link.None? {
        dummy := dummy.(next := Some(b));
      } else {
        store := store[link.value := store[link.value].(next := Some(b))];
      }
    }

    /** Queue b before `current`, whose count is cut by b's. */
    method LinkBefore(b: Buffer, prev: Option<Buffer>, current: Buffer)
      requires b in store && current in store && (prev.Some? ==> prev.value in store) && b != current
      requires store[b].timerCount <= store[current].timerCount
      modifies this`store, this`dummy
      ensures store == SpliceBefore(old(store), b, prev, current,
                                        old(store)[current].timerCount - old(store)[b].timerCount)
      ensures dummy == if prev.None? then old(dummy).(next := Some(b)) else old(dummy)
    {
      var rest := store[current].timerCount - store[b].timerCount;
      store := store[current := store[current].(timerCount := rest)];
      store := store[b := store[b].(next := Some(current))];
      SetNextOf(prev, b);
    }

    /** Queue b after `current`, the end of the list. */
    method LinkAtEnd(b: Buffer, current: Option<Buffer>)
      requires b in store && (current.Some? ==> current.value in store)
      requires CountOf(dummy, store, current) <= store[b].timerCount
      modifies this`store, this`dummy
      ensures store == SpliceAtEnd(old(store), b, current,
                                       old(store)[b].timerCount - CountOf(old(dummy), old(store), current))
      ensures dummy == if current.None? then old(dummy).(next := Some(b)) else old(dummy)
    {
      var rest := store[b].timerCount - CountOf(dummy, store, current);
      store := store[b := store[b].(timerCount := rest, next := None)];
      SetNextOf(current, b);
    }

    /** The branch after the loop of CTimer::Add. */
    method LinkTimer(b: Buffer, prev: Option<Buffer>, current: Option<Buffer>,
                     ghost before: Store, ghost m: nat, ghost n: nat, ghost i: nat)
      requires Linked(s, dummy, before) && IsAt(s, b, Held) && n < 0x1_0000_0000
      requires Walking(s, before, store, b, n, prev, current, i) && before[b].timerMbx == m
      requires current.Some? ==> current.value in store
      requires store[b].timerCount < CountOf(dummy, store, current) || NextOf(dummy, store, current).None?
      modifies this`store, this`dummy
      ensures var k := LeadingDue(s.line.started, s.line.pending, s.line.now + n);
              && Spliced(s.line, before, store, b, m, n, k)
              && dummy == if k == 0 then old(dummy).(next := Some(b)) else old(dummy)
    {
      hide *;
      WalkEnds(s, dummy, before, store, b, n, prev, current, i);
      if store[b].timerCount < CountOf(dummy, store, current) {
        SpliceBeforeWorks(s, dummy, before, store, b, m, n, prev, current, i);
        LinkBefore(b, prev, current.value);
      } else {
        SpliceAtEndWorks(s, dummy, before, store, b, m, n, prev, current, i);
        LinkAtEnd(b, current);
      }
    }

    lemma TimerAdded(was: State, dummyWas: Header, before: Store, b: Buffer, m: nat, n: nat)
      requires Linked(was, dummyWas, before) && IsAt(was, b, Held)
      requires s == Begin(was, b, m, n) && ListsOk(lengths, queues, mailboxes, was)
      requires |was.ledgers| == |sems| == |mailboxes|
      requires var k := LeadingDue(was.line.started, was.line.pending, was.line.now + n);
               && Spliced(was.line, before, store, b, m, n, k)
               && dummy == if k == 0 then dummyWas.(next := Some(b)) else dummyWas
      ensures Rep() && Timed()
    {
      hide OnePlaceEach, StoreOk, DeltasOk, Spliced, Fronts, ListsOk;
      BeginKeepsPlaces(was, b, m, n);
      BeginFronts(was, dummyWas, dummy, b, m, n);
      SplicedKeepsStore(was, before, store, b, m, n);
      SplicedKeepsDeltas(was, before, store, b, m, n);
      ListsStayOk(lengths, queues, mailboxes, was, s);
    }

    method InsertTimer(b: Buffer, ghost m: nat, ghost n: nat)
      requires Linked(s, dummy, store) && IsAt(s, b, Held) && n < 0x1_0000_0000
      requires b in store && store[b].timerCount == n && store[b].timerMbx == m
      modifies this`dummy, this`store
      ensures var k := LeadingDue(s.line.started, s.line.pending, s.line.now + n);
              && Spliced(s.line, old(store), store, b, m, n, k)
              && dummy == if k == 0 then old(dummy).(next := Some(b)) else old(dummy)
    {
      hide *;
      ghost var before := store;
      var prev, current;
      ghost var i;
      prev, current, i := Walk(b, n);
      LinkTimer(b, prev, current, before, m, n, i);
    }

    /** CTimer::Add: b carries its count and mailbox; it is linked into the delta list n ticks from now, unless the
        protection check finds that its caller does not hold it. */
    method AddTimer(b: Buffer, ghost m: nat, ghost n: nat) returns (ok: bool)
      requires Rep() && b in s.where && n < 0x1_0000_0000
      requires b in store && store[b].timerCount == n && store[b].timerMbx == m
      requires IsAt(s, b, Held) ==> Linked(s, dummy, store)
      modifies this`s, this`dummy, this`store
      ensures ok == IsAt(old(s), b, Held)
      ensures ok ==> Rep() && Timed() && s == Begin(old(s), b, m, n) && SameContents(old(store), store, {})
      ensures !ok ==> s == old(s) && store == old(store) && dummy == old(dummy)
    {
      TrackingTells(b);
      assert ListsOk(lengths, queues, mailboxes, s) && |s.ledgers| == |sems| == |mailboxes|;
      hide OnePlaceEach;
      if store[b].tracking != UserFree {
        return false;
      }
      InsertTimer(b, m, n);
      SplicedKeepsContents(s.line, old(store), store, b, m, n,
                           LeadingDue(s.line.started, s.line.pending, s.line.now + n));
      s := Begin(s, b, m, n);
      TimerAdded(old(s), old(dummy), old(store), b, m, n);
      return true;
    }

    // -------------------------------------------------------------- the operations of the application

    lemma MessagesKeepTime(before: Store)
      requires DeltasOk(s.line, before) && SameMessages(before, store) && dummy.timerCount == 0
      ensures Timed()
    {
      DeltasIgnoreLinks(s.line, before, store);
    }

    /** KernelAPI::GetBuffer. */
    method Acquire(length: nat) returns (got: Option<Buffer>)
      requires Valid()
      modifies this`s, this`store, this`queues
      ensures Valid() && (s, got) == Allocate(lengths, old(s), length)
      ensures s.line == old(s).line && s.boxes == old(s).boxes && SameMessages(old(store), store)
      ensures got.Some? ==> IsAt(s, got.value, Held) && IsAt(old(s), got.value, FreeList(got.value.cls))
                            && s.where == old(s).where[got.value := Held]
    {
      hide StoreOk, DeltasOk, ListsOk, Fronts;
      AllocateKeepsInv(lengths, s, length);
      AllocateTakesFree(s, length);
      got := GetBuffer(length);
      MessagesKeepTime(old(store));
    }

    lemma AllocateTakesFree(t: State, length: nat)
      requires Inv(t) && |lengths| == |t.pools|
      ensures var (u, got) := Allocate(lengths, t, length);
              && u.line == t.line && u.boxes == t.boxes && u.ledgers == t.ledgers && u.codes == t.codes
              && (got.Some? ==> IsAt(t, got.value, FreeList(got.value.cls)) && u.where == t.where[got.value := Held])
    {
      var c := FirstFit(lengths, t.pools, length, 0);
      if c < |t.pools| {
        PopFreeKeepsPlaces(t, c);
      }
    }

    /** KernelAPI::RetBuffer. */
    method Release(b: Buffer) returns (ok: bool)
      requires Valid() && b in s.where
      modifies this`s, this`store, this`queues
      ensures Valid() && ok == (old(s).where[b] == Held) && SameMessages(old(store), store)
      ensures s == if ok then Free(old(s), b) else old(s)
    {
      hide OnePlaceEach, StoreOk, DeltasOk, ListsOk, Fronts;
      if s.where[b] == Held {
        FreeKeepsInv(s, b);
      }
      ok := RetBuffer(b);
      MessagesKeepTime(old(store));
    }

    /** KernelAPI::SendMessage. */
    method Send(m: nat, b: Buffer) returns (ok: bool)
      requires Valid() && b in s.where
      modifies this`s, this`sems, this`store, this`mailboxes
      ensures Valid() && ok == (m < old(|mailboxes|) && old(s).where[b] == Held)
      ensures s == (if ok then Post(old(s), m, b) else old(s)) && SameMessages(old(store), store)
    {
      hide OnePlaceEach, StoreOk, DeltasOk, ListsOk, Fronts;
      if m < |mailboxes| && s.where[b] == Held {
        PostKeepsInv(s, m, b);
      }
      ok := Add(m, b);
      MessagesKeepTime(old(store));
    }

    /** TPostOffice::Get; an unknown mailbox is an error and nothing happens. */
    method Get(m: nat) returns (got: Option<Buffer>)
      requires Valid()
      modifies this`s, this`store, this`queues, this`mailboxes
      ensures Valid() && SameMessages(old(store), store)
      ensures m < old(|mailboxes|) ==> Readable(old(s), m) && (s, got) == GetMsg(old(s), m)
      ensures old(|mailboxes|) <= m ==> got == None && s == old(s)
    {
      hide OnePlaceEach, StoreOk, DeltasOk, ListsOk, Fronts;
      if m >= |mailboxes| {
        return None;
      }
      GetKeepsInv(s, m);
      TakeKeepsPlaces(s, m);
      got := Receive(m);
      LedgersDontMatter(GetMsg(old(s), m).0.ledgers);
      s := GetMsg(old(s), m).0;
      MessagesKeepTime(old(store));
    }

    /** TPostOffice::GetSync on the mailbox whose semaphore the operating system has found signalled. */
    method GetSync(m: nat) returns (got: Option<Buffer>)
      requires Valid() && m < |mailboxes| && 0 < sems[m]
      modifies this`s, this`sems, this`store, this`queues, this`mailboxes
      ensures Valid() && SameMessages(old(store), store)
      ensures Readable(old(s), m) && 0 < old(s).ledgers[m].sem && (s, got) == GetMsgSync(old(s), m)
    {
      hide OnePlaceEach, StoreOk, DeltasOk, ListsOk, Fronts;
      GetKeepsInv(s, m);
      TakeKeepsPlaces(s, m);
      sems := sems[m := sems[m] - 1];
      got := Receive(m);
      LedgersDontMatter(GetMsgSync(old(s), m).0.ledgers);
      s := GetMsgSync(old(s), m).0;
      MessagesKeepTime(old(store));
    }

    /** The holder of a buffer writes its message code. */
    method SetMsgCode(b: Buffer, code: uint16)
      requires Valid() && IsAt(s, b, Held)
      modifies this`s, this`store
      ensures Valid() && s == Code(old(s), b, code) && Recoded(old(store), store, b, code)
    {
      hide OnePlaceEach, StoreOk, DeltasOk, ListsOk, Fronts;
      Recode(b, code);
    }

    method Recode(b: Buffer, code: uint16)
      requires Valid() && b in s.where
      modifies this`s, this`store
      ensures Valid() && s == Code(old(s), b, code) && Recoded(old(store), store, b, code)
    {
      CodeKeepsInv(s, b, code);
      CodeKeepsStore(s, store, b, code);
      ListsStayOk(lengths, queues, mailboxes, s, Code(s, b, code));
      hide OnePlaceEach, StoreOk, DeltasOk, ListsOk;
      store := store[b := store[b].(msgCode := code)];
      s := Code(s, b, code);
    }

    /** CTimer::StopTimer: mark the message; whoever meets it next will discard it. */
    method StopTimer(timer: Option<Buffer>)
      requires Valid() && (timer.Some? ==> timer.value in s.where)
      modifies this`s, this`store
      ensures Valid() && s == if timer.None? then old(s) else Code(old(s), timer.value, DISCARDED)
      ensures if timer.None? then store == old(store) else Recoded(old(store), store, timer.value, DISCARDED)
    {
      if timer.Some? {
        Recode(timer.value, DISCARDED);
      }
    }

    /** CTimer::TimerRunning: not stopped, whether it is still ticking or already in its mailbox. */
    method TimerRunning(timer: Buffer) returns (running: bool)
      requires Valid() && timer in s.where
      ensures running <==> !s.Dead(timer)
    {
      CodeIsKept(timer);
      running := store[timer].msgCode != DISCARDED;
    }

    /** CTimer::StartTimer.  A count of zero is refused before anything is written; a buffer that its caller does not
        hold only after count and mailbox have been written into it, which spoils the delta list if, and only if, it
        is a timer there that had others. */
    method StartTimer(b: Buffer, m: uint8, count: nat, timerRes: nat) returns (ok: bool)
      requires Valid() && b in s.where && m < |mailboxes| && 0 < resolution
      modifies this`s, this`dummy, this`store
      ensures ok == (count != 0 && IsAt(old(s), b, Held))
      ensures ok ==> Valid() && s == Begin(old(s), b, m, ScaledCount(count, timerRes, resolution))
      ensures !ok ==> s == old(s) && dummy == old(dummy)
      ensures count == 0 ==> store == old(store) && Valid()
      ensures !ok && count != 0 ==>
                var n := ScaledCount(count, timerRes, resolution);
                && b in old(store) && store == Stamped(old(store), b, n, m)
                && (Valid() <==> old(s).where[b] != TimerList || store == old(store))
    {
      if count == 0 {
        return false;
      }
      var n := ScaledCount(count, timerRes, resolution);
      StampSpoilsDeltas(s, store, b, n, m);
      if IsAt(s, b, Held) {
        BeginKeepsInv(s, b, m, n);
      }
      hide OnePlaceEach, StoreOk, DeltasOk, ListsOk;
      store := Stamped(store, b, n, m);
      ok := AddTimer(b, m, n);
    }

    /** CTimer::Add for a message that has just been made. */
    method Launch(b: Buffer, m: uint8, n: uint32, length: uint16)
      requires Valid() && IsAt(s, b, Held) && m < |mailboxes|
      modifies this`s, this`dummy, this`store
      ensures Valid() && s == Begin(old(s), b, m, n)
      ensures b in old(store) && SameContents(old(store), store, {b})
      ensures Means(store[b], old(store)[b].msgCode, length, m)
    {
      assert b in store;
      LengthIsFree(s, store, b, length);
      StampSpoilsDeltas(s, store[b := store[b].(msgLength := length)], b, n, m);
      BeginKeepsInv(s, b, m, n);
      hide OnePlaceEach, StoreOk, DeltasOk, ListsOk, SameContents, Means;
      store := Stamped(store[b := store[b].(msgLength := length)], b, n, m);
      var ok := AddTimer(b, m, n);
      LaunchedMeans(old(store), store, b, n, m, length);
    }

    /** KernelAPI::StartTimer: the timer's message, of header length, comes from the pool; the count is in ticks. */
    method StartNewTimer(code: uint16, count: uint32, m: uint8) returns (timer: Option<Buffer>)
      requires Valid() && m < |mailboxes|
      modifies this`s, this`dummy, this`store, this`queues
      ensures Valid() && (s, timer) == StartedNew(lengths, old(s), MSG_HEADER_LENGTH, code, m, count)
      ensures timer.None? && count != 0 ==> SameMessages(old(store), store)
      ensures timer.Some? ==> SameContents(old(store), store, {timer.value}) && timer.value in store
                              && Means(store[timer.value], code, 0, m)
    {
      hide OnePlaceEach, StoreOk, DeltasOk, ListsOk, Fronts;
      timer := Acquire(MSG_HEADER_LENGTH);
      if timer.Some? {
        Recode(timer.value, code);
        if count == 0 {
          return None;
        }
        Launch(timer.value, m, count, 0);
      }
    }

    /** A buffer taken from the pool becomes a copy of b's message and is started; then b is stopped. */
    method Supersede(b: Buffer, copy: Buffer, n: uint32)
      requires Valid() && IsAt(s, copy, Held) && b in s.where && copy != b
      requires b in store && store[b].timerMbx < |mailboxes|
      modifies this`s, this`dummy, this`store
      ensures Valid() && Superseded(old(store), store, b, copy)
      ensures s == Code(Begin(Code(old(s), copy, old(s).CodeOf(b)), copy, old(store)[b].timerMbx, n), b, DISCARDED)
    {
      hide OnePlaceEach, StoreOk, DeltasOk, ListsOk, Fronts, SameContents, Means, Recoded, Superseded;
      CodeIsKept(b);
      var header := store[b];
      Recode(copy, header.msgCode);
      ghost var coded := store;
      Launch(copy, header.timerMbx, n, header.msgLength);
      ghost var launched := store;
      Recode(b, DISCARDED);
      CopySupersedes(old(store), coded, launched, store, b, copy);
    }

    /** CTimer::RestartTimer: start a copy of the timer's message, then stop the timer itself.  A zero count, a timer
        that is already stopped and an exhausted pool are errors. */
    method RestartTimer(b: Buffer, count: nat, timerRes: nat) returns (copy: Option<Buffer>)
      requires Valid() && b in s.where && !s.where[b].FreeList? && 0 < resolution
      requires b in store && store[b].timerMbx < |mailboxes|
      modifies this`s, this`dummy, this`store, this`queues
      ensures Valid()
      ensures count == 0 || old(s).Dead(b) ==> copy == None && s == old(s)
      ensures count != 0 && !old(s).Dead(b) ==>
                (s, copy) == Restart(lengths, old(s), b, old(store)[b].timerMbx,
                                     MSG_HEADER_LENGTH + old(store)[b].msgLength,
                                     ScaledCount(count, timerRes, resolution))
      ensures copy.None? ==> s == old(s) && SameMessages(old(store), store)
      ensures copy.Some? ==> Superseded(old(store), store, b, copy.value)
    {
      hide OnePlaceEach, StoreOk, DeltasOk, ListsOk, Fronts, Superseded;
      CodeIsKept(b);
      if count == 0 || store[b].msgCode == DISCARDED {
        return None;
      }
      copy := Acquire(MSG_HEADER_LENGTH + store[b].msgLength);
      ghost var taken := store;
      if copy.Some? {
        Supersede(b, copy.value, ScaledCount(count, timerRes, resolution));
        SupersededJoins(old(store), taken, store, b, copy.value);
      }
    }

    // -------------------------------------------------------------- the tick

    lemma HeadFacts()
      requires Rep() && Timed() && Inv(s)
      ensures dummy.next == None <==> s.line.pending == []
      ensures s.line.pending != [] ==>
                var first := s.line.Timers()[0];
                && dummy.next == Some(first) && first in store && IsAt(s, first, TimerList)
                && store[first].tracking == UserTimer && store[first].timerCount == s.line.Remaining(0)
                && store[first].timerMbx == s.line.started[s.line.pending[0]].mbx
                && store[first].next == At(s.line.Timers(), 1)
                && (s.line.HeadIsDue() <==> store[first].timerCount == 0)
    {
      if s.line.pending != [] {
        TimerFacts(s, store, 0);
      }
    }

    lemma CanPopTimer()
      requires Rep() && Timed() && s.line.pending != [] && s.line.Remaining(0) == 0
      ensures var first := s.line.Timers()[0];
              && first in store && Placed(PopTimer(s)) && StoreOk(PopTimer(s), Track(store, first, UserFree))
              && DeltasOk(PopTimer(s).line, Track(store, first, UserFree))
              && At(PopTimer(s).line.Timers(), 0) == At(s.line.Timers(), 1)
              && ListsOk(lengths, queues, mailboxes, PopTimer(s))
    {
      var first := s.line.Timers()[0];
      PopTimerKeepsPlaces(s);
      UnlinkKeepsStore(s, PopTimer(s), store, first, TimerList);
      PopTimerKeepsDeltas(s, store);
      DeltasIgnoreLinks(PopTimer(s).line, store, Track(store, first, UserFree));
      ListsStayOk(lengths, queues, mailboxes, s, PopTimer(s));
    }

    /** Unlink the expired timer at the head of the list. */
    method UnlinkTimer() returns (timer: Buffer)
      requires Rep() && Timed() && Inv(s) && s.line.HeadIsDue() && Semaphores()
      modifies this`s, this`dummy, this`store
      ensures Rep() && Timed() && Semaphores()
      ensures s == PopTimer(old(s)) && timer == old(s).line.Timers()[0] && timer in store
      ensures store[timer].timerMbx == old(s).line.started[old(s).line.pending[0]].mbx
      ensures SameContents(old(store), store, {})
    {
      HeadFacts();
      CanPopTimer();
      hide OnePlaceEach, StoreOk, DeltasOk, ListsOk;
      timer := dummy.next.value;
      dummy := dummy.(next := store[timer].next);
      assert store[timer].tracking == UserTimer;
      store := store[timer := store[timer].(tracking := UserFree)];
      s := PopTimer(s);
    }

    /** One round of the loop of the tick handler. */
    method PostHeadTimer()
      requires Rep() && Timed() && Inv(s) && s.line.HeadIsDue() && Semaphores()
      modifies this`s, this`sems, this`dummy, this`store, this`mailboxes
      ensures Rep() && Timed() && Inv(s) && Semaphores() && s == PostTimer(old(s))
      ensures SameContents(old(store), store, {})
    {
      hide OnePlaceEach, StoreOk, DeltasOk, ListsOk, Fronts;
      PostTimerKeepsInv(s);
      var timer := UnlinkTimer();
      ghost var unlinked := store;
      var posted := Add(store[timer].timerMbx, timer);
      MessagesKeepTime(unlinked);
    }

    /** The decrement at the start of the tick handler. */
    method CountDown()
      requires Valid()
      modifies this`s, this`store
      ensures Rep() && Timed() && Inv(s) && Semaphores() && s == CountedDown(old(s))
      ensures SameContents(old(store), store, {})
    {
      HeadFacts();
      CountedDownKeepsInv(s);
      ListsStayOk(lengths, queues, mailboxes, s, CountedDown(s));
      ghost var before := store;
      if dummy.next.Some? {
        CountDownKeepsDeltas(s, store);
        var first := dummy.next.value;
        store := store[first := store[first].(timerCount := Decremented(store[first].timerCount))];
      }
      CountDownKeepsStore(s, before, store);
      hide OnePlaceEach, StoreOk, ListsOk;
      s := CountedDown(s);
    }

    /** TimerIntHandler: every timer that is due goes to the mailbox it names; none does when the decrement has
        wrapped. */
    method Tick()
      requires Valid()
      modifies this`s, this`sems, this`dummy, this`store, this`mailboxes
      ensures Valid() && Tickable(old(s)) && s == TickAll(old(s)) && SameContents(old(store), store, {})
    {
      hide OnePlaceEach, StoreOk, DeltasOk, ListsOk, Fronts, SameContents;
      CountDown();
      PostDueSettles(s);
      HeadFacts();
      while dummy.next.Some? && store[dummy.next.value].timerCount == 0
        invariant Rep() && Timed() && Inv(s) && Semaphores()
        invariant Tickable(old(s)) && PostDue(s) == TickAll(old(s)) && SameContents(old(store), store, {})
        invariant dummy.next.Some? ==> dummy.next.value in store
        invariant s.line.HeadIsDue() <==> dummy.next.Some? && store[dummy.next.value].timerCount == 0
        decreases |s.line.pending|
      {
        ghost var before := store;
        PostHeadTimer();
        ContentsJoin(old(store), before, store, {}, {});
        HeadFacts();
      }
    }

    // -------------------------------------------------------------- destruction

    lemma CanDropTimer()
      requires Rep() && s.line.pending != []
      ensures var first := s.line.Timers()[0];
              && dummy.next == Some(first) && first in store && store[first].tracking == UserTimer
              && store[first].next == At(s.line.Timers(), 1) && first.cls < |s.pools|
              && IsAt(s, first, TimerList) && Placed(DropTimer(s))
              && StoreOk(DropTimer(s), Track(store, first, UserFree))
              && At(DropTimer(s).line.Timers(), 0) == At(s.line.Timers(), 1)
              && ListsOk(lengths, queues, mailboxes, DropTimer(s))
    {
      var first := s.line.Timers()[0];
      DropTimerKeepsPlaces(s);
      assert ChainOk(s, store, TimerList);
      UnlinkKeepsStore(s, DropTimer(s), store, first, TimerList);
      ListsStayOk(lengths, queues, mailboxes, s, DropTimer(s));
    }

    /** One round of CTimer::Purge. */
    method PurgeTimer()
      requires Rep() && dummy.next.Some? && s.line.pending != []
      modifies this`s, this`dummy, this`store, this`queues
      ensures Rep() && dummy.timerCount == old(dummy).timerCount
      ensures old(s).line.Timers()[0].cls < |old(s).pools|
      ensures s == Free(DropTimer(old(s)), old(s).line.Timers()[0])
    {
      CanDropTimer();
      hide OnePlaceEach, StoreOk, ListsOk;
      var timer := dummy.next.value;
      dummy := dummy.(next := store[timer].next);
      assert store[timer].tracking == UserTimer;
      store := store[timer := store[timer].(tracking := UserFree)];
      s := DropTimer(s);
      var ok := RetBuffer(timer);
    }

    /** CTimer::Purge: all timers go back to the pool; the timeline ends here. */
    method PurgeAllTimers()
      requires Valid()
      modifies this`s, this`dummy, this`store, this`queues
      ensures Valid() && s == PurgeTimers(old(s))
    {
      hide OnePlaceEach, StoreOk, DeltasOk, ListsOk;
      FreeTimersKeepsRest(s);
      PurgeTimersKeepsInv(s);
      while dummy.next.Some?
        invariant Rep() && dummy.timerCount == 0 && FreeTimers(s) == FreeTimers(old(s))
        decreases |s.line.pending|
      {
        PurgeTimer();
      }
      LineDoesNotMatter(PurgeTimers(old(s)).line);
      s := PurgeTimers(old(s));
    }

    lemma LineDoesNotMatter(line: Line)
      requires Rep() && s.line.pending == [] && line.started == [] && line.pending == [] && line.posted == []
      ensures line.SerialsExist() && DeltasOk(line, store)
      ensures var t := s.(line := line);
              StoreOk(t, store) && ListsOk(lengths, queues, mailboxes, t) && Fronts(dummy, line)
    {
      var t := s.(line := line);
      EmptyLine(line);
      assert s.line.Timers() == [];
      forall p: Place ensures ChainOk(t, store, p) {
        assert ChainOk(s, store, p);
      }
    }

    /** TMailBox::Purge. */
    method PurgeMailBox(m: nat)
      requires Valid() && m < |mailboxes|
      modifies this`s, this`store, this`queues, this`mailboxes
      ensures Valid() && s == PurgeBox(old(s), m)
    {
      hide OnePlaceEach, StoreOk, DeltasOk, Fronts;
      while mailboxes[m].head.Some?
        invariant Valid() && m < |mailboxes| && PurgeBox(s, m) == PurgeBox(old(s), m)
        decreases |s.boxes[m]|
      {
        GetMsgShrinks(s, m);
        ghost var was := s;
        var tmp := Get(m);
        if tmp.Some? {
          var ok := Release(tmp.value);
        }
      }
    }

    /** The kernel objects are deleted in this order: timer, post office, buffers.  For each class the result says
        whether the check in ~TBufferQue is met. */
    method Destroy() returns (full: seq<bool>)
      requires Valid() && |initiated| == |lengths|
      requires forall c :: 0 <= c < |initiated| ==> |OfClass(s, c)| == initiated[c]
      modifies this`s, this`dummy, this`store, this`queues, this`mailboxes
      ensures Valid() && s == KernelShutdown.Destroy(old(s)) && |full| == |initiated| == |old(s).pools|
      ensures forall c :: 0 <= c < |full| ==> (full[c] <==> HeldOfClass(old(s), c) == {})
    {
      hide OnePlaceEach, StoreOk, DeltasOk, Fronts, ListsOk, KernelShutdown.Destroy;
      PurgeAll();
      full := Inspect(old(s));
    }

    /** ~CTimer and then ~TPostOffice. */
    method PurgeAll()
      requires Valid()
      modifies this`s, this`dummy, this`store, this`queues, this`mailboxes
      ensures Valid() && s == KernelShutdown.Destroy(old(s))
    {
      PurgeTimersKeepsInv(s);
      hide OnePlaceEach, StoreOk, DeltasOk, ListsOk, Fronts;
      PurgeAllTimers();
      PurgeMailBoxes();
    }

    /** TPostOffice::Purge. */
    method PurgeMailBoxes()
      requires Valid()
      modifies this`s, this`store, this`queues, this`mailboxes
      ensures Valid() && s == PurgeBoxes(old(s), |old(s).boxes|)
    {
      hide OnePlaceEach, StoreOk, DeltasOk, ListsOk, Fronts, PurgeBox;
      var m := 0;
      while m < |mailboxes|
        invariant 0 <= m <= |mailboxes| == |old(s).boxes| && Valid() && s == PurgeBoxes(old(s), m)
      {
        PurgeMailBox(m);
        m := m + 1;
      }
    }

    /** ~TBufferQue of each class. */
    method Inspect(ghost was: State) returns (full: seq<bool>)
      requires Inv(was) && Rep() && s == KernelShutdown.Destroy(was) && |initiated| == |lengths| == |was.pools|
      requires forall c :: 0 <= c < |initiated| ==> |OfClass(was, c)| == initiated[c]
      ensures |full| == |initiated|
      ensures forall c :: 0 <= c < |full| ==> (full[c] <==> HeldOfClass(was, c) == {})
    {
      hide Placed, StoreOk, Fronts, Inv, KernelShutdown.Destroy;
      full := [];
      while |full| < |queues|
        invariant |full| <= |queues|
        invariant forall c :: 0 <= c < |full| ==> (full[c] <==> HeldOfClass(was, c) == {})
      {
        DestroyReturnsAllButHeld(was, |full|);
        full := full + [queues[|full|].count == initiated[|full|]];
      }
    }
  }
}
