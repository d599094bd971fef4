/** When does the memory hold what the state says?  Linking, unlinking and retracking one buffer at a time. */
module KernelStore {
  import opened Options
  import opened Buffers
  import opened BufferLists
  import opened BufferClasses
  import opened Timeline
  import opened KernelSpec
  import opened KernelSafety
  import opened KernelShutdown

  /** The list records have the ends and counts of the lists; the classes are sorted by length. */
  ghost predicate ListsOk(lengths: seq<nat>, queues: seq<List>, mailboxes: seq<List>, s: State) {
    && SortedTo(lengths, |lengths|)
    && |lengths| == |queues| == |s.pools| && |mailboxes| == |s.boxes|
    && (forall c :: 0 <= c < |queues| ==> Ends(queues[c], s.pools[c]))
    && (forall m :: 0 <= m < |mailboxes| ==> Ends(mailboxes[m], s.boxes[m]))
  }

  lemma ListsStayOk(lengths: seq<nat>, queues: seq<List>, mailboxes: seq<List>, s: State, t: State)
    requires ListsOk(lengths, queues, mailboxes, s) && t.pools == s.pools && t.boxes == s.boxes
    ensures ListsOk(lengths, queues, mailboxes, t)
  {
  }

  ghost predicate ChainOk(s: State, store: Store, p: Place)
    requires s.line.SerialsExist()
  {
    HasList(s, p) ==> Chain(store, ListAt(s, p))
  }

  /** The tracking byte names the place; the message code is the one in the state. */
  ghost predicate Marked(s: State, store: Store) {
    && store.Keys == s.where.Keys
    && forall b :: b in s.where ==>
         && store[b].tracking == TrackingOf(s.where[b])
         && store[b].msgCode == s.CodeOf(b)
  }

  ghost predicate StoreOk(s: State, store: Store)
    requires s.line.SerialsExist()
  {
    Marked(s, store) && forall p: Place :: ChainOk(s, store, p)
  }

  /** Ticks from now to the expiry of the timer before position k. */
  ghost function TimeBefore(line: Line, k: nat): int
    requires line.SerialsExist() && k <= |line.pending|
  {
    if k == 0 then 0 else line.Remaining(k - 1)
  }

  /** The timer list is a delta list: each count is the time from the previous timer's expiry to its own. */
  ghost predicate DeltaAt(line: Line, store: Store, i: nat)
    requires line.SerialsExist() && i < |line.pending|
  {
    var b := line.Timers()[i];
    && b in store
    && store[b].timerCount == line.Remaining(i) - TimeBefore(line, i)
    && store[b].timerMbx == line.started[line.pending[i]].mbx
  }

  ghost predicate DeltasOk(line: Line, store: Store) {
    line.SerialsExist() && forall i :: 0 <= i < |line.pending| ==> DeltaAt(line, store, i)
  }

  /** `after` differs from `before` only in the links of buffers at p and q and of b, and in b's tracking byte. */
  ghost predicate OnlyRelinked(s: State, before: Store, after: Store, b: Buffer, p: Place, q: Place) {
    && before.Keys == after.Keys == s.where.Keys
    && forall x :: x in s.where ==>
         && after[x].msgCode == before[x].msgCode
         && (x != b ==> after[x].tracking == before[x].tracking)
         && (x != b && s.where[x] != p && s.where[x] != q ==> after[x].next == before[x].next)
  }

  lemma MoveKeepsStore(s: State, t: State, before: Store, after: Store, b: Buffer, p: Place, q: Place)
    requires Placed(s) && StoreOk(s, before) && IsAt(s, b, p)
    requires OthersKept(s, t, p, q) && t.where == s.where[b := q] && t.codes == s.codes
    requires OnlyRelinked(s, before, after, b, p, q) && after[b].tracking == TrackingOf(q)
    requires ChainOk(t, after, p) && ChainOk(t, after, q)
    ensures StoreOk(t, after)
  {
    forall r: Place ensures ChainOk(t, after, r) {
      if HasList(t, r) && r != p && r != q {
        assert PlaceOk(s, r) && ChainOk(s, before, r);
        ChainElsewhere(s, before, after, b, p, q, ListAt(s, r), r);
      }
    }
    assert Marked(t, after);
  }

  lemma ChainElsewhere(s: State, before: Store, after: Store, b: Buffer, p: Place, q: Place, list: seq<Buffer>,
                       r: Place)
    requires OnlyRelinked(s, before, after, b, p, q) && IsAt(s, b, p) && r != p && r != q
    requires Holds(s.where, list, r) && Chain(before, list)
    ensures Chain(after, list)
  {
  }

  /** A buffer in nobody's list is marked and linked behind the list at q. */
  lemma AppendKeepsStore(s: State, t: State, store: Store, b: Buffer, q: Place)
    requires Placed(s) && StoreOk(s, store) && IsAt(s, b, Held)
    requires OthersKept(s, t, Held, q) && t.where == s.where[b := q] && t.codes == s.codes
    requires HasList(s, q) && ListAt(t, q) == ListAt(s, q) + [b]
    ensures var list := ListAt(s, q);
            var tracked := Track(store, b, TrackingOf(q));
            b !in list && Chain(tracked, list) && StoreOk(t, LinkLast(tracked, list, b))
  {
    assert PlaceOk(s, q) && ChainOk(s, store, q);
    var list := ListAt(s, q);
    var tracked := Track(store, b, TrackingOf(q));
    LinkLastAppends(tracked, list, b);
    hide Chain;
    MoveKeepsStore(s, t, store, LinkLast(tracked, list, b), b, Held, q);
  }

  /** The head of the list at p is unlinked and marked free. */
  lemma UnlinkKeepsStore(s: State, t: State, store: Store, b: Buffer, p: Place)
    requires Placed(s) && StoreOk(s, store) && IsAt(s, b, p) && p != Held
    requires OthersKept(s, t, p, Held) && t.where == s.where[b := Held] && t.codes == s.codes
    requires HasList(s, p) && ListAt(s, p) != [] && ListAt(t, p) == ListAt(s, p)[1..]
    ensures b in store && StoreOk(t, Track(store, b, UserFree))
  {
    assert ChainOk(s, store, p);
    var list := ListAt(s, p);
    assert forall i :: 0 <= i < |list| - 1 ==> list[1..][i] == list[i + 1];
    MoveKeepsStore(s, t, store, Track(store, b, UserFree), b, p, Held);
  }

  // ---------------------------------------------------------------- inserting into the delta list

  /** `after` is `before` with timer b linked in at position k, n ticks from now, and the next timer's count cut. */
  ghost predicate Spliced(line: Line, before: Store, after: Store, b: Buffer, m: nat, n: nat, k: nat)
    requires line.SerialsExist() && k <= |line.pending|
  {
    var timers := line.Timers();
    && after.Keys == before.Keys && b in before
    && after[b].next == At(timers, k) && after[b].tracking == UserTimer
    && after[b].msgCode == before[b].msgCode && after[b].msgLength == before[b].msgLength
    && after[b].timerCount == n - TimeBefore(line, k) && after[b].timerMbx == m
    && forall x :: x in before && x != b ==> SplicedAt(line, before, after, b, n, k, x)
  }

  ghost predicate SplicedAt(line: Line, before: Store, after: Store, b: Buffer, n: nat, k: nat, x: Buffer)
    requires line.SerialsExist() && k <= |line.pending| && x in before && x in after
  {
    var timers := line.Timers();
    && after[x].tracking == before[x].tracking && after[x].msgCode == before[x].msgCode
    && after[x].timerMbx == before[x].timerMbx && after[x].msgLength == before[x].msgLength
    && after[x].next == (if 0 < k && x == timers[k - 1] then Some(b) else before[x].next)
    && after[x].timerCount == if k < |timers| && x == timers[k] then line.Remaining(k) - n else before[x].timerCount
  }

  lemma SplicedKeepsStore(s: State, before: Store, after: Store, b: Buffer, m: nat, n: nat)
    requires Placed(s) && StoreOk(s, before) && IsAt(s, b, Held)
    requires Spliced(s.line, before, after, b, m, n, LeadingDue(s.line.started, s.line.pending, s.line.now + n))
    ensures var t := Begin(s, b, m, n); t.line.SerialsExist() && StoreOk(t, after)
  {
    var t := Begin(s, b, m, n);
    var k := LeadingDue(s.line.started, s.line.pending, s.line.now + n);
    var timers := s.line.Timers();
    BeginKeepsPlaces(s, b, m, n);
    assert PlaceOk(s, TimerList) && ChainOk(s, before, TimerList);
    SplicedChain(s.line, before, after, b, m, n, k);
    SplicedRelinks(s, before, after, b, m, n, k);
    hide Spliced, OnlyRelinked;
    MoveKeepsStore(s, t, before, after, b, Held, TimerList);
  }

  lemma SplicedRelinks(s: State, before: Store, after: Store, b: Buffer, m: nat, n: nat, k: nat)
    requires Placed(s) && before.Keys == s.where.Keys && IsAt(s, b, Held)
    requires k <= |s.line.pending| && Spliced(s.line, before, after, b, m, n, k)
    ensures OnlyRelinked(s, before, after, b, Held, TimerList) && after[b].tracking == UserTimer
  {
    if 0 < k {
      assert PlaceOk(s, TimerList);
    }
  }

  lemma SplicedChain(line: Line, before: Store, after: Store, b: Buffer, m: nat, n: nat, k: nat)
    requires line.SerialsExist() && k <= |line.pending| && Spliced(line, before, after, b, m, n, k)
    requires Chain(before, line.Timers()) && Distinct(line.Timers()) && b !in line.Timers()
    ensures Chain(after, Insert(line.Timers(), k, b))
  {
    forall j | 0 <= j < |line.Timers()| ensures LinkedPast(after, line.Timers(), k, b, j) {
      SplicedAtOld(line, before, after, b, m, n, k, j);
      hide Chain, Distinct, Spliced, SplicedAt;
      SplicedLink(line, before, after, b, n, k, j);
    }
    hide Chain, Distinct, SplicedAt;
    LinkedIn(after, line.Timers(), k, b);
  }

  /** The j-th element points to the one after it in the list that has b at position k. */
  ghost predicate LinkedPast(after: Store, list: seq<Buffer>, k: nat, b: Buffer, j: nat)
    requires j < |list|
  {
    list[j] in after && after[list[j]].next == if j + 1 == k then Some(b) else At(list, j + 1)
  }

  lemma LinkedIn(after: Store, list: seq<Buffer>, k: nat, b: Buffer)
    requires k <= |list| && b in after && after[b].next == At(list, k)
    requires forall j :: 0 <= j < |list| ==> LinkedPast(after, list, k, b, j)
    ensures Chain(after, Insert(list, k, b))
  {
    var longer := Insert(list, k, b);
    forall i | 0 <= i < |longer| ensures longer[i] in after && after[longer[i]].next == At(longer, i + 1) {
      if i != k {
        assert LinkedPast(after, list, k, b, if i < k then i else i - 1);
      }
    }
  }

  lemma SplicedAtOld(line: Line, before: Store, after: Store, b: Buffer, m: nat, n: nat, k: nat, j: nat)
    requires line.SerialsExist() && k <= |line.pending| && Spliced(line, before, after, b, m, n, k)
    requires Chain(before, line.Timers()) && Distinct(line.Timers()) && b !in line.Timers() && j < |line.pending|
    ensures var x := line.Timers()[j];
            && x in before && x in after && SplicedAt(line, before, after, b, n, k, x)
            && before[x].next == At(line.Timers(), j + 1)
    ensures 0 < k && j != k - 1 ==> line.Timers()[j] != line.Timers()[k - 1]
  {
    hide SplicedAt;
    assert line.Timers()[j] in line.Timers();
  }

  lemma SplicedLink(line: Line, before: Store, after: Store, b: Buffer, n: nat, k: nat, j: nat)
    requires line.SerialsExist() && k <= |line.pending| && j < |line.pending|
    requires line.Timers()[j] in before && line.Timers()[j] in after
    requires SplicedAt(line, before, after, b, n, k, line.Timers()[j])
    requires before[line.Timers()[j]].next == At(line.Timers(), j + 1)
    requires 0 < k && j != k - 1 ==> line.Timers()[j] != line.Timers()[k - 1]
    ensures LinkedPast(after, line.Timers(), k, b, j)
  {
  }

  lemma SplicedKeepsDeltas(s: State, before: Store, after: Store, b: Buffer, m: nat, n: nat)
    requires Placed(s) && DeltasOk(s.line, before) && IsAt(s, b, Held)
    requires Spliced(s.line, before, after, b, m, n, LeadingDue(s.line.started, s.line.pending, s.line.now + n))
    ensures DeltasOk(Begin(s, b, m, n).line, after)
  {
    var t := Begin(s, b, m, n);
    assert PlaceOk(s, TimerList) && b !in s.line.Timers();
    StartSerialsExist(s.line, b, m, n);
    hide OnePlaceEach, Spliced;
    forall i | 0 <= i < |t.line.pending| ensures DeltaAt(t.line, after, i) {
      if i == LeadingDue(s.line.started, s.line.pending, s.line.now + n) {
        SplicedNewDelta(s.line, before, after, b, m, n);
      } else {
        SplicedOldDelta(s.line, before, after, b, m, n, i);
      }
    }
  }

  lemma SplicedNewDelta(line: Line, before: Store, after: Store, b: Buffer, m: nat, n: nat)
    requires line.SerialsExist()
    requires Spliced(line, before, after, b, m, n, LeadingDue(line.started, line.pending, line.now + n))
    ensures line.Start(b, m, n).SerialsExist()
    ensures DeltaAt(line.Start(b, m, n), after, LeadingDue(line.started, line.pending, line.now + n))
  {
    var k := LeadingDue(line.started, line.pending, line.now + n);
    StartSerialsExist(line, b, m, n);
    if 0 < k {
      StartKeepsRemaining(line, b, m, n, k - 1, k - 1);
    }
  }

  lemma SplicedOldDelta(line: Line, before: Store, after: Store, b: Buffer, m: nat, n: nat, i: nat)
    requires DeltasOk(line, before) && Distinct(line.Timers()) && b !in line.Timers()
    requires i <= |line.pending| && i != LeadingDue(line.started, line.pending, line.now + n)
    requires Spliced(line, before, after, b, m, n, LeadingDue(line.started, line.pending, line.now + n))
    ensures line.Start(b, m, n).SerialsExist() && DeltaAt(line.Start(b, m, n), after, i)
  {
    var k := LeadingDue(line.started, line.pending, line.now + n);
    var j := if i < k then i else i - 1;
    assert DeltaAt(line, before, j);
    SplicedCount(line, before, after, b, m, n, k, j);
    StartKeepsRemaining(line, b, m, n, i, j);
    StartTimeBefore(line, b, m, n, i, j);
  }

  /** The timer in front of an old timer is the one that was there, unless it is the new one. */
  lemma StartTimeBefore(line: Line, b: Buffer, m: nat, n: nat, i: nat, j: nat)
    requires line.SerialsExist() && j < |line.pending|
    requires i == if j < LeadingDue(line.started, line.pending, line.now + n) then j else j + 1
    ensures var u := line.Start(b, m, n);
            && u.SerialsExist() && i < |u.pending|
            && TimeBefore(u, i) ==
               if j == LeadingDue(line.started, line.pending, line.now + n) then n else TimeBefore(line, j)
  {
    StartSerialsExist(line, b, m, n);
    if 0 < j && j != LeadingDue(line.started, line.pending, line.now + n) {
      StartKeepsRemaining(line, b, m, n, i - 1, j - 1);
    }
  }

  lemma SplicedCount(line: Line, before: Store, after: Store, b: Buffer, m: nat, n: nat, k: nat, j: nat)
    requires line.SerialsExist() && k <= |line.pending| && Spliced(line, before, after, b, m, n, k)
    requires Distinct(line.Timers()) && b !in line.Timers() && j < |line.pending| && DeltaAt(line, before, j)
    ensures var x := line.Timers()[j];
            && x in after && after[x].timerMbx == before[x].timerMbx
            && after[x].timerCount == if j == k then line.Remaining(k) - n else before[x].timerCount
  {
    assert line.Timers()[j] in line.Timers();
  }

  lemma StartKeepsRemaining(line: Line, b: Buffer, m: nat, n: nat, i: nat, j: nat)
    requires line.SerialsExist() && j < |line.pending|
    requires i == if j < LeadingDue(line.started, line.pending, line.now + n) then j else j + 1
    ensures var u := line.Start(b, m, n);
            && u.SerialsExist() && i < |u.pending| && u.Remaining(i) == line.Remaining(j)
            && u.Timers()[i] == line.Timers()[j] && u.started[u.pending[i]].mbx == line.started[line.pending[j]].mbx
  {
    StartSerialsExist(line, b, m, n);
  }

  /** BUFF_NEXT and TIMER_COUNT of an element of the timer list; None is the dummy message in front of it. */
  function NextOf(dummy: Header, store: Store, link: Option<Buffer>): Option<Buffer>
    requires link.Some? ==> link.value in store
  {
    if link.None? then dummy.next else store[link.value].next
  }

  function CountOf(dummy: Header, store: Store, link: Option<Buffer>): uint32
    requires link.Some? ==> link.value in store
  {
    if link.None? then dummy.timerCount else store[link.value].timerCount
  }

  ghost function LinkAt(line: Line, i: nat): Option<Buffer>
    requires line.SerialsExist() && i <= |line.pending|
  {
    if i == 0 then None else Some(line.Timers()[i - 1])
  }

  /** Timers that CTimer::Add has subtracted when it stands at the i-th element. */
  function Passed(i: nat): nat {
    if i == 0 then 0 else i - 1
  }

  /** The dummy message points to the first timer. */
  ghost predicate Fronts(dummy: Header, line: Line)
    requires line.SerialsExist()
  {
    dummy.next == At(line.Timers(), 0)
  }

  ghost predicate Linked(s: State, dummy: Header, store: Store) {
    && Placed(s) && StoreOk(s, store) && DeltasOk(s.line, store) && s.line.OnTime()
    && dummy.timerCount == 0 && Fronts(dummy, s.line)
  }

  /** CTimer::Add stands at the i-th element: every timer passed expires no later than b, and b's count has been
      cut to what remains after the last of them. */
  ghost predicate Walking(s: State, before: Store, store: Store, b: Buffer, n: nat,
                          prev: Option<Buffer>, current: Option<Buffer>, i: nat)
    requires s.line.SerialsExist()
  {
    && i <= |s.line.pending| && current == LinkAt(s.line, i) && prev == LinkAt(s.line, Passed(i))
    && b in before && 0 <= n - TimeBefore(s.line, Passed(i)) < 0x1_0000_0000
    && store == before[b := before[b].(tracking := UserTimer, timerCount := n - TimeBefore(s.line, Passed(i)))]
    && forall j :: 0 <= j < Passed(i) ==> s.line.Remaining(j) <= n
  }

  /** What the loop of CTimer::Add reads at the i-th element. */
  lemma WalkReads(s: State, dummy: Header, before: Store, store: Store, b: Buffer, n: nat,
                  prev: Option<Buffer>, current: Option<Buffer>, i: nat)
    requires Linked(s, dummy, before) && IsAt(s, b, Held) && Walking(s, before, store, b, n, prev, current, i)
    ensures current.Some? ==> current.value in store && current.value != b && current.value in before
    ensures prev.Some? ==> prev.value in store && prev.value != b && (current.Some? ==> prev != current)
    ensures b in store && store[b].timerCount == n - TimeBefore(s.line, Passed(i))
    ensures NextOf(dummy, store, current) == At(s.line.Timers(), i)
    ensures CountOf(dummy, store, current) ==
            if i == 0 then 0 else s.line.Remaining(i - 1) - TimeBefore(s.line, i - 1)
  {
    if 0 < i {
      TimerFacts(s, before, i - 1);
    }
    if 1 < i {
      TimerFacts(s, before, i - 2);
      assert PlaceOk(s, TimerList);
    }
  }

  lemma WalkStarts(s: State, before: Store, b: Buffer, n: nat)
    requires s.line.SerialsExist() && b in before && before[b].timerCount == n
    ensures Walking(s, before, before[b := before[b].(tracking := UserTimer)], b, n, None, None, 0)
  {
  }

  /** One round: there is a next timer and b is not due before the current one. */
  lemma WalkStep(s: State, dummy: Header, before: Store, store: Store, b: Buffer, n: nat,
                 prev: Option<Buffer>, current: Option<Buffer>, i: nat)
    requires Linked(s, dummy, before) && IsAt(s, b, Held) && Walking(s, before, store, b, n, prev, current, i)
    requires b in store && (current.Some? ==> current.value in store) && n < 0x1_0000_0000
    requires CountOf(dummy, store, current) <= store[b].timerCount && NextOf(dummy, store, current).Some?
    ensures i < |s.line.pending|
    ensures var cut := store[b := store[b].(timerCount := store[b].timerCount - CountOf(dummy, store, current))];
            && (current.Some? ==> current.value in cut)
            && Walking(s, before, cut, b, n, current, NextOf(dummy, cut, current), i + 1)
  {
    WalkReads(s, dummy, before, store, b, n, prev, current, i);
  }

  lemma LeadingDueIs(line: Line, n: nat, k: nat)
    requires line.SerialsExist() && k <= |line.pending|
    requires forall j :: 0 <= j < k ==> line.Remaining(j) <= n
    requires k < |line.pending| ==> n < line.Remaining(k)
    ensures LeadingDue(line.started, line.pending, line.now + n) == k
  {
    var d := LeadingDue(line.started, line.pending, line.now + n);
    assert d < k ==> line.Remaining(d) <= n;
  }

  /** What the memory says about the timer at position i. */
  lemma TimerFacts(s: State, store: Store, i: nat)
    requires Placed(s) && StoreOk(s, store) && DeltasOk(s.line, store) && i < |s.line.pending|
    ensures var b := s.line.Timers()[i];
            && IsAt(s, b, TimerList) && b in store && store[b].next == At(s.line.Timers(), i + 1)
            && store[b].timerCount == s.line.Remaining(i) - TimeBefore(s.line, i)
            && store[b].timerMbx == s.line.started[s.line.pending[i]].mbx && store[b].tracking == UserTimer
  {
    assert ChainOk(s, store, TimerList) && PlaceOk(s, TimerList) && DeltaAt(s.line, store, i);
  }

  ghost function SetNext(store: Store, link: Option<Buffer>, b: Buffer): Store
    requires link.Some? ==> link.value in store
  {
    if link.None? then store else store[link.value := store[link.value].(next := Some(b))]
  }

  ghost function SpliceBefore(store: Store, b: Buffer, prev: Option<Buffer>, current: Buffer, count: uint32): Store
    requires b in store && current in store && (prev.Some? ==> prev.value in store)
  {
    var cut := store[current := store[current].(timerCount := count)];
    SetNext(cut[b := cut[b].(next := Some(current))], prev, b)
  }

  ghost function SpliceAtEnd(store: Store, b: Buffer, current: Option<Buffer>, count: uint32): Store
    requires b in store && (current.Some? ==> current.value in store)
  {
    SetNext(store[b := store[b].(timerCount := count, next := None)], current, b)
  }

  lemma SpliceBeforeWorks(s: State, dummy: Header, before: Store, store: Store, b: Buffer, m: nat, n: nat,
                          prev: Option<Buffer>, current: Option<Buffer>, i: nat)
    requires Linked(s, dummy, before) && IsAt(s, b, Held) && Walking(s, before, store, b, n, prev, current, i)
    requires 0 < i && n < s.line.Remaining(i - 1) && before[b].timerMbx == m
    ensures current.Some? && current.value in store && b in store && (prev.Some? ==> prev.value in store)
    ensures 0 <= s.line.Remaining(i - 1) - n < 0x1_0000_0000
    ensures LeadingDue(s.line.started, s.line.pending, s.line.now + n) == i - 1
    ensures Spliced(s.line, before, SpliceBefore(store, b, prev, current.value, s.line.Remaining(i - 1) - n),
                    b, m, n, i - 1)
  {
    WalkReads(s, dummy, before, store, b, n, prev, current, i);
    TimerFacts(s, before, i - 1);
    LeadingDueIs(s.line, n, i - 1);
    hide OnePlaceEach, StoreOk, DeltasOk, Spliced, SpliceBefore;
    SpliceBeforeIs(s, before, store, b, m, n, prev, current, i);
  }

  lemma SpliceBeforeIs(s: State, before: Store, store: Store, b: Buffer, m: nat, n: nat,
                       prev: Option<Buffer>, current: Option<Buffer>, i: nat)
    requires s.line.SerialsExist() && Walking(s, before, store, b, n, prev, current, i) && 0 < i
    requires current.Some? && current.value in store && current.value != b && current.value in before
    requires prev.Some? ==> prev.value in store && prev.value != b && prev != current
    requires before[b].timerMbx == m && 0 <= s.line.Remaining(i - 1) - n < 0x1_0000_0000
    ensures Spliced(s.line, before, SpliceBefore(store, b, prev, current.value, s.line.Remaining(i - 1) - n),
                    b, m, n, i - 1)
  {
  }

  lemma SpliceAtEndWorks(s: State, dummy: Header, before: Store, store: Store, b: Buffer, m: nat, n: nat,
                         prev: Option<Buffer>, current: Option<Buffer>, i: nat)
    requires Linked(s, dummy, before) && IsAt(s, b, Held) && Walking(s, before, store, b, n, prev, current, i)
    requires i == |s.line.pending| && (0 < i ==> s.line.Remaining(i - 1) <= n) && before[b].timerMbx == m
    requires n < 0x1_0000_0000
    ensures b in store && (current.Some? ==> current.value in store)
    ensures 0 <= n - TimeBefore(s.line, i) < 0x1_0000_0000
    ensures LeadingDue(s.line.started, s.line.pending, s.line.now + n) == i
    ensures Spliced(s.line, before, SpliceAtEnd(store, b, current, n - TimeBefore(s.line, i)), b, m, n, i)
  {
    WalkReads(s, dummy, before, store, b, n, prev, current, i);
    LeadingDueIs(s.line, n, i);
    hide OnePlaceEach, StoreOk, DeltasOk, Spliced, SpliceAtEnd;
    SpliceAtEndIs(s, before, store, b, m, n, prev, current, i);
  }

  lemma SpliceAtEndIs(s: State, before: Store, store: Store, b: Buffer, m: nat, n: nat,
                      prev: Option<Buffer>, current: Option<Buffer>, i: nat)
    requires s.line.SerialsExist() && Walking(s, before, store, b, n, prev, current, i) && i == |s.line.pending|
    requires current.Some? ==> current.value in store && current.value != b && current.value in before
    requires before[b].timerMbx == m && 0 <= n - TimeBefore(s.line, i) < 0x1_0000_0000
    ensures Spliced(s.line, before, SpliceAtEnd(store, b, current, n - TimeBefore(s.line, i)), b, m, n, i)
  {
  }

  lemma BeginFronts(s: State, before: Header, after: Header, b: Buffer, m: nat, n: nat)
    requires Placed(s) && IsAt(s, b, Held) && Fronts(before, s.line)
    requires var k := LeadingDue(s.line.started, s.line.pending, s.line.now + n);
             after.next == if k == 0 then Some(b) else before.next
    ensures Begin(s, b, m, n).line.SerialsExist() && Fronts(after, Begin(s, b, m, n).line)
  {
    BeginKeepsPlaces(s, b, m, n);
  }

  /** After the loop of CTimer::Add: either the current timer expires later than b, or it is the last one. */
  lemma WalkEnds(s: State, dummy: Header, before: Store, store: Store, b: Buffer, n: nat,
                 prev: Option<Buffer>, current: Option<Buffer>, i: nat)
    requires Linked(s, dummy, before) && IsAt(s, b, Held) && Walking(s, before, store, b, n, prev, current, i)
    requires current.Some? ==> current.value in store
    requires store[b].timerCount < CountOf(dummy, store, current) || NextOf(dummy, store, current).None?
    ensures b in store && (current.Some? ==> current.value in store && current.value != b)
    ensures prev.Some? ==> prev.value in store
    ensures (prev.None? <==> i <= 1) && (current.None? <==> i == 0)
    ensures if store[b].timerCount < CountOf(dummy, store, current)
            then 0 < i && n < s.line.Remaining(i - 1) && current.Some?
                 && store[current.value].timerCount - store[b].timerCount == s.line.Remaining(i - 1) - n
                 && store[b].timerCount < store[current.value].timerCount
            else i == |s.line.pending| && (0 < i ==> s.line.Remaining(i - 1) <= n)
                 && store[b].timerCount - CountOf(dummy, store, current) == n - TimeBefore(s.line, i)
  {
    WalkReads(s, dummy, before, store, b, n, prev, current, i);
  }

  // ---------------------------------------------------------------- steps that do not relink anything

  /** Neither timer field nor message header of any buffer differs. */
  ghost predicate SameMessages(before: Store, after: Store) {
    before.Keys == after.Keys && forall b :: b in before ==>
      && after[b].timerCount == before[b].timerCount && after[b].timerMbx == before[b].timerMbx
      && after[b].msgCode == before[b].msgCode && after[b].msgLength == before[b].msgLength
  }

  /** What a message says (its code, the length of its parameters, and for a timer the mailbox it is meant for) is
      the same for all buffers but these. */
  ghost predicate SameContents(before: Store, after: Store, but: set<Buffer>) {
    before.Keys == after.Keys && forall b :: b in before && b !in but ==>
      && after[b].msgCode == before[b].msgCode && after[b].msgLength == before[b].msgLength
      && after[b].timerMbx == before[b].timerMbx
  }

  lemma ContentsJoin(a: Store, b: Store, c: Store, but: set<Buffer>, more: set<Buffer>)
    requires SameContents(a, b, but) && SameContents(b, c, more)
    ensures SameContents(a, c, but + more)
    ensures but == {} ==> SameContents(a, c, more)
    ensures more == {} ==> SameContents(a, c, but)
  {
  }

  /** The code of b, and nothing else in memory, has been written. */
  ghost predicate Recoded(before: Store, after: Store, b: Buffer, code: uint16) {
    && before.Keys == after.Keys && b in before
    && forall x :: x in before ==> after[x] == if x == b then before[x].(msgCode := code) else before[x]
  }

  /** A timer's message: its code, the length of its parameters and the mailbox it is meant for. */
  ghost predicate Means(header: Header, code: uint16, length: uint16, m: nat) {
    header.msgCode == code && header.msgLength == length && header.timerMbx == m
  }

  /** A message has been stamped and then linked into the timer list. */
  lemma LaunchedMeans(before: Store, after: Store, b: Buffer, n: uint32, m: uint8, length: uint16)
    requires b in before
    requires SameContents(Stamped(before[b := before[b].(msgLength := length)], b, n, m), after, {})
    ensures SameContents(before, after, {b}) && Means(after[b], before[b].msgCode, length, m)
  {
  }

  /** The message in `copy` is what b's was before b was discarded; all other messages are as they were. */
  ghost predicate Superseded(before: Store, after: Store, b: Buffer, copy: Buffer) {
    && SameContents(before, after, {b, copy}) && b in before && copy in before
    && Means(after[copy], before[b].msgCode, before[b].msgLength, before[b].timerMbx)
    && Means(after[b], DISCARDED, before[b].msgLength, before[b].timerMbx)
  }

  /** b's code is copied, the copy launched, and b discarded. */
  lemma CopySupersedes(before: Store, coded: Store, launched: Store, after: Store, b: Buffer, copy: Buffer)
    requires b in before && copy != b && Recoded(before, coded, copy, before[b].msgCode)
    requires SameContents(coded, launched, {copy})
    requires Means(launched[copy], coded[copy].msgCode, before[b].msgLength, before[b].timerMbx)
    requires Recoded(launched, after, b, DISCARDED)
    ensures Superseded(before, after, b, copy)
  {
  }

  lemma SupersededJoins(before: Store, taken: Store, after: Store, b: Buffer, copy: Buffer)
    requires SameMessages(before, taken) && Superseded(taken, after, b, copy)
    ensures Superseded(before, after, b, copy)
  {
  }

  lemma SplicedKeepsContents(line: Line, before: Store, after: Store, b: Buffer, m: nat, n: nat, k: nat)
    requires line.SerialsExist() && k <= |line.pending| && Spliced(line, before, after, b, m, n, k)
    requires before[b].timerMbx == m
    ensures SameContents(before, after, {})
  {
  }

  lemma DeltasIgnoreLinks(line: Line, before: Store, after: Store)
    requires DeltasOk(line, before) && SameMessages(before, after)
    ensures DeltasOk(line, after)
  {
    forall i | 0 <= i < |line.pending| ensures DeltaAt(line, after, i) {
      assert DeltaAt(line, before, i);
    }
  }

  lemma CodeKeepsStore(s: State, store: Store, b: Buffer, code: uint16)
    requires Placed(s) && StoreOk(s, store) && DeltasOk(s.line, store) && b in s.where
    ensures var after := store[b := store[b].(msgCode := code)];
            StoreOk(Code(s, b, code), after) && DeltasOk(s.line, after)
  {
    var after := store[b := store[b].(msgCode := code)];
    forall p: Place ensures ChainOk(Code(s, b, code), after, p) {
      assert ChainOk(s, store, p);
    }
    forall i | 0 <= i < |s.line.pending| ensures DeltaAt(s.line, after, i) {
      assert DeltaAt(s.line, store, i);
    }
  }

  function Stamped(store: Store, b: Buffer, count: uint32, mbx: uint8): Store
    requires b in store
  {
    store[b := store[b].(timerCount := count, timerMbx := mbx)]
  }

  /** Writing the timer fields of a buffer touches no chain; it spoils the delta list exactly when the buffer is in
      it and something else was there. */
  lemma StampSpoilsDeltas(s: State, store: Store, b: Buffer, count: uint32, mbx: uint8)
    requires Placed(s) && StoreOk(s, store) && DeltasOk(s.line, store) && b in s.where
    ensures b in store && StoreOk(s, Stamped(store, b, count, mbx))
    ensures DeltasOk(s.line, Stamped(store, b, count, mbx)) <==>
              s.where[b] != TimerList || Stamped(store, b, count, mbx) == store
  {
    var after := Stamped(store, b, count, mbx);
    forall p: Place ensures ChainOk(s, after, p) {
      assert ChainOk(s, store, p);
    }
    assert PlaceOk(s, TimerList);
    if s.where[b] == TimerList {
      assert LiesAt(s.where, b, TimerList);
      var k :| 0 <= k < |s.line.pending| && s.line.Timers()[k] == b;
      assert DeltaAt(s.line, store, k);
      if DeltasOk(s.line, after) {
        assert DeltaAt(s.line, after, k);
        assert after == store;
      }
    } else {
      forall i | 0 <= i < |s.line.pending| ensures DeltaAt(s.line, after, i) {
        assert DeltaAt(s.line, store, i) && s.line.Timers()[i] in s.line.Timers();
      }
    }
  }

  /** The message length is nobody's concern here. */
  lemma LengthIsFree(s: State, store: Store, b: Buffer, length: uint16)
    requires Placed(s) && StoreOk(s, store) && DeltasOk(s.line, store) && b in store
    ensures var after := store[b := store[b].(msgLength := length)];
            StoreOk(s, after) && DeltasOk(s.line, after)
  {
    var after := store[b := store[b].(msgLength := length)];
    forall p: Place ensures ChainOk(s, after, p) {
      assert ChainOk(s, store, p);
    }
    forall i | 0 <= i < |s.line.pending| ensures DeltaAt(s.line, after, i) {
      assert DeltaAt(s.line, store, i);
    }
  }

  // ---------------------------------------------------------------- the tick

  lemma CountDownRemaining(line: Line, i: nat)
    requires line.Inv() && i < |line.pending|
    ensures line.CountDown().SerialsExist() && line.CountDown().Timers() == line.Timers()
    ensures line.CountDown().Remaining(i) == line.Remaining(i) - 1 + if line.HeadIsDue() then WRAP else 0
    ensures line.CountDown().started[line.pending[i]].mbx == line.started[line.pending[i]].mbx
  {
    CountDownKeepsInv(line);
    DelayedAt(line, i);
  }

  /** Decrementing the first count is enough: every timer is one tick nearer, or 2^32 ticks further when it wraps. */
  lemma CountDownKeepsDeltas(s: State, store: Store)
    requires Placed(s) && StoreOk(s, store) && DeltasOk(s.line, store) && s.line.Inv() && s.line.pending != []
    ensures var first := s.line.Timers()[0];
            && first in store && (store[first].timerCount == 0 <==> s.line.HeadIsDue())
            && DeltasOk(s.line.CountDown(),
                        store[first := store[first].(timerCount := Decremented(store[first].timerCount))])
  {
    TimerFacts(s, store, 0);
    var first := s.line.Timers()[0];
    var after := store[first := store[first].(timerCount := Decremented(store[first].timerCount))];
    var line := s.line.CountDown();
    CountDownKeepsInv(s.line);
    assert PlaceOk(s, TimerList);
    forall i | 0 <= i < |line.pending| ensures DeltaAt(line, after, i) {
      CountDownRemaining(s.line, i);
      CountDownRemaining(s.line, if i == 0 then 0 else i - 1);
      assert DeltaAt(s.line, store, i);
      assert i == 0 || s.line.Timers()[0] != s.line.Timers()[i];
    }
  }

  lemma CountDownKeepsStore(s: State, store: Store, after: Store)
    requires Placed(s) && StoreOk(s, store) && store.Keys == after.Keys && s.line.Inv()
    requires forall b :: b in store ==> after[b].next == store[b].next && after[b].tracking == store[b].tracking
                                        && after[b].msgCode == store[b].msgCode
    ensures var t := CountedDown(s);
            t.line.SerialsExist() && t.line.Timers() == s.line.Timers() && StoreOk(t, after)
  {
    var t := CountedDown(s);
    CountDownKeepsInv(s.line);
    forall p: Place ensures ChainOk(t, after, p) {
      assert ChainOk(s, store, p);
    }
  }

  /** The head expires when its count is zero; without it the rest is a delta list again. */
  lemma PopTimerKeepsDeltas(s: State, store: Store)
    requires Placed(s) && StoreOk(s, store) && DeltasOk(s.line, store)
    requires s.line.pending != [] && s.line.Remaining(0) == 0
    ensures DeltasOk(PopTimer(s).line, store)
  {
    var line := PopTimer(s).line;
    PopTimerKeepsPlaces(s);
    forall i | 0 <= i < |line.pending| ensures DeltaAt(line, store, i) {
      assert DeltaAt(s.line, store, i + 1);
      assert line.Remaining(i) == s.line.Remaining(i + 1) && TimeBefore(line, i) == TimeBefore(s.line, i + 1);
    }
  }

  // ---------------------------------------------------------------- carving

  lemma FreshKeepsStore(s: State, store: Store, b: Buffer)
    requires Placed(s) && StoreOk(s, store) && b !in s.where && b.cls < |s.pools|
    ensures Placed(Known(s, b)) && StoreOk(Known(s, b), store[b := Header(None, UserFree, 0, 0, 0, 0)])
  {
    var t := Known(s, b);
    var after := store[b := Header(None, UserFree, 0, 0, 0, 0)];
    KnownKeepsPlaces(s, b);
    forall p: Place ensures ChainOk(t, after, p) {
      assert ChainOk(s, store, p) && PlaceOk(s, p);
    }
  }

  lemma BlankStore(lengths: seq<nat>, queues: seq<List>, mailboxes: seq<List>, n: nat, k: nat)
    requires SortedTo(lengths, |lengths|) && |lengths| == n
    requires queues == seq(n, _ => EMPTY) && mailboxes == seq(k, _ => EMPTY)
    ensures var s := Blank(n, k);
            && Initial(s) && Placed(s) && s.line.Timers() == [] && StoreOk(s, map[])
            && ListsOk(lengths, queues, mailboxes, s)
  {
    var s := Blank(n, k);
    BlankIsInitial(n, k);
    InitialIsSettled(s);
    EmptyLine(s.line);
    forall p: Place ensures ChainOk(s, map[], p) {
      assert HasList(s, p) ==> ListAt(s, p) == [];
    }
  }
}
