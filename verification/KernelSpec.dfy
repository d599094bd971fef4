/** The buffer, mailbox and timer kernel as a state machine on values.

    One step is one locked section of the source (Kernel/buffersQueue.cpp, Kernel/mailbox.cpp,
    Kernel/postOffice.cpp, Kernel/timer.cpp); a run is any interleaving of steps of the application threads and of
    the tick handler.  The methods of the Kernel class are proved to perform these steps on the linked lists. */
module KernelSpec {
  import opened Options
  import opened Buffers
  import opened Timeline

  /** What a mailbox's semaphore has seen: its count, releases refused because it stood at its maximum, discarded
      messages, synchronous reads that found nothing, and messages read without waiting on the semaphore. */
  datatype Ledger = Ledger(sem: nat, lost: nat, dropped: nat, empty: nat, direct: nat)

  const SEMAPHORE_MAX: nat := 10000

  datatype State = State(
    where: map<Buffer, Place>,
    pools: seq<seq<Buffer>>,
    boxes: seq<seq<Buffer>>,
    ledgers: seq<Ledger>,
    line: Line,
    codes: map<Buffer, uint16>)
  {
    /** The message code in the header of b. */
    ghost function CodeOf(b: Buffer): uint16 {
      if b in codes then codes[b] else 0
    }

    /** b's message has been discarded, wherever it lies. */
    ghost predicate Dead(b: Buffer) {
      CodeOf(b) == DISCARDED
    }
  }

  datatype Op =
    | TakeBuffer(length: nat)
    | ReturnBuffer(buffer: Buffer)
    | SetCode(buffer: Buffer, code: uint16)
    | Send(mbx: nat, buffer: Buffer)
    | StartTimer(buffer: Buffer, mbx: nat, count: nat)
    | RestartTimer(buffer: Buffer, mbx: nat, length: nat, count: nat)
    | StopTimer(buffer: Buffer)
    | Tick
    | Get(mbx: nat)
    | GetSync(mbx: nat)

  // ---------------------------------------------------------------- the invariant

  /** The places that are linked lists; Held is not one. */
  ghost predicate HasList(s: State, p: Place) {
    match p
    case FreeList(c) => c < |s.pools|
    case Mailbox(m) => m < |s.boxes|
    case TimerList => true
    case Held => false
  }

  ghost function ListAt(s: State, p: Place): seq<Buffer>
    requires HasList(s, p) && s.line.SerialsExist()
  {
    match p
    case FreeList(c) => s.pools[c]
    case Mailbox(m) => s.boxes[m]
    case TimerList => s.line.Timers()
  }

  ghost predicate LiesAt(where: map<Buffer, Place>, b: Buffer, p: Place) {
    b in where && where[b] == p
  }

  ghost predicate IsAt(s: State, b: Buffer, p: Place) {
    LiesAt(s.where, b, p)
  }

  ghost predicate Distinct(list: seq<Buffer>) {
    forall i, j :: 0 <= i < j < |list| ==> list[i] != list[j]
  }

  /** `list` holds exactly the buffers whose place is `p`, each once. */
  ghost predicate Holds(where: map<Buffer, Place>, list: seq<Buffer>, p: Place) {
    && Distinct(list)
    && (forall i :: 0 <= i < |list| ==> list[i] in where && where[list[i]] == p)
    && (forall b :: LiesAt(where, b, p) ==> b in list)
  }

  ghost predicate PlaceOk(s: State, p: Place)
    requires s.line.SerialsExist()
  {
    HasList(s, p) ==> Holds(s.where, ListAt(s, p), p)
  }

  /** A buffer may only lie in the free list of its own class and in a mailbox that exists. */
  ghost predicate MayLie(s: State, b: Buffer, p: Place) {
    p != Held ==> HasList(s, p) && (p.FreeList? ==> p.cls == b.cls)
  }

  ghost predicate OnePlaceEach(s: State)
    requires s.line.SerialsExist()
  {
    && (forall b :: b in s.where ==> b.cls < |s.pools| && MayLie(s, b, s.where[b]))
    && (forall p: Place :: PlaceOk(s, p))
    && s.codes.Keys == s.where.Keys
  }

  /** The part of the invariant that the linked lists rely on. */
  ghost predicate Placed(s: State) {
    s.line.SerialsExist() && OnePlaceEach(s)
  }

  /** Every release is accounted for, and no queued message lacks a wakeup unless a release was refused. */
  ghost predicate Balanced(l: Ledger, queued: nat) {
    && l.sem + l.lost + l.empty == queued + l.dropped + l.direct
    && queued <= l.sem + l.lost
    && l.sem <= SEMAPHORE_MAX
  }

  ghost predicate LedgersBalanced(s: State) {
    && |s.ledgers| == |s.boxes|
    && forall m :: 0 <= m < |s.boxes| ==> Balanced(s.ledgers[m], |s.boxes[m]|)
  }

  ghost predicate TimersAddressed(s: State)
    requires s.line.SerialsExist()
  {
    forall i :: 0 <= i < |s.line.pending| ==> s.line.started[s.line.pending[i]].mbx < |s.boxes|
  }

  ghost predicate Inv(s: State) {
    s.line.Inv() && Placed(s) && LedgersBalanced(s) && TimersAddressed(s)
  }

  /** The invariant, with no timer of count zero at the head of the list. */
  ghost predicate Settled(s: State) {
    Inv(s) && !s.line.HeadIsDue()
  }

  // ---------------------------------------------------------------- moving one buffer

  ghost function ReleaseOnce(l: Ledger): Ledger {
    if l.sem < SEMAPHORE_MAX then l.(sem := l.sem + 1) else l.(lost := l.lost + 1)
  }

  ghost function Post(s: State, m: nat, b: Buffer): State
    requires m < |s.boxes| == |s.ledgers|
  {
    s.(where := s.where[b := Mailbox(m)],
       boxes := s.boxes[m := s.boxes[m] + [b]],
       ledgers := s.ledgers[m := ReleaseOnce(s.ledgers[m])])
  }

  ghost function Free(s: State, b: Buffer): State
    requires b.cls < |s.pools|
  {
    s.(where := s.where[b := FreeList(b.cls)], pools := s.pools[b.cls := s.pools[b.cls] + [b]])
  }

  ghost function Code(s: State, b: Buffer, code: uint16): State {
    s.(codes := s.codes[b := code])
  }

  /** The first class from `from` on that is long enough and has a free buffer. */
  ghost function FirstFit(lengths: seq<nat>, pools: seq<seq<Buffer>>, length: nat, from: nat): (c: nat)
    requires |lengths| == |pools| && from <= |pools|
    ensures from <= c <= |pools|
    ensures c < |pools| ==> length <= lengths[c] && pools[c] != []
    ensures forall i :: from <= i < c ==> lengths[i] < length || pools[i] == []
    decreases |pools| - from
  {
    if from == |pools| || (length <= lengths[from] && pools[from] != []) then from
    else FirstFit(lengths, pools, length, from + 1)
  }

  ghost function PopFree(s: State, c: nat): State
    requires c < |s.pools| && s.pools[c] != []
  {
    s.(where := s.where[s.pools[c][0] := Held], pools := s.pools[c := s.pools[c][1..]])
  }

  ghost function Allocate(lengths: seq<nat>, s: State, length: nat): (State, Option<Buffer>)
    requires |lengths| == |s.pools|
  {
    var c := FirstFit(lengths, s.pools, length, 0);
    if c == |s.pools| then (s, None) else (PopFree(s, c), Some(s.pools[c][0]))
  }

  ghost function Begin(s: State, b: Buffer, m: nat, count: nat): State
    requires s.line.SerialsExist()
  {
    s.(where := s.where[b := TimerList], line := s.line.Start(b, m, count))
  }

  // ---------------------------------------------------------------- reading a mailbox

  ghost predicate Readable(s: State, m: nat) {
    m < |s.boxes| == |s.ledgers| && forall i :: 0 <= i < |s.boxes[m]| ==> s.boxes[m][i].cls < |s.pools|
  }

  ghost function HandOutHead(s: State, m: nat): State
    requires m < |s.boxes| && s.boxes[m] != []
  {
    s.(where := s.where[s.boxes[m][0] := Held], boxes := s.boxes[m := s.boxes[m][1..]])
  }

  ghost function CountDropped(s: State, m: nat): State
    requires m < |s.ledgers|
  {
    s.(ledgers := s.ledgers[m := s.ledgers[m].(dropped := s.ledgers[m].dropped + 1)])
  }

  /** A discarded message at the head goes back to the free list of its class. */
  ghost function DropHead(s: State, m: nat): State
    requires Readable(s, m) && s.boxes[m] != []
  {
    CountDropped(Free(HandOutHead(s, m), s.boxes[m][0]), m)
  }

  ghost function Take(s: State, m: nat): (r: (State, Option<Buffer>))
    requires Readable(s, m)
    ensures |r.0.boxes| == |r.0.ledgers| == |s.boxes| && r.0.ledgers[m].sem == s.ledgers[m].sem
    decreases |s.boxes[m]|
  {
    if s.boxes[m] == [] then (s, None)
    else if s.Dead(s.boxes[m][0]) then Take(DropHead(s, m), m)
    else (HandOutHead(s, m), Some(s.boxes[m][0]))
  }

  /** TPostOffice::Get does not touch the semaphore. */
  ghost function CountDirect(l: Ledger, got: Option<Buffer>): Ledger {
    if got.Some? then l.(direct := l.direct + 1) else l
  }

  /** TPostOffice::GetSync has taken one unit of the semaphore before it reads the mailbox. */
  ghost function CountSync(l: Ledger, got: Option<Buffer>): Ledger
    requires 0 < l.sem
  {
    if got.Some? then l.(sem := l.sem - 1) else l.(sem := l.sem - 1, empty := l.empty + 1)
  }

  ghost function GetMsg(s: State, m: nat): (State, Option<Buffer>)
    requires Readable(s, m)
  {
    var (t, got) := Take(s, m);
    (t.(ledgers := t.ledgers[m := CountDirect(t.ledgers[m], got)]), got)
  }

  ghost function GetMsgSync(s: State, m: nat): (State, Option<Buffer>)
    requires Readable(s, m) && 0 < s.ledgers[m].sem
  {
    var (t, got) := Take(s, m);
    (t.(ledgers := t.ledgers[m := CountSync(t.ledgers[m], got)]), got)
  }

  // ---------------------------------------------------------------- the tick

  ghost predicate Tickable(s: State) {
    s.line.SerialsExist() && |s.boxes| == |s.ledgers| && TimersAddressed(s)
  }

  /** The timer at the head of the list has expired and is unlinked. */
  ghost function PopTimer(s: State): State
    requires s.line.SerialsExist() && s.line.pending != []
  {
    s.(where := s.where[s.line.Timers()[0] := Held], line := s.line.PostHead())
  }

  ghost function PostTimer(s: State): (r: State)
    requires Tickable(s) && s.line.pending != []
    ensures Tickable(r)
  {
    Post(PopTimer(s), s.line.started[s.line.pending[0]].mbx, s.line.Timers()[0])
  }

  ghost function PostDue(s: State): (r: State)
    requires Tickable(s)
    decreases |s.line.pending|
  {
    if s.line.HeadIsDue() then PostDue(PostTimer(s)) else s
  }

  ghost function CountedDown(s: State): State
    requires s.line.SerialsExist()
  {
    s.(line := s.line.CountDown())
  }

  ghost function TickAll(s: State): State
    requires Tickable(s)
  {
    PostDue(CountedDown(s))
  }

  // ---------------------------------------------------------------- one step, one run

  /** What the application may ask for.  Sending or returning a buffer it does not hold is allowed: the
      protection check refuses it.  Stopping is allowed on any buffer at any moment. */
  ghost predicate Allowed(s: State, op: Op) {
    match op
    case TakeBuffer(_) => true
    case ReturnBuffer(b) => b in s.where
    case SetCode(b, _) => IsAt(s, b, Held)
    case Send(_, b) => b in s.where
    case StartTimer(b, m, _) => IsAt(s, b, Held) && m < |s.boxes|
    case RestartTimer(b, m, _, _) => b in s.where && !s.Dead(b) && m < |s.boxes|
    case StopTimer(b) => b in s.where
    case Tick => true
    case Get(m) => m < |s.boxes|
    case GetSync(m) => m < |s.boxes| == |s.ledgers| && 0 < s.ledgers[m].sem
  }

  /** A timer is started in a buffer from the pool. */
  ghost function Launched(lengths: seq<nat>, s: State, length: nat, code: uint16, m: nat, n: nat)
    : (State, Option<Buffer>)
    requires |lengths| == |s.pools| && s.line.SerialsExist()
  {
    var (s1, timer) := Allocate(lengths, s, length);
    if timer.None? then (s, None) else (Begin(Code(s1, timer.value, code), timer.value, m, n), timer)
  }

  /** KernelAPI::StartTimer: a count of zero is refused only after the buffer has been taken, which stays out. */
  ghost function StartedNew(lengths: seq<nat>, s: State, length: nat, code: uint16, m: nat, n: nat)
    : (State, Option<Buffer>)
    requires |lengths| == |s.pools| && s.line.SerialsExist()
  {
    var (s1, timer) := Allocate(lengths, s, length);
    if n == 0 && timer.Some? then (Code(s1, timer.value, code), None)
    else Launched(lengths, s, length, code, m, n)
  }

  /** The timer is superseded by a copy, which takes over its code. */
  ghost function Restart(lengths: seq<nat>, s: State, b: Buffer, m: nat, length: nat, n: nat): (State, Option<Buffer>)
    requires |lengths| == |s.pools| && s.line.SerialsExist()
  {
    var (t, copy) := Launched(lengths, s, length, s.CodeOf(b), m, n);
    if copy.None? then (s, None) else (Code(t, b, DISCARDED), copy)
  }

  ghost function Step(lengths: seq<nat>, s: State, op: Op): (State, Option<Buffer>)
    requires |lengths| == |s.pools| && Inv(s) && Allowed(s, op)
  {
    match op
    case TakeBuffer(length) => Allocate(lengths, s, length)
    case ReturnBuffer(b) => (if s.where[b] == Held then Free(s, b) else s, None)
    case SetCode(b, code) => (Code(s, b, code), None)
    case Send(m, b) => (if m < |s.boxes| && s.where[b] == Held then Post(s, m, b) else s, None)
    case StartTimer(b, m, n) => (Begin(s, b, m, n), None)
    case RestartTimer(b, m, length, n) => Restart(lengths, s, b, m, length, n)
    case StopTimer(b) => (Code(s, b, DISCARDED), None)
    case Tick => (TickAll(s), None)
    case Get(m) => InvReadable(s, m); GetMsg(s, m)
    case GetSync(m) => InvReadable(s, m); GetMsgSync(s, m)
  }

  lemma InvReadable(s: State, m: nat)
    requires Placed(s) && m < |s.boxes| == |s.ledgers|
    ensures Readable(s, m)
  {
    assert PlaceOk(s, Mailbox(m));
  }

  // ---------------------------------------------------------------- every step keeps the invariant

  /** Every list except those at p and q is the same in both states. */
  ghost predicate OthersKept(s: State, t: State, p: Place, q: Place) {
    && s.line.SerialsExist() && t.line.SerialsExist()
    && |t.pools| == |s.pools| && |t.boxes| == |s.boxes|
    && forall r: Place :: HasList(s, r) && r != p && r != q ==> ListAt(t, r) == ListAt(s, r)
  }

  /** Buffer b leaves the head of the list at p (if p is a list) and enters the list at q (if q is one), at k. */
  lemma MoveKeepsPlaces(s: State, t: State, b: Buffer, p: Place, q: Place, k: nat)
    requires Placed(s) && OthersKept(s, t, p, q)
    requires IsAt(s, b, p) && p != q && MayLie(s, b, q)
    requires t.where == s.where[b := q] && t.codes == s.codes
    requires HasList(s, p) ==> ListAt(s, p) != [] && ListAt(s, p)[0] == b && ListAt(t, p) == ListAt(s, p)[1..]
    requires HasList(s, q) ==> k <= |ListAt(s, q)| && ListAt(t, q) == Insert(ListAt(s, q), k, b)
    ensures Placed(t)
  {
    forall r: Place | HasList(t, r) ensures Holds(t.where, ListAt(t, r), r) {
      assert PlaceOk(s, r);
      if r == p {
        RemovedHolds(s.where, ListAt(s, p), p, q);
      } else if r == q {
        InsertedHolds(s.where, ListAt(s, q), q, b, k);
      } else {
        OthersHold(s.where, ListAt(s, r), r, b, q);
      }
    }
  }

  lemma RemovedHolds(where: map<Buffer, Place>, list: seq<Buffer>, p: Place, q: Place)
    requires Holds(where, list, p) && list != [] && p != q
    ensures Holds(where[list[0] := q], list[1..], p)
  {
    forall b | LiesAt(where[list[0] := q], b, p) ensures b in list[1..] {
      assert LiesAt(where, b, p);
      var i :| 0 <= i < |list| && list[i] == b;
      assert list[1..][i - 1] == b;
    }
  }

  lemma InsertedHolds(where: map<Buffer, Place>, list: seq<Buffer>, q: Place, b: Buffer, k: nat)
    requires Holds(where, list, q) && b in where && where[b] != q && k <= |list|
    ensures Holds(where[b := q], Insert(list, k, b), q)
  {
    var list' := Insert(list, k, b);
    forall x | LiesAt(where[b := q], x, q) ensures x in list' {
      if x == b {
        assert list'[k] == b;
      } else {
        assert LiesAt(where, x, q);
        var i :| 0 <= i < |list| && list[i] == x;
        assert list'[if i < k then i else i + 1] == x;
      }
    }
    forall i, j | 0 <= i < j < |list'| ensures list'[i] != list'[j] {
    }
  }

  lemma OthersHold(where: map<Buffer, Place>, list: seq<Buffer>, r: Place, b: Buffer, q: Place)
    requires Holds(where, list, r) && b in where && where[b] != r && q != r
    ensures Holds(where[b := q], list, r)
  {
    forall x | LiesAt(where[b := q], x, r) ensures x in list {
      assert LiesAt(where, x, r);
    }
  }
}
