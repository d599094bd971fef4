/** Every step of the kernel keeps its invariant. */
module KernelSafety {
  import opened Buffers
  import opened Timeline
  import opened KernelSpec

  // ---------------------------------------------------------------- one buffer moves

  lemma PostKeepsPlaces(s: State, m: nat, b: Buffer)
    requires Placed(s) && m < |s.boxes| == |s.ledgers| && IsAt(s, b, Held)
    ensures Placed(Post(s, m, b))
    ensures OthersKept(s, Post(s, m, b), Held, Mailbox(m))
  {
    var t := Post(s, m, b);
    assert t.boxes[m] == Insert(s.boxes[m], |s.boxes[m]|, b);
    MoveKeepsPlaces(s, t, b, Held, Mailbox(m), |s.boxes[m]|);
  }

  lemma FreeKeepsPlaces(s: State, b: Buffer)
    requires Placed(s) && IsAt(s, b, Held)
    ensures b.cls < |s.pools| && Placed(Free(s, b))
    ensures OthersKept(s, Free(s, b), Held, FreeList(b.cls))
  {
    var t := Free(s, b);
    assert t.pools[b.cls] == Insert(s.pools[b.cls], |s.pools[b.cls]|, b);
    MoveKeepsPlaces(s, t, b, Held, FreeList(b.cls), |s.pools[b.cls]|);
  }

  lemma PopFreeKeepsPlaces(s: State, c: nat)
    requires Placed(s) && c < |s.pools| && s.pools[c] != []
    ensures Placed(PopFree(s, c)) && IsAt(s, s.pools[c][0], FreeList(c))
    ensures OthersKept(s, PopFree(s, c), FreeList(c), Held)
  {
    assert PlaceOk(s, FreeList(c));
    MoveKeepsPlaces(s, PopFree(s, c), s.pools[c][0], FreeList(c), Held, 0);
  }

  lemma HandOutHeadKeepsPlaces(s: State, m: nat)
    requires Placed(s) && m < |s.boxes| && s.boxes[m] != []
    ensures IsAt(s, s.boxes[m][0], Mailbox(m)) && Placed(HandOutHead(s, m))
    ensures OthersKept(s, HandOutHead(s, m), Mailbox(m), Held)
  {
    assert PlaceOk(s, Mailbox(m));
    MoveKeepsPlaces(s, HandOutHead(s, m), s.boxes[m][0], Mailbox(m), Held, 0);
  }

  lemma PopTimerKeepsPlaces(s: State)
    requires Placed(s) && s.line.pending != []
    ensures IsAt(s, s.line.Timers()[0], TimerList)
    ensures Placed(PopTimer(s)) && PopTimer(s).line.Timers() == s.line.Timers()[1..]
    ensures OthersKept(s, PopTimer(s), TimerList, Held)
  {
    assert PlaceOk(s, TimerList);
    var t := PopTimer(s);
    assert t.line.Timers() == s.line.Timers()[1..];
    MoveKeepsPlaces(s, t, s.line.Timers()[0], TimerList, Held, 0);
  }

  lemma BeginKeepsPlaces(s: State, b: Buffer, m: nat, count: nat)
    requires Placed(s) && IsAt(s, b, Held)
    ensures var t := Begin(s, b, m, count);
            var k := LeadingDue(s.line.started, s.line.pending, s.line.now + count);
            Placed(t) && OthersKept(s, t, Held, TimerList) && t.line.Timers() == Insert(s.line.Timers(), k, b)
  {
    var t := Begin(s, b, m, count);
    var k := LeadingDue(s.line.started, s.line.pending, s.line.now + count);
    StartSerialsExist(s.line, b, m, count);
    assert t.line.Timers() == Insert(s.line.Timers(), k, b);
    MoveKeepsPlaces(s, t, b, Held, TimerList, k);
  }

  lemma CodeKeepsPlaces(s: State, b: Buffer, code: uint16)
    requires Placed(s) && b in s.where
    ensures Placed(Code(s, b, code))
  {
    forall p: Place ensures PlaceOk(Code(s, b, code), p) {
      assert PlaceOk(s, p);
    }
  }

  lemma PlacesIgnoreLedgers(s: State, ledgers: seq<Ledger>)
    requires Placed(s)
    ensures Placed(s.(ledgers := ledgers))
  {
    forall p: Place ensures PlaceOk(s.(ledgers := ledgers), p) {
      assert PlaceOk(s, p);
    }
  }

  // ---------------------------------------------------------------- and the rest of the invariant stays

  lemma PostKeepsInv(s: State, m: nat, b: Buffer)
    requires Inv(s) && m < |s.boxes| && IsAt(s, b, Held)
    ensures Inv(Post(s, m, b))
  {
    PostKeepsPlaces(s, m, b);
  }

  lemma FreeKeepsInv(s: State, b: Buffer)
    requires Inv(s) && IsAt(s, b, Held)
    ensures Inv(Free(s, b))
  {
    FreeKeepsPlaces(s, b);
  }

  lemma CodeKeepsInv(s: State, b: Buffer, code: uint16)
    requires Inv(s) && b in s.where
    ensures Inv(Code(s, b, code))
  {
    CodeKeepsPlaces(s, b, code);
  }

  lemma AllocateKeepsInv(lengths: seq<nat>, s: State, length: nat)
    requires Inv(s) && |lengths| == |s.pools|
    ensures var (t, got) := Allocate(lengths, s, length);
            && Inv(t) && t.where.Keys == s.where.Keys && |t.pools| == |s.pools|
            && (got.Some? ==> IsAt(t, got.value, Held) && t == PopFree(s, FirstFit(lengths, s.pools, length, 0)))
  {
    var c := FirstFit(lengths, s.pools, length, 0);
    if c < |s.pools| {
      PopFreeKeepsPlaces(s, c);
    }
  }

  lemma BeginKeepsInv(s: State, b: Buffer, m: nat, count: nat)
    requires Inv(s) && IsAt(s, b, Held) && m < |s.boxes|
    ensures Inv(Begin(s, b, m, count))
    ensures Begin(s, b, m, count).line.HeadIsDue() <==> s.line.HeadIsDue() || count == 0
  {
    StartKeepsInv(s.line, b, m, count);
    BeginKeepsPlaces(s, b, m, count);
  }

  lemma DropHeadKeepsInv(s: State, m: nat)
    requires Inv(s) && m < |s.boxes| && s.boxes[m] != []
    ensures Readable(s, m) && Inv(DropHead(s, m)) && IsAt(s, s.boxes[m][0], Mailbox(m))
  {
    InvReadable(s, m);
    var s1 := HandOutHead(s, m);
    HandOutHeadKeepsPlaces(s, m);
    FreeKeepsPlaces(s1, s.boxes[m][0]);
    PlacesIgnoreLedgers(Free(s1, s.boxes[m][0]), DropHead(s, m).ledgers);
  }

  lemma PostTimerKeepsInv(s: State)
    requires Inv(s) && s.line.HeadIsDue()
    ensures Inv(PostTimer(s)) && IsAt(s, s.line.Timers()[0], TimerList)
  {
    PostHeadKeepsInv(s.line);
    PopTimerKeepsPlaces(s);
    PostKeepsPlaces(PopTimer(s), s.line.started[s.line.pending[0]].mbx, s.line.Timers()[0]);
  }

  lemma CountedDownKeepsInv(s: State)
    requires Inv(s)
    ensures Inv(CountedDown(s)) && CountedDown(s).line.Timers() == s.line.Timers()
  {
    var t := CountedDown(s);
    CountDownKeepsInv(s.line);
    forall p: Place ensures PlaceOk(t, p) {
      assert PlaceOk(s, p);
    }
  }

  lemma {:induction false} PostDueSettles(s: State)
    requires Inv(s)
    ensures Settled(PostDue(s)) && PostDue(s).line.now == s.line.now
    decreases |s.line.pending|
  {
    if s.line.HeadIsDue() {
      PostTimerKeepsInv(s);
      PostDueSettles(PostTimer(s));
    }
  }

  /** Everything but mailbox m's ledger is in order after reading it; if a message was handed out, the ledger
      still counts it as queued. */
  lemma {:induction false} TakeKeepsPlaces(s: State, m: nat)
    requires Inv(s) && m < |s.boxes|
    ensures Readable(s, m)
    ensures var (t, got) := Take(s, m);
            && t.line == s.line && Placed(t) && t.codes == s.codes
            && (got.None? ==> t.boxes[m] == [])
            && (got.Some? ==> IsAt(t, got.value, Held) && !s.Dead(got.value))
            && (forall i :: 0 <= i < |s.boxes| && i != m ==> t.boxes[i] == s.boxes[i] && t.ledgers[i] == s.ledgers[i])
            && Balanced(t.ledgers[m], |t.boxes[m]| + if got.Some? then 1 else 0)
    decreases |s.boxes[m]|
  {
    InvReadable(s, m);
    if s.boxes[m] != [] {
      if s.Dead(s.boxes[m][0]) {
        DropHeadKeepsInv(s, m);
        TakeKeepsPlaces(DropHead(s, m), m);
      } else {
        HandOutHeadKeepsPlaces(s, m);
      }
    }
  }

  lemma GetKeepsInv(s: State, m: nat)
    requires Inv(s) && m < |s.boxes|
    ensures Readable(s, m) && Inv(GetMsg(s, m).0) && GetMsg(s, m).0.line == s.line
    ensures 0 < s.ledgers[m].sem ==> Inv(GetMsgSync(s, m).0) && GetMsgSync(s, m).0.line == s.line
  {
    TakeKeepsPlaces(s, m);
    var t := Take(s, m).0;
    PlacesIgnoreLedgers(t, GetMsg(s, m).0.ledgers);
    if 0 < s.ledgers[m].sem {
      PlacesIgnoreLedgers(t, GetMsgSync(s, m).0.ledgers);
    }
  }

  lemma LaunchedKeepsInv(lengths: seq<nat>, s: State, length: nat, code: uint16, m: nat, n: nat)
    requires Inv(s) && |lengths| == |s.pools| && m < |s.boxes|
    ensures var (t, timer) := Launched(lengths, s, length, code, m, n);
            && Inv(t) && t.where.Keys == s.where.Keys
            && (t.line.HeadIsDue() <==> s.line.HeadIsDue() || (timer.Some? && n == 0))
  {
    var (s1, timer) := Allocate(lengths, s, length);
    AllocateKeepsInv(lengths, s, length);
    if timer.Some? {
      CodeKeepsInv(s1, timer.value, code);
      BeginKeepsInv(Code(s1, timer.value, code), timer.value, m, n);
    }
  }

  lemma RestartKeepsInv(lengths: seq<nat>, s: State, b: Buffer, m: nat, length: nat, n: nat)
    requires Inv(s) && |lengths| == |s.pools| && Allowed(s, RestartTimer(b, m, length, n))
    ensures var (t, copy) := Restart(lengths, s, b, m, length, n);
            Inv(t) && (t.line.HeadIsDue() <==> s.line.HeadIsDue() || (copy.Some? && n == 0))
  {
    var (t, copy) := Launched(lengths, s, length, s.CodeOf(b), m, n);
    LaunchedKeepsInv(lengths, s, length, s.CodeOf(b), m, n);
    CodeKeepsInv(t, b, DISCARDED);
  }

  /** The main safety theorem, step by step. */
  lemma StepKeepsInv(lengths: seq<nat>, s: State, op: Op)
    requires |lengths| == |s.pools| && Inv(s) && Allowed(s, op)
    ensures Inv(Step(lengths, s, op).0)
  {
    match op
    case TakeBuffer(length) => AllocateKeepsInv(lengths, s, length);
    case ReturnBuffer(b) => if s.where[b] == Held { FreeKeepsInv(s, b); }
    case SetCode(b, code) => CodeKeepsInv(s, b, code);
    case Send(m, b) => if m < |s.boxes| && s.where[b] == Held { PostKeepsInv(s, m, b); }
    case StartTimer(b, m, n) => BeginKeepsInv(s, b, m, n);
    case RestartTimer(b, m, length, n) => RestartKeepsInv(lengths, s, b, m, length, n);
    case StopTimer(b) => CodeKeepsInv(s, b, DISCARDED);
    case Tick => CountedDownKeepsInv(s); PostDueSettles(CountedDown(s));
    case Get(m) => GetKeepsInv(s, m);
    case GetSync(m) => GetKeepsInv(s, m);
  }

  /** The step puts a timer with a count of zero at the head of the list. */
  ghost predicate StartsZero(lengths: seq<nat>, s: State, op: Op)
    requires |lengths| == |s.pools| && Inv(s) && Allowed(s, op)
  {
    || (op.StartTimer? && op.count == 0)
    || (op.RestartTimer? && op.count == 0 && Step(lengths, s, op).1.Some?)
  }

  /** Only such a step makes the head due, and only a tick ends that. */
  lemma StepMakesHeadDue(lengths: seq<nat>, s: State, op: Op)
    requires |lengths| == |s.pools| && Inv(s) && Allowed(s, op)
    ensures Inv(Step(lengths, s, op).0)
    ensures Step(lengths, s, op).0.line.HeadIsDue() <==> !op.Tick? && (s.line.HeadIsDue() || StartsZero(lengths, s, op))
  {
    StepKeepsInv(lengths, s, op);
    match op
    case StartTimer(b, m, n) => BeginKeepsInv(s, b, m, n);
    case RestartTimer(b, m, length, n) => RestartKeepsInv(lengths, s, b, m, length, n);
    case Tick => CountedDownKeepsInv(s); PostDueSettles(CountedDown(s));
    case Get(m) => GetKeepsInv(s, m);
    case GetSync(m) => GetKeepsInv(s, m);
    case TakeBuffer(length) => AllocateKeepsInv(lengths, s, length);
    case _ =>
  }
}
