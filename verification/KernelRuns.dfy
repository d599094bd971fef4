/** What holds over whole runs of the kernel, for every interleaving of application steps and ticks. */
module KernelRuns {
  import opened Options
  import opened Buffers
  import opened Timeline
  import opened KernelSpec
  import opened KernelSafety
  import opened KernelShutdown

  // ---------------------------------------------------------------- runs

  /** Every timer keeps its buffer and its mailbox, and none becomes due earlier. */
  ghost predicate Aged(a: seq<Started>, b: seq<Started>) {
    && |a| <= |b|
    && forall i :: 0 <= i < |a| ==> b[i].buffer == a[i].buffer && b[i].mbx == a[i].mbx && a[i].due <= b[i].due
  }

  /** What no step changes: the buffers, the number of classes and of mailboxes, and which timers were started. */
  ghost predicate Extends(s: State, t: State) {
    && t.where.Keys == s.where.Keys && |t.pools| == |s.pools| && |t.boxes| == |s.boxes|
    && Aged(s.line.started, t.line.started) && s.line.now <= t.line.now
  }

  lemma {:induction false} TakeExtends(s: State, m: nat)
    requires Inv(s) && m < |s.boxes|
    ensures Readable(s, m) && Extends(s, Take(s, m).0)
    decreases |s.boxes[m]|
  {
    InvReadable(s, m);
    if s.boxes[m] != [] {
      if s.Dead(s.boxes[m][0]) {
        DropHeadKeepsInv(s, m);
        TakeExtends(DropHead(s, m), m);
      } else {
        HandOutHeadKeepsPlaces(s, m);
      }
    }
  }

  lemma {:induction false} PostDueExtends(s: State)
    requires Inv(s)
    ensures Extends(s, PostDue(s)) && PostDue(s).line.started == s.line.started && PostDue(s).line.now == s.line.now
    decreases |s.line.pending|
  {
    if s.line.HeadIsDue() {
      PostTimerKeepsInv(s);
      PostDueExtends(PostTimer(s));
    }
  }

  lemma LongerIsAged(a: seq<Started>, b: seq<Started>)
    requires a <= b
    ensures Aged(a, b)
  {
  }

  lemma TickExtends(s: State)
    requires Inv(s)
    ensures Extends(s, TickAll(s)) && TickAll(s).line.now == s.line.now + 1
  {
    CountedDownKeepsInv(s);
    PostDueExtends(CountedDown(s));
  }

  lemma StepExtends(lengths: seq<nat>, s: State, op: Op)
    requires |lengths| == |s.pools| && Inv(s) && Allowed(s, op)
    ensures Extends(s, Step(lengths, s, op).0)
    ensures Step(lengths, s, op).0.line.now == s.line.now + if op.Tick? then 1 else 0
  {
    if !op.Tick? {
      StepKeepsDates(lengths, s, op);
      LongerIsAged(s.line.started, Step(lengths, s, op).0.line.started);
    }
    hide Aged;
    match op
    case TakeBuffer(length) => AllocateKeepsInv(lengths, s, length);
    case RestartTimer(b, m, length, n) => AllocateKeepsInv(lengths, s, length);
    case Tick => TickExtends(s);
    case Get(m) => TakeExtends(s, m); GetKeepsInv(s, m);
    case GetSync(m) => TakeExtends(s, m); GetKeepsInv(s, m);
    case _ =>
  }

  /** A step moves an expiry exactly when it is a tick that finds a count of zero. */
  lemma StepKeepsDates(lengths: seq<nat>, s: State, op: Op)
    requires |lengths| == |s.pools| && Inv(s) && Allowed(s, op)
    ensures s.line.started <= Step(lengths, s, op).0.line.started <==> !(op.Tick? && s.line.HeadIsDue())
  {
    match op
    case TakeBuffer(length) => AllocateKeepsInv(lengths, s, length);
    case RestartTimer(b, m, length, n) => AllocateKeepsInv(lengths, s, length);
    case Tick =>
      CountDownKeepsInv(s.line);
      CountedDownKeepsInv(s);
      PostDueExtends(CountedDown(s));
    case Get(m) => GetKeepsInv(s, m);
    case GetSync(m) => GetKeepsInv(s, m);
    case _ =>
  }

  ghost function Next(lengths: seq<nat>, s: State, op: Op): (t: State)
    requires |lengths| == |s.pools| && Inv(s) && Allowed(s, op)
    ensures Inv(t) && Extends(s, t)
  {
    StepKeepsInv(lengths, s, op);
    StepExtends(lengths, s, op);
    Step(lengths, s, op).0
  }

  ghost predicate Legal(lengths: seq<nat>, s: State, ops: seq<Op>)
    requires |lengths| == |s.pools| && Inv(s)
    decreases |ops|
  {
    ops != [] ==> Allowed(s, ops[0]) && Legal(lengths, Next(lengths, s, ops[0]), ops[1..])
  }

  /** Every reachable state satisfies the invariant: each buffer in exactly one place, deltas and ledgers sound. */
  ghost function Run(lengths: seq<nat>, s: State, ops: seq<Op>): (t: State)
    requires |lengths| == |s.pools| && Inv(s) && Legal(lengths, s, ops)
    ensures Inv(t) && Extends(s, t)
    decreases |ops|
  {
    if ops == [] then s else Run(lengths, Next(lengths, s, ops[0]), ops[1..])
  }

  function Ticks(ops: seq<Op>): nat {
    if ops == [] then 0 else (if ops[0].Tick? then 1 else 0) + Ticks(ops[1..])
  }

  lemma {:induction false} RunCountsTicks(lengths: seq<nat>, s: State, ops: seq<Op>)
    requires |lengths| == |s.pools| && Inv(s) && Legal(lengths, s, ops)
    ensures Run(lengths, s, ops).line.now == s.line.now + Ticks(ops)
    decreases |ops|
  {
    if ops != [] {
      StepExtends(lengths, s, ops[0]);
      RunCountsTicks(lengths, Next(lengths, s, ops[0]), ops[1..]);
    }
  }

  // ---------------------------------------------------------------- what a tick delivers

  /** The buffers of the posts addressed to mailbox m, in order. */
  ghost function Arrivals(started: seq<Started>, posted: seq<Posted>, m: nat): seq<Buffer>
    requires forall i :: 0 <= i < |posted| ==> posted[i].serial < |started|
  {
    if posted == [] then [] else
      var first := started[posted[0].serial];
      (if first.mbx == m then [first.buffer] else []) + Arrivals(started, posted[1..], m)
  }

  lemma ArrivalsAfter(started: seq<Started>, posted: seq<Posted>, k: nat, m: nat)
    requires k < |posted| && forall i :: 0 <= i < |posted| ==> posted[i].serial < |started|
    ensures var first := started[posted[k].serial];
            Arrivals(started, posted[k..], m)
            == (if first.mbx == m then [first.buffer] else []) + Arrivals(started, posted[k + 1..], m)
  {
    assert posted[k..][1..] == posted[k + 1..];
  }

  lemma ArrivalsJoin(started: seq<Started>, posted: seq<Posted>, x: Posted, all: seq<Posted>,
                     before: seq<Buffer>, between: seq<Buffer>, after: seq<Buffer>, m: nat)
    requires posted + [x] <= all && forall i :: 0 <= i < |all| ==> all[i].serial < |started|
    requires x.serial < |started|
    requires between == before + if started[x.serial].mbx == m then [started[x.serial].buffer] else []
    requires after == between + Arrivals(started, all[|posted + [x]|..], m)
    ensures after == before + Arrivals(started, all[|posted|..], m)
  {
    assert all[|posted|] == (posted + [x])[|posted|] == x;
    ArrivalsAfter(started, all, |posted|, m);
  }

  lemma PostTimerDelivers(s: State, m: nat)
    requires Inv(s) && s.line.HeadIsDue() && m < |s.boxes|
    ensures var first := s.line.started[s.line.pending[0]];
            var t := PostTimer(s);
            && t.line.started == s.line.started && |t.boxes| == |s.boxes|
            && t.line.posted == s.line.posted + [Posted(s.line.pending[0], s.line.now)]
            && t.boxes[m] == s.boxes[m] + if first.mbx == m then [first.buffer] else []
  {
  }

  lemma {:induction false} PostDueDelivers(s: State, m: nat)
    requires Inv(s) && m < |s.boxes|
    ensures PostDue(s).line.SerialsExist() && s.line.posted <= PostDue(s).line.posted
    ensures PostDue(s).line.started == s.line.started && |PostDue(s).boxes| == |s.boxes|
    ensures PostDue(s).boxes[m] == s.boxes[m] + Arrivals(s.line.started, PostDue(s).line.posted[|s.line.posted|..], m)
    decreases |s.line.pending|
  {
    hide OnePlaceEach;
    PostDueSettles(s);
    PostDueExtends(s);
    if s.line.HeadIsDue() {
      PostTimerKeepsInv(s);
      PostTimerDelivers(s, m);
      PostDueDelivers(PostTimer(s), m);
      var x := Posted(s.line.pending[0], s.line.now);
      var t := PostDue(s);
      hide *;
      ArrivalsJoin(s.line.started, s.line.posted, x, t.line.posted, s.boxes[m], PostTimer(s).boxes[m], t.boxes[m], m);
    } else {
      assert PostDue(s).line.posted[|s.line.posted|..] == [];
    }
  }

  lemma TickAllDelivers(s: State, m: nat)
    requires Inv(s) && m < |s.boxes|
    ensures var t := TickAll(s);
            && t.line.SerialsExist() && s.line.posted <= t.line.posted && t.line.started == s.line.CountDown().started
            && |t.boxes| == |s.boxes|
            && t.boxes[m] == s.boxes[m] + Arrivals(t.line.started, t.line.posted[|s.line.posted|..], m)
  {
    CountedDownKeepsInv(s);
    PostDueDelivers(CountedDown(s), m);
  }

  /** One tick appends to each mailbox exactly the timers addressed to it that were posted, in posting order. */
  lemma TickDelivers(lengths: seq<nat>, s: State, m: nat)
    requires |lengths| == |s.pools| && Inv(s) && m < |s.boxes|
    ensures var t := Next(lengths, s, Tick);
            && s.line.posted <= t.line.posted && t.line.started == s.line.CountDown().started
            && t.boxes[m] == s.boxes[m] + Arrivals(t.line.started, t.line.posted[|s.line.posted|..], m)
  {
    TickAllDelivers(s, m);
    hide *;
    NextTick(lengths, s);
  }

  lemma NextTick(lengths: seq<nat>, s: State)
    requires |lengths| == |s.pools| && Inv(s)
    ensures Allowed(s, Tick) && Next(lengths, s, Tick) == TickAll(s)
  {
  }

  // ---------------------------------------------------------------- reading a mailbox

  lemma DropHeadMoves(s: State, m: nat)
    requires Inv(s) && m < |s.boxes| && s.boxes[m] != []
    ensures Readable(s, m)
    ensures var t := DropHead(s, m);
            var b := s.boxes[m][0];
            && Inv(t) && t.codes == s.codes && |t.boxes| == |s.boxes| && t.boxes[m] == s.boxes[m][1..]
            && b in s.where && s.where[b] == Mailbox(m) && t.where == s.where[b := FreeList(b.cls)]
  {
    DropHeadKeepsInv(s, m);
  }

  /** What reading returns, without the loop: the first message that is not discarded. */
  lemma {:induction false} TakeFindsFirstLive(s: State, m: nat, k: nat)
    requires Inv(s) && m < |s.boxes| && k <= |s.boxes[m]|
    requires forall i :: 0 <= i < k ==> s.Dead(s.boxes[m][i])
    requires k < |s.boxes[m]| ==> !s.Dead(s.boxes[m][k])
    ensures Readable(s, m)
    ensures var (t, got) := Take(s, m);
            && got == (if k < |s.boxes[m]| then Some(s.boxes[m][k]) else None)
            && |t.boxes| == |s.boxes| && t.boxes[m] == s.boxes[m][if k < |s.boxes[m]| then k + 1 else k..]
            && t.where.Keys == s.where.Keys
            && (forall i :: 0 <= i < k ==> IsAt(t, s.boxes[m][i], FreeList(s.boxes[m][i].cls)))
            && (forall b :: b in s.where && s.where[b] != Mailbox(m) ==> t.where[b] == s.where[b])
    decreases k
  {
    InvReadable(s, m);
    TakeExtends(s, m);
    if 0 < k {
      DropHeadMoves(s, m);
      var s1 := DropHead(s, m);
      hide Inv, DropHead, Readable;
      TakeFindsFirstLive(s1, m, k - 1);
      var t := Take(s, m).0;
      forall i | 0 <= i < k ensures IsAt(t, s.boxes[m][i], FreeList(s.boxes[m][i].cls)) {
        assert i == 0 || s.boxes[m][i] == s1.boxes[m][i - 1];
      }
    } else if s.boxes[m] != [] {
      HandOutHeadKeepsPlaces(s, m);
    }
  }

  /** Mailboxes are first in, first out: reading mailbox m removes a prefix of it, every other step can only
      append to it. */
  lemma StepIsFifo(lengths: seq<nat>, s: State, op: Op, m: nat)
    requires |lengths| == |s.pools| && Inv(s) && Allowed(s, op) && m < |s.boxes|
    ensures var t := Next(lengths, s, op);
            && |t.boxes| == |s.boxes|
            && (op != Get(m) && op != GetSync(m) ==> s.boxes[m] <= t.boxes[m])
            && (op == Get(m) || op == GetSync(m) ==>
                  |t.boxes[m]| <= |s.boxes[m]| && t.boxes[m] == s.boxes[m][|s.boxes[m]| - |t.boxes[m]|..])
  {
    hide Inv, Take, PostDue;
    match op
    case Tick => TickDelivers(lengths, s, m);
    case Get(x) => TakeRemovesPrefix(s, x, m);
    case GetSync(x) => TakeRemovesPrefix(s, x, m);
    case RestartTimer(_, _, length, _) => AllocateKeepsInv(lengths, s, length);
    case _ =>
  }

  lemma TakeRemovesPrefix(s: State, x: nat, m: nat)
    requires Inv(s) && x < |s.boxes| && m < |s.boxes|
    ensures Readable(s, x)
    ensures var t := Take(s, x).0;
            && |t.boxes| == |s.boxes|
            && (x != m ==> t.boxes[m] == s.boxes[m])
            && (x == m ==> |t.boxes[m]| <= |s.boxes[m]| && t.boxes[m] == s.boxes[m][|s.boxes[m]| - |t.boxes[m]|..])
  {
    TakeKeepsPlaces(s, x);
    TakeFindsFirstLive(s, x, LeadingDead(s, s.boxes[x]));
  }

  ghost function LeadingDead(s: State, queue: seq<Buffer>): (k: nat)
    ensures k <= |queue|
    ensures forall i :: 0 <= i < k ==> s.Dead(queue[i])
    ensures k < |queue| ==> !s.Dead(queue[k])
  {
    if queue == [] || !s.Dead(queue[0]) then 0 else 1 + LeadingDead(s, queue[1..])
  }

  // ---------------------------------------------------------------- stopped timers are never delivered

  ghost predicate InTransit(s: State, b: Buffer) {
    b in s.where && (s.where[b].TimerList? || s.where[b].Mailbox?)
  }

  /** Along the run, b stays discarded and is handed to nobody until it is back in the free list of its class. */
  ghost predicate NeverHandedOut(lengths: seq<nat>, s: State, ops: seq<Op>, b: Buffer)
    requires |lengths| == |s.pools| && Inv(s) && Legal(lengths, s, ops)
    decreases |ops|
  {
    if InTransit(s, b) then
      && s.Dead(b)
      && (ops != [] ==>
            && Step(lengths, s, ops[0]).1 != Some(b)
            && NeverHandedOut(lengths, Next(lengths, s, ops[0]), ops[1..], b))
    else
      IsAt(s, b, FreeList(b.cls))
  }

  lemma {:induction false} PostDueKeepsTransit(s: State, b: Buffer)
    requires Inv(s) && InTransit(s, b)
    ensures InTransit(PostDue(s), b) && PostDue(s).codes == s.codes
    decreases |s.line.pending|
  {
    if s.line.HeadIsDue() {
      PostTimerKeepsInv(s);
      PostDueKeepsTransit(PostTimer(s), b);
    }
  }

  lemma {:induction false} TakeKeepsDeadAside(s: State, m: nat, b: Buffer)
    requires Inv(s) && m < |s.boxes| && s.Dead(b) && (InTransit(s, b) || IsAt(s, b, FreeList(b.cls)))
    ensures Readable(s, m)
    ensures var (t, got) := Take(s, m);
            got != Some(b) && t.codes == s.codes && (InTransit(t, b) || IsAt(t, b, FreeList(b.cls)))
    decreases |s.boxes[m]|
  {
    InvReadable(s, m);
    if s.boxes[m] != [] {
      if s.Dead(s.boxes[m][0]) {
        DropHeadKeepsInv(s, m);
        TakeKeepsDeadAside(DropHead(s, m), m, b);
      } else {
        HandOutHeadKeepsPlaces(s, m);
      }
    }
  }

  lemma StepKeepsDeadAside(lengths: seq<nat>, s: State, op: Op, b: Buffer)
    requires |lengths| == |s.pools| && Inv(s) && Allowed(s, op) && InTransit(s, b) && s.Dead(b)
    ensures var (t, got) := Step(lengths, s, op);
            got != Some(b) && ((InTransit(t, b) && t.Dead(b)) || IsAt(t, b, FreeList(b.cls)))
  {
    match op
    case TakeBuffer(length) => AllocateAvoids(lengths, s, length, b);
    case RestartTimer(_, _, length, _) => AllocateAvoids(lengths, s, length, b);
    case Tick =>
      CountedDownKeepsInv(s);
      PostDueKeepsTransit(CountedDown(s), b);
    case Get(m) => TakeKeepsDeadAside(s, m, b);
    case GetSync(m) => TakeKeepsDeadAside(s, m, b);
    case _ =>
  }

  lemma AllocateAvoids(lengths: seq<nat>, s: State, length: nat, b: Buffer)
    requires |lengths| == |s.pools| && Inv(s) && InTransit(s, b)
    ensures var (t, got) := Allocate(lengths, s, length);
            got != Some(b) && InTransit(t, b) && t.codes == s.codes && t.line == s.line
  {
    var c := FirstFit(lengths, s.pools, length, 0);
    if c < |s.pools| {
      PopFreeKeepsPlaces(s, c);
    }
  }

  lemma {:induction false} DeadIsNeverHandedOut(lengths: seq<nat>, s: State, ops: seq<Op>, b: Buffer)
    requires |lengths| == |s.pools| && Inv(s) && Legal(lengths, s, ops) && InTransit(s, b) && s.Dead(b)
    ensures NeverHandedOut(lengths, s, ops, b)
    decreases |ops|
  {
    if ops != [] {
      StepKeepsDeadAside(lengths, s, ops[0], b);
      var t := Next(lengths, s, ops[0]);
      if InTransit(t, b) {
        DeadIsNeverHandedOut(lengths, t, ops[1..], b);
      }
    }
  }

  /** A timer stopped at any moment before its message is dequeued, still ticking or already in a mailbox, is
      never delivered; so is one superseded by a restart. */
  lemma StoppedTimerIsNeverDelivered(lengths: seq<nat>, s: State, op: Op, b: Buffer, ops: seq<Op>)
    requires |lengths| == |s.pools| && Inv(s) && InTransit(s, b) && Allowed(s, op)
    requires op == StopTimer(b) || (op.RestartTimer? && op.buffer == b && Step(lengths, s, op).1.Some?)
    requires Legal(lengths, Next(lengths, s, op), ops)
    ensures Step(lengths, s, op).1 != Some(b)
    ensures NeverHandedOut(lengths, Next(lengths, s, op), ops, b)
  {
    if op.RestartTimer? {
      AllocateAvoids(lengths, s, op.length, b);
    }
    DeadIsNeverHandedOut(lengths, Next(lengths, s, op), ops, b);
  }

  // ---------------------------------------------------------------- live timers arrive, with the code they had

  /** On its way, and not stopped. */
  ghost predicate Live(s: State, b: Buffer) {
    InTransit(s, b) && !s.Dead(b)
  }

  /** A started timer is in a buffer that was free; the timers that were on their way still are. */
  lemma StartedIsNew(lengths: seq<nat>, s: State, length: nat, code: uint16, m: nat, n: nat)
    requires Inv(s) && |lengths| == |s.pools| && code != DISCARDED
    ensures var (t, timer) := StartedNew(lengths, s, length, code, m, n);
            && (timer.Some? ==> !Live(s, timer.value) && Live(t, timer.value) && t.CodeOf(timer.value) == code)
            && forall b :: Live(s, b) ==> Live(t, b)
  {
    var (s1, timer) := Allocate(lengths, s, length);
    forall b | Live(s, b) ensures timer != Some(b) && InTransit(s1, b) && s1.codes == s.codes {
      AllocateAvoids(lengths, s, length, b);
    }
  }

  lemma {:induction false} TakeKeepsLive(s: State, m: nat, b: Buffer)
    requires Inv(s) && m < |s.boxes| && Live(s, b)
    ensures Readable(s, m)
    ensures var (t, got) := Take(s, m); t.CodeOf(b) == s.CodeOf(b) && (got != Some(b) ==> Live(t, b))
    decreases |s.boxes[m]|
  {
    InvReadable(s, m);
    if s.boxes[m] != [] {
      if s.Dead(s.boxes[m][0]) {
        DropHeadKeepsInv(s, m);
        TakeKeepsLive(DropHead(s, m), m, b);
      } else {
        HandOutHeadKeepsPlaces(s, m);
      }
    }
  }

  /** The step does not stop or restart b's timer, which only its automaton does. */
  ghost predicate Spares(op: Op, b: Buffer) {
    op != StopTimer(b) && !(op.RestartTimer? && op.buffer == b)
  }

  /** Whatever else the kernel does, a live timer stays on its way, and its message says what it said, until a read
      hands it out. */
  lemma StepKeepsLive(lengths: seq<nat>, s: State, op: Op, b: Buffer)
    requires |lengths| == |s.pools| && Inv(s) && Allowed(s, op) && Live(s, b) && Spares(op, b)
    ensures var (t, got) := Step(lengths, s, op);
            && t.CodeOf(b) == s.CodeOf(b)
            && ((got == Some(b) && (op.Get? || op.GetSync?)) || (got != Some(b) && Live(t, b)))
  {
    match op
    case TakeBuffer(length) => AllocateAvoids(lengths, s, length, b);
    case RestartTimer(_, _, length, _) => AllocateAvoids(lengths, s, length, b);
    case Tick =>
      CountedDownKeepsInv(s);
      PostDueKeepsTransit(CountedDown(s), b);
    case Get(m) => TakeKeepsLive(s, m, b);
    case GetSync(m) => TakeKeepsLive(s, m, b);
    case _ =>
  }

  /** Along the run b's message is on its way, says `code`, and is handed out by nothing but a read, which finds that
      code in it. */
  ghost predicate ArrivesAs(lengths: seq<nat>, s: State, ops: seq<Op>, b: Buffer, code: uint16)
    requires |lengths| == |s.pools| && Inv(s) && Legal(lengths, s, ops)
    decreases |ops|
  {
    && Live(s, b) && s.CodeOf(b) == code
    && (ops != [] ==>
          var (t, got) := Step(lengths, s, ops[0]);
          if got == Some(b) then (ops[0].Get? || ops[0].GetSync?) && t.CodeOf(b) == code
          else ArrivesAs(lengths, Next(lengths, s, ops[0]), ops[1..], b, code))
  }

  lemma {:induction false} LiveArrives(lengths: seq<nat>, s: State, ops: seq<Op>, b: Buffer)
    requires |lengths| == |s.pools| && Inv(s) && Legal(lengths, s, ops)
    requires Live(s, b) && forall i :: 0 <= i < |ops| ==> Spares(ops[i], b)
    ensures ArrivesAs(lengths, s, ops, b, s.CodeOf(b))
    decreases |ops|
  {
    if ops != [] {
      StepKeepsLive(lengths, s, ops[0], b);
      if Step(lengths, s, ops[0]).1 != Some(b) {
        assert forall i :: 0 <= i < |ops[1..]| ==> ops[1..][i] == ops[i + 1];
        LiveArrives(lengths, Next(lengths, s, ops[0]), ops[1..], b);
      }
    }
  }

  /** A timer started by KernelAPI::StartTimer with some code is read with this code, unless it is stopped or
      restarted before. */
  lemma NewTimerArrives(lengths: seq<nat>, s: State, length: nat, code: uint16, m: nat, n: nat, ops: seq<Op>)
    requires |lengths| == |s.pools| && Inv(s) && m < |s.boxes| && n != 0 && code != DISCARDED
    requires var (t, timer) := StartedNew(lengths, s, length, code, m, n);
             && timer.Some?
             && (Inv(t) && |t.pools| == |s.pools| ==> Legal(lengths, t, ops))
             && forall i :: 0 <= i < |ops| ==> Spares(ops[i], timer.value)
    ensures var (t, timer) := StartedNew(lengths, s, length, code, m, n);
            Inv(t) && |t.pools| == |s.pools| && ArrivesAs(lengths, t, ops, timer.value, code)
  {
    var (t, timer) := StartedNew(lengths, s, length, code, m, n);
    StartedIsNew(lengths, s, length, code, m, n);
    AllocateKeepsInv(lengths, s, length);
    LaunchedKeepsInv(lengths, s, length, code, m, n);
    LiveArrives(lengths, t, ops, timer.value);
  }

  /** With a count of zero no timer is started, but the buffer has been taken and stays with the application. */
  lemma ZeroCountKeepsBuffer(lengths: seq<nat>, s: State, length: nat, code: uint16, m: nat)
    requires |lengths| == |s.pools| && Inv(s)
    ensures var (t, timer) := StartedNew(lengths, s, length, code, m, 0);
            var taken := Allocate(lengths, s, length).1;
            && timer.None? && (taken.None? ==> t == s)
            && (taken.Some? ==>
                  IsAt(s, taken.value, FreeList(taken.value.cls)) && t.where == s.where[taken.value := Held])
  {
    var c := FirstFit(lengths, s.pools, length, 0);
    if c < |s.pools| {
      PopFreeKeepsPlaces(s, c);
    }
  }

  /** A timer started by CTimer::StartTimer is read with the code of its buffer, and the copy made by a restart with
      the code of the timer it supersedes. */
  lemma StartedTimerKeepsCode(lengths: seq<nat>, s: State, op: Op, b: Buffer, ops: seq<Op>)
    requires |lengths| == |s.pools| && Inv(s) && Allowed(s, op)
    requires || (op.StartTimer? && op.buffer == b && !s.Dead(b))
             || (op.RestartTimer? && op.buffer != b && Step(lengths, s, op).1 == Some(b))
    requires Legal(lengths, Next(lengths, s, op), ops) && forall i :: 0 <= i < |ops| ==> Spares(ops[i], b)
    ensures ArrivesAs(lengths, Next(lengths, s, op), ops, b, s.CodeOf(op.buffer))
  {
    if op.RestartTimer? {
      AllocateKeepsInv(lengths, s, op.length);
    }
    hide Inv;
    assert var t := Next(lengths, s, op); Live(t, b) && t.CodeOf(b) == s.CodeOf(op.buffer);
    hide *;
    LiveArrives(lengths, Next(lengths, s, op), ops, b);
  }

  lemma NextSetCode(lengths: seq<nat>, s: State, b: Buffer, code: uint16)
    requires |lengths| == |s.pools| && Inv(s) && IsAt(s, b, Held)
    ensures Allowed(s, SetCode(b, code)) && Next(lengths, s, SetCode(b, code)) == Code(s, b, code)
    ensures var t := Code(s, b, code);
            |s.boxes| == |s.ledgers| && |t.pools| == |s.pools| && |t.boxes| == |s.boxes| && IsAt(t, b, Held)
  {
  }

  lemma NextSend(lengths: seq<nat>, s: State, m: nat, b: Buffer)
    requires |lengths| == |s.pools| && Inv(s) && IsAt(s, b, Held) && m < |s.boxes|
    ensures |s.boxes| == |s.ledgers| && Allowed(s, Send(m, b)) && Next(lengths, s, Send(m, b)) == Post(s, m, b)
    ensures |Post(s, m, b).pools| == |s.pools|
  {
  }

  lemma CodedAndPosted(s: State, b: Buffer, code: uint16, m: nat)
    requires m < |s.boxes| == |s.ledgers| && code != DISCARDED
    ensures var t := Post(Code(s, b, code), m, b);
            && t.boxes == s.boxes[m := s.boxes[m] + [b]] && IsAt(t, b, Mailbox(m))
            && Live(t, b) && t.CodeOf(b) == code
  {
  }

  /** The holder of a buffer gives its message a code and sends it: it becomes the last one in its mailbox, the other
      mailboxes stay as they are, and unless somebody discards it it is read there with this code. */
  lemma SentMessageArrives(lengths: seq<nat>, s: State, b: Buffer, code: uint16, m: nat, ops: seq<Op>)
    requires |lengths| == |s.pools| && Inv(s) && IsAt(s, b, Held) && m < |s.boxes| && code != DISCARDED
    requires var t := Next(lengths, Next(lengths, s, SetCode(b, code)), Send(m, b)); Legal(lengths, t, ops)
    requires forall i :: 0 <= i < |ops| ==> Spares(ops[i], b)
    ensures var t := Next(lengths, Next(lengths, s, SetCode(b, code)), Send(m, b));
            && t.boxes == s.boxes[m := s.boxes[m] + [b]] && IsAt(t, b, Mailbox(m))
            && ArrivesAs(lengths, t, ops, b, code)
  {
    hide *;
    NextSetCode(lengths, s, b, code);
    NextSend(lengths, Next(lengths, s, SetCode(b, code)), m, b);
    CodedAndPosted(s, b, code, m);
    LiveArrives(lengths, Next(lengths, Next(lengths, s, SetCode(b, code)), Send(m, b)), ops, b);
  }

  /** A buffer is taken from the first class that is long enough and has a free one; nothing else moves; giving it
      back puts everything where it was. */
  lemma TakenAndReturned(lengths: seq<nat>, s: State, length: nat)
    requires |lengths| == |s.pools| && Inv(s)
    ensures var (t, got) := Step(lengths, s, TakeBuffer(length));
            && (got.None? ==> t == s && forall c :: 0 <= c < |lengths| ==> lengths[c] < length || s.pools[c] == [])
            && (got.Some? ==>
                  var b := got.value;
                  && b.cls < |lengths| && length <= lengths[b.cls] && IsAt(s, b, FreeList(b.cls))
                  && (forall c :: 0 <= c < b.cls ==> lengths[c] < length || s.pools[c] == [])
                  && t.where == s.where[b := Held] && t.codes == s.codes && Inv(t) && Allowed(t, ReturnBuffer(b))
                  && Next(lengths, t, ReturnBuffer(b)).where == s.where)
  {
    AllocateKeepsInv(lengths, s, length);
    var c := FirstFit(lengths, s.pools, length, 0);
    if c < |s.pools| {
      PopFreeKeepsPlaces(s, c);
      var b := s.pools[c][0];
      assert MayLie(s, b, s.where[b]);
      assert s.where[b := Held][b := FreeList(b.cls)] == s.where;
    }
  }

  // ---------------------------------------------------------------- conservation

  /** No run loses or invents a buffer: whatever happened since start-up, deleting timer, post office and pool in
      this order leaves each class with all its buffers if and only if the application has given back its own. */
  lemma RunThenDestroy(lengths: seq<nat>, s: State, ops: seq<Op>, c: nat)
    requires Initial(s) && |lengths| == |s.pools| && c < |s.pools| && Inv(s) && Legal(lengths, s, ops)
    ensures var t := Run(lengths, s, ops);
            && |Destroy(t).pools| == |s.pools|
            && (|Destroy(t).pools[c]| == |s.pools[c]| <==> HeldOfClass(t, c) == {})
  {
    hide Inv, Initial, Destroy, Legal, Run;
    var t := Run(lengths, s, ops);
    InitialHasAll(s, c);
    DestroyReturnsAllButHeld(t, c);
    assert OfClass(t, c) == OfClass(s, c);
  }
}
