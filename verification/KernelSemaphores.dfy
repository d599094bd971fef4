/** The semaphores of the mailboxes over whole runs (Kernel/postOffice.cpp), posts by the tick handler included. */
module KernelSemaphores {
  import opened KernelSpec
  import opened KernelSafety
  import opened KernelRuns

  /** No queued message is stranded: unless a release was refused at the semaphore's maximum, a non-empty mailbox
      has a wakeup waiting; and each discarded message costs at most one empty read. */
  lemma NoMessageIsStranded(s: State, m: nat)
    requires Inv(s) && m < |s.boxes|
    ensures s.ledgers[m].lost == 0 && s.boxes[m] != [] ==> Allowed(s, GetSync(m))
    ensures s.ledgers[m].empty <= s.ledgers[m].dropped + s.ledgers[m].direct
    ensures s.ledgers[m].dropped == s.ledgers[m].direct == 0 ==> |s.boxes[m]| == s.ledgers[m].sem + s.ledgers[m].lost
  {
  }

  // ---------------------------------------------------------------- releases

  /** k releases, of which those are refused that find the count at its maximum. */
  ghost predicate Released(l: Ledger, l': Ledger, k: nat) {
    && l' == l.(sem := l'.sem, lost := l'.lost)
    && l'.sem == (if l.sem + k <= SEMAPHORE_MAX then l.sem + k else SEMAPHORE_MAX)
    && l'.lost == l.lost + l.sem + k - l'.sem
  }

  ghost predicate Reads(op: Op, m: nat) {
    op == Get(m) || op == GetSync(m)
  }

  /** Messages that the tick handler or a sender puts into mailbox m in one step. */
  ghost function Arrived(lengths: seq<nat>, s: State, op: Op, m: nat): nat
    requires |lengths| == |s.pools| && Inv(s) && Allowed(s, op) && m < |s.boxes|
  {
    if Reads(op, m) then 0 else
      StepIsFifo(lengths, s, op, m);
      |Next(lengths, s, op).boxes[m]| - |s.boxes[m]|
  }

  lemma {:induction false} PostDueReleases(s: State, m: nat)
    requires Inv(s) && m < |s.boxes|
    ensures var t := PostDue(s);
            && |t.boxes| == |t.ledgers| == |s.boxes| && |s.boxes[m]| <= |t.boxes[m]|
            && Released(s.ledgers[m], t.ledgers[m], |t.boxes[m]| - |s.boxes[m]|)
    decreases |s.line.pending|
  {
    if s.line.HeadIsDue() {
      PostTimerKeepsInv(s);
      PostDueReleases(PostTimer(s), m);
    }
  }

  lemma {:induction false} TakeLedger(s: State, x: nat, m: nat)
    requires Inv(s) && x < |s.boxes| && m < |s.boxes|
    ensures Readable(s, x)
    ensures var t := Take(s, x).0;
            && |t.boxes| == |t.ledgers| == |s.ledgers| && t.ledgers[m].(dropped := 0) == s.ledgers[m].(dropped := 0)
            && (x != m ==> t.ledgers[m] == s.ledgers[m] && t.boxes[m] == s.boxes[m])
    decreases |s.boxes[x]|
  {
    InvReadable(s, x);
    if s.boxes[x] != [] && s.Dead(s.boxes[x][0]) {
      DropHeadKeepsInv(s, x);
      TakeLedger(DropHead(s, x), x, m);
    }
  }

  lemma TickReleases(s: State, m: nat)
    requires Inv(s) && m < |s.boxes|
    ensures var t := TickAll(s);
            && |t.boxes| == |t.ledgers| == |s.boxes| && |s.boxes[m]| <= |t.boxes[m]|
            && Released(s.ledgers[m], t.ledgers[m], |t.boxes[m]| - |s.boxes[m]|)
  {
    CountedDownKeepsInv(s);
    PostDueReleases(CountedDown(s), m);
  }

  /** The ledger of mailbox m after a step. */
  ghost predicate LedgerOk(s: State, t: State, op: Op, m: nat)
    requires m < |s.boxes| == |s.ledgers| && m < |t.boxes| == |t.ledgers|
  {
    var l, l' := s.ledgers[m], t.ledgers[m];
    && (!Reads(op, m) ==> |s.boxes[m]| <= |t.boxes[m]| && Released(l, l', |t.boxes[m]| - |s.boxes[m]|))
    && (Reads(op, m) ==> l'.lost == l.lost && l'.sem == l.sem - if op == GetSync(m) then 1 else 0)
    && (op != Get(m) ==> l'.direct == l.direct)
  }

  lemma ReadLedger(lengths: seq<nat>, s: State, op: Op, x: nat, m: nat)
    requires |lengths| == |s.pools| && Inv(s) && Allowed(s, op) && Reads(op, x) && m < |s.boxes|
    ensures var t := Step(lengths, s, op).0; m < |t.boxes| == |t.ledgers| && LedgerOk(s, t, op, m)
  {
    TakeLedger(s, x, m);
    hide Inv, Take;
  }

  lemma OtherLedger(lengths: seq<nat>, s: State, op: Op, m: nat)
    requires |lengths| == |s.pools| && Inv(s) && Allowed(s, op) && m < |s.boxes|
    requires !op.Tick? && !op.Get? && !op.GetSync?
    ensures var t := Step(lengths, s, op).0; m < |t.boxes| == |t.ledgers| && LedgerOk(s, t, op, m)
  {
    if op.TakeBuffer? || op.RestartTimer? {
      AllocateKeepsInv(lengths, s, op.length);
    }
    hide OnePlaceEach;
  }

  /** Whatever arrives is released; reading m takes a unit when it waits, and refuses nothing. */
  lemma StepReleases(lengths: seq<nat>, s: State, op: Op, m: nat)
    requires |lengths| == |s.pools| && Inv(s) && Allowed(s, op) && m < |s.boxes|
    ensures var t := Next(lengths, s, op); m < |t.boxes| == |t.ledgers| && LedgerOk(s, t, op, m)
  {
    if op.Tick? {
      TickReleases(s, m);
      NextTick(lengths, s);
      hide TickAll, Inv;
    } else if op.Get? || op.GetSync? {
      ReadLedger(lengths, s, op, op.mbx, m);
      hide Step, Inv;
    } else {
      OtherLedger(lengths, s, op, m);
      hide Step, Inv;
    }
  }

  // ---------------------------------------------------------------- over runs

  /** Messages that come into mailbox m along the run. */
  ghost function AllArrived(lengths: seq<nat>, s: State, ops: seq<Op>, m: nat): nat
    requires |lengths| == |s.pools| && Inv(s) && m < |s.boxes| && Legal(lengths, s, ops)
    decreases |ops|
  {
    if ops == [] then 0 else
      Arrived(lengths, s, ops[0], m) + AllArrived(lengths, Next(lengths, s, ops[0]), ops[1..], m)
  }

  /** Waits on the semaphore of mailbox m. */
  function Waits(ops: seq<Op>, m: nat): nat {
    if ops == [] then 0 else (if ops[0] == GetSync(m) then 1 else 0) + Waits(ops[1..], m)
  }

  /** At each step, what arrives beyond the maximum of the count. */
  ghost function Refused(lengths: seq<nat>, s: State, ops: seq<Op>, m: nat): nat
    requires |lengths| == |s.pools| && Inv(s) && m < |s.boxes| && Legal(lengths, s, ops)
    decreases |ops|
  {
    if ops == [] then 0 else
      var after := s.ledgers[m].sem + Arrived(lengths, s, ops[0], m);
      (if SEMAPHORE_MAX < after then after - SEMAPHORE_MAX else 0)
      + Refused(lengths, Next(lengths, s, ops[0]), ops[1..], m)
  }

  /** Wakeups are conserved: every message that comes in, from a sender or from the tick handler, is one that has
      been waited for, is waiting, or was refused at the maximum; and refused are exactly those that came in, step
      by step, beyond it. */
  lemma {:induction false} WakeupsAreConserved(lengths: seq<nat>, s: State, ops: seq<Op>, m: nat)
    requires |lengths| == |s.pools| && Inv(s) && m < |s.boxes| && Legal(lengths, s, ops)
    ensures var l, l' := s.ledgers[m], Run(lengths, s, ops).ledgers[m];
            && l.sem + l.lost + AllArrived(lengths, s, ops, m) == l'.sem + l'.lost + Waits(ops, m)
            && l'.lost == l.lost + Refused(lengths, s, ops, m)
    decreases |ops|
  {
    if ops != [] {
      StepReleases(lengths, s, ops[0], m);
      WakeupsAreConserved(lengths, Next(lengths, s, ops[0]), ops[1..], m);
    }
  }

  /** Along the run mailbox m is read only through GetSync and its semaphore stays below the maximum. */
  ghost predicate SyncOnly(lengths: seq<nat>, s: State, ops: seq<Op>, m: nat)
    requires |lengths| == |s.pools| && Inv(s) && m < |s.boxes| && Legal(lengths, s, ops)
    decreases |ops|
  {
    && s.ledgers[m].sem < SEMAPHORE_MAX
    && (ops != [] ==> ops[0] != Get(m) && SyncOnly(lengths, Next(lengths, s, ops[0]), ops[1..], m))
  }

  /** With mailbox m read only through GetSync, and never as many as 10000 wakeups pending, its semaphore is the
      length of its queue plus the messages discarded minus the wakeups that found nothing; so a queued message
      always has a wakeup, and a discarded one costs at most one read that finds nothing. */
  lemma {:induction false} SemaphoreCounts(lengths: seq<nat>, s: State, ops: seq<Op>, m: nat)
    requires |lengths| == |s.pools| && Inv(s) && m < |s.boxes| && Legal(lengths, s, ops)
    requires SyncOnly(lengths, s, ops, m) && s.ledgers[m].lost == s.ledgers[m].direct == 0
    ensures var t := Run(lengths, s, ops);
            && m < |t.boxes| == |t.ledgers|
            && t.ledgers[m].sem + t.ledgers[m].empty == |t.boxes[m]| + t.ledgers[m].dropped
            && |t.boxes[m]| <= t.ledgers[m].sem && t.ledgers[m].empty <= t.ledgers[m].dropped
    decreases |ops|
  {
    if ops != [] {
      StepReleases(lengths, s, ops[0], m);
      SemaphoreCounts(lengths, Next(lengths, s, ops[0]), ops[1..], m);
    }
  }
}
