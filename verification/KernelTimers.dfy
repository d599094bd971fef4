/** When timers expire, over whole runs: on time as long as no tick finds a count of zero at the head of the list. */
module KernelTimers {
  import opened Options
  import opened Buffers
  import opened Timeline
  import opened KernelSpec
  import opened KernelSafety
  import opened KernelRuns

  // ---------------------------------------------------------------- a count of zero

  /** No step of the run moves the expiry of a timer. */
  ghost predicate KeepsSchedule(lengths: seq<nat>, s: State, ops: seq<Op>)
    requires |lengths| == |s.pools| && Inv(s) && Legal(lengths, s, ops)
    decreases |ops|
  {
    ops != [] ==>
      var t := Next(lengths, s, ops[0]);
      s.line.started <= t.line.started && KeepsSchedule(lengths, t, ops[1..])
  }

  /** No tick of the run comes after the start of a timer with count zero; `zero` says whether there has been one
      already. */
  ghost predicate NoTickAfterZero(lengths: seq<nat>, s: State, ops: seq<Op>, zero: bool)
    requires |lengths| == |s.pools| && Inv(s) && Legal(lengths, s, ops)
    decreases |ops|
  {
    ops != [] ==>
      && !(zero && ops[0].Tick?)
      && NoTickAfterZero(lengths, Next(lengths, s, ops[0]), ops[1..], zero || StartsZero(lengths, s, ops[0]))
  }

  /** Over a whole run expiries stay where they are if and only if no tick comes after the start of a timer with
      count zero: that tick's decrement wraps. */
  lemma {:induction false} ScheduleKeptIff(lengths: seq<nat>, s: State, ops: seq<Op>)
    requires |lengths| == |s.pools| && Inv(s) && Legal(lengths, s, ops)
    ensures KeepsSchedule(lengths, s, ops) <==> NoTickAfterZero(lengths, s, ops, s.line.HeadIsDue())
    decreases |ops|
  {
    if ops != [] {
      var t := Next(lengths, s, ops[0]);
      StepKeepsDates(lengths, s, ops[0]);
      StepMakesHeadDue(lengths, s, ops[0]);
      ScheduleKeptIff(lengths, t, ops[1..]);
    }
  }

  /** A caller's way to make sure: start no timer whose scaled count is zero. */
  ghost predicate CountsPositive(ops: seq<Op>) {
    forall i :: 0 <= i < |ops| && (ops[i].StartTimer? || ops[i].RestartTimer?) ==> 1 <= ops[i].count
  }

  lemma {:induction false} PositiveCountsKeepSchedule(lengths: seq<nat>, s: State, ops: seq<Op>)
    requires |lengths| == |s.pools| && Settled(s) && Legal(lengths, s, ops) && CountsPositive(ops)
    ensures KeepsSchedule(lengths, s, ops) && Settled(Run(lengths, s, ops))
    ensures s.line.started <= Run(lengths, s, ops).line.started
    decreases |ops|
  {
    if ops != [] {
      StepKeepsDates(lengths, s, ops[0]);
      StepMakesHeadDue(lengths, s, ops[0]);
      assert forall i :: 0 <= i < |ops[1..]| ==> ops[1..][i] == ops[i + 1];
      PositiveCountsKeepSchedule(lengths, Next(lengths, s, ops[0]), ops[1..]);
    }
  }

  /** A timer started with count zero goes to the head of the list, and the next tick posts nothing at all: every
      timer, the ones that were due on that tick included, is 2^32 ticks later. */
  lemma ZeroCountHoldsUpAll(lengths: seq<nat>, s: State, b: Buffer, m: nat)
    requires |lengths| == |s.pools| && Settled(s) && Allowed(s, StartTimer(b, m, 0))
    ensures var s1 := Next(lengths, s, StartTimer(b, m, 0));
            var t := Next(lengths, s1, Tick);
            && s1.line.Timers() == [b] + s.line.Timers() && t.line.Timers() == s1.line.Timers()
            && t.boxes == s.boxes && t.ledgers == s.ledgers && t.line.posted == s.line.posted
            && forall i :: 0 <= i < |s1.line.pending| ==> t.line.Remaining(i) == s1.line.Remaining(i) + WRAP - 1
  {
    var s1 := Next(lengths, s, StartTimer(b, m, 0));
    BeginKeepsInv(s, b, m, 0);
    ZeroGoesFirst(s.line, b, m);
    HeldUp(s1);
    hide *;
    NextTick(lengths, s1);
  }

  lemma ZeroGoesFirst(t: Line, b: Buffer, m: nat)
    requires t.Inv() && !t.HeadIsDue()
    ensures t.Start(b, m, 0).SerialsExist() && t.Start(b, m, 0).Timers() == [b] + t.Timers()
    ensures t.Start(b, m, 0).posted == t.posted
  {
    StartSerialsExist(t, b, m, 0);
    assert LeadingDue(t.started, t.pending, t.now) == 0;
  }

  /** A tick that finds a count of zero at the head. */
  lemma HeldUp(s: State)
    requires Inv(s) && s.line.HeadIsDue()
    ensures var t := TickAll(s);
            && t.line.SerialsExist() && t.line.Timers() == s.line.Timers()
            && t.boxes == s.boxes && t.ledgers == s.ledgers && t.line.posted == s.line.posted
            && forall i :: 0 <= i < |s.line.pending| ==> t.line.Remaining(i) == s.line.Remaining(i) + WRAP - 1
  {
    CountedDownKeepsInv(s);
    CountDownKeepsInv(s.line);
    forall i | 0 <= i < |s.line.pending|
      ensures CountedDown(s).line.Remaining(i) == s.line.Remaining(i) + WRAP - 1
    {
      DelayedAt(s.line, i);
    }
  }

  // ---------------------------------------------------------------- on time

  /** The step starts a timer in buffer b, directly or as the copy made by a restart. */
  ghost predicate StartedBy(lengths: seq<nat>, s: State, op: Op, b: Buffer, m: nat, n: nat)
    requires |lengths| == |s.pools| && Inv(s) && Allowed(s, op)
  {
    || op == StartTimer(b, m, n)
    || (op.RestartTimer? && op.mbx == m && op.count == n && Step(lengths, s, op).1 == Some(b))
  }

  lemma StartIsRecorded(lengths: seq<nat>, s: State, op: Op, b: Buffer, m: nat, n: nat)
    requires |lengths| == |s.pools| && Settled(s) && Allowed(s, op) && StartedBy(lengths, s, op, b, m, n) && 1 <= n
    ensures var s1 := Next(lengths, s, op);
            && Settled(s1) && s1.line.now == s.line.now
            && s1.line.started == s.line.started + [Started(b, m, s.line.now + n)]
  {
    StepMakesHeadDue(lengths, s, op);
    StartLine(lengths, s, op, b, m, n);
    hide Step, Inv;
  }

  lemma StartLine(lengths: seq<nat>, s: State, op: Op, b: Buffer, m: nat, n: nat)
    requires |lengths| == |s.pools| && Inv(s) && Allowed(s, op) && StartedBy(lengths, s, op, b, m, n)
    ensures Step(lengths, s, op).0.line == s.line.Start(b, m, n)
  {
    if op.RestartTimer? {
      AllocateKeepsInv(lengths, s, op.length);
    }
    hide Inv;
  }

  /** A timer started with count n, or restarted with it, is posted on the n-th later tick: before that it is
      pending, from then on it has been posted exactly once, at that tick. */
  lemma StartedTimerFires(lengths: seq<nat>, s: State, op: Op, b: Buffer, m: nat, n: nat, ops: seq<Op>)
    requires |lengths| == |s.pools| && Settled(s) && Allowed(s, op) && StartedBy(lengths, s, op, b, m, n) && 1 <= n
    requires Legal(lengths, Next(lengths, s, op), ops) && CountsPositive(ops)
    ensures var t := Run(lengths, Next(lengths, s, op), ops);
            var serial := |s.line.started|;
            && serial < |t.line.started| && t.line.started[serial] == Started(b, m, s.line.now + n)
            && (serial in t.line.pending <==> Ticks(ops) < n)
            && (t.line.IsPosted(serial) <==> n <= Ticks(ops))
            && (forall i :: 0 <= i < |t.line.posted| && t.line.posted[i].serial == serial ==>
                  && t.line.posted[i].tick == s.line.now + n
                  && forall j :: i < j < |t.line.posted| ==> t.line.Before(serial, t.line.posted[j].serial))
  {
    var s1 := Next(lengths, s, op);
    StartIsRecorded(lengths, s, op, b, m, n);
    PositiveCountsKeepSchedule(lengths, s1, ops);
    RunCountsTicks(lengths, s1, ops);
    PostedExactlyWhenDue(Run(lengths, s1, ops).line, |s.line.started|);
  }

  lemma {:induction false} ArrivalHas(started: seq<Started>, posted: seq<Posted>, k: nat, m: nat)
    requires k < |posted| && forall i :: 0 <= i < |posted| ==> posted[i].serial < |started|
    requires started[posted[k].serial].mbx == m
    ensures started[posted[k].serial].buffer in Arrivals(started, posted, m)
  {
    if 0 < k {
      ArrivalHas(started, posted[1..], k - 1, m);
    }
  }

  /** On its n-th later tick, and on no other, the timer's buffer is appended to the mailbox it names. */
  lemma StartedTimerArrives(lengths: seq<nat>, s: State, op: Op, b: Buffer, m: nat, n: nat, ops: seq<Op>)
    requires |lengths| == |s.pools| && Settled(s) && Allowed(s, op) && StartedBy(lengths, s, op, b, m, n) && 1 <= n
    requires Legal(lengths, Next(lengths, s, op), ops) && CountsPositive(ops) && Ticks(ops) == n - 1
    ensures var u := Run(lengths, Next(lengths, s, op), ops);
            var t := Next(lengths, u, Tick);
            && m < |u.boxes| && u.boxes[m] <= t.boxes[m]
            && b in t.boxes[m][|u.boxes[m]|..] && IsAt(u, b, TimerList) && IsAt(t, b, Mailbox(m))
  {
    var s1 := Next(lengths, s, op);
    var u := Run(lengths, s1, ops);
    var serial := |s.line.started|;
    StartedTimerFires(lengths, s, op, b, m, n, ops);
    StartIsRecorded(lengths, s, op, b, m, n);
    PositiveCountsKeepSchedule(lengths, s1, ops);
    RunCountsTicks(lengths, s1, ops);
    DueTimerArrives(lengths, u, serial);
  }

  lemma DueTimerArrives(lengths: seq<nat>, u: State, serial: nat)
    requires |lengths| == |u.pools| && Settled(u) && serial in u.line.pending
    requires serial < |u.line.started| && u.line.started[serial].due == u.line.now + 1
    ensures var t := Next(lengths, u, Tick);
            var timer := u.line.started[serial];
            && timer.mbx < |u.boxes| && u.boxes[timer.mbx] <= t.boxes[timer.mbx]
            && timer.buffer in t.boxes[timer.mbx][|u.boxes[timer.mbx]|..]
            && IsAt(u, timer.buffer, TimerList) && IsAt(t, timer.buffer, Mailbox(timer.mbx))
  {
    var t := Next(lengths, u, Tick);
    var timer := u.line.started[serial];
    PendingLies(u, serial);
    StepMakesHeadDue(lengths, u, Tick);
    StepExtends(lengths, u, Tick);
    TickDelivers(lengths, u, timer.mbx);
    PostedExactlyWhenDue(t.line, serial);
    PostedExactlyWhenDue(u.line, serial);
    var i :| 0 <= i < |t.line.posted| && t.line.posted[i].serial == serial;
    assert |u.line.posted| <= i;
    var late := t.line.posted[|u.line.posted|..];
    assert late[i - |u.line.posted|].serial == serial;
    ArrivalHas(t.line.started, late, i - |u.line.posted|, timer.mbx);
    InBoxLies(t, timer.mbx, timer.buffer);
  }

  lemma PendingLies(u: State, serial: nat)
    requires Inv(u) && serial in u.line.pending
    ensures serial < |u.line.started| && u.line.started[serial].mbx < |u.boxes|
    ensures IsAt(u, u.line.started[serial].buffer, TimerList)
  {
    var i :| 0 <= i < |u.line.pending| && u.line.pending[i] == serial;
    assert PlaceOk(u, TimerList) && u.line.Timers()[i] == u.line.started[serial].buffer;
  }

  lemma InBoxLies(t: State, m: nat, b: Buffer)
    requires Inv(t) && m < |t.boxes| && b in t.boxes[m]
    ensures IsAt(t, b, Mailbox(m))
  {
    assert PlaceOk(t, Mailbox(m));
  }
}
