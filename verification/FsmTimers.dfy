/** The timers of one automaton (Kernel/fsm.cpp): TimerStore remembers the buffer of each started timer. */
module FsmTimers {
  import opened Options
  import opened Buffers
  import opened KernelSpec
  import opened KernelRuns
  import opened KernelStore
  import opened Kernels

  datatype TimerBlock = TimerBlock(valid: bool, count: uint32, signalId: uint16, timerBuffer: Option<Buffer>)

  class FiniteStateMachine {
    const kernel: Kernel
    const mbxId: uint8
    const initialState: uint8
    var state: uint8
    var timerStore: seq<TimerBlock>

    constructor (kernel: Kernel, mbxId: uint8, numOfTimers: nat, initialState: uint8)
      ensures this.kernel == kernel && this.mbxId == mbxId && state == this.initialState == initialState
      ensures |timerStore| == (if numOfTimers == 0 then 1 else numOfTimers)
      ensures forall i :: 0 <= i < |timerStore| ==> !timerStore[i].valid && timerStore[i].timerBuffer == None
    {
      this.kernel, this.mbxId, this.initialState := kernel, mbxId, initialState;
      state := initialState;
      timerStore := seq(if numOfTimers == 0 then 1 else numOfTimers, _ => TimerBlock(false, 0, 0, None));
    }

    ghost predicate Ready()
      reads kernel
    {
      kernel.Valid() && mbxId < |kernel.mailboxes|
    }

    /** Every handle is that of a timer that has been neither stopped nor delivered: the automaton clears a handle when
        the timer's message reaches it.  Kernel steps between two calls keep this (RunKeepsHandles). */
    ghost predicate Valid()
      reads this`timerStore, kernel
    {
      ValidBut(|timerStore|)
    }

    /** The handles are as they should be, but for that of timer k whose message has just arrived. */
    ghost predicate ValidBut(k: nat)
      reads this`timerStore, kernel
    {
      Ready() && HandlesOk(timerStore, k, kernel.s)
    }

    /** InitTimerBlock; the signal is not the kernel's own code for discarded messages. */
    method InitTimerBlock(tmrId: nat, count: uint32, signalId: uint16)
      requires Valid() && tmrId < |timerStore| && signalId != DISCARDED
      modifies this`timerStore
      ensures Valid() && timerStore == old(timerStore)[tmrId := TimerBlock(true, count, signalId, None)]
    {
      hide Ready;
      timerStore := timerStore[tmrId := TimerBlock(true, count, signalId, None)];
    }

    /** StartTimer: the source asserts that the timer is initialised and not started already. */
    method StartTimer(tmrId: nat) returns (ok: bool)
      requires Valid() && tmrId < |timerStore|
      requires timerStore[tmrId].valid && timerStore[tmrId].timerBuffer == None
      modifies this`timerStore, kernel
      ensures Valid()
      ensures var block := old(timerStore)[tmrId];
              var (t, timer) := StartedNew(kernel.lengths, old(kernel.s), MSG_HEADER_LENGTH, block.signalId, mbxId,
                                           block.count);
              && kernel.s == t && ok == timer.Some?
              && timerStore == old(timerStore)[tmrId := block.(timerBuffer := timer)]
              && (ok ==> timer.value in kernel.store && Means(kernel.store[timer.value], block.signalId, 0, mbxId))
    {
      var block := timerStore[tmrId];
      StartedIsNew(kernel.lengths, kernel.s, MSG_HEADER_LENGTH, block.signalId, mbxId, block.count);
      ghost var s := kernel.s;
      assert block.signalId != DISCARDED;
      hide OnePlaceEach, Kernel.Valid, Inv, StartedNew, HandlesOk, Live;
      var timer := kernel.StartNewTimer(block.signalId, block.count, mbxId);
      StartedHandlesOk(timerStore, tmrId, timer, s, kernel.s);
      timerStore := timerStore[tmrId := block.(timerBuffer := timer)];
      return timer.Some?;
    }

    /** StopTimer: the message is discarded wherever it is, and the handle is cleared. */
    method StopTimer(tmrId: nat)
      requires Valid() && tmrId < |timerStore| && timerStore[tmrId].valid
      modifies this`timerStore, kernel
      ensures Valid()
      ensures kernel.s == Stopped(old(kernel.s), old(timerStore)[tmrId].timerBuffer)
      ensures timerStore == old(timerStore)[tmrId := old(timerStore)[tmrId].(timerBuffer := None)]
    {
      hide OnePlaceEach, Kernel.Valid, Inv;
      if timerStore[tmrId].timerBuffer == None {
        return;
      }
      kernel.StopTimer(timerStore[tmrId].timerBuffer);
      timerStore := timerStore[tmrId := timerStore[tmrId].(timerBuffer := None)];
    }

    /** ResetTimer: called when the timer's message has arrived. */
    method ResetTimer(tmrId: nat)
      requires tmrId < |timerStore| && ValidBut(tmrId)
      modifies this`timerStore
      ensures Valid()
      ensures timerStore == old(timerStore)[tmrId := old(timerStore)[tmrId].(timerBuffer := None)]
    {
      timerStore := timerStore[tmrId := timerStore[tmrId].(timerBuffer := None)];
    }

    method IsTimerRunning(tmrId: nat) returns (running: bool)
      requires Valid() && tmrId < |timerStore| && timerStore[tmrId].valid
      ensures running <==> Running(kernel.s, timerStore[tmrId])
    {
      if timerStore[tmrId].timerBuffer == None {
        return false;
      }
      running := kernel.TimerRunning(timerStore[tmrId].timerBuffer.value);
    }

    /** One round of the loop of Reset: timer i is stopped if it is running. */
    method ResetOne(i: nat, ghost was: State, ghost all: set<Buffer>)
      requires Valid() && i < |timerStore| && timerStore[i].valid && kernel.s == Discarded(was, all)
      modifies this`timerStore, kernel
      ensures Valid() && timerStore == old(timerStore)[i := old(timerStore)[i].(timerBuffer := None)]
      ensures kernel.s == Discarded(was, all + HandleSet(old(timerStore)[i].timerBuffer))
    {
      assert HandleOk(timerStore[i], kernel.s);
      assert timerStore[i].timerBuffer.Some? ==> timerStore[i].timerBuffer.value in kernel.s.codes;
      DiscardedOneMore(was, all, timerStore[i].timerBuffer);
      hide OnePlaceEach, Kernel.Valid, Inv, Discarded;
      var running := IsTimerRunning(i);
      if running {
        StopTimer(i);
      }
    }

    /** Reset: the initial state, and no timer of the automaton is left running, and no other timer is touched. */
    method Reset()
      requires Valid() && forall i :: 0 <= i < |timerStore| ==> timerStore[i].valid
      modifies this`state, this`timerStore, kernel
      ensures Valid() && |timerStore| == old(|timerStore|) && state == initialState
      ensures kernel.s == Discarded(old(kernel.s), Handles(old(timerStore), old(|timerStore|)))
      ensures forall i :: 0 <= i < |timerStore| ==> !Running(kernel.s, timerStore[i])
    {
      hide *;
      DiscardedNone(kernel.s, timerStore);
      state := initialState;
      var i := 0;
      while i < |timerStore|
        invariant 0 <= i <= |timerStore| == old(|timerStore|) && Valid()
        invariant forall j :: i <= j < |timerStore| ==> timerStore[j] == old(timerStore)[j]
        invariant state == initialState
        invariant kernel.s == Discarded(old(kernel.s), Handles(old(timerStore), i))
        invariant forall j :: 0 <= j < i ==> timerStore[j].timerBuffer == None
      {
        ResetOne(i, old(kernel.s), Handles(old(timerStore), i));
        DiscardedNext(old(timerStore), i);
        i := i + 1;
      }
      NoneRuns(kernel.s, timerStore);
    }
  }

  /** The messages in these buffers are discarded, and no other code changes. */
  ghost function Discarded(s: State, all: set<Buffer>): State {
    s.(codes := map b | b in s.codes :: if b in all then DISCARDED else s.codes[b])
  }

  lemma DiscardedOneMore(s: State, all: set<Buffer>, timer: Option<Buffer>)
    requires timer.Some? ==> timer.value in s.codes
    ensures Stopped(Discarded(s, all), timer) == Discarded(s, all + HandleSet(timer))
  {
  }

  lemma DiscardedNone(s: State, timerStore: seq<TimerBlock>)
    ensures Discarded(s, Handles(timerStore, 0)) == s
  {
    assert Discarded(s, {}).codes == s.codes;
  }

  ghost function Stopped(s: State, timer: Option<Buffer>): State {
    if timer.None? then s else Code(s, timer.value, DISCARDED)
  }

  /** Started, not stopped, and not yet delivered. */
  ghost predicate Running(s: State, block: TimerBlock) {
    block.timerBuffer.Some? && !s.Dead(block.timerBuffer.value)
  }

  ghost function HandleSet(timer: Option<Buffer>): set<Buffer> {
    if timer.Some? then {timer.value} else {}
  }

  /** The buffers of the first n timers. */
  ghost function Handles(timerStore: seq<TimerBlock>, n: nat): set<Buffer>
    requires n <= |timerStore|
  {
    if n == 0 then {} else
      Handles(timerStore, n - 1) + HandleSet(timerStore[n - 1].timerBuffer)
  }

  lemma DiscardedNext(timerStore: seq<TimerBlock>, n: nat)
    requires n < |timerStore|
    ensures Handles(timerStore, n + 1) == Handles(timerStore, n) + HandleSet(timerStore[n].timerBuffer)
  {
  }

  lemma NoneRuns(s: State, timerStore: seq<TimerBlock>)
    requires forall i :: 0 <= i < |timerStore| ==> timerStore[i].timerBuffer == None
    ensures forall i :: 0 <= i < |timerStore| ==> !Running(s, timerStore[i])
  {
  }

  ghost predicate HandleOk(block: TimerBlock, s: State) {
    block.timerBuffer.Some? ==> block.valid && Live(s, block.timerBuffer.value)
  }

  ghost predicate SignalsOk(timerStore: seq<TimerBlock>) {
    forall i :: 0 <= i < |timerStore| && timerStore[i].valid ==> timerStore[i].signalId != DISCARDED
  }

  /** Every handle but that of timer k is that of a timer on its way, and no two are the same. */
  ghost predicate HandlesOk(timerStore: seq<TimerBlock>, k: nat, s: State) {
    && SignalsOk(timerStore)
    && (forall i :: 0 <= i < |timerStore| && i != k ==> HandleOk(timerStore[i], s))
    && (forall i, j :: 0 <= i < j < |timerStore| && i != k && j != k ==>
          Apart(timerStore[i].timerBuffer, timerStore[j].timerBuffer))
  }

  ghost predicate Apart(a: Option<Buffer>, b: Option<Buffer>) {
    a.Some? ==> a != b
  }

  lemma StartedHandlesOk(timerStore: seq<TimerBlock>, tmrId: nat, timer: Option<Buffer>, s: State, t: State)
    requires HandlesOk(timerStore, |timerStore|, s) && tmrId < |timerStore| && timerStore[tmrId].valid
    requires timer.Some? ==> !Live(s, timer.value) && Live(t, timer.value)
    requires forall b :: Live(s, b) ==> Live(t, b)
    ensures HandlesOk(timerStore[tmrId := timerStore[tmrId].(timerBuffer := timer)], |timerStore|, t)
  {
    hide Live;
  }

  // ---------------------------------------------------------------- between two calls

  ghost predicate SparesAll(op: Op, timerStore: seq<TimerBlock>) {
    forall i :: 0 <= i < |timerStore| && timerStore[i].timerBuffer.Some? ==> Spares(op, timerStore[i].timerBuffer.value)
  }

  /** The timer whose message this is; none if it is no timer's of the automaton. */
  ghost function Delivered(timerStore: seq<TimerBlock>, got: Option<Buffer>): (k: nat)
    ensures k <= |timerStore|
    ensures k < |timerStore| ==> got.Some? && timerStore[k].timerBuffer == got
    ensures forall i :: 0 <= i < k ==> got.None? || timerStore[i].timerBuffer != got
  {
    if timerStore == [] || (got.Some? && timerStore[0].timerBuffer == got) then 0
    else 1 + Delivered(timerStore[1..], got)
  }

  /** A kernel step by anyone keeps the automaton's handles, or delivers one of its timers and leaves the others. */
  lemma StepKeepsHandles(lengths: seq<nat>, s: State, op: Op, timerStore: seq<TimerBlock>)
    requires |lengths| == |s.pools| && Inv(s) && Allowed(s, op)
    requires HandlesOk(timerStore, |timerStore|, s) && SparesAll(op, timerStore)
    ensures var (t, got) := Step(lengths, s, op);
            HandlesOk(timerStore, Delivered(timerStore, got), t)
  {
    var (t, got) := Step(lengths, s, op);
    var k := Delivered(timerStore, got);
    forall i | 0 <= i < |timerStore| && i != k ensures HandleOk(timerStore[i], t) {
      var handle := timerStore[i].timerBuffer;
      assert HandleOk(timerStore[i], s);
      if handle.Some? {
        StepKeepsLive(lengths, s, op, handle.value);
        if i < k {
          assert timerStore[i].timerBuffer != got || got.None?;
        } else if k < i {
          assert Apart(timerStore[k].timerBuffer, timerStore[i].timerBuffer);
        }
      }
    }
  }

  /** Along the run nobody stops the automaton's timers and none of their messages is handed out. */
  ghost predicate Undisturbed(lengths: seq<nat>, s: State, ops: seq<Op>, timerStore: seq<TimerBlock>)
    requires |lengths| == |s.pools| && Inv(s) && Legal(lengths, s, ops)
    decreases |ops|
  {
    ops != [] ==>
      && SparesAll(ops[0], timerStore)
      && Delivered(timerStore, Step(lengths, s, ops[0]).1) == |timerStore|
      && Undisturbed(lengths, Next(lengths, s, ops[0]), ops[1..], timerStore)
  }

  /** Between two calls of the automaton any run of ticks and of other threads' steps keeps its handles. */
  lemma {:induction false} RunKeepsHandles(lengths: seq<nat>, s: State, ops: seq<Op>, timerStore: seq<TimerBlock>)
    requires |lengths| == |s.pools| && Inv(s) && Legal(lengths, s, ops)
    requires HandlesOk(timerStore, |timerStore|, s) && Undisturbed(lengths, s, ops, timerStore)
    ensures HandlesOk(timerStore, |timerStore|, Run(lengths, s, ops))
    decreases |ops|
  {
    if ops != [] {
      StepKeepsHandles(lengths, s, ops[0], timerStore);
      RunKeepsHandles(lengths, Next(lengths, s, ops[0]), ops[1..], timerStore);
    }
  }

  // ---------------------------------------------------------------- after Reset

  lemma {:induction false} HandleIsAmong(timerStore: seq<TimerBlock>, n: nat, i: nat)
    requires i < n <= |timerStore| && timerStore[i].timerBuffer.Some?
    ensures timerStore[i].timerBuffer.value in Handles(timerStore, n)
  {
    if i != n - 1 {
      HandleIsAmong(timerStore, n - 1, i);
    }
  }

  lemma {:induction false} HandlesAreBuffers(timerStore: seq<TimerBlock>, n: nat, s: State)
    requires n <= |timerStore| && HandlesOk(timerStore, |timerStore|, s)
    ensures Handles(timerStore, n) <= s.where.Keys
  {
    if n != 0 {
      HandlesAreBuffers(timerStore, n - 1, s);
      assert HandleOk(timerStore[n - 1], s);
    }
  }

  /** The kernel after Reset. */
  ghost function Silenced(s: State, timerStore: seq<TimerBlock>): (t: State)
    requires Inv(s) && HandlesOk(timerStore, |timerStore|, s)
    ensures Inv(t) && |t.pools| == |s.pools|
  {
    HandlesAreBuffers(timerStore, |timerStore|, s);
    DiscardedKeepsInv(s, Handles(timerStore, |timerStore|));
    Discarded(s, Handles(timerStore, |timerStore|))
  }

  lemma DiscardedKeepsInv(s: State, all: set<Buffer>)
    requires Inv(s)
    ensures Inv(Discarded(s, all))
  {
    var t := Discarded(s, all);
    forall p: Place ensures PlaceOk(t, p) {
      assert PlaceOk(s, p);
    }
  }

  /** At whatever moment Reset comes, after any run that has not delivered the automaton's timers yet, and whatever
      happens then: none of them is ever delivered, but each stays aside until it is back in the free list of its
      class. */
  lemma ResetIsFinal(lengths: seq<nat>, s: State, timerStore: seq<TimerBlock>, before: seq<Op>, after: seq<Op>, i: nat)
    requires |lengths| == |s.pools| && Inv(s) && Legal(lengths, s, before)
    requires HandlesOk(timerStore, |timerStore|, s) && Undisturbed(lengths, s, before, timerStore)
    requires i < |timerStore| && timerStore[i].timerBuffer.Some?
    requires HandlesOk(timerStore, |timerStore|, Run(lengths, s, before))
             ==> Legal(lengths, Silenced(Run(lengths, s, before), timerStore), after)
    ensures HandlesOk(timerStore, |timerStore|, Run(lengths, s, before))
    ensures NeverHandedOut(lengths, Silenced(Run(lengths, s, before), timerStore), after,
                           timerStore[i].timerBuffer.value)
  {
    RunKeepsHandles(lengths, s, before, timerStore);
    var u := Run(lengths, s, before);
    HandleIsAmong(timerStore, |timerStore|, i);
    assert HandleOk(timerStore[i], u);
    DeadIsNeverHandedOut(lengths, Silenced(u, timerStore), after, timerStore[i].timerBuffer.value);
  }

  /** The same of StopTimer for one of them. */
  lemma StopIsFinal(lengths: seq<nat>, s: State, timerStore: seq<TimerBlock>, before: seq<Op>, after: seq<Op>, i: nat)
    requires |lengths| == |s.pools| && Inv(s) && Legal(lengths, s, before)
    requires HandlesOk(timerStore, |timerStore|, s) && Undisturbed(lengths, s, before, timerStore)
    requires i < |timerStore| && timerStore[i].timerBuffer.Some?
    requires var stop := StopTimer(timerStore[i].timerBuffer.value);
             var u := Run(lengths, s, before);
             Allowed(u, stop) ==> Legal(lengths, Next(lengths, u, stop), after)
    ensures var stop := StopTimer(timerStore[i].timerBuffer.value);
            var u := Run(lengths, s, before);
            && Allowed(u, stop) && Next(lengths, u, stop) == Stopped(u, timerStore[i].timerBuffer)
            && NeverHandedOut(lengths, Next(lengths, u, stop), after, timerStore[i].timerBuffer.value)
  {
    RunKeepsHandles(lengths, s, before, timerStore);
    var u := Run(lengths, s, before);
    assert HandleOk(timerStore[i], u);
    var b := timerStore[i].timerBuffer.value;
    StoppedTimerIsNeverDelivered(lengths, u, StopTimer(b), b, after);
  }
}
