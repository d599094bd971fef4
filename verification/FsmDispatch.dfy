/** The dispatch table of an automaton (Kernel/fsm.cpp): which procedure runs on which event in which state. */
module FsmDispatch {
  import opened Buffers

  datatype Branch<P> = Branch(eventCode: uint16, proc: P)

  datatype StateTable<P> = StateTable(stateValid: bool, branches: seq<Branch<P>>, unexpectedEventProc: P)

  /** The procedure of the first branch for the event, or the one for unexpected events. */
  function Lookup<P>(table: StateTable<P>, event: uint16): P {
    LookupFrom(table, event, 0)
  }

  function LookupFrom<P>(table: StateTable<P>, event: uint16, i: nat): P
    requires i <= |table.branches|
    decreases |table.branches| - i
  {
    if i == |table.branches| then table.unexpectedEventProc
    else if table.branches[i].eventCode == event then table.branches[i].proc
    else LookupFrom(table, event, i + 1)
  }

  predicate HasBranch<P>(table: StateTable<P>, event: uint16) {
    exists i :: 0 <= i < |table.branches| && table.branches[i].eventCode == event
  }

  function Extended<P>(table: StateTable<P>, event: uint16, proc: P, doNothing: P): StateTable<P> {
    StateTable(true, table.branches + [Branch(event, proc)],
               if table.stateValid then table.unexpectedEventProc else doNothing)
  }

  /** A branch that is added is found, and no other lookup changes. */
  lemma {:induction false} ExtendedLookup<P>(table: StateTable<P>, event: uint16, proc: P, doNothing: P, e: uint16,
                                             i: nat)
    requires i <= |table.branches| && !HasBranch(table, event)
    requires !table.stateValid ==> table.unexpectedEventProc == doNothing
    ensures LookupFrom(Extended(table, event, proc, doNothing), e, i)
            == if e == event then proc else LookupFrom(table, e, i)
    decreases |table.branches| - i
  {
    if i < |table.branches| {
      ExtendedLookup(table, event, proc, doNothing, e, i + 1);
    }
  }

  class Dispatcher<P(!new)> {
    const maxNumOfProcPerState: nat
    const doNothing: P
    var states: seq<StateTable<P>>

    ghost predicate Valid()
      reads this
    {
      forall s :: 0 <= s < |states| && !states[s].stateValid ==> states[s].unexpectedEventProc == doNothing
    }

    ghost function Bound(state: nat, event: uint16): P
      requires state < |states|
      reads this
    {
      Lookup(states[state], event)
    }

    constructor (numOfStates: nat, maxNumOfProceduresPerState: nat, doNothing: P)
      ensures Valid() && |states| == numOfStates && maxNumOfProcPerState == maxNumOfProceduresPerState
      ensures this.doNothing == doNothing
      ensures forall s :: 0 <= s < |states| ==> states[s].branches == []
      ensures forall s, e :: 0 <= s < |states| ==> Bound(s, e) == doNothing
    {
      this.doNothing, maxNumOfProcPerState := doNothing, maxNumOfProceduresPerState;
      states := seq(numOfStates, _ => StateTable(false, [], doNothing));
    }

    /** InitEventProc: an event that already has a branch, and one branch too many, are errors. */
    method InitEventProc(state: nat, event: uint16, proc: P) returns (ok: bool)
      requires Valid() && state < |states|
      modifies this
      ensures Valid() && |states| == old(|states|)
      ensures ok <==> !HasBranch(old(states[state]), event) && |old(states[state].branches)| < maxNumOfProcPerState
      ensures HasBranch(old(states[state]), event) ==> states == old(states)
      ensures !HasBranch(old(states[state]), event) ==>
                && states == old(states)[state := Extended(old(states[state]), event, proc, doNothing)]
                && forall s, e :: 0 <= s < |states| ==>
                     Bound(s, e) == if s == state && e == event then proc else old(Bound(s, e))
    {
      var table := states[state];
      var i := 0;
      while i < |table.branches|
        invariant 0 <= i <= |table.branches|
        invariant forall j :: 0 <= j < i ==> table.branches[j].eventCode != event
      {
        if table.branches[i].eventCode == event {
          return false;
        }
        i := i + 1;
      }
      ghost var was := states;
      states := states[state := Extended(table, event, proc, doNothing)];
      forall s, e | 0 <= s < |states|
        ensures Bound(s, e) == if s == state && e == event then proc else Lookup(was[s], e)
      {
        if s == state {
          ExtendedLookup(table, event, proc, doNothing, e, 0);
        }
      }
      return |states[state].branches| <= maxNumOfProcPerState;
    }

    /** GetProcedure: the source asserts that the state has been given a procedure. */
    method GetProcedure(state: nat, event: uint16) returns (proc: P)
      requires state < |states| && states[state].stateValid
      ensures proc == Bound(state, event)
    {
      var table := states[state];
      var i := 0;
      while i < |table.branches|
        invariant 0 <= i <= |table.branches| && LookupFrom(table, event, i) == Lookup(table, event)
      {
        if table.branches[i].eventCode == event {
          return table.branches[i].proc;
        }
        i := i + 1;
      }
      return table.unexpectedEventProc;
    }
  }
}
