/** Start-up and destruction of the kernel objects (Kernel/buffersQueue.cpp, Kernel/fsmSystem.cpp). */
module KernelShutdown {
  import opened Options
  import opened Buffers
  import opened Timeline
  import opened KernelSpec
  import opened KernelSafety

  ghost predicate Initial(s: State) {
    && s.line.now == 0 && s.line.started == [] && s.line.pending == [] && s.line.posted == []
    && s.codes.Keys == s.where.Keys
    && (forall m :: 0 <= m < |s.boxes| ==> s.boxes[m] == [])
    && |s.ledgers| == |s.boxes| && (forall m :: 0 <= m < |s.boxes| ==> s.ledgers[m] == Ledger(0, 0, 0, 0, 0))
    && (forall c :: 0 <= c < |s.pools| ==> Holds(s.where, s.pools[c], FreeList(c)))
    && (forall b :: b in s.where ==> b.cls < |s.pools| && s.where[b] == FreeList(b.cls))
  }

  lemma EmptyLine(t: Line)
    requires t.started == [] && t.pending == [] && t.posted == []
    ensures t.Inv() && t.Timers() == [] && !t.HeadIsDue()
  {
  }

  lemma InitialIsSettled(s: State)
    requires Initial(s)
    ensures Settled(s)
  {
    EmptyLine(s.line);
    assert OnePlaceEach(s) by {
      forall p: Place ensures PlaceOk(s, p) {
        InitialPlaceOk(s, p);
      }
    }
  }

  /** The kernel before any buffer has been carved: n classes, k mailboxes. */
  ghost function Blank(n: nat, k: nat): State {
    State(map[], seq(n, _ => []), seq(k, _ => []), seq(k, _ => Ledger(0, 0, 0, 0, 0)), Line(0, [], [], []), map[])
  }

  lemma BlankIsInitial(n: nat, k: nat)
    ensures Initial(Blank(n, k))
  {
  }

  /** A buffer that has just been carved is in nobody's list; its code is that of the fresh memory. */
  ghost function Known(s: State, b: Buffer): State {
    s.(where := s.where[b := Held], codes := s.codes[b := 0])
  }

  lemma KnownKeepsPlaces(s: State, b: Buffer)
    requires Placed(s) && b !in s.where && b.cls < |s.pools|
    ensures Placed(Known(s, b))
  {
    var t := Known(s, b);
    forall p: Place | HasList(t, p) ensures Holds(t.where, ListAt(t, p), p) {
      assert PlaceOk(s, p);
      KnownHolds(s.where, ListAt(s, p), p, b);
    }
  }

  lemma KnownHolds(where: map<Buffer, Place>, list: seq<Buffer>, p: Place, b: Buffer)
    requires Holds(where, list, p) && b !in where && p != Held
    ensures Holds(where[b := Held], list, p)
  {
    forall x | LiesAt(where[b := Held], x, p) ensures x in list {
      assert LiesAt(where, x, p);
    }
  }

  lemma FreedIsInitial(s: State, b: Buffer)
    requires Initial(s) && b !in s.where && b.cls < |s.pools| && Placed(Free(Known(s, b), b))
    ensures Initial(Free(Known(s, b), b))
  {
    hide Holds;
    var t := Free(Known(s, b), b);
    forall c | 0 <= c < |t.pools| ensures Holds(t.where, t.pools[c], FreeList(c)) {
      assert PlaceOk(t, FreeList(c));
    }
  }

  /** In an initial state the free lists hold all there is. */
  lemma InitialHasAll(s: State, c: nat)
    requires Initial(s) && c < |s.pools|
    ensures |OfClass(s, c)| == |s.pools[c]|
  {
    DistinctCount(s.pools[c]);
    assert Holds(s.where, s.pools[c], FreeList(c));
    forall b | b in OfClass(s, c) ensures b in s.pools[c] {
      assert LiesAt(s.where, b, FreeList(c));
    }
    assert OfClass(s, c) == set b | b in s.pools[c];
  }

  /** A list is empty exactly when no buffer lies there. */
  lemma NobodyThere(where: map<Buffer, Place>, p: Place)
    ensures Holds(where, [], p) <==> forall b :: b in where ==> where[b] != p
  {
    if Holds(where, [], p) {
      forall b | b in where ensures where[b] != p {
        assert LiesAt(where, b, p) <==> where[b] == p;
      }
    }
  }

  lemma EmptyPlaceOk(s: State, p: Place)
    requires s.line.SerialsExist() && (HasList(s, p) ==> ListAt(s, p) == [])
    requires forall b :: b in s.where ==> s.where[b] != p
    ensures PlaceOk(s, p)
  {
    NobodyThere(s.where, p);
  }

  lemma InitialPlaceOk(s: State, p: Place)
    requires Initial(s)
    ensures s.line.SerialsExist() && PlaceOk(s, p)
  {
    hide Holds;
    assert s.line.Timers() == [];
    if p.Mailbox? || p.TimerList? {
      EmptyPlaceOk(s, p);
    }
  }

  /** CTimer::Purge takes the timer at the head of the list ... */
  ghost function DropTimer(s: State): State
    requires s.line.SerialsExist() && s.line.pending != []
  {
    s.(where := s.where[s.line.Timers()[0] := Held], line := s.line.(pending := s.line.pending[1..]))
  }

  lemma DropTimerKeepsPlaces(s: State)
    requires Placed(s) && s.line.pending != []
    ensures IsAt(s, s.line.Timers()[0], TimerList)
    ensures Placed(DropTimer(s)) && DropTimer(s).line.Timers() == s.line.Timers()[1..]
  {
    assert PlaceOk(s, TimerList);
    var t := DropTimer(s);
    assert t.line.Timers() == s.line.Timers()[1..];
    MoveKeepsPlaces(s, t, s.line.Timers()[0], TimerList, Held, 0);
  }

  /** ... until it is empty; the timeline ends there. */
  ghost function FreeTimers(s: State): (t: State)
    requires Placed(s)
    ensures Placed(t) && t.line.pending == []
    decreases |s.line.pending|
  {
    if s.line.pending == [] then s else
      DropTimerKeepsPlaces(s);
      FreeKeepsPlaces(DropTimer(s), s.line.Timers()[0]);
      FreeTimers(Free(DropTimer(s), s.line.Timers()[0]))
  }

  ghost function PurgeTimers(s: State): State
    requires Placed(s)
  {
    FreeTimers(s).(line := Line(s.line.now, [], [], []))
  }

  lemma {:induction false} FreeTimersKeepsRest(s: State)
    requires Placed(s)
    ensures var t := FreeTimers(s);
            && t.boxes == s.boxes && t.ledgers == s.ledgers && |t.pools| == |s.pools| && t.where.Keys == s.where.Keys
            && (forall b :: b in s.where && s.where[b] == Held ==> t.where[b] == Held)
            && (forall b :: b in s.where && t.where[b] == Held ==> s.where[b] == Held)
    decreases |s.line.pending|
  {
    if s.line.pending != [] {
      DropTimerKeepsPlaces(s);
      FreeKeepsPlaces(DropTimer(s), s.line.Timers()[0]);
      FreeTimersKeepsRest(Free(DropTimer(s), s.line.Timers()[0]));
    }
  }

  lemma PurgeTimersKeepsPlaces(s: State)
    requires Placed(s)
    ensures Placed(PurgeTimers(s)) && forall b :: b in PurgeTimers(s).where ==> PurgeTimers(s).where[b] != TimerList
  {
    var u := FreeTimers(s);
    var t := PurgeTimers(s);
    EmptyLine(PurgeTimers(s).line);
    assert u.line.Timers() == [];
    assert PlaceOk(u, TimerList);
    NobodyThere(u.where, TimerList);
    forall p: Place ensures PlaceOk(t, p) {
      assert PlaceOk(u, p);
    }
  }

  lemma PurgeTimersKeepsInv(s: State)
    requires Inv(s)
    ensures Settled(PurgeTimers(s)) && |PurgeTimers(s).boxes| == |s.boxes| && |PurgeTimers(s).pools| == |s.pools|
  {
    EmptyLine(PurgeTimers(s).line);
    FreeTimersKeepsRest(s);
    PurgeTimersKeepsPlaces(s);
  }

  lemma {:induction false} TakeShrinks(s: State, m: nat)
    requires Inv(s) && m < |s.boxes| && s.boxes[m] != []
    ensures Readable(s, m)
    ensures var (t, got) := Take(s, m);
            && |t.boxes| == |s.boxes| && |t.pools| == |s.pools| && |t.boxes[m]| < |s.boxes[m]|
            && (got.None? ==> t.boxes[m] == [])
            && (got.Some? ==> IsAt(t, got.value, Held) && got.value in s.where && s.where[got.value] == Mailbox(m))
            && t.where.Keys == s.where.Keys
            && (forall b :: b in s.where && s.where[b] != Mailbox(m) ==> t.where[b] == s.where[b])
            && (forall b :: b in s.where && t.where[b] == Held ==> s.where[b] == Held || Some(b) == got)
            && (forall b :: b in s.where && (t.where[b].TimerList? || t.where[b].Mailbox?) ==> t.where[b] == s.where[b])
    decreases |s.boxes[m]|
  {
    InvReadable(s, m);
    TakeKeepsPlaces(s, m);
    if s.Dead(s.boxes[m][0]) {
      DropHeadKeepsInv(s, m);
      if DropHead(s, m).boxes[m] != [] {
        TakeShrinks(DropHead(s, m), m);
      }
    } else {
      HandOutHeadKeepsPlaces(s, m);
    }
  }

  /** Reading a non-empty mailbox makes it shorter; only what it hands out becomes held. */
  lemma GetMsgShrinks(s: State, m: nat)
    requires Inv(s) && m < |s.boxes| && s.boxes[m] != []
    ensures Readable(s, m)
    ensures var (t, got) := GetMsg(s, m);
            && Inv(t) && t.line == s.line && t.where.Keys == s.where.Keys
            && |t.boxes| == |s.boxes| && |t.pools| == |s.pools| && |t.boxes[m]| < |s.boxes[m]|
            && (got.None? ==> t.boxes[m] == [])
            && (got.Some? ==> IsAt(t, got.value, Held) && IsAt(s, got.value, Mailbox(m)))
            && (forall b :: b in s.where && s.where[b] != Mailbox(m) ==> t.where[b] == s.where[b])
            && (forall b :: b in s.where && t.where[b] == Held ==> s.where[b] == Held || Some(b) == got)
            && (forall b :: b in s.where && (t.where[b].TimerList? || t.where[b].Mailbox?) ==> t.where[b] == s.where[b])
  {
    GetKeepsInv(s, m);
    TakeShrinks(s, m);
  }

  /** One round of TMailBox::Purge: read, and return what has been read. */
  ghost function PurgeOne(s: State, m: nat): (t: State)
    requires Inv(s) && m < |s.boxes| && s.boxes[m] != []
    ensures Inv(t) && t.line == s.line && |t.boxes| == |s.boxes| && |t.pools| == |s.pools|
    ensures |t.boxes[m]| < |s.boxes[m]|
  {
    GetMsgShrinks(s, m);
    var (s1, got) := GetMsg(s, m);
    if got.None? then s1 else
      FreeKeepsInv(s1, got.value);
      Free(s1, got.value)
  }

  /** TMailBox::Purge: until the mailbox is empty. */
  ghost function PurgeBox(s: State, m: nat): (t: State)
    requires Inv(s) && m < |s.boxes|
    ensures Inv(t) && t.line == s.line && |t.boxes| == |s.boxes| && |t.pools| == |s.pools| && t.boxes[m] == []
    decreases |s.boxes[m]|
  {
    if s.boxes[m] == [] then s else PurgeBox(PurgeOne(s, m), m)
  }

  /** TPostOffice::Purge, and then nothing is queued anywhere. */
  ghost function PurgeBoxes(s: State, n: nat): (t: State)
    requires Inv(s) && n <= |s.boxes|
    ensures Inv(t) && t.line == s.line && |t.boxes| == |s.boxes| && |t.pools| == |s.pools|
    decreases n
  {
    if n == 0 then s else PurgeBox(PurgeBoxes(s, n - 1), n - 1)
  }

  ghost function Destroy(s: State): State
    requires Inv(s)
  {
    PurgeTimersKeepsInv(s);
    PurgeBoxes(PurgeTimers(s), |s.boxes|)
  }

  /** What purging keeps: who holds what, and which places have been emptied. */
  ghost predicate SameHeld(s: State, t: State) {
    && t.where.Keys == s.where.Keys
    && (forall b :: b in s.where ==> (t.where[b] == Held <==> s.where[b] == Held))
    && (forall b :: b in s.where && (s.where[b] == Held || s.where[b].FreeList?) ==> t.where[b] == s.where[b])
  }

  /** Only buffers of mailbox m have moved, none of them to the application, the timer list or a mailbox. */
  ghost predicate OnlyPurged(s: State, t: State, m: nat) {
    && SameHeld(s, t)
    && (forall b :: b in s.where && s.where[b] != Mailbox(m) ==> t.where[b] == s.where[b])
    && (forall b :: b in s.where && (t.where[b].TimerList? || t.where[b].Mailbox?) ==> t.where[b] == s.where[b])
  }

  lemma PurgeOneKeepsHeld(s: State, m: nat)
    requires Inv(s) && m < |s.boxes| && s.boxes[m] != []
    ensures OnlyPurged(s, PurgeOne(s, m), m)
  {
    GetMsgShrinks(s, m);
    hide Inv;
  }

  lemma {:induction false} PurgeBoxKeepsHeld(s: State, m: nat)
    requires Inv(s) && m < |s.boxes|
    ensures OnlyPurged(s, PurgeBox(s, m), m)
    decreases |s.boxes[m]|
  {
    hide Inv, PurgeOne;
    if s.boxes[m] != [] {
      PurgeOneKeepsHeld(s, m);
      PurgeBoxKeepsHeld(PurgeOne(s, m), m);
    }
  }

  /** No buffer lies in the timer list or in one of the first n mailboxes. */
  ghost predicate Emptied(s: State, n: nat) {
    forall b :: b in s.where ==> s.where[b] != TimerList && (s.where[b].Mailbox? ==> n <= s.where[b].id)
  }

  lemma PurgeBoxEmpties(s: State, m: nat)
    requires Inv(s) && m < |s.boxes| && Emptied(s, m)
    ensures Emptied(PurgeBox(s, m), m + 1) && SameHeld(s, PurgeBox(s, m))
  {
    var t := PurgeBox(s, m);
    PurgeBoxKeepsHeld(s, m);
    assert PlaceOk(t, Mailbox(m)) && ListAt(t, Mailbox(m)) == [];
    NobodyThere(t.where, Mailbox(m));
  }

  lemma {:induction false} PurgeBoxesEmpties(s: State, n: nat)
    requires Inv(s) && n <= |s.boxes| && Emptied(s, 0)
    ensures Emptied(PurgeBoxes(s, n), n) && SameHeld(s, PurgeBoxes(s, n))
    decreases n
  {
    hide Inv, PurgeBox;
    if 0 < n {
      PurgeBoxesEmpties(s, n - 1);
      PurgeBoxEmpties(PurgeBoxes(s, n - 1), n - 1);
    }
  }

  ghost function OfClass(s: State, c: nat): set<Buffer> {
    set b | b in s.where && b.cls == c
  }

  ghost function HeldOfClass(s: State, c: nat): set<Buffer> {
    set b | b in s.where && b.cls == c && s.where[b] == Held
  }

  lemma EmptiedCounts(t: State, c: nat)
    requires Placed(t) && c < |t.pools| && Emptied(t, |t.boxes|)
    ensures |t.pools[c]| + |HeldOfClass(t, c)| == |OfClass(t, c)|
  {
    assert PlaceOk(t, FreeList(c));
    assert Holds(t.where, t.pools[c], FreeList(c));
    var free := set b | b in t.pools[c];
    DistinctCount(t.pools[c]);
    forall b | b in OfClass(t, c) ensures b in free + HeldOfClass(t, c) {
      assert MayLie(t, b, t.where[b]);
    }
    forall b | b in free ensures b in OfClass(t, c) && b !in HeldOfClass(t, c) {
      assert b in t.where && t.where[b] == FreeList(c) && MayLie(t, b, t.where[b]);
    }
    assert OfClass(t, c) == free + HeldOfClass(t, c);
  }

  lemma DestroyEmpties(s: State)
    requires Inv(s)
    ensures Inv(Destroy(s)) && |Destroy(s).pools| == |s.pools| && |Destroy(s).boxes| == |s.boxes|
    ensures Emptied(Destroy(s), |s.boxes|) && SameHeld(s, Destroy(s))
  {
    PurgeTimersKeepsInv(s);
    PurgeTimersKeepsPlaces(s);
    FreeTimersKeepsRest(s);
    PurgeBoxesEmpties(PurgeTimers(s), |s.boxes|);
  }

  /** The check in ~TBufferQue: after destruction the free list of each class is short by exactly the buffers of
      that class the application still holds, so it is full if and only if the application holds none. */
  lemma DestroyReturnsAllButHeld(s: State, c: nat)
    requires Inv(s) && c < |s.pools|
    ensures |Destroy(s).pools| == |s.pools|
    ensures |Destroy(s).pools[c]| + |HeldOfClass(s, c)| == |OfClass(s, c)|
  {
    DestroyEmpties(s);
    var t := Destroy(s);
    EmptiedCounts(t, c);
    assert HeldOfClass(t, c) == HeldOfClass(s, c) && OfClass(t, c) == OfClass(s, c);
  }

  lemma {:induction false} DistinctCount(list: seq<Buffer>)
    requires Distinct(list)
    ensures |set b | b in list| == |list|
  {
    if list != [] {
      var rest := list[1..];
      assert forall i, j :: 0 <= i < j < |rest| ==> rest[i] == list[i + 1] && rest[j] == list[j + 1];
      DistinctCount(rest);
      assert (set b | b in list) == {list[0]} + (set b | b in rest);
    }
  }
}
