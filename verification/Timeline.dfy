/** The timers of Kernel/timer.cpp told in absolute time.

    Every start gets a serial number and an absolute tick at which it is due.  `pending` lists the serials that
    are still in the timer list, `posted` those the tick handler has put in a mailbox, with the tick at which it
    did so.  The delta list in the Kernel class is proved to represent `pending`. */
module Timeline {
  import opened Buffers

  const WRAP: nat := 0x1_0000_0000

  datatype Started = Started(buffer: Buffer, mbx: nat, due: nat)

  datatype Posted = Posted(serial: nat, tick: nat)

  datatype Line = Line(now: nat, started: seq<Started>, pending: seq<nat>, posted: seq<Posted>) {

    ghost predicate SerialsExist() {
      && (forall i :: 0 <= i < |pending| ==> pending[i] < |started|)
      && (forall i :: 0 <= i < |posted| ==> posted[i].serial < |started|)
    }

    /** Serial `a` must be posted before serial `b`: it is due earlier, or due together and started earlier. */
    ghost predicate Before(a: nat, b: nat)
      requires a < |started| && b < |started|
    {
      started[a].due < started[b].due || (started[a].due == started[b].due && a < b)
    }

    ghost predicate PendingInOrder(i: nat, j: nat)
      requires SerialsExist() && i < |pending| && j < |pending|
    {
      Before(pending[i], pending[j])
    }

    ghost predicate PostedInOrder(i: nat, j: nat)
      requires SerialsExist() && i < |posted| && j < |posted|
    {
      Before(posted[i].serial, posted[j].serial)
    }

    ghost predicate PostedBeforePending(i: nat, j: nat)
      requires SerialsExist() && i < |posted| && j < |pending|
    {
      Before(posted[i].serial, pending[j])
    }

    /** Posted and then pending serials, in this order, are strictly increasing for Before. */
    ghost predicate Sorted()
      requires SerialsExist()
    {
      && (forall i, j :: 0 <= i < j < |pending| ==> PendingInOrder(i, j))
      && (forall i, j :: 0 <= i < j < |posted| ==> PostedInOrder(i, j))
      && (forall i, j :: 0 <= i < |posted| && 0 <= j < |pending| ==> PostedBeforePending(i, j))
    }

    ghost predicate OnTime()
      requires SerialsExist()
    {
      && (forall i :: 0 <= i < |pending| ==> now <= started[pending[i]].due)
      && (forall i :: 0 <= i < |posted| ==> posted[i].tick == started[posted[i].serial].due <= now)
    }

    ghost predicate IsPosted(serial: nat) {
      exists i :: 0 <= i < |posted| && posted[i].serial == serial
    }

    ghost predicate NoneLost() {
      forall serial: nat :: serial < |started| ==> serial in pending || IsPosted(serial)
    }

    ghost predicate Inv() {
      SerialsExist() && Sorted() && OnTime() && NoneLost()
    }

    /** The tick handler still has a timer to post. */
    ghost predicate HeadIsDue()
      requires SerialsExist()
    {
      pending != [] && started[pending[0]].due <= now
    }

    /** The buffers in the timer list, head first. */
    ghost function Timers(): (r: seq<Buffer>)
      requires SerialsExist()
      ensures |r| == |pending| && forall i :: 0 <= i < |r| ==> r[i] == started[pending[i]].buffer
    {
      seq(|pending|, i requires 0 <= i < |pending| => started[pending[i]].buffer)
    }

    /** Ticks until the timer at position `i` expires. */
    ghost function Remaining(i: nat): int
      requires i < |pending| && SerialsExist()
    {
      started[pending[i]].due - now
    }

    ghost function Start(buffer: Buffer, mbx: nat, count: nat): Line
      requires SerialsExist()
    {
      var k := LeadingDue(started, pending, now + count);
      this.(started := started + [Started(buffer, mbx, now + count)],
            pending := Insert(pending, k, |started|))
    }

    ghost function Advance(): Line {
      this.(now := now + 1)
    }

    /** Every timer still in the list is 2^32 ticks later. */
    ghost function Delayed(): Line
      requires SerialsExist()
    {
      this.(started := seq(|started|, i requires 0 <= i < |started| =>
                             if i in pending then started[i].(due := started[i].due + WRAP) else started[i]))
    }

    /** The decrement of the tick handler: from a count of zero it wraps. */
    ghost function CountDown(): Line
      requires SerialsExist()
    {
      if HeadIsDue() then Delayed().Advance() else Advance()
    }

    ghost function PostHead(): Line
      requires pending != []
    {
      this.(pending := pending[1..], posted := posted + [Posted(pending[0], now)])
    }
  }

  function Insert<T>(s: seq<T>, k: nat, x: T): (r: seq<T>)
    requires k <= |s|
    ensures |r| == |s| + 1
    ensures forall i {:trigger r[i]} :: 0 <= i < |r| ==> r[i] == if i < k then s[i] else if i == k then x else s[i - 1]
  {
    seq(|s| + 1, i requires 0 <= i <= |s| => if i < k then s[i] else if i == k then x else s[i - 1])
  }

  /** How many timers at the head of the list are due no later than `due`. */
  ghost function LeadingDue(started: seq<Started>, serials: seq<nat>, due: nat): (k: nat)
    requires forall i :: 0 <= i < |serials| ==> serials[i] < |started|
    ensures k <= |serials|
    ensures forall i :: 0 <= i < k ==> started[serials[i]].due <= due
    ensures k < |serials| ==> due < started[serials[k]].due
  {
    if serials == [] || due < started[serials[0]].due then 0 else 1 + LeadingDue(started, serials[1..], due)
  }

  /** A started timer goes behind every timer due no later and before every timer due later. */
  lemma StartSplits(t: Line, count: nat, i: nat)
    requires t.SerialsExist() && t.Sorted() && i < |t.pending|
    ensures var k := LeadingDue(t.started, t.pending, t.now + count);
            (i < k ==> t.Remaining(i) <= count) && (k <= i ==> count < t.Remaining(i))
  {
    var k := LeadingDue(t.started, t.pending, t.now + count);
    if k < i {
      assert t.PendingInOrder(k, i);
    }
  }

  lemma StartSerialsExist(t: Line, buffer: Buffer, mbx: nat, count: nat)
    requires t.SerialsExist()
    ensures t.Start(buffer, mbx, count).SerialsExist()
  {
  }

  /** Two timers that were already pending keep their order... */
  lemma StartKeepsOldOrder(t: Line, buffer: Buffer, mbx: nat, count: nat, i: nat, j: nat)
    requires t.SerialsExist() && t.Sorted() && i < j < |t.pending|
    requires t.Start(buffer, mbx, count).SerialsExist()
    ensures var k := LeadingDue(t.started, t.pending, t.now + count);
            t.Start(buffer, mbx, count).PendingInOrder(if i < k then i else i + 1, if j < k then j else j + 1)
  {
    assert t.PendingInOrder(i, j);
  }

  /** ... and the new one stands on the right side of each. */
  lemma StartOrdersNew(t: Line, buffer: Buffer, mbx: nat, count: nat, i: nat)
    requires t.SerialsExist() && t.Sorted() && i < |t.pending|
    requires t.Start(buffer, mbx, count).SerialsExist()
    ensures var u := t.Start(buffer, mbx, count);
            var k := LeadingDue(t.started, t.pending, t.now + count);
            if i < k then u.PendingInOrder(i, k) else u.PendingInOrder(k, i + 1)
  {
    StartSplits(t, count, i);
  }

  lemma StartKeepsOrder(t: Line, buffer: Buffer, mbx: nat, count: nat)
    requires t.Inv()
    ensures t.Start(buffer, mbx, count).SerialsExist() && t.Start(buffer, mbx, count).Sorted()
  {
    var u := t.Start(buffer, mbx, count);
    StartSerialsExist(t, buffer, mbx, count);
    StartKeepsPendingOrder(t, buffer, mbx, count);
    forall i, j | 0 <= i < |u.posted| && 0 <= j < |u.pending| ensures u.PostedBeforePending(i, j) {
      var k := LeadingDue(t.started, t.pending, t.now + count);
      if j != k {
        assert t.PostedBeforePending(i, if j < k then j else j - 1);
      }
    }
    forall i, j | 0 <= i < j < |u.posted| ensures u.PostedInOrder(i, j) {
      assert t.PostedInOrder(i, j);
    }
  }

  lemma StartKeepsPendingOrder(t: Line, buffer: Buffer, mbx: nat, count: nat)
    requires t.Inv()
    ensures var u := t.Start(buffer, mbx, count);
            u.SerialsExist() && forall i, j :: 0 <= i < j < |u.pending| ==> u.PendingInOrder(i, j)
  {
    var u := t.Start(buffer, mbx, count);
    var k := LeadingDue(t.started, t.pending, t.now + count);
    StartSerialsExist(t, buffer, mbx, count);
    forall i, j | 0 <= i < j < |u.pending| ensures u.PendingInOrder(i, j) {
      if j == k {
        StartOrdersNew(t, buffer, mbx, count, i);
      } else if i == k {
        StartOrdersNew(t, buffer, mbx, count, j - 1);
      } else {
        StartKeepsOldOrder(t, buffer, mbx, count, if i < k then i else i - 1, if j < k then j else j - 1);
      }
    }
  }

  lemma StartKeepsInv(t: Line, buffer: Buffer, mbx: nat, count: nat)
    requires t.Inv()
    ensures t.Start(buffer, mbx, count).Inv()
    ensures t.Start(buffer, mbx, count).HeadIsDue() <==> t.HeadIsDue() || count == 0
  {
    var u := t.Start(buffer, mbx, count);
    var k := LeadingDue(t.started, t.pending, t.now + count);
    StartKeepsOrder(t, buffer, mbx, count);
    forall serial: nat | serial < |u.started| ensures serial in u.pending || u.IsPosted(serial) {
      if serial in t.pending {
        var i :| 0 <= i < |t.pending| && t.pending[i] == serial;
        assert u.pending[if i < k then i else i + 1] == serial;
      } else if serial < |t.started| {
        assert t.IsPosted(serial);
        var i :| 0 <= i < |t.posted| && t.posted[i].serial == serial;
        assert u.posted[i].serial == serial;
      } else {
        assert u.pending[k] == serial;
      }
    }
  }

  lemma AdvanceKeepsInv(t: Line)
    requires t.Inv() && !t.HeadIsDue()
    ensures t.Advance().Inv()
  {
    var u := t.Advance();
    forall i | 0 <= i < |u.pending| ensures u.now <= u.started[u.pending[i]].due {
      assert i == 0 || t.PendingInOrder(0, i);
    }
    forall i, j | 0 <= i < j < |u.pending| ensures u.PendingInOrder(i, j) {
      assert t.PendingInOrder(i, j);
    }
    forall i, j | 0 <= i < j < |u.posted| ensures u.PostedInOrder(i, j) {
      assert t.PostedInOrder(i, j);
    }
    forall i, j | 0 <= i < |u.posted| && 0 <= j < |u.pending| ensures u.PostedBeforePending(i, j) {
      assert t.PostedBeforePending(i, j);
    }
    assert forall serial: nat ::
        serial < |u.started| ==> serial in u.pending || (t.IsPosted(serial) && u.IsPosted(serial));
  }

  lemma PostedAreNotPending(t: Line, i: nat)
    requires t.SerialsExist() && t.Sorted() && i < |t.posted|
    ensures t.posted[i].serial !in t.pending
  {
    forall j | 0 <= j < |t.pending| ensures t.pending[j] != t.posted[i].serial {
      assert t.PostedBeforePending(i, j);
    }
  }

  lemma DelayedAt(t: Line, i: nat)
    requires t.Inv()
    ensures t.Delayed().SerialsExist() && t.Delayed().Timers() == t.Timers()
    ensures i < |t.pending| ==> t.Delayed().started[t.pending[i]].due == t.started[t.pending[i]].due + WRAP
    ensures i < |t.posted| ==> t.Delayed().started[t.posted[i].serial] == t.started[t.posted[i].serial]
  {
    if i < |t.posted| {
      PostedAreNotPending(t, i);
    }
  }

  /** A wrapped decrement leaves the order of the timers as it was; none of them is due. */
  lemma DelayedKeepsInv(t: Line)
    requires t.Inv()
    ensures t.Delayed().Inv() && !t.Delayed().HeadIsDue()
  {
    var u := t.Delayed();
    forall i | 0 <= i < |u.pending| ensures u.now <= u.started[u.pending[i]].due {
      DelayedAt(t, i);
    }
    forall i, j | 0 <= i < j < |u.pending| ensures u.PendingInOrder(i, j) {
      DelayedAt(t, i);
      DelayedAt(t, j);
      assert t.PendingInOrder(i, j);
    }
    forall i | 0 <= i < |u.posted| ensures u.posted[i].tick == u.started[u.posted[i].serial].due <= u.now {
      DelayedAt(t, i);
    }
    forall i, j | 0 <= i < j < |u.posted| ensures u.PostedInOrder(i, j) {
      DelayedAt(t, i);
      DelayedAt(t, j);
      assert t.PostedInOrder(i, j);
    }
    forall i, j | 0 <= i < |u.posted| && 0 <= j < |u.pending| ensures u.PostedBeforePending(i, j) {
      DelayedAt(t, i);
      DelayedAt(t, j);
      assert t.PostedBeforePending(i, j);
    }
    assert forall serial: nat ::
        serial < |u.started| ==> serial in u.pending || (t.IsPosted(serial) && u.IsPosted(serial));
  }

  /** The decrement keeps the invariant, wrapped or not; it moves an expiry exactly when the head was due. */
  lemma CountDownKeepsInv(t: Line)
    requires t.Inv()
    ensures t.CountDown().Inv() && t.CountDown().Timers() == t.Timers()
    ensures t.HeadIsDue() ==> !t.CountDown().HeadIsDue()
    ensures t.started <= t.CountDown().started <==> !t.HeadIsDue()
  {
    if t.HeadIsDue() {
      DelayedKeepsInv(t);
      DelayedAt(t, 0);
      assert t.Delayed().started[t.pending[0]] != t.started[t.pending[0]];
      AdvanceKeepsInv(t.Delayed());
      assert t.CountDown().Timers() == t.Delayed().Timers();
    } else {
      AdvanceKeepsInv(t);
    }
  }

  lemma PostHeadKeepsInv(t: Line)
    requires t.Inv() && t.HeadIsDue()
    ensures t.PostHead().Inv()
  {
    var u := t.PostHead();
    forall i, j | 0 <= i < j < |u.pending| ensures u.PendingInOrder(i, j) {
      assert t.PendingInOrder(i + 1, j + 1);
    }
    forall i, j | 0 <= i < j < |u.posted| ensures u.PostedInOrder(i, j) {
      if j < |t.posted| {
        assert t.PostedInOrder(i, j);
      } else {
        assert t.PostedBeforePending(i, 0);
      }
    }
    forall i, j | 0 <= i < |u.posted| && 0 <= j < |u.pending| ensures u.PostedBeforePending(i, j) {
      if i < |t.posted| {
        assert t.PostedBeforePending(i, j + 1);
      } else {
        assert t.PendingInOrder(0, j + 1);
      }
    }
    forall serial: nat | serial < |u.started| ensures serial in u.pending || u.IsPosted(serial) {
      if serial == t.pending[0] {
        assert u.posted[|t.posted|].serial == serial;
      } else if serial in t.pending {
        var i :| 0 <= i < |t.pending| && t.pending[i] == serial;
        assert u.pending[i - 1] == serial;
      } else {
        assert t.IsPosted(serial);
        var i :| 0 <= i < |t.posted| && t.posted[i].serial == serial;
        assert u.posted[i].serial == serial;
      }
    }
  }

  /** What the invariant gives a client between ticks: a timer has been posted exactly when its time has come,
      once, at the tick it was due, and posts happened in order of due time and, among equals, of start. */
  lemma PostedExactlyWhenDue(t: Line, serial: nat)
    requires t.Inv() && !t.HeadIsDue() && serial < |t.started|
    ensures t.IsPosted(serial) <==> t.started[serial].due <= t.now
    ensures serial in t.pending <==> t.now < t.started[serial].due
    ensures forall i :: 0 <= i < |t.posted| && t.posted[i].serial == serial ==>
                          && t.posted[i].tick == t.started[serial].due
                          && forall j :: i < j < |t.posted| ==> t.Before(serial, t.posted[j].serial)
  {
    assert serial in t.pending || t.IsPosted(serial);
    forall i | 0 <= i < |t.pending| ensures t.now < t.started[t.pending[i]].due {
      assert i == 0 || t.PendingInOrder(0, i);
    }
    forall i, j | 0 <= i < j < |t.posted| ensures t.Before(t.posted[i].serial, t.posted[j].serial) {
      assert t.PostedInOrder(i, j);
    }
  }
}
