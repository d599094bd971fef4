/** The name typed in is the name that is asked for, over whole runs. */
module DnsNames {
  import opened DnsSpec
  import opened DnsSafety
  import opened DnsRuns

  /** The step reads a name from the console. */
  predicate ReadsName(s: Sys, op: Op)
    requires Enabled(s, op)
  {
    op.UserTurn? && s.user.state == DataInput && s.userBox[0].code == USER_DATA_INPUT
  }

  predicate NoneRead(s: Sys, ops: seq<Op>)
    requires Possible(s, ops)
    decreases |ops|
  {
    ops != [] ==> !ReadsName(s, ops[0]) && NoneRead(Step(s, ops[0]), ops[1..])
  }

  /** As long as the name is to be asked for, it stays the user's input. */
  predicate NameKept(s: Sys, name: Bytes) {
    s.user.state == ToClientData || Waiting(s) ==> s.user.input == name
  }

  lemma StepKeepsName(s: Sys, op: Op, name: Bytes)
    requires Inv(s) && Enabled(s, op) && NameKept(s, name) && !ReadsName(s, op)
    ensures NameKept(Step(s, op), name)
  {
  }

  lemma {:induction false} RunKeepsName(s: Sys, ops: seq<Op>, name: Bytes)
    requires Inv(s) && Possible(s, ops) && NoneRead(s, ops) && NameKept(s, name)
    ensures Inv(Run(s, ops)) && NameKept(Run(s, ops), name)
    decreases |ops|
  {
    if ops != [] {
      StepKeepsName(s, ops[0], name);
      StepKeepsInv(s, ops[0]);
      RunKeepsName(Step(s, ops[0]), ops[1..], name);
    }
  }

  /** What the step puts into the channel's mailbox, behind what was there. */
  function Put(s: Sys, op: Op): seq<Msg>
    requires Enabled(s, op)
  {
    PutIsBehind(s, op);
    Step(s, op).channelBox[|NotTaken(s, op)|..]
  }

  /** The channel's mailbox without the message that the step takes. */
  function NotTaken(s: Sys, op: Op): seq<Msg>
    requires Enabled(s, op)
  {
    if op.ChannelTurn? then s.channelBox[1..] else s.channelBox
  }

  lemma PutIsBehind(s: Sys, op: Op)
    requires Enabled(s, op)
    ensures NotTaken(s, op) <= Step(s, op).channelBox
  {
  }

  predicate AsksChannel(s: Sys, op: Op)
    requires Enabled(s, op)
  {
    op.ClientTurn? && s.client.state == DnsRequest && s.clientBox[0].code == DNS_REQUEST_SENT
  }

  predicate LooksUp(s: Sys, op: Op)
    requires Enabled(s, op)
  {
    op.ClientTurn? && s.client.state == CheckLocalTable && s.clientBox[0].code == CHECK_LOCAL_TABLE
  }

  /** What this step asks for is this name: it is in the query that the user passes on, it is the client's input when
      the local table is searched, and it is in the request that goes to the channel; no other step sends a
      request. */
  predicate AsksFor(s: Sys, op: Op, name: Bytes)
    requires Enabled(s, op)
  {
    && (Asks(s, op) ==> Step(s, op).clientBox == s.clientBox + [Msg(USER_DATA_SENT, name)])
    && (LooksUp(s, op) ==> s.client.input == name)
    && (AsksChannel(s, op) ==> Put(s, op) == [Msg(DNS_REQUEST_SENT, name)])
    && (!AsksChannel(s, op) ==> forall i :: 0 <= i < |Put(s, op)| ==> Put(s, op)[i].code != DNS_REQUEST_SENT)
  }

  lemma NameIsAskedFor(s: Sys, op: Op, name: Bytes)
    requires Inv(s) && Enabled(s, op) && NameKept(s, name)
    ensures AsksFor(s, op, Text(name))
  {
    if AsksChannel(s, op) {
      assert Waiting(s);
      RequestToChannel(s, op.found);
      hide Inv;
    } else if LooksUp(s, op) {
      LookedUp(s);
      hide Inv;
    }
  }

  lemma QueriesAreFor(s: Sys, name: Bytes)
    requires Inv(s) && NameKept(s, name)
    ensures QueriesCarry(s.clientBox, Text(name))
  {
    if !Waiting(s) {
      NoQueries(s.clientBox, Text(name));
    }
  }

  /** From the turn that reads a name until the next one that does, whatever happens in between: every query in the
      client's mailbox carries this name, it is the client's input when the local table is searched, and every request
      that is put into the channel's mailbox carries it. */
  lemma TypedNameIsAskedFor(s: Sys, typed: Bytes, ops: seq<Op>, op: Op)
    requires Inv(s) && Enabled(s, UserTurn(typed)) && ReadsName(s, UserTurn(typed))
    requires var t := Step(s, UserTurn(typed)); Possible(t, ops) && NoneRead(t, ops)
    requires Enabled(Run(Step(s, UserTurn(typed)), ops), op)
    ensures var u := Run(Step(s, UserTurn(typed)), ops);
            QueriesCarry(u.clientBox, Text(typed)) && AsksFor(u, op, Text(typed))
  {
    var t := Step(s, UserTurn(typed));
    StepKeepsInv(s, UserTurn(typed));
    assert NameKept(t, typed);
    RunKeepsName(t, ops, typed);
    NameIsAskedFor(Run(t, ops), op, typed);
    QueriesAreFor(Run(t, ops), typed);
  }

  /** The bytes that strlen counts are those in front of the first zero. */
  lemma {:induction false} TextIs(data: Bytes)
    ensures var n := |Text(data)|;
            && n <= |data| && Text(data) == data[..n] && (n < |data| ==> data[n] == 0)
            && forall i :: 0 <= i < n ==> data[i] != 0
  {
    if data != [] && data[0] != 0 {
      var n := |Text(data)|;
      TextIs(data[1..]);
      assert data[..n] == [data[0]] + data[1..][..n - 1];
      assert forall i :: 0 < i < n ==> data[i] == data[1..][i - 1];
    }
  }
}
