/** The channel over whole runs: what it takes, what it posts to itself, and that it does not get stuck. */
module DnsChannels {
  import opened DnsSpec
  import opened DnsSafety
  import opened DnsRuns
  import opened DnsNames

  predicate Holds(box: seq<Msg>, code: int) {
    exists i :: 0 <= i < |box| && box[i].code == code
  }

  lemma HoldsAppend(box: seq<Msg>, m: Msg, code: int)
    ensures Holds(box + [m], code) <==> Holds(box, code) || m.code == code
  {
    assert (box + [m])[|box|] == m;
    assert forall i :: 0 <= i < |box| ==> (box + [m])[i] == box[i];
  }

  lemma HoldsRest(box: seq<Msg>, code: int)
    requires box != []
    ensures Holds(box, code) <==> box[0].code == code || Holds(box[1..], code)
  {
    assert forall i :: 0 < i < |box| ==> box[i] == box[1..][i - 1];
  }

  // ---------------------------------------------------------------- it does not get stuck

  /** In the two states that it leaves by a message to itself, this message is in its mailbox; at the very start it is
      the user who sends it. */
  predicate ChannelOk(s: Sys) {
    match s.channel.state
    case ChannelIdle => Holds(s.channelBox, CHANNEL_IDLE) || s.user.state == UserIdle
    case Disconnect => Holds(s.channelBox, CHANNEL_DISCONNECT)
    case ChannelRequest | Connect => true
    case Connected | ToClientSent => false
  }

  lemma StartedChannelOk()
    ensures ChannelOk(Started())
  {
  }

  lemma UserTurnKeepsChannel(s: Sys, typed: Bytes)
    requires Inv(s) && ChannelOk(s) && Enabled(s, UserTurn(typed))
    ensures ChannelOk(Step(s, UserTurn(typed)))
  {
    HoldsAppend(s.channelBox, Msg(CHANNEL_IDLE, []), CHANNEL_IDLE);
    HoldsAppend(s.channelBox, Msg(CHANNEL_IDLE, []), CHANNEL_DISCONNECT);
  }

  lemma ClientTurnKeepsChannel(s: Sys, op: Op)
    requires ChannelOk(s) && Enabled(s, op) && op.ClientTurn?
    ensures ChannelOk(Step(s, op))
  {
    HoldsAppend(s.channelBox, Msg(DNS_REQUEST_SENT, Text(s.client.input)), CHANNEL_IDLE);
    HoldsAppend(s.channelBox, Msg(DNS_REQUEST_SENT, Text(s.client.input)), CHANNEL_DISCONNECT);
  }

  lemma ChannelTurnKeepsChannel(s: Sys)
    requires ChannelOk(s) && s.channelBox != []
    ensures ChannelOk(Step(s, ChannelTurn))
  {
    var rest := s.channelBox[1..];
    HoldsRest(s.channelBox, CHANNEL_IDLE);
    HoldsRest(s.channelBox, CHANNEL_DISCONNECT);
    HoldsAppend(rest, Msg(CHANNEL_IDLE, []), CHANNEL_IDLE);
    hide Holds;
  }

  lemma ServerKeepsChannel(s: Sys, op: Op)
    requires ChannelOk(s) && Enabled(s, op) && (op.ServerReply? || op.ServerDisconnect?)
    ensures ChannelOk(Step(s, op))
  {
    HoldsAppend(s.channelBox, Msg(CHANNEL_IDLE, []), CHANNEL_IDLE);
    HoldsAppend(s.channelBox, Msg(CHANNEL_DISCONNECT, []), CHANNEL_DISCONNECT);
  }

  lemma StepKeepsChannel(s: Sys, op: Op)
    requires Inv(s) && ChannelOk(s) && Enabled(s, op)
    ensures ChannelOk(Step(s, op))
  {
    match op
    case UserTurn(typed) => UserTurnKeepsChannel(s, typed);
    case ClientTurn(_) => ClientTurnKeepsChannel(s, op);
    case ChannelTurn => ChannelTurnKeepsChannel(s);
    case _ => ServerKeepsChannel(s, op);
  }

  lemma {:induction false} RunKeepsChannel(s: Sys, ops: seq<Op>)
    requires Inv(s) && ChannelOk(s) && Possible(s, ops)
    ensures ChannelOk(Run(s, ops))
    decreases |ops|
  {
    if ops != [] {
      StepKeepsInv(s, ops[0]);
      StepKeepsChannel(s, ops[0]);
      RunKeepsChannel(Step(s, ops[0]), ops[1..]);
    }
  }

  /** In every reachable state behind the start the channel, when idle or disconnected, has the message in its mailbox
      that takes it on; the states Connected and ToClientSent are never reached. */
  lemma ChannelGoesOn(ops: seq<Op>)
    requires Possible(Started(), ops)
    ensures ChannelOk(Run(Started(), ops))
  {
    StartedInv();
    StartedChannelOk();
    RunKeepsChannel(Started(), ops);
  }

  // ---------------------------------------------------------------- what it takes and what it posts

  /** A step puts at most one message into the channel's mailbox, behind those it does not take: the creation of the
      socket exactly when the channel takes a request on its first start. */
  lemma StepPuts(s: Sys, op: Op)
    requires Enabled(s, op)
    ensures NotTaken(s, op) + Put(s, op) == Step(s, op).channelBox && |Put(s, op)| <= 1
    ensures Creates(s, op) <==> Put(s, op) == [Msg(CREATE_SOCKET, [])]
    ensures Creates(s, op) ==> Step(s, op).channel.state == Connect
  {
    if op.ClientTurn? {
      ClientPuts(s, op);
    }
  }

  lemma ClientPuts(s: Sys, op: Op)
    requires Enabled(s, op) && op.ClientTurn?
    ensures NotTaken(s, op) + Put(s, op) == Step(s, op).channelBox
    ensures Put(s, op) == [] || Put(s, op) == [Msg(DNS_REQUEST_SENT, Text(s.client.input))]
  {
  }

  /** The request that the channel takes becomes its input, byte by byte. */
  lemma RequestIsTaken(s: Sys)
    requires Inv(s) && Enabled(s, ChannelTurn)
    requires s.channel.state == ChannelRequest && s.channelBox[0].code == DNS_REQUEST_SENT
    ensures Step(s, ChannelTurn).channel.input == s.channelBox[0].data
  {
  }

  /** The turns in which the channel leaves its idle state. */
  function Wakeups(s: Sys, ops: seq<Op>): nat
    requires Possible(s, ops)
    decreases |ops|
  {
    if ops == [] then 0 else
      (if ops[0].ChannelTurn? && s.channel.state == ChannelIdle && Step(s, ops[0]).channel.state != ChannelIdle
       then 1 else 0)
      + Wakeups(Step(s, ops[0]), ops[1..])
  }

  /** FirstStartFlag counts them. */
  lemma {:induction false} FlagCountsWakeups(s: Sys, ops: seq<Op>)
    requires Possible(s, ops)
    ensures Run(s, ops).channel.firstStartFlag == s.channel.firstStartFlag + Wakeups(s, ops)
    decreases |ops|
  {
    if ops != [] {
      FlagCountsWakeups(Step(s, ops[0]), ops[1..]);
    }
  }
}
