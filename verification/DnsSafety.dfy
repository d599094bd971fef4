/** What holds in every reachable state of the three automata, however often and whenever the server replies. */
module DnsSafety {
  import opened Options
  import opened Buffers
  import opened Sequences
  import opened DnsSpec

  // ---------------------------------------------------------------- the client's mailbox

  /** Replies and answers on their way are noise in the client's mailbox: there may be any number of them. */
  predicate IsNoise(code: uint16) {
    code == CHANNEL_REPLY || code == RETURN_DATA
  }

  /** The codes in the client's mailbox that are not noise. */
  function Core(box: seq<Msg>): seq<uint16> {
    if box == [] then [] else CoreOf(box[0]) + Core(box[1..])
  }

  predicate NoAnswer(box: seq<Msg>) {
    forall i :: 0 <= i < |box| ==> box[i].code != RETURN_DATA
  }

  /** No answer stands behind a message that is not noise. */
  predicate AnswersFirst(box: seq<Msg>) {
    box == [] || if IsNoise(box[0].code) then AnswersFirst(box[1..]) else NoAnswer(box)
  }

  predicate SmallData(box: seq<Msg>) {
    forall i :: 0 <= i < |box| ==> |box[i].data| < 0x100
  }

  /** Queries on their way to the client carry the name typed in. */
  predicate QueriesCarry(box: seq<Msg>, name: Bytes) {
    forall i :: 0 <= i < |box| && box[i].code == USER_DATA_SENT ==> box[i].data == name
  }

  function CoreOf(m: Msg): seq<uint16> {
    if IsNoise(m.code) then [] else [m.code]
  }

  lemma {:induction false} CoreAppend(box: seq<Msg>, m: Msg)
    ensures Core(box + [m]) == Core(box) + CoreOf(m)
  {
    if box == [] {
      assert box + [m] == [m] && [m][1..] == [];
    } else {
      assert (box + [m])[0] == box[0] && (box + [m])[1..] == box[1..] + [m];
      CoreAppend(box[1..], m);
      hide CoreOf;
      Regroup(CoreOf(box[0]), Core(box[1..]), CoreOf(m));
    }
  }

  lemma {:induction false} AnswersFirstAppend(box: seq<Msg>, m: Msg)
    ensures AnswersFirst(box + [m]) <==> AnswersFirst(box) && (m.code == RETURN_DATA ==> Core(box) == [])
  {
    if box == [] {
      assert box + [m] == [m] && [m][1..] == [];
    } else {
      assert (box + [m])[0] == box[0] && (box + [m])[1..] == box[1..] + [m];
      AnswersFirstAppend(box[1..], m);
      NoAnswerAppend(box, m);
      assert !IsNoise(box[0].code) ==> Core(box)[0] == box[0].code;
    }
  }

  lemma NoAnswerAppend(box: seq<Msg>, m: Msg)
    ensures NoAnswer(box + [m]) <==> NoAnswer(box) && m.code != RETURN_DATA
  {
    assert (box + [m])[|box|] == m;
    assert forall i :: 0 <= i < |box| ==> (box + [m])[i] == box[i];
  }

  // ---------------------------------------------------------------- the invariant

  /** The user's mailbox is determined by the state of the user. */
  predicate UserBoxOk(s: Sys) {
    match s.user.state
    case UserIdle => |s.userBox| == 1 && s.userBox[0].code == USER_IDLE
    case DataInput => |s.userBox| == 1 && s.userBox[0].code == USER_DATA_INPUT
    case ToClientData => |s.userBox| == 1 && s.userBox[0].code == USER_DATA_SENT
    case ReturnData => s.userBox == [] || (|s.userBox| == 1 && s.userBox[0].code == RETURN_DATA)
  }

  /** The user has passed its query on and its answer is not in its mailbox yet. */
  predicate Waiting(s: Sys) {
    s.user.state == ReturnData && s.userBox == []
  }

  /** The client's mailbox, without noise, is determined by the states of user and client. */
  predicate ClientBoxOk(s: Sys) {
    var core := Core(s.clientBox);
    match s.client.state
    case ClientIdle =>
      AnswersFirst(s.clientBox)
      && core == if Waiting(s) then [CLIENT_IDLE, USER_DATA_SENT]
                 else if s.user.state == DataInput || s.user.state == ToClientData then [CLIENT_IDLE]
                 else []
    case InputFromUser =>
      && NoAnswer(s.clientBox)
      && core == (if Waiting(s) then [USER_DATA_SENT] else [])
      && (Waiting(s) || s.user.state == DataInput || s.user.state == ToClientData)
    case CheckLocalTable => NoAnswer(s.clientBox) && core == [CHECK_LOCAL_TABLE] && Waiting(s)
    case DnsRequest => NoAnswer(s.clientBox) && core == [DNS_REQUEST_SENT] && Waiting(s)
    case DnsRecived => core == [] && Waiting(s)
  }

  predicate DataOk(s: Sys) {
    && SmallData(s.clientBox) && SmallData(s.userBox) && SmallData(s.channelBox)
    && |s.user.input| < 0x100 && |s.client.output| < 0x100
    && (Waiting(s) ==> QueriesCarry(s.clientBox, Text(s.user.input)))
    && (s.client.state == CheckLocalTable || s.client.state == DnsRequest ==> s.client.input == Text(s.user.input))
  }

  /** The timer runs only while the client waits for the channel. */
  predicate TimerOk(s: Sys) {
    s.client.timer ==> s.client.state == DnsRecived && NoAnswer(s.clientBox)
  }

  predicate Inv(s: Sys) {
    UserBoxOk(s) && ClientBoxOk(s) && DataOk(s) && TimerOk(s)
  }

  lemma StartedInv()
    ensures Inv(Started())
  {
  }

  // ---------------------------------------------------------------- the user's turn

  lemma {:induction false} CoreHas(box: seq<Msg>, i: nat)
    requires i < |box| && !IsNoise(box[i].code)
    ensures box[i].code in Core(box)
  {
    if 0 < i {
      CoreHas(box[1..], i - 1);
    }
  }

  lemma NoQueries(box: seq<Msg>, name: Bytes)
    requires USER_DATA_SENT !in Core(box)
    ensures QueriesCarry(box, name)
  {
    forall i | 0 <= i < |box| && box[i].code == USER_DATA_SENT ensures false {
      CoreHas(box, i);
    }
  }

  /** What a message put into the client's mailbox changes. */
  lemma PutInClientBox(box: seq<Msg>, m: Msg, name: Bytes)
    requires |m.data| < 0x100
    ensures Core(box + [m]) == Core(box) + CoreOf(m)
    ensures AnswersFirst(box + [m]) <==> AnswersFirst(box) && (m.code == RETURN_DATA ==> Core(box) == [])
    ensures NoAnswer(box + [m]) <==> NoAnswer(box) && m.code != RETURN_DATA
    ensures SmallData(box) ==> SmallData(box + [m])
    ensures QueriesCarry(box, name) && (m.code == USER_DATA_SENT ==> m.data == name) ==> QueriesCarry(box + [m], name)
  {
    CoreAppend(box, m);
    AnswersFirstAppend(box, m);
    NoAnswerAppend(box, m);
  }

  lemma SetAllIdleKeepsInv(s: Sys)
    requires s.userBox == [] && s.client.state == ClientIdle && AnswersFirst(s.clientBox) && Core(s.clientBox) == []
    requires DataOk(s.(user := s.user.(state := DataInput))) && TimerOk(s)
    ensures Inv(AllIdle(s))
  {
    PutInClientBox(s.clientBox, Msg(CLIENT_IDLE, []), []);
  }

  lemma PassToClientKeepsInv(s: Sys, typed: Bytes)
    requires Inv(s) && Enabled(s, UserTurn(typed)) && s.user.state == ToClientData
    ensures Inv(Step(s, UserTurn(typed)))
  {
    var name := Text(s.user.input);
    NoQueries(s.clientBox, name);
    PutInClientBox(s.clientBox, Msg(USER_DATA_SENT, name), name);
    assert s.userBox[1..] == [];
  }

  lemma UserTurnKeepsInv(s: Sys, typed: Bytes)
    requires Inv(s) && Enabled(s, UserTurn(typed))
    ensures Inv(Step(s, UserTurn(typed)))
  {
    assert s.userBox[1..] == [];
    match s.user.state
    case ToClientData => PassToClientKeepsInv(s, typed);
    case UserIdle => SetAllIdleKeepsInv(s.(userBox := []));
    case ReturnData => SetAllIdleKeepsInv(s.(userBox := [], user := s.user.(input := Copied(s.userBox[0].data))));
    case DataInput =>
  }

  // ---------------------------------------------------------------- the client's turn

  lemma {:induction false} NoAnswerIsFirst(box: seq<Msg>)
    ensures NoAnswer(box) || Core(box) == [] ==> AnswersFirst(box)
  {
    if box != [] {
      NoAnswerIsFirst(box[1..]);
      assert NoAnswer(box) ==> NoAnswer(box[1..]);
    }
  }

  /** What the head of the client's mailbox leaves behind. */
  lemma PopClientBox(box: seq<Msg>, name: Bytes)
    requires box != []
    ensures var rest := box[1..];
            && (IsNoise(box[0].code) ==> Core(box) == Core(rest))
            && (!IsNoise(box[0].code) ==>
                  Core(box) != [] && Core(box)[0] == box[0].code && Core(box)[1..] == Core(rest))
            && (AnswersFirst(box) ==> AnswersFirst(rest))
            && (NoAnswer(box) ==> NoAnswer(rest) && box[0].code != RETURN_DATA)
            && (AnswersFirst(box) && !IsNoise(box[0].code) ==> NoAnswer(rest))
            && (SmallData(box) ==> SmallData(rest) && |box[0].data| < 0x100)
            && (QueriesCarry(box, name) ==> QueriesCarry(rest, name))
            && (Core(rest) == [] ==> AnswersFirst(rest))
  {
    NoAnswerIsFirst(box[1..]);
  }

  /** A turn of the client after which its mailbox is the rest, or the rest and one message. */
  lemma DropKeepsInv(s: Sys)
    requires Inv(s) && s.clientBox != [] && ClientHandler(s.client.state, s.clientBox[0].code) == ClientNothing
    ensures IsNoise(s.clientBox[0].code) && Inv(s.(clientBox := s.clientBox[1..]))
  {
    PopClientBox(s.clientBox, Text(s.user.input));
    if !IsNoise(s.clientBox[0].code) {
      HeadIsExpected(s);
    }
  }

  /** A message in the client's mailbox that is not noise has a handler when it comes to the head. */
  lemma HeadIsExpected(s: Sys)
    requires Inv(s) && s.clientBox != [] && !IsNoise(s.clientBox[0].code)
    ensures ClientHandler(s.client.state, s.clientBox[0].code) != ClientNothing
    ensures Core(s.clientBox)[0] == s.clientBox[0].code
  {
    PopClientBox(s.clientBox, []);
  }

  lemma IdleStateKeepsInv(s: Sys)
    requires Inv(s) && s.clientBox != [] && ClientHandler(s.client.state, s.clientBox[0].code) == IdleState
    ensures Inv(Step(s, ClientTurn(None)))
  {
    PopClientBox(s.clientBox, Text(s.user.input));
    assert [CLIENT_IDLE, USER_DATA_SENT][1..] == [USER_DATA_SENT];
  }

  lemma GetFromUserKeepsInv(s: Sys)
    requires Inv(s) && s.clientBox != [] && ClientHandler(s.client.state, s.clientBox[0].code) == GetFromUser
    ensures Inv(Step(s, ClientTurn(None)))
  {
    QueryTaken(s);
    PutInClientBox(s.clientBox[1..], Msg(CHECK_LOCAL_TABLE, []), Text(s.user.input));
    assert Core(s.clientBox[1..] + [Msg(CHECK_LOCAL_TABLE, [])]) == [CHECK_LOCAL_TABLE];
  }

  /** The state in which the client has taken the query out of its mailbox. */
  lemma QueryTaken(s: Sys)
    requires Inv(s) && s.clientBox != [] && ClientHandler(s.client.state, s.clientBox[0].code) == GetFromUser
    ensures var rest := s.clientBox[1..];
            && Waiting(s) && UserBoxOk(s) && !s.client.timer
            && s.clientBox[0].data == Text(s.user.input) && |s.clientBox[0].data| < 0x100
            && Core(rest) == [] && NoAnswer(rest) && DataOk(s.(clientBox := rest))
  {
    PopClientBox(s.clientBox, Text(s.user.input));
  }

  /** The state in which the client has looked the name up, before it has posted the message to itself. */
  lemma LookedUp(s: Sys)
    requires Inv(s) && s.clientBox != [] && ClientHandler(s.client.state, s.clientBox[0].code) == CheckTable
    ensures var rest := s.clientBox[1..];
            && Waiting(s) && UserBoxOk(s) && !s.client.timer && s.client.input == Text(s.user.input)
            && Core(rest) == [] && NoAnswer(rest) && AnswersFirst(rest) && DataOk(s.(clientBox := rest))
  {
    PopClientBox(s.clientBox, Text(s.user.input));
  }

  lemma CheckTableKeepsInv(s: Sys, found: Option<Bytes>)
    requires Inv(s) && Enabled(s, ClientTurn(found)) && ClientHandler(s.client.state, s.clientBox[0].code) == CheckTable
    ensures Inv(Step(s, ClientTurn(found)))
  {
    var m := Msg(if found.Some? then RETURN_DATA else DNS_REQUEST_SENT, []);
    LookedUp(s);
    PutInClientBox(s.clientBox[1..], m, Text(s.user.input));
  }

  lemma PassToChannelKeepsInv(s: Sys)
    requires Inv(s) && s.clientBox != [] && ClientHandler(s.client.state, s.clientBox[0].code) == PassToChannel
    ensures Inv(Step(s, ClientTurn(None)))
  {
    PopClientBox(s.clientBox, Text(s.user.input));
  }

  /** The state in which the client has taken the channel's reply out of its mailbox. */
  lemma ReplyTaken(s: Sys)
    requires Inv(s) && s.clientBox != [] && ClientHandler(s.client.state, s.clientBox[0].code) == GetFromChannel
    ensures var rest := s.clientBox[1..];
            && Waiting(s) && UserBoxOk(s) && |s.clientBox[0].data| < 0x100
            && Core(rest) == [] && DataOk(s.(clientBox := rest))
  {
    PopClientBox(s.clientBox, Text(s.user.input));
  }

  lemma GetFromChannelKeepsInv(s: Sys)
    requires Inv(s) && s.clientBox != [] && ClientHandler(s.client.state, s.clientBox[0].code) == GetFromChannel
    ensures Inv(Step(s, ClientTurn(None)))
  {
    ReplyTaken(s);
    PutInClientBox(s.clientBox[1..], Msg(RETURN_DATA, []), Text(s.user.input));
  }

  lemma PassToUserKeepsInv(s: Sys)
    requires Inv(s) && s.clientBox != [] && ClientHandler(s.client.state, s.clientBox[0].code) == PassToUser
    ensures Inv(Step(s, ClientTurn(None)))
  {
    PopClientBox(s.clientBox, Text(s.user.input));
  }

  lemma ClientTurnKeepsInv(s: Sys, found: Option<Bytes>)
    requires Inv(s) && Enabled(s, ClientTurn(found))
    ensures Inv(Step(s, ClientTurn(found)))
  {
    hide Inv, ClientRuns;
    match ClientHandler(s.client.state, s.clientBox[0].code)
    case IdleState => IdleStateKeepsInv(s); FoundIsIgnored(s, found);
    case GetFromUser => GetFromUserKeepsInv(s); FoundIsIgnored(s, found);
    case CheckTable => CheckTableKeepsInv(s, found);
    case PassToChannel => PassToChannelKeepsInv(s); FoundIsIgnored(s, found);
    case GetFromChannel => GetFromChannelKeepsInv(s); FoundIsIgnored(s, found);
    case PassToUser => PassToUserKeepsInv(s); FoundIsIgnored(s, found);
    case TimerExpired => NoExpiry(s);
    case ClientNothing => DropKeepsInv(s); FoundIsIgnored(s, found);
  }

  lemma FoundIsIgnored(s: Sys, found: Option<Bytes>)
    requires Enabled(s, ClientTurn(found)) && ClientHandler(s.client.state, s.clientBox[0].code) != CheckTable
    ensures Step(s, ClientTurn(found)) == Step(s, ClientTurn(None))
    ensures ClientHandler(s.client.state, s.clientBox[0].code) == ClientNothing ==>
              Step(s, ClientTurn(found)) == s.(clientBox := s.clientBox[1..])
  {
  }

  lemma NoExpiry(s: Sys)
    requires Inv(s) && s.clientBox != []
    ensures ClientHandler(s.client.state, s.clientBox[0].code) != TimerExpired
  {
    PopClientBox(s.clientBox, []);
  }

  // ---------------------------------------------------------------- the channel's turn and the server

  lemma ServerReplyKeepsInv(s: Sys, data: Bytes)
    requires Inv(s) && |data| < 0x100
    ensures Inv(PassesReply(s, data))
  {
    PutInClientBox(s.clientBox, Msg(CHANNEL_REPLY, data), Text(s.user.input));
  }

  /** The channel's mailbox and state are no concern of the other two. */
  lemma ChannelIsApart(s: Sys, channel: Channel, box: seq<Msg>)
    requires Inv(s) && SmallData(box)
    ensures Inv(s.(channel := channel, channelBox := box))
  {
  }

  lemma SmallAppend(box: seq<Msg>, m: Msg)
    requires SmallData(box) && |m.data| < 0x100
    ensures SmallData(box + [m])
  {
  }

  lemma ChannelTurnKeepsInv(s: Sys)
    requires Inv(s) && s.channelBox != []
    ensures Inv(Step(s, ChannelTurn))
  {
    var rest := s.channelBox[1..];
    var t := s.(channelBox := rest);
    var data := s.channelBox[0].data;
    ChannelIsApart(s, s.channel, rest);
    ServerReplyKeepsInv(t, data);
    SmallAppend(rest, Msg(CREATE_SOCKET, []));
    SmallAppend(rest, Msg(CHANNEL_IDLE, []));
    var u := Step(s, ChannelTurn);
    hide Inv;
    if ChannelHandler(s.channel.state, s.channelBox[0].code) != PassReply {
      ChannelIsApart(t, u.channel, u.channelBox);
    }
  }

  /** Every step, of the automata or of the server, keeps the invariant. */
  lemma StepKeepsInv(s: Sys, op: Op)
    requires Inv(s) && Enabled(s, op)
    ensures Inv(Step(s, op))
  {
    match op
    case UserTurn(typed) => UserTurnKeepsInv(s, typed);
    case ClientTurn(found) => ClientTurnKeepsInv(s, found);
    case ChannelTurn => ChannelTurnKeepsInv(s);
    case ServerReply(data) => ServerReplyKeepsInv(s, data);
    case ServerDisconnect =>
      SmallAppend(s.channelBox, Msg(CHANNEL_IDLE, []));
      ChannelIsApart(s, s.channel.(state := ChannelIdle), s.channelBox + [Msg(CHANNEL_IDLE, [])]);
  }

  /** Every reachable state satisfies the invariant. */
  lemma {:induction false} RunKeepsInv(s: Sys, ops: seq<Op>)
    requires Inv(s) && Possible(s, ops)
    ensures Inv(Run(s, ops))
    decreases |ops|
  {
    if ops != [] {
      StepKeepsInv(s, ops[0]);
      RunKeepsInv(Step(s, ops[0]), ops[1..]);
    }
  }

  lemma ReachableInv(ops: seq<Op>)
    requires Possible(Started(), ops)
    ensures Inv(Run(Started(), ops))
  {
    StartedInv();
    RunKeepsInv(Started(), ops);
  }
}
