/** What the invariant of the three automata means for queries, answers and progress. */
module DnsRuns {
  import opened Options
  import opened Buffers
  import opened DnsSpec
  import opened DnsSafety

  // ---------------------------------------------------------------- one token

  function Count(box: seq<Msg>, code: uint16): nat {
    if box == [] then 0 else (if box[0].code == code then 1 else 0) + Count(box[1..], code)
  }

  function CountCode(core: seq<uint16>, code: uint16): nat {
    if core == [] then 0 else (if core[0] == code then 1 else 0) + CountCode(core[1..], code)
  }

  lemma {:induction false} CountIsOfCore(box: seq<Msg>, code: uint16)
    requires !IsNoise(code)
    ensures Count(box, code) == CountCode(Core(box), code)
  {
    if box != [] {
      CountIsOfCore(box[1..], code);
      var head := CoreOf(box[0]);
      assert Core(box) == head + Core(box[1..]);
      assert head != [] ==> (head + Core(box[1..]))[1..] == Core(box[1..]);
      assert head == [] ==> head + Core(box[1..]) == Core(box[1..]);
    }
  }

  predicate Busy(c: Client) {
    c.state == CheckLocalTable || c.state == DnsRequest || c.state == DnsRecived
  }

  /** Queries on their way to the client, a client at work, answers on their way to the user. */
  function Tokens(s: Sys): nat {
    Count(s.clientBox, USER_DATA_SENT) + (if Busy(s.client) then 1 else 0) + Count(s.userBox, RETURN_DATA)
  }

  /** One token is kept: exactly one while the user waits for its data, none otherwise. */
  lemma OneToken(s: Sys)
    requires Inv(s)
    ensures Tokens(s) == if s.user.state == ReturnData then 1 else 0
  {
    CountIsOfCore(s.clientBox, USER_DATA_SENT);
    if s.userBox != [] {
      assert s.userBox[1..] == [];
      assert Count(s.userBox, RETURN_DATA)
             == (if s.userBox[0].code == RETURN_DATA then 1 else 0) + Count([], RETURN_DATA);
    }
    var core := Core(s.clientBox);
    CountTwo(CLIENT_IDLE, USER_DATA_SENT, USER_DATA_SENT);
    CountOne(USER_DATA_SENT, USER_DATA_SENT);
    CountOne(CLIENT_IDLE, USER_DATA_SENT);
    CountOne(CHECK_LOCAL_TABLE, USER_DATA_SENT);
    CountOne(DNS_REQUEST_SENT, USER_DATA_SENT);
    assert CountCode([], USER_DATA_SENT) == 0;
  }

  lemma CountOne(a: uint16, code: uint16)
    ensures CountCode([a], code) == if a == code then 1 else 0
  {
    assert [a][1..] == [];
  }

  lemma CountTwo(a: uint16, b: uint16, code: uint16)
    ensures CountCode([a, b], code) == (if a == code then 1 else 0) + if b == code then 1 else 0
  {
    assert [a, b][1..] == [b];
    CountOne(b, code);
  }

  /** The handler for unexpected events is given nothing but late replies and answers already passed on; the user is
      given no unexpected event at all. */
  lemma OnlyNoiseIsDropped(s: Sys)
    requires Inv(s)
    ensures s.userBox != [] ==> UserHandler(s.user.state, s.userBox[0].code) != UserNothing
    ensures s.clientBox != [] && ClientHandler(s.client.state, s.clientBox[0].code) == ClientNothing ==>
              IsNoise(s.clientBox[0].code)
  {
    if s.clientBox != [] && ClientHandler(s.client.state, s.clientBox[0].code) == ClientNothing {
      DropKeepsInv(s);
    }
  }

  /** StartTimer finds its timer stopped: the source's assertion holds whenever a request goes to the channel; and
      the request carries the name typed in. */
  lemma RequestToChannel(s: Sys, found: Option<Bytes>)
    requires Inv(s) && Enabled(s, ClientTurn(found))
    requires ClientHandler(s.client.state, s.clientBox[0].code) == PassToChannel
    ensures !s.client.timer && Step(s, ClientTurn(found)).client.timer
    ensures Step(s, ClientTurn(found)).channelBox == s.channelBox + [Msg(DNS_REQUEST_SENT, Text(s.user.input))]
  {
    TextOfText(s.user.input);
  }

  lemma {:induction false} TextOfText(data: Bytes)
    ensures Text(Text(data)) == Text(data)
  {
    if data != [] && data[0] != 0 {
      TextOfText(data[1..]);
      assert Text(data)[1..] == Text(data[1..]);
    }
  }

  // ---------------------------------------------------------------- queries and answers over runs

  predicate Asks(s: Sys, op: Op)
    requires Enabled(s, op)
  {
    op.UserTurn? && UserHandler(s.user.state, s.userBox[0].code) == PassToClient
  }

  predicate Answers(s: Sys, op: Op)
    requires Enabled(s, op)
  {
    op.ClientTurn? && ClientHandler(s.client.state, s.clientBox[0].code) == PassToUser
  }

  function Asked(s: Sys, ops: seq<Op>): nat
    requires Possible(s, ops)
    decreases |ops|
  {
    if ops == [] then 0 else (if Asks(s, ops[0]) then 1 else 0) + Asked(Step(s, ops[0]), ops[1..])
  }

  function Answered(s: Sys, ops: seq<Op>): nat
    requires Possible(s, ops)
    decreases |ops|
  {
    if ops == [] then 0 else (if Answers(s, ops[0]) then 1 else 0) + Answered(Step(s, ops[0]), ops[1..])
  }

  function Open(s: Sys): nat {
    if Waiting(s) then 1 else 0
  }

  lemma StepBalances(s: Sys, op: Op)
    requires Inv(s) && Enabled(s, op)
    ensures Open(s) + (if Asks(s, op) then 1 else 0) == Open(Step(s, op)) + if Answers(s, op) then 1 else 0
  {
    if op.UserTurn? {
      assert s.userBox[1..] == [];
    }
    if op.ClientTurn? && s.client.state == DnsRecived {
      assert Waiting(s);
    }
  }

  /** Each query gets at most one answer, and none is open when another is asked: the books always balance. */
  lemma {:induction false} QueriesAndAnswers(s: Sys, ops: seq<Op>)
    requires Inv(s) && Possible(s, ops)
    ensures Open(s) + Asked(s, ops) == Open(Run(s, ops)) + Answered(s, ops)
    decreases |ops|
  {
    if ops != [] {
      StepKeepsInv(s, ops[0]);
      StepBalances(s, ops[0]);
      QueriesAndAnswers(Step(s, ops[0]), ops[1..]);
    }
  }

  // ---------------------------------------------------------------- the socket

  predicate Creates(s: Sys, op: Op)
    requires Enabled(s, op)
  {
    && op.ChannelTurn? && ChannelHandler(s.channel.state, s.channelBox[0].code) == GetRequest
    && s.channel.firstStartFlag == 1
  }

  function SocketsCreated(s: Sys, ops: seq<Op>): nat
    requires Possible(s, ops)
    decreases |ops|
  {
    if ops == [] then 0 else (if Creates(s, ops[0]) then 1 else 0) + SocketsCreated(Step(s, ops[0]), ops[1..])
  }

  /** The channel is in its first start and has not asked for the socket yet. */
  function SocketsLeft(s: Sys): nat {
    if s.channel.firstStartFlag == 0 then 1
    else if s.channel.firstStartFlag == 1 && s.channel.state == ChannelRequest then 1
    else 0
  }

  lemma SocketStep(s: Sys, op: Op)
    requires Enabled(s, op)
    ensures (if Creates(s, op) then 1 else 0) + SocketsLeft(Step(s, op)) <= SocketsLeft(s)
  {
  }

  /** The socket is created only on the first start: at most once in any run, from any state whatever. */
  lemma {:induction false} AtMostOneSocket(s: Sys, ops: seq<Op>)
    requires Possible(s, ops)
    ensures SocketsCreated(s, ops) <= SocketsLeft(s) <= 1
    decreases |ops|
  {
    if ops != [] {
      SocketStep(s, ops[0]);
      AtMostOneSocket(Step(s, ops[0]), ops[1..]);
    }
  }

  // ---------------------------------------------------------------- progress

  /** The message at position k will be handled when it comes to the head: none before it has a handler, so none
      before it changes the client's state. */
  predicate ClientWillHandle(s: Sys, k: nat) {
    && k < |s.clientBox|
    && (forall i :: 0 <= i < k ==> ClientHandler(s.client.state, s.clientBox[i].code) == ClientNothing)
    && ClientHandler(s.client.state, s.clientBox[k].code) != ClientNothing
  }

  ghost predicate ClientGoesOn(s: Sys) {
    exists k :: ClientWillHandle(s, k)
  }

  lemma {:induction false} FirstExpected(s: Sys, box: seq<Msg>, k: nat) returns (j: nat)
    requires k < |box| && ClientHandler(s.client.state, box[k].code) != ClientNothing
    ensures j <= k && ClientWillHandle(s.(clientBox := box), j)
    decreases k
  {
    if i :| 0 <= i < k && ClientHandler(s.client.state, box[i].code) != ClientNothing {
      j := FirstExpected(s, box, i);
    } else {
      j := k;
    }
  }

  lemma {:induction false} CoreHeadStands(box: seq<Msg>) returns (k: nat)
    requires Core(box) != []
    ensures k < |box| && box[k].code == Core(box)[0]
  {
    if IsNoise(box[0].code) {
      k := CoreHeadStands(box[1..]);
      k := k + 1;
    } else {
      k := 0;
    }
  }

  /** No deadlock: unless the client waits for the channel, either the user has a message it will handle, or there is
      one in the client's mailbox that the client will handle. */
  lemma NoDeadlock(s: Sys)
    requires Inv(s)
    ensures || (s.userBox != [] && UserHandler(s.user.state, s.userBox[0].code) != UserNothing)
            || ClientGoesOn(s)
            || (s.client.state == DnsRecived && Waiting(s) && forall i :: 0 <= i < |s.clientBox| ==>
                 s.clientBox[i].code != CHANNEL_REPLY && s.clientBox[i].code != RETURN_DATA)
  {
    OnlyNoiseIsDropped(s);
    if s.userBox == [] {
      if s.client.state != DnsRecived {
        var k := CoreHeadStands(s.clientBox);
        var j := FirstExpected(s, s.clientBox, k);
        assert ClientWillHandle(s, j);
      } else if i :| 0 <= i < |s.clientBox| && IsNoise(s.clientBox[i].code) {
        var j := FirstExpected(s, s.clientBox, i);
        assert ClientWillHandle(s, j);
      }
    }
  }

  /** Dispatches that a message in the client's mailbox can still cause there. */
  function Weight(code: uint16): nat {
    if code == USER_DATA_SENT then 4 else if code == CHECK_LOCAL_TABLE then 3
    else if code == DNS_REQUEST_SENT || code == CHANNEL_REPLY || code == TIMER_EXPIRED then 2 else 1
  }

  function Work(box: seq<Msg>): nat {
    if box == [] then 0 else Weight(box[0].code) + Work(box[1..])
  }

  lemma {:induction false} WorkAppend(box: seq<Msg>, m: Msg)
    ensures Work(box + [m]) == Work(box) + Weight(m.code)
  {
    if box == [] {
      assert [m][1..] == [];
    } else {
      assert (box + [m])[1..] == box[1..] + [m];
      WorkAppend(box[1..], m);
    }
  }

  /** A turn of the client takes the head out of its mailbox and puts at most one lighter message in. */
  lemma TurnPosts(s: Sys, found: Option<Bytes>)
    requires Enabled(s, ClientTurn(found)) && ClientHandler(s.client.state, s.clientBox[0].code) != TimerExpired
    ensures var t, rest := Step(s, ClientTurn(found)).clientBox, s.clientBox[1..];
            t == rest || (t != [] && t == rest + [t[|t| - 1]] && Weight(t[|t| - 1].code) < Weight(s.clientBox[0].code))
  {
  }

  lemma ClientWorks(s: Sys, found: Option<Bytes>)
    requires Inv(s) && Enabled(s, ClientTurn(found))
    ensures Work(Step(s, ClientTurn(found)).clientBox) < Work(s.clientBox)
  {
    NoExpiry(s);
    TurnPosts(s, found);
    var t, rest := Step(s, ClientTurn(found)).clientBox, s.clientBox[1..];
    assert Work(s.clientBox) == Weight(s.clientBox[0].code) + Work(rest) && 0 < Weight(s.clientBox[0].code);
    hide *;
    if t != rest {
      WorkAppend(rest, t[|t| - 1]);
    }
  }

  function ClientTurns(ops: seq<Op>): nat {
    if ops == [] then 0 else (if ops[0].ClientTurn? then 1 else 0) + ClientTurns(ops[1..])
  }

  /** Replies that the server, or a message in the channel's mailbox, puts into the client's. */
  function Replies(s: Sys, ops: seq<Op>): nat
    requires Possible(s, ops)
    decreases |ops|
  {
    if ops == [] then 0 else
      (if ops[0].ServerReply?
          || (ops[0].ChannelTurn? && ChannelHandler(s.channel.state, s.channelBox[0].code) == PassReply) then 1 else 0)
      + Replies(Step(s, ops[0]), ops[1..])
  }

  lemma StepWork(s: Sys, op: Op)
    requires Inv(s) && Enabled(s, op) && Waiting(s)
    ensures var t := Step(s, op);
            Work(t.clientBox) + (if op.ClientTurn? then 1 else 0) <= Work(s.clientBox) + 2 * Replies(s, [op])
  {
    match op
    case ClientTurn(found) => ClientWorks(s, found);
    case ServerReply(data) => WorkAppend(s.clientBox, Msg(CHANNEL_REPLY, data));
    case ChannelTurn => WorkAppend(s.clientBox, Msg(CHANNEL_REPLY, s.channelBox[0].data));
    case _ =>
  }

  /** The user waits as long as the run lasts. */
  predicate Unanswered(s: Sys, ops: seq<Op>)
    requires Possible(s, ops)
    decreases |ops|
  {
    Waiting(s) && (ops != [] ==> Unanswered(Step(s, ops[0]), ops[1..]))
  }

  /** A waiting user is answered, or left to the channel, after a bounded number of turns of the client: as many as
      the work in its mailbox, and at most two more for each reply that comes in meanwhile. */
  lemma {:induction false} WorkIsBounded(s: Sys, ops: seq<Op>)
    requires Inv(s) && Possible(s, ops) && Unanswered(s, ops)
    ensures Work(Run(s, ops).clientBox) + ClientTurns(ops) <= Work(s.clientBox) + 2 * Replies(s, ops)
    decreases |ops|
  {
    if ops != [] {
      StepKeepsInv(s, ops[0]);
      StepWork(s, ops[0]);
      assert [ops[0]][1..] == [];
      WorkIsBounded(Step(s, ops[0]), ops[1..]);
    }
  }

  /** The client owes nothing to the channel: in DNS_Recived the answer is already in its mailbox. */
  predicate Served(s: Sys) {
    s.client.state != DnsRequest && (s.client.state == DnsRecived ==> !NoAnswer(s.clientBox))
  }

  predicate AllHit(ops: seq<Op>) {
    forall i :: 0 <= i < |ops| && ops[i].ClientTurn? ==> ops[i].found.Some?
  }

  lemma HitKeepsServed(s: Sys, op: Op)
    requires Inv(s) && Enabled(s, op) && Served(s) && Waiting(s) && (op.ClientTurn? ==> op.found.Some?)
    ensures Served(Step(s, op))
  {
    match op
    case ClientTurn(found) => HitServes(s, found);
    case ServerReply(data) => NoAnswerAppend(s.clientBox, Msg(CHANNEL_REPLY, data));
    case ChannelTurn => NoAnswerAppend(s.clientBox, Msg(CHANNEL_REPLY, s.channelBox[0].data));
    case _ =>
  }

  lemma HitServes(s: Sys, found: Option<Bytes>)
    requires Enabled(s, ClientTurn(found)) && Served(s) && found.Some?
    ensures Served(Step(s, ClientTurn(found)))
  {
    NoAnswerAppend(s.clientBox[1..], Msg(RETURN_DATA, []));
    AnswerStays(s.clientBox);
    hide NoAnswer;
  }

  lemma AnswerStays(box: seq<Msg>)
    requires box != []
    ensures box[0].code != RETURN_DATA && NoAnswer(box[1..]) ==> NoAnswer(box)
  {
    forall i | 0 < i < |box| && NoAnswer(box[1..]) ensures box[i].code != RETURN_DATA {
      assert box[1..][i - 1].code != RETURN_DATA;
    }
  }

  lemma ServedGoesOn(s: Sys)
    requires Inv(s) && Waiting(s) && Served(s)
    ensures ClientGoesOn(s)
  {
    NoDeadlock(s);
  }

  lemma {:induction false} HitsKeepServed(s: Sys, ops: seq<Op>)
    requires Inv(s) && Possible(s, ops) && Unanswered(s, ops) && Served(s) && AllHit(ops)
    ensures Served(Run(s, ops)) && Waiting(Run(s, ops)) && Inv(Run(s, ops))
    decreases |ops|
  {
    if ops != [] {
      StepKeepsInv(s, ops[0]);
      HitKeepsServed(s, ops[0]);
      assert forall i :: 0 <= i < |ops[1..]| ==> ops[1..][i] == ops[i + 1];
      HitsKeepServed(Step(s, ops[0]), ops[1..]);
    }
  }

  /** When the local lookup hits, every query is answered within a bounded number of turns of the client: as long as
      it is not, the client has a message to handle ... */
  lemma HitsGoOn(s: Sys, ops: seq<Op>)
    requires Inv(s) && Possible(s, ops) && Unanswered(s, ops) && Served(s) && AllHit(ops)
    ensures ClientGoesOn(Run(s, ops))
  {
    HitsKeepServed(s, ops);
    ServedGoesOn(Run(s, ops));
  }

  lemma SomeWork(s: Sys)
    requires ClientGoesOn(s)
    ensures 0 < Work(s.clientBox)
  {
  }

  /** ... and it has taken fewer turns than its mailbox held work for when the query was passed on, counting two for
      each reply that has come in since. */
  lemma AnsweredWhenTableHits(s: Sys, ops: seq<Op>)
    requires Inv(s) && Possible(s, ops) && Unanswered(s, ops) && Served(s) && AllHit(ops)
    ensures ClientTurns(ops) < Work(s.clientBox) + 2 * Replies(s, ops)
  {
    hide *;
    WorkIsBounded(s, ops);
    HitsGoOn(s, ops);
    SomeWork(Run(s, ops));
  }

  /** When the user passes its query on, the client owes nothing to the channel. */
  lemma QueryIsServed(s: Sys, op: Op)
    requires Inv(s) && Enabled(s, op) && Asks(s, op)
    ensures Served(Step(s, op)) && Waiting(Step(s, op)) && Inv(Step(s, op))
    ensures Work(Step(s, op).clientBox) == Work(s.clientBox) + 4
  {
    StepKeepsInv(s, op);
    WorkAppend(s.clientBox, Msg(USER_DATA_SENT, Text(s.user.input)));
    assert s.userBox[1..] == [];
  }

  /** From the moment the user passes a query on, with the local table hitting and no answer yet: the client has a
      message to handle, and has taken no more turns than what lay in its mailbox, the query and the replies that
      have come in since account for. */
  lemma QueryIsAnswered(s: Sys, op: Op, ops: seq<Op>)
    requires Inv(s) && Enabled(s, op) && Asks(s, op)
    requires Possible(Step(s, op), ops) && Unanswered(Step(s, op), ops) && AllHit(ops)
    ensures ClientGoesOn(Run(Step(s, op), ops))
    ensures ClientTurns(ops) < Work(s.clientBox) + 4 + 2 * Replies(Step(s, op), ops)
  {
    hide *;
    QueryIsServed(s, op);
    HitsGoOn(Step(s, op), ops);
    AnsweredWhenTableHits(Step(s, op), ops);
  }
}
