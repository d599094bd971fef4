/** What an answer carries: the line of the local table, unless a channel reply lies in front of it. */
module DnsAnswers {
  import opened Options
  import opened DnsSpec
  import opened DnsSafety
  import opened DnsRuns

  /** The client's output when it comes to the first answer in its mailbox: each reply in front overwrites it. */
  function OutputAtAnswer(box: seq<Msg>, output: Bytes): Bytes {
    if box == [] || box[0].code == RETURN_DATA then output
    else OutputAtAnswer(box[1..], if box[0].code == CHANNEL_REPLY then Copied(box[0].data) else output)
  }

  /** The last channel reply in the mailbox. */
  function LastReply(box: seq<Msg>): Option<Bytes> {
    if box == [] then None else
      var later := LastReply(box[1..]);
      if later.Some? then later else if box[0].code == CHANNEL_REPLY then Some(box[0].data) else None
  }

  /** The client is about to answer, with this output. */
  predicate WillAnswer(s: Sys, output: Bytes) {
    s.client.state == DnsRecived && !NoAnswer(s.clientBox) && OutputAtAnswer(s.clientBox, s.client.output) == output
  }

  lemma {:induction false} LaterDoesNotMatter(box: seq<Msg>, m: Msg, output: Bytes)
    requires !NoAnswer(box)
    ensures OutputAtAnswer(box + [m], output) == OutputAtAnswer(box, output)
  {
    assert (box + [m])[0] == box[0] && (box + [m])[1..] == box[1..] + [m];
    if box[0].code != RETURN_DATA {
      AnswerStays(box);
      LaterDoesNotMatter(box[1..], m, if box[0].code == CHANNEL_REPLY then Copied(box[0].data) else output);
    }
  }

  lemma {:induction false} LastReplyDecides(box: seq<Msg>, output: Bytes)
    requires NoAnswer(box) && SmallData(box)
    ensures var last := LastReply(box);
            OutputAtAnswer(box + [Msg(RETURN_DATA, [])], output) == if last.Some? then last.value else output
  {
    var answer := Msg(RETURN_DATA, []);
    if box == [] {
      assert box + [answer] == [answer];
    } else {
      assert (box + [answer])[0] == box[0] && (box + [answer])[1..] == box[1..] + [answer];
      LastReplyDecides(box[1..], if box[0].code == CHANNEL_REPLY then Copied(box[0].data) else output);
    }
  }

  /** A lookup that hits fixes the answer: the last reply that lies in the client's mailbox then, if there is one,
      and the line of the table if there is none. */
  lemma HitFixesAnswer(s: Sys, line: Bytes)
    requires Inv(s) && Enabled(s, ClientTurn(Some(line)))
    requires ClientHandler(s.client.state, s.clientBox[0].code) == CheckTable
    ensures var last := LastReply(s.clientBox);
            WillAnswer(Step(s, ClientTurn(Some(line))), if last.Some? then last.value else line)
  {
    var rest := s.clientBox[1..];
    LookedUp(s);
    LastReplyDecides(rest, line);
    NoAnswerAppend(rest, Msg(RETURN_DATA, []));
  }

  /** Until it is given, nothing that comes in changes the answer. */
  lemma StepKeepsAnswer(s: Sys, op: Op, output: Bytes)
    requires Inv(s) && Enabled(s, op) && WillAnswer(s, output)
    ensures !Answers(s, op) ==> WillAnswer(Step(s, op), output)
    ensures Answers(s, op) ==> Step(s, op).userBox == [Msg(RETURN_DATA, Text(output))]
  {
    match op
    case ClientTurn(found) => TurnKeepsAnswer(s, found, output);
    case ServerReply(data) => ReplyKeepsAnswer(s, data, output);
    case ChannelTurn => ReplyKeepsAnswer(s, s.channelBox[0].data, output);
    case _ =>
  }

  lemma ReplyKeepsAnswer(s: Sys, data: Bytes, output: Bytes)
    requires WillAnswer(s, output)
    ensures WillAnswer(s.(clientBox := s.clientBox + [Msg(CHANNEL_REPLY, data)]), output)
  {
    LaterDoesNotMatter(s.clientBox, Msg(CHANNEL_REPLY, data), s.client.output);
    NoAnswerAppend(s.clientBox, Msg(CHANNEL_REPLY, data));
  }

  lemma TurnKeepsAnswer(s: Sys, found: Option<Bytes>, output: Bytes)
    requires Inv(s) && Enabled(s, ClientTurn(found)) && WillAnswer(s, output)
    ensures var op := ClientTurn(found);
            && (!Answers(s, op) ==> WillAnswer(Step(s, op), output))
            && (Answers(s, op) ==> Step(s, op).userBox == [Msg(RETURN_DATA, Text(output))])
  {
    var rest := s.clientBox[1..];
    AnswerStays(s.clientBox);
    if s.clientBox[0].code == CHANNEL_REPLY {
      LaterDoesNotMatter(rest, Msg(RETURN_DATA, []), Copied(s.clientBox[0].data));
      NoAnswerAppend(rest, Msg(RETURN_DATA, []));
    }
  }

  /** The answer given in the run: what the first step that answers puts into the user's mailbox. */
  function FirstAnswer(s: Sys, ops: seq<Op>): Option<Msg>
    requires Possible(s, ops)
    decreases |ops|
  {
    if ops == [] then None
    else if Answers(s, ops[0]) then
      var box := Step(s, ops[0]).userBox;
      if box == [] then None else Some(box[|box| - 1])
    else FirstAnswer(Step(s, ops[0]), ops[1..])
  }

  lemma {:induction false} RunAnswers(s: Sys, ops: seq<Op>, output: Bytes)
    requires Inv(s) && Possible(s, ops) && WillAnswer(s, output)
    ensures FirstAnswer(s, ops).Some? <==> 0 < Answered(s, ops)
    ensures FirstAnswer(s, ops).Some? ==> FirstAnswer(s, ops) == Some(Msg(RETURN_DATA, Text(output)))
    decreases |ops|
  {
    if ops != [] {
      StepKeepsAnswer(s, ops[0], output);
      StepKeepsInv(s, ops[0]);
      if !Answers(s, ops[0]) {
        RunAnswers(Step(s, ops[0]), ops[1..], output);
      }
    }
  }

  /** After a lookup that hits, whatever the run, the user is answered with the line of the table if and only if no
      channel reply lay in the client's mailbox at the lookup, or the last one reads the same. */
  lemma AnswerIsLineIff(s: Sys, line: Bytes, ops: seq<Op>)
    requires Inv(s) && Enabled(s, ClientTurn(Some(line)))
    requires ClientHandler(s.client.state, s.clientBox[0].code) == CheckTable
    requires var t := Step(s, ClientTurn(Some(line))); Possible(t, ops) && 0 < Answered(t, ops)
    ensures var last := LastReply(s.clientBox);
            var answer := FirstAnswer(Step(s, ClientTurn(Some(line))), ops);
            && answer.Some? && answer.value.code == RETURN_DATA
            && (answer.value.data == Text(line) <==> last.None? || Text(last.value) == Text(line))
  {
    HitFixesAnswer(s, line);
    ClientTurnKeepsInv(s, Some(line));
    var last := LastReply(s.clientBox);
    RunAnswers(Step(s, ClientTurn(Some(line))), ops, if last.Some? then last.value else line);
  }

  // ---------------------------------------------------------------- the way back from the server

  lemma {:induction false} LastReplyAppend(box: seq<Msg>, m: Msg)
    ensures LastReply(box + [m]) == if m.code == CHANNEL_REPLY then Some(m.data) else LastReply(box)
  {
    if box == [] {
      assert box + [m] == [m] && [m][1..] == [];
    } else {
      assert (box + [m])[0] == box[0] && (box + [m])[1..] == box[1..] + [m];
      LastReplyAppend(box[1..], m);
    }
  }

  /** The client waits for the channel, whose last reply so far is this. */
  predicate HasReply(s: Sys, data: Bytes) {
    && s.client.state == DnsRecived && NoAnswer(s.clientBox) && LastReply(s.clientBox) == Some(data)
    && s.channel.state != ToClientSent
  }

  /** The client's next turn makes the last reply its answer. */
  lemma ReplyFixesAnswer(s: Sys, data: Bytes, found: Option<Bytes>)
    requires Inv(s) && HasReply(s, data) && Enabled(s, ClientTurn(found))
    ensures WillAnswer(Step(s, ClientTurn(found)), data) && !Answers(s, ClientTurn(found))
  {
    var rest, output := s.clientBox[1..], Copied(s.clientBox[0].data);
    PopClientBox(s.clientBox, []);
    assert s.clientBox[0].code == CHANNEL_REPLY;
    LastReplyDecides(rest, output);
    NoAnswerAppend(rest, Msg(RETURN_DATA, []));
  }

  /** The last reply that comes in before the client's next turn; `data` if none does. */
  function LastBefore(ops: seq<Op>, data: Bytes): Bytes {
    if ops == [] || ops[0].ClientTurn? then data
    else LastBefore(ops[1..], if ops[0].ServerReply? then ops[0].data else data)
  }

  lemma StepKeepsReply(s: Sys, op: Op, data: Bytes)
    requires Inv(s) && HasReply(s, data) && Enabled(s, op) && !op.ClientTurn?
    ensures HasReply(Step(s, op), if op.ServerReply? then op.data else data) && !Answers(s, op)
  {
    if op.ServerReply? {
      LastReplyAppend(s.clientBox, Msg(CHANNEL_REPLY, op.data));
      NoAnswerAppend(s.clientBox, Msg(CHANNEL_REPLY, op.data));
    }
  }

  lemma {:induction false} ReplyIsHandedOn(s: Sys, data: Bytes, ops: seq<Op>)
    requires Inv(s) && HasReply(s, data) && Possible(s, ops)
    ensures FirstAnswer(s, ops).Some? <==> 0 < Answered(s, ops)
    ensures FirstAnswer(s, ops).Some? ==> FirstAnswer(s, ops) == Some(Msg(RETURN_DATA, Text(LastBefore(ops, data))))
    decreases |ops|
  {
    if ops != [] {
      var t := Step(s, ops[0]);
      StepKeepsInv(s, ops[0]);
      if ops[0].ClientTurn? {
        ReplyFixesAnswer(s, data, ops[0].found);
        hide *;
        RunAnswers(t, ops[1..], data);
        AnsweredLater(s, ops);
        LastBeforeNow(ops, data);
      } else {
        StepKeepsReply(s, ops[0], data);
        hide *;
        var latest := if ops[0].ServerReply? then ops[0].data else data;
        ReplyIsHandedOn(t, latest, ops[1..]);
        AnsweredLater(s, ops);
        LastBeforeNow(ops, data);
      }
    }
  }

  lemma AnsweredLater(s: Sys, ops: seq<Op>)
    requires ops != [] && Possible(s, ops) && !Answers(s, ops[0])
    ensures FirstAnswer(s, ops) == FirstAnswer(Step(s, ops[0]), ops[1..])
    ensures Answered(s, ops) == Answered(Step(s, ops[0]), ops[1..])
  {
  }

  lemma LastBeforeNow(ops: seq<Op>, data: Bytes)
    requires ops != []
    ensures LastBefore(ops, data)
            == if ops[0].ClientTurn? then data
               else LastBefore(ops[1..], if ops[0].ServerReply? then ops[0].data else data)
  {
  }

  /** What the server replies to a client that waits for it is what the user is answered, up to its first zero byte:
      the last of the replies that come in before the client's next turn. */
  lemma ReplyIsAnswer(s: Sys, data: Bytes, ops: seq<Op>)
    requires Inv(s) && s.client.state == DnsRecived && NoAnswer(s.clientBox) && Enabled(s, ServerReply(data))
    requires Possible(Step(s, ServerReply(data)), ops)
    ensures var t := Step(s, ServerReply(data));
            var answer := FirstAnswer(t, ops);
            && (answer.Some? <==> 0 < Answered(t, ops))
            && (answer.Some? ==> answer == Some(Msg(RETURN_DATA, Text(LastBefore(ops, data)))))
  {
    StepKeepsInv(s, ServerReply(data));
    LastReplyAppend(s.clientBox, Msg(CHANNEL_REPLY, data));
    NoAnswerAppend(s.clientBox, Msg(CHANNEL_REPLY, data));
    ReplyIsHandedOn(Step(s, ServerReply(data)), data, ops);
  }

  /** What the user shows first: its input after the first turn in which it takes an answer. */
  function FirstShown(s: Sys, ops: seq<Op>): Option<Bytes>
    requires Possible(s, ops)
    decreases |ops|
  {
    if ops == [] then None
    else if ops[0].UserTurn? && s.user.state == ReturnData then Some(Step(s, ops[0]).user.input)
    else FirstShown(Step(s, ops[0]), ops[1..])
  }

  /** The answer stays in the user's mailbox until the user takes it. */
  lemma {:induction false} QueuedIsShown(s: Sys, ops: seq<Op>)
    requires Inv(s) && Possible(s, ops) && s.user.state == ReturnData && s.userBox != []
    ensures FirstShown(s, ops).Some? ==> FirstShown(s, ops) == Some(s.userBox[0].data)
    decreases |ops|
  {
    if ops != [] && !ops[0].UserTurn? {
      StepKeepsInv(s, ops[0]);
      QueuedIsShown(Step(s, ops[0]), ops[1..]);
    }
  }

  /** Whatever the run, a waiting user shows the data of the answer it is given. */
  lemma {:induction false} AnswerIsShown(s: Sys, ops: seq<Op>)
    requires Inv(s) && Possible(s, ops) && Waiting(s)
    ensures FirstShown(s, ops).Some? ==>
              FirstAnswer(s, ops).Some? && FirstShown(s, ops).value == FirstAnswer(s, ops).value.data
    decreases |ops|
  {
    if ops != [] {
      StepKeepsInv(s, ops[0]);
      var t := Step(s, ops[0]);
      if Answers(s, ops[0]) {
        QueuedIsShown(t, ops[1..]);
      } else {
        StepBalances(s, ops[0]);
        AnswerIsShown(t, ops[1..]);
      }
    }
  }
}
