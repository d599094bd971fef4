/** The two standard codecs as the object with NewMessage, CurrentMessage and the search cursor CurrentOffset
    (Kernel/standardMsg.cpp, Kernel/stdMsgpc16pl16.cpp).  The ghost arguments `ps` name the parameters that the
    message carries. */
module StandardMessages {
  import opened Options
  import opened Buffers
  import opened Sequences
  import opened TlvSpec
  import opened TlvBytes
  import opened TlvCodec

  class StandardMessage {
    const coding: Coding
    var newMessage: array?<uint8>
    var currentMessage: array?<uint8>
    var currentOffset: nat

    constructor (coding: Coding)
      ensures this.coding == coding && newMessage == null && currentMessage == null && currentOffset == 0
    {
      this.coding, newMessage, currentMessage, currentOffset := coding, null, null, 0;
    }

    // -------------------------------------------------------------- reading

    /** The cursor stands where parameter i begins; on a message without parameters it may stand anywhere: nothing
        moves it when a message arrives. */
    ghost predicate Reading(ps: seq<Param>, i: nat)
      reads this`currentMessage, this`currentOffset, currentMessage
    {
      && currentMessage != null && Carries(coding, currentMessage[..], ps) && i <= |ps|
      && (InfoLength(currentMessage[..]) == 0 || currentOffset == OffsetOf(coding, ps, i))
    }

    /** The first parameter with the code from the cursor's position on; the cursor ends up behind it.  When there is
        none the cursor is reset to the start, except that on a message without parameters it stays where the search
        began. */
    method FindParam(paramCode: nat, startOffset: nat, ghost ps: seq<Param>, ghost i: nat) returns (tmp: Option<nat>)
      requires currentMessage != null && Carries(coding, currentMessage[..], ps) && i <= |ps|
      requires InfoLength(currentMessage[..]) == 0 || startOffset == OffsetOf(coding, ps, i)
      modifies this`currentOffset
      ensures InfoLength(currentMessage[..]) != 0 ==>
                Found(coding, currentMessage[..], ps, FindFrom(ps, paramCode, i), tmp, currentOffset)
      ensures InfoLength(currentMessage[..]) == 0 ==> tmp == None && currentOffset == startOffset
      ensures tmp == None ==> (currentOffset == 0 <==> InfoLength(currentMessage[..]) != 0 || startOffset == 0)
    {
      ghost var s := currentMessage[..];
      hide Carries, OffsetOf, NumberAt, ParamAt, FindFrom;
      currentOffset := startOffset;
      assert currentMessage[..] == s;
      var info := GetNumber(currentMessage, MSG_LENGTH, 2);
      if info == 0 {
        return None;
      }
      tmp := Search(paramCode, info, ps, i);
    }

    /** The loop of FindParam. */
    method Search(paramCode: nat, info: nat, ghost ps: seq<Param>, ghost i: nat) returns (tmp: Option<nat>)
      requires currentMessage != null && Carries(coding, currentMessage[..], ps) && i <= |ps|
      requires info == InfoLength(currentMessage[..]) != 0 && currentOffset == OffsetOf(coding, ps, i)
      modifies this`currentOffset
      ensures Found(coding, currentMessage[..], ps, FindFrom(ps, paramCode, i), tmp, currentOffset)
    {
      hide Carries, OffsetOf, NumberAt, ParamAt;
      ghost var s := currentMessage[..];
      StandsAt(coding, s, ps, i);
      var at := MSG_INFO + currentOffset;
      ghost var k := i;
      var code := GetNumber(currentMessage, at, Width(coding));
      while code != 0
        invariant i <= k <= |ps| && FindFrom(ps, paramCode, i) == FindFrom(ps, paramCode, k)
        invariant Stands(coding, s, ps, k, currentOffset) && at == MSG_INFO + currentOffset
        invariant code == (if k < |ps| then ps[k].code else 0) && s == currentMessage[..]
        decreases |ps| - k
      {
        var length := GetNumber(currentMessage, at + Width(coding), Width(coding));
        currentOffset := currentOffset + length + HeaderLength(coding);
        if code == paramCode {
          return Some(at);
        }
        at := at + length + HeaderLength(coding);
        assert currentOffset < info + MSG_INFO;
        k := k + 1;
        StandsAt(coding, s, ps, k);
        code := GetNumber(currentMessage, at, Width(coding));
      }
      currentOffset := 0;
      return None;
    }

    /** GetParam: the first parameter with the code. */
    method GetParam(paramCode: nat, ghost ps: seq<Param>) returns (tmp: Option<nat>)
      requires currentMessage != null && Carries(coding, currentMessage[..], ps)
      modifies this`currentOffset
      ensures Found(coding, currentMessage[..], ps, FindFrom(ps, paramCode, 0), tmp, currentOffset)
    {
      NoOffset(coding, ps);
      assert InfoLength(currentMessage[..]) == 0 ==> ps == [];
      tmp := FindParam(paramCode, 0, ps, 0);
    }

    /** GetNextParam: the first parameter with the code from the i-th on, where the cursor stands. */
    method GetNextParam(paramCode: nat, ghost ps: seq<Param>, ghost i: nat) returns (tmp: Option<nat>)
      requires Reading(ps, i)
      modifies this`currentOffset
      ensures InfoLength(currentMessage[..]) != 0 ==>
                Found(coding, currentMessage[..], ps, FindFrom(ps, paramCode, i), tmp, currentOffset)
      ensures InfoLength(currentMessage[..]) == 0 ==> tmp == None && currentOffset == old(currentOffset)
      ensures tmp == None ==> (currentOffset == 0 <==> InfoLength(currentMessage[..]) != 0 || old(currentOffset) == 0)
    {
      tmp := FindParam(paramCode, currentOffset, ps, i);
    }

    /** GetParam and then GetNextParam until nothing is found, as a client reads all values under a code. */
    method AllParams(paramCode: nat, ghost ps: seq<Param>) returns (values: seq<seq<uint8>>)
      requires currentMessage != null && Carries(coding, currentMessage[..], ps)
      modifies this`currentOffset
      ensures values == Values(ps, paramCode) && currentOffset == 0
    {
      ghost var i := 0;
      CollectStarts(ps, paramCode);
      hide Carries, Found, FindFrom, Collected, Values, Visited;
      values := [];
      var tmp: Option<nat> := GetParam(paramCode, ps);
      while tmp.Some?
        invariant i <= |ps| && SearchAt(ps, paramCode, i, tmp) && Collected(values, ps, paramCode, i)
        decreases |ps| - i
      {
        var value;
        value, tmp := TakeValue(paramCode, tmp.value, ps, i);
        CollectStep(values, ps, paramCode, i);
        values := values + [value];
        i := FindFrom(ps, paramCode, i) + 1;
      }
      FoundSays(coding, currentMessage[..], ps, FindFrom(ps, paramCode, i), tmp, currentOffset);
      CollectStep(values, ps, paramCode, i);
    }

    /** A search for the code from parameter i on has come to tmp. */
    ghost predicate SearchAt(ps: seq<Param>, paramCode: nat, i: nat, tmp: Option<nat>)
      reads this`currentMessage, this`currentOffset, currentMessage
    {
      && currentMessage != null && Carries(coding, currentMessage[..], ps) && i <= |ps|
      && Found(coding, currentMessage[..], ps, FindFrom(ps, paramCode, i), tmp, currentOffset)
    }

    /** Reads the value at tmp and goes on to the next one. */
    method TakeValue(paramCode: nat, tmp: nat, ghost ps: seq<Param>, ghost i: nat)
      returns (value: seq<uint8>, next: Option<nat>)
      requires SearchAt(ps, paramCode, i, Some(tmp))
      modifies this`currentOffset
      ensures var j := FindFrom(ps, paramCode, i);
              j < |ps| && value == ps[j].data && SearchAt(ps, paramCode, j + 1, next)
    {
      ghost var j := FindFrom(ps, paramCode, i);
      FoundSays(coding, currentMessage[..], ps, j, Some(tmp), currentOffset);
      FoundOnlyWhenThere(coding, currentMessage[..], ps);
      hide Carries, Found, FindFrom, OffsetOf, ParamAt;
      value := ValueAt(tmp, ps[j]);
      next := GetNextParam(paramCode, ps, j + 1);
    }

    /** The value of the parameter that a search has found. */
    method ValueAt(tmp: nat, ghost p: Param) returns (value: seq<uint8>)
      requires currentMessage != null && ParamAt(coding, currentMessage[..], tmp, p)
      ensures value == p.data
    {
      var length := GetNumber(currentMessage, tmp + Width(coding), Width(coding));
      value := currentMessage[..][tmp + HeaderLength(coding)..tmp + HeaderLength(coding) + length];
    }

    /** GetParamWord: two bytes from the start of the value, those of the number if the value has as many. */
    method GetParamWord(paramCode: nat, ghost ps: seq<Param>) returns (param: Option<nat>)
      requires currentMessage != null && Carries(coding, currentMessage[..], ps)
      modifies this`currentOffset
      ensures var j := FindFrom(ps, paramCode, 0);
              && (param.Some? <==> j < |ps|)
              && (j < |ps| ==> param.value == WordAt(coding, currentMessage[..], ps, j))
              && (j < |ps| && 2 <= |ps[j].data| ==> param.value == FromLe(ps[j].data[..2]))
    {
      ghost var s := currentMessage[..];
      var tmp := GetParam(paramCode, ps);
      if tmp.None? {
        return None;
      }
      assert s == currentMessage[..];
      WordIn(coding, s, ps, FindFrom(ps, paramCode, 0));
      var word := GetNumber(currentMessage, tmp.value + HeaderLength(coding), 2);
      return Some(word);
    }

    // -------------------------------------------------------------- writing

    /** SetENDOfParams on a message that has no terminator yet. */
    method SetENDOfParams()
      requires newMessage != null && MSG_INFO + TERMINATOR <= newMessage.Length && InfoLength(newMessage[..]) == 0
      modifies newMessage
      ensures newMessage[..] == Ended(coding, old(newMessage[..]))
    {
      var info := GetNumber(newMessage, MSG_LENGTH, 2);
      SetNumber(newMessage, MSG_INFO + info, Width(coding), 0);
      SetNumber(newMessage, MSG_LENGTH, 2, info + TERMINATOR);
    }

    /** FindParamPlace: where a parameter with this code goes; an empty message gets its terminator first. */
    method FindParamPlace(paramCode: nat, ghost ps: seq<Param>) returns (tmp: nat)
      requires newMessage != null && Carries(coding, newMessage[..], ps) && MSG_INFO + TERMINATOR <= newMessage.Length
      modifies this`currentOffset, newMessage
      ensures IsClosed(coding, old(newMessage[..]), newMessage[..])
      ensures currentOffset == OffsetOf(coding, ps, PlaceFor(ps, paramCode)) && tmp == MSG_INFO + currentOffset
    {
      NoOffset(coding, ps);
      ClosedCarries(coding, newMessage[..], ps);
      hide Carries, OffsetOf, NumberAt, ParamAt, Ended, PlaceFor;
      var length := GetNumber(newMessage, MSG_LENGTH, 2);
      currentOffset := 0;
      if length == 0 {
        SetENDOfParams();
      }
      tmp := SearchPlace(paramCode, length, ps);
    }

    /** The loop of FindParamPlace. */
    method SearchPlace(paramCode: nat, ghost length: nat, ghost ps: seq<Param>) returns (tmp: nat)
      requires newMessage != null && Carries(coding, newMessage[..], ps) && currentOffset == 0
      requires InfoLength(newMessage[..]) == if length == 0 then TERMINATOR else length
      requires length == 0 ==> ps == []
      modifies this`currentOffset
      ensures currentOffset == OffsetOf(coding, ps, PlaceFor(ps, paramCode)) && tmp == MSG_INFO + currentOffset
    {
      NoOffset(coding, ps);
      hide Carries, OffsetOf, NumberAt, ParamAt, PlaceFor;
      ghost var s := newMessage[..];
      ghost var k := 0;
      StandsAt(coding, s, ps, 0);
      tmp := MSG_INFO;
      var code := GetNumber(newMessage, tmp, Width(coding));
      while code != 0
        invariant 0 <= k <= |ps| && Stands(coding, s, ps, k, currentOffset) && tmp == MSG_INFO + currentOffset
        invariant forall i :: 0 <= i < k ==> ps[i].code <= paramCode
        invariant code == (if k < |ps| then ps[k].code else 0) && s == newMessage[..]
        decreases |ps| - k
      {
        if code > paramCode {
          PlaceForIs(ps, paramCode, k);
          return tmp;
        }
        var n := GetNumber(newMessage, tmp + Width(coding), Width(coding));
        currentOffset := currentOffset + n + HeaderLength(coding);
        tmp := tmp + n + HeaderLength(coding);
        assert currentOffset < length;
        k := k + 1;
        StandsAt(coding, s, ps, k);
        code := GetNumber(newMessage, tmp, Width(coding));
      }
      PlaceForIs(ps, paramCode, k);
    }

    /** The part of AddParam behind the search. */
    method InsertAt(tmp: nat, paramCode: nat, param: seq<uint8>, ghost s: seq<uint8>, ghost ps: seq<Param>)
      requires newMessage != null && Fits(coding, s, ps, Param(paramCode, param)) && IsClosed(coding, s, newMessage[..])
      requires currentOffset == OffsetOf(coding, ps, PlaceFor(ps, paramCode)) && tmp == MSG_INFO + currentOffset
      modifies newMessage
      ensures OneMore(coding, s, newMessage[..], ps, Param(paramCode, param))
    {
      ghost var p, c := Param(paramCode, param), newMessage[..];
      ClosedFits(coding, s, c, ps, p);
      hide *;
      var message: array<uint8> := newMessage;
      var info := GetNumber(message, MSG_LENGTH, 2);
      var rest := info - currentOffset;
      WriteParam(coding, message, tmp, paramCode, param, rest);
      ghost var t := message[..];
      WroteKeepsLength(c, t, tmp, ParamBytes(coding, p) + c[tmp..tmp + rest]);
      var length := GetNumber(message, MSG_LENGTH, 2);
      SetNumber(message, MSG_LENGTH, 2, length + |param| + HeaderLength(coding));
      LengthIsWritten(coding, s, c, t, message[..], ps, p, tmp, rest);
    }

    /** AddParam, in place. */
    method AddParam(paramCode: nat, param: seq<uint8>, ghost ps: seq<Param>)
      requires newMessage != null && Fits(coding, newMessage[..], ps, Param(paramCode, param))
      modifies this`currentOffset, newMessage
      ensures OneMore(coding, old(newMessage[..]), newMessage[..], ps, Param(paramCode, param))
    {
      FitsSays(coding, newMessage[..], ps, Param(paramCode, param));
      hide *;
      ghost var s := newMessage[..];
      var tmp := FindParamPlace(paramCode, ps);
      InsertAt(tmp, paramCode, param, s, ps);
    }

    /** AddParamWord on a little-endian host: the value's two bytes. */
    method AddParamWord(paramCode: nat, param: uint16, ghost ps: seq<Param>)
      requires newMessage != null && Fits(coding, newMessage[..], ps, Param(paramCode, Le(2, param)))
      modifies this`currentOffset, newMessage
      ensures OneMore(coding, old(newMessage[..]), newMessage[..], ps, Param(paramCode, Le(2, param)))
    {
      AddParam(paramCode, Le(2, param), ps);
    }

    /** RemoveParam never removes: FindParamPlace has passed the parameters with this code, so the test behind it
        fails whatever the message is; all it may do is to add a missing terminator. */
    method RemoveParam(paramCode: nat, ghost ps: seq<Param>) returns (removed: bool)
      requires newMessage != null && Carries(coding, newMessage[..], ps) && MSG_INFO + TERMINATOR <= newMessage.Length
      requires paramCode != 0
      modifies this`currentOffset, newMessage
      ensures !removed && IsClosed(coding, old(newMessage[..]), newMessage[..])
    {
      removed := false;
      ClosedCarries(coding, newMessage[..], ps);
      hide Carries, OffsetOf, NumberAt, Ended;
      StandsAt(coding, Closed(coding, newMessage[..]), ps, PlaceFor(ps, paramCode));
      var tmp := FindParamPlace(paramCode, ps);
      var code := GetNumber(newMessage, tmp, Width(coding));
      if code != paramCode {
        return;
      }
      assert false;
    }
  }

  lemma NoOffset(coding: Coding, ps: seq<Param>)
    ensures OffsetOf(coding, ps, 0) == 0
  {
    assert ps[..0] == [];
  }

  lemma PlaceForIs(ps: seq<Param>, code: nat, k: nat)
    requires k <= |ps| && (forall i :: 0 <= i < k ==> ps[i].code <= code) && (k < |ps| ==> code < ps[k].code)
    ensures PlaceFor(ps, code) == k
  {
  }

  /** The number in the two bytes behind the header of parameter j. */
  ghost function WordAt(coding: Coding, s: seq<uint8>, ps: seq<Param>, j: nat): nat
    requires j < |ps|
  {
    NumberAt(s, 2, MSG_INFO + OffsetOf(coding, ps, j) + HeaderLength(coding))
  }

  /** They are within the message, behind a short value at the latest in the terminator. */
  lemma WordIn(coding: Coding, s: seq<uint8>, ps: seq<Param>, j: nat)
    requires Carries(coding, s, ps) && j < |ps|
    ensures MSG_INFO + OffsetOf(coding, ps, j) + HeaderLength(coding) + 2 <= |s|
    ensures 2 <= |ps[j].data| ==> WordAt(coding, s, ps, j) == FromLe(ps[j].data[..2])
  {
    ReadAt(coding, s, ps, j);
    hide Carries, Representable, Body;
    var at := MSG_INFO + OffsetOf(coding, ps, j) + HeaderLength(coding);
    if 2 <= |ps[j].data| {
      SliceOfSlice(s, at, at + |ps[j].data|, 0, 2);
      assert ps[j].data[0..2] == ps[j].data[..2];
    }
  }

  lemma FoundSays(coding: Coding, s: seq<uint8>, ps: seq<Param>, j: nat, tmp: Option<nat>, offset: nat)
    requires j <= |ps| && Found(coding, s, ps, j, tmp, offset)
    ensures tmp.Some? <==> j < |ps|
    ensures j < |ps| ==> ParamAt(coding, s, tmp.value, ps[j]) && offset == OffsetOf(coding, ps, j + 1)
    ensures j == |ps| ==> offset == 0
  {
  }

  /** What has been collected when the search stands at parameter i. */
  ghost predicate Collected(values: seq<seq<uint8>>, ps: seq<Param>, code: nat, i: nat)
    requires i <= |ps|
  {
    values + Visited(ps, code, i) == Values(ps, code)
  }

  lemma CollectStarts(ps: seq<Param>, code: nat)
    ensures Collected([], ps, code, 0)
  {
    VisitedIsValues(ps, code, 0);
    assert ps[0..] == ps && [] + Values(ps, code) == Values(ps, code);
  }

  lemma CollectStep(values: seq<seq<uint8>>, ps: seq<Param>, code: nat, i: nat)
    requires i <= |ps| && Collected(values, ps, code, i)
    ensures var j := FindFrom(ps, code, i);
            if j < |ps| then Collected(values + [ps[j].data], ps, code, j + 1) else values == Values(ps, code)
  {
    var j := FindFrom(ps, code, i);
    VisitedFrom(ps, code, i);
    if j < |ps| {
      Regroup(values, [ps[j].data], Visited(ps, code, j + 1));
    } else {
      assert values + [] == values;
    }
  }

  lemma FoundOnlyWhenThere(coding: Coding, s: seq<uint8>, ps: seq<Param>)
    requires Carries(coding, s, ps)
    ensures InfoLength(s) == 0 ==> ps == []
  {
  }

  /** An input on which a failing search does not reset the cursor: a message without parameters, and a cursor that an
      earlier message has left at 7. */
  method StaleCursor() returns (tmp: Option<nat>, cursor: nat)
    ensures tmp == None && cursor == 7
  {
    var codec := new StandardMessage(Pc16);
    codec.currentMessage := new uint8[MSG_INFO](_ => 0);
    codec.currentOffset := 7;
    EmptyMessage(codec.coding, codec.currentMessage[..]);
    tmp := codec.GetNextParam(5, [], 0);
    cursor := codec.currentOffset;
  }

  lemma EmptyMessage(coding: Coding, s: seq<uint8>)
    requires MSG_INFO <= |s| && s[MSG_LENGTH] == s[MSG_LENGTH + 1] == 0
    ensures InfoLength(s) == 0 && Carries(coding, s, [])
  {
    var bytes := s[MSG_LENGTH..MSG_INFO];
    assert FromLe(bytes[1..]) == 0;
  }

  /** What AddParam needs of the message once it has its terminator. */
  lemma ClosedFits(coding: Coding, s: seq<uint8>, c: seq<uint8>, ps: seq<Param>, p: Param)
    requires Fits(coding, s, ps, p) && IsClosed(coding, s, c)
    ensures |c| == |s| && OffsetOf(coding, ps, PlaceFor(ps, p.code)) <= InfoLength(c)
    ensures MSG_INFO + InfoLength(c) + |ParamBytes(coding, p)| <= |c|
  {
    ClosedCarries(coding, s, ps);
    PlaceIsInside(coding, c, ps, p.code);
  }

  lemma FitsSays(coding: Coding, s: seq<uint8>, ps: seq<Param>, p: Param)
    requires Fits(coding, s, ps, p)
    ensures Carries(coding, s, ps) && MSG_INFO + TERMINATOR <= |s|
  {
  }

  lemma WroteKeepsLength(s: seq<uint8>, t: seq<uint8>, at: nat, bytes: seq<uint8>)
    requires Wrote(s, t, at, bytes) && MSG_INFO <= at
    ensures InfoLength(t) == InfoLength(s) && |t| == |s|
  {
    OverwriteSlice(s, at, bytes, MSG_LENGTH, MSG_INFO);
  }

  lemma LengthIsWritten(coding: Coding, s: seq<uint8>, c: seq<uint8>, t: seq<uint8>, r: seq<uint8>, ps: seq<Param>,
                        p: Param, tmp: nat, rest: nat)
    requires Fits(coding, s, ps, p) && IsClosed(coding, s, c)
    requires tmp == MSG_INFO + OffsetOf(coding, ps, PlaceFor(ps, p.code)) && tmp + rest == MSG_INFO + InfoLength(c)
    requires tmp + rest + |ParamBytes(coding, p)| <= |c|
    requires Wrote(c, t, tmp, ParamBytes(coding, p) + c[tmp..tmp + rest])
    requires Wrote(t, r, MSG_LENGTH, Le(2, InfoLength(c) + |p.data| + HeaderLength(coding)))
    ensures OneMore(coding, s, r, ps, p)
  {
    hide Wrote, ParamBytes, Le, OffsetOf, PlaceFor, Fits, IsClosed, OneMore, InfoLength;
    assert InfoLength(c) + |p.data| + HeaderLength(coding) == InfoLength(c) + |ParamBytes(coding, p)|;
    AddParamWorks(coding, s, c, t, r, ps, p);
  }

  /** What a search that comes to parameter j (to the end if j is none) answers, and where it leaves the cursor. */
  ghost predicate Found(coding: Coding, s: seq<uint8>, ps: seq<Param>, j: nat, tmp: Option<nat>, offset: nat)
    requires j <= |ps|
  {
    if j < |ps| then
      && tmp == Some(MSG_INFO + OffsetOf(coding, ps, j)) && ParamAt(coding, s, tmp.value, ps[j])
      && offset == OffsetOf(coding, ps, j + 1)
    else tmp == None && offset == 0
  }

  /** The writes of AddParam between the search and the new length: the rest moves up ... */
  method WriteParam(coding: Coding, message: array<uint8>, tmp: nat, paramCode: nat, param: seq<uint8>, rest: nat)
    requires tmp + HeaderLength(coding) + |param| + rest <= message.Length
    modifies message
    ensures Wrote(old(message[..]), message[..], tmp,
                  ParamBytes(coding, Param(paramCode, param)) + old(message[..])[tmp..tmp + rest])
  {
    ghost var s, bytes := message[..], ParamBytes(coding, Param(paramCode, param));
    ghost var moved := s[tmp..tmp + rest];
    var mid := tmp + HeaderLength(coding) + |param|;
    hide Overwrite, Wrote;
    MemMove(message, mid, tmp, rest);
    ghost var t := message[..];
    PutParam(coding, message, tmp, paramCode, param);
    WroteBefore(s, t, message[..], tmp, mid, bytes, moved);
  }

  /** ... and the parameter goes in. */
  method PutParam(coding: Coding, message: array<uint8>, tmp: nat, paramCode: nat, param: seq<uint8>)
    requires tmp + HeaderLength(coding) + |param| <= message.Length
    modifies message
    ensures Wrote(old(message[..]), message[..], tmp, ParamBytes(coding, Param(paramCode, param)))
  {
    var w := Width(coding);
    ghost var s, a, b := message[..], Le(w, paramCode), Le(w, |param|);
    hide Overwrite, Wrote, Le;
    SetNumber(message, tmp, w, paramCode);
    ghost var t := message[..];
    SetNumber(message, tmp + w, w, |param|);
    ghost var u := message[..];
    WroteThen(s, t, u, tmp, tmp + w, a, b);
    CopyIn(message, tmp + HeaderLength(coding), param);
    WroteThen(s, u, message[..], tmp, tmp + HeaderLength(coding), a + b, param);
  }

  /** What a search reads at offset `offset` of the parameter area, where parameter k begins. */
  ghost predicate Stands(coding: Coding, s: seq<uint8>, ps: seq<Param>, k: nat, offset: nat) {
    && k <= |ps| && offset == OffsetOf(coding, ps, k) && offset + TERMINATOR <= InfoLength(s)
    && MSG_INFO + InfoLength(s) <= |s|
    && NumberAt(s, Width(coding), MSG_INFO + offset) == (if k < |ps| then ps[k].code else 0)
    && (k < |ps| ==>
          && ps[k].code != 0 && NumberAt(s, Width(coding), MSG_INFO + offset + Width(coding)) == |ps[k].data|
          && ParamAt(coding, s, MSG_INFO + offset, ps[k])
          && OffsetOf(coding, ps, k + 1) == offset + HeaderLength(coding) + |ps[k].data|
          && OffsetOf(coding, ps, k + 1) + TERMINATOR <= InfoLength(s))
  }

  lemma StandsAt(coding: Coding, s: seq<uint8>, ps: seq<Param>, k: nat)
    requires Carries(coding, s, ps) && InfoLength(s) != 0 && k <= |ps|
    ensures Stands(coding, s, ps, k, OffsetOf(coding, ps, k))
  {
    if k < |ps| {
      ReadAt(coding, s, ps, k);
    } else {
      ReadEnd(coding, s, ps);
      hide *;
    }
  }
}
