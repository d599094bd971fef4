/** The message under construction and the buffer it grows in (Kernel/messages.cpp). */
module MessageHandlers {
  import opened Buffers
  import opened TlvSpec
  import opened TlvBytes
  import opened TlvCodec
  import opened StandardMessages

  const CODE_AT: nat := 4
  const CODING_AT: nat := 18

  /** The parameter can be added, given room: it is representable and the length field can hold the new length. */
  ghost predicate Addable(coding: Coding, s: seq<uint8>, ps: seq<Param>, p: Param) {
    && Carries(coding, s, ps) && Representable(coding, p)
    && (if InfoLength(s) == 0 then TERMINATOR else InfoLength(s)) + |ParamBytes(coding, p)| < 0x1_0000
  }

  /** The message in the buffer, without what lies behind it. */
  function Message(s: seq<uint8>): seq<uint8>
    requires MSG_INFO + InfoLength(s) <= |s|
  {
    s[..MSG_INFO + InfoLength(s)]
  }

  class MessageHandler {
    const codec: StandardMessage
    var newMessage: array?<uint8>
    /** The buffers that the handler has taken from the pool and not given back. */
    ghost var taken: set<array<uint8>>

    constructor (coding: Coding)
      ensures fresh(codec) && codec.coding == coding && newMessage == null && taken == {}
    {
      codec := new StandardMessage(coding);
      newMessage, taken := null, {};
    }

    /** Codec and handler work on the same buffer, which holds a message with these parameters and is all that has been
        taken from the pool. */
    ghost predicate Holds(ps: seq<Param>)
      reads this, codec, newMessage
    {
      && newMessage != null && codec.newMessage == newMessage && taken == {newMessage}
      && Carries(codec.coding, newMessage[..], ps)
    }

    /** TBuffers::GetBuffer, whatever the classes are: a buffer of at least this length with unspecified contents, or
        none when every class that is long enough is exhausted. */
    method GetBuffer(length: nat) returns (buff: array?<uint8>)
      modifies this`taken
      ensures buff != null ==> fresh(buff) && length <= buff.Length && taken == old(taken) + {buff}
      ensures buff == null ==> taken == old(taken)
    {
      var exhausted: bool, surplus: nat := *, *;
      if exhausted {
        return null;
      }
      buff := new uint8[length + surplus];
      taken := taken + {buff};
    }

    /** TBuffers::RetBuffer. */
    method RetBuffer(buff: array<uint8>)
      requires buff in taken
      modifies this`taken
      ensures taken == old(taken) - {buff}
    {
      taken := taken - {buff};
    }

    /** IsBufferSmall. */
    method IsBufferSmall(buff: array<uint8>, length: nat) returns (small: bool)
      ensures small <==> buff.Length <= length
    {
      return buff.Length <= length;
    }

    /** PrepareNewMessage: a message with this code and coding, and no parameters. */
    method PrepareNewMessage(length: nat, code: uint16, infoCoding: uint8) returns (ok: bool)
      requires newMessage == null && taken == {}
      modifies this`newMessage, this`taken, codec`newMessage
      ensures ok ==> Holds([]) && fresh(newMessage) && MSG_INFO + length <= newMessage.Length
                     && newMessage[CODING_AT] == infoCoding && NumberAt(newMessage[..], 2, CODE_AT) == code
      ensures !ok ==> newMessage == null && taken == {}
    {
      newMessage := GetBuffer(length + MSG_INFO);
      if newMessage == null {
        return false;
      }
      newMessage[CODING_AT] := infoCoding;
      ghost var a := newMessage[..];
      SetNumber(newMessage, CODE_AT, 2, code);
      ghost var b := newMessage[..];
      SetNumber(newMessage, MSG_LENGTH, 2, 0);
      HeaderWritten(codec.coding, a, b, newMessage[..], code);
      codec.newMessage := newMessage;
      return true;
    }

    /** CheckBufferSize: when the buffer is small the message moves, byte for byte, to a larger one, and the small one
        goes back to the pool. */
    method CheckBufferSize(paramLength: nat, ghost ps: seq<Param>) returns (ok: bool)
      requires Holds(ps)
      modifies this`newMessage, this`taken, codec`newMessage
      ensures Holds(ps) && (newMessage == old(newMessage) || fresh(newMessage))
      ensures Message(newMessage[..]) == Message(old(newMessage[..]))
      ensures ok ==> MSG_INFO + InfoLength(newMessage[..]) + paramLength + 8 < newMessage.Length
      ensures !ok ==> newMessage == old(newMessage)
      ensures MSG_INFO + InfoLength(old(newMessage[..])) + paramLength + 8 < old(newMessage.Length) ==>
                ok && newMessage == old(newMessage)
      ensures newMessage != old(newMessage) ==>
                MSG_INFO + InfoLength(newMessage[..]) + paramLength + 10 <= newMessage.Length
    {
      hide Carries, Overwrite;
      ghost var s := newMessage[..];
      CarriesHasLength(codec.coding, s, ps);
      var info := GetNumber(newMessage, MSG_LENGTH, 2);
      var small := IsBufferSmall(newMessage, info + MSG_INFO + paramLength + 8);
      if !small {
        return true;
      }
      var tmp := GetBuffer(info + MSG_INFO + paramLength + 10);
      if tmp == null {
        return false;
      }
      ghost var stale := tmp[..];
      CopyIn(tmp, 0, newMessage[..info + MSG_INFO]);
      MessageMoved(codec.coding, s, stale, tmp[..], ps);
      RetBuffer(newMessage);
      newMessage := tmp;
      codec.newMessage := newMessage;
      return true;
    }

    /** AddParam never writes past the buffer and loses no byte of the message: either the parameter is added or, when
        the pool is exhausted, nothing has changed. */
    method AddParam(paramCode: nat, param: seq<uint8>, ghost ps: seq<Param>) returns (ok: bool)
      requires Holds(ps) && Addable(codec.coding, newMessage[..], ps, Param(paramCode, param))
      modifies this`newMessage, this`taken, codec`newMessage, codec`currentOffset, newMessage
      ensures ok ==> Holds(Added(ps, Param(paramCode, param)))
                     && newMessage[..][..MSG_LENGTH] == old(newMessage[..])[..MSG_LENGTH]
      ensures !ok ==> newMessage == old(newMessage) && newMessage[..] == old(newMessage[..]) && Holds(ps)
    {
      hide Carries, InfoLength, Added;
      ghost var s := newMessage[..];
      ok := CheckBufferSize(|param|, ps);
      if !ok {
        return false;
      }
      ghost var t := newMessage[..];
      RoomMade(codec.coding, s, t, ps, Param(paramCode, param));
      codec.AddParam(paramCode, param, ps);
    }
  }

  lemma HeaderWritten(coding: Coding, a: seq<uint8>, b: seq<uint8>, c: seq<uint8>, code: uint16)
    requires MSG_INFO <= |a| && Wrote(a, b, CODE_AT, Le(2, code)) && Wrote(b, c, MSG_LENGTH, Le(2, 0))
    ensures NumberAt(c, 2, CODE_AT) == code && Carries(coding, c, []) && c[CODING_AT] == a[CODING_AT]
  {
    NumberRead(Pc16, code);
    OverwriteSlice(a, CODE_AT, Le(2, code), CODE_AT, CODE_AT + 2);
    OverwriteSlice(b, MSG_LENGTH, Le(2, 0), CODE_AT, CODE_AT + 2);
    LengthRead(b, 0);
    OverwriteAt(a, CODE_AT, Le(2, code), CODING_AT);
    OverwriteAt(b, MSG_LENGTH, Le(2, 0), CODING_AT);
  }

  lemma CarriesHasLength(coding: Coding, s: seq<uint8>, ps: seq<Param>)
    requires Carries(coding, s, ps)
    ensures MSG_INFO + InfoLength(s) <= |s|
  {
  }

  /** What a message carries depends on its own bytes only. */
  lemma MessageMoved(coding: Coding, s: seq<uint8>, stale: seq<uint8>, t: seq<uint8>, ps: seq<Param>)
    requires Carries(coding, s, ps) && Wrote(stale, t, 0, Message(s))
    ensures Carries(coding, t, ps) && InfoLength(t) == InfoLength(s) && Message(t) == Message(s)
  {
    var n := |Message(s)|;
    OverwriteSlice(stale, 0, Message(s), 0, n);
    assert t[..n] == s[..n];
    Prefix(s, t, n, MSG_LENGTH, MSG_INFO);
    if InfoLength(s) != 0 {
      var end := MSG_INFO + |Encode(coding, ps)|;
      Prefix(s, t, n, MSG_INFO, end);
      Prefix(s, t, n, end, end + TERMINATOR);
    }
  }

  lemma Prefix<T>(s: seq<T>, t: seq<T>, n: nat, i: nat, j: nat)
    requires i <= j <= n <= |s| && n <= |t| && s[..n] == t[..n]
    ensures s[i..j] == t[i..j]
  {
    assert s[..n][i..j] == s[i..j] && t[..n][i..j] == t[i..j];
  }

  /** Eight bytes beyond the parameter are enough for its header and, on an empty message, the terminator. */
  lemma RoomMade(coding: Coding, s: seq<uint8>, t: seq<uint8>, ps: seq<Param>, p: Param)
    requires Addable(coding, s, ps, p) && Carries(coding, t, ps) && Message(t) == Message(s)
    requires MSG_INFO + InfoLength(t) + |p.data| + 8 < |t|
    ensures Fits(coding, t, ps, p) && t[..MSG_LENGTH] == s[..MSG_LENGTH]
  {
    CarriesHasLength(coding, s, ps);
    CarriesHasLength(coding, t, ps);
    hide Carries, Representable, FromLe;
    var n := |Message(t)|;
    assert n == |Message(s)|;
    assert s[..n] == Message(s) && t[..n] == Message(t);
    Prefix(s, t, n, MSG_LENGTH, MSG_INFO);
    Prefix(s, t, n, 0, MSG_LENGTH);
  }
}
