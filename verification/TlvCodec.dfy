/** stdMsg_pc8_pl8 and stdMsg_pc16_pl16 (Kernel/standardMsg.cpp, Kernel/stdMsgpc16pl16.cpp). */
module TlvCodec {
  import opened Buffers
  import opened Sequences
  import opened TlvSpec
  import opened TlvBytes

  /** The info length with which `s` is closed. */
  function WithLength(s: seq<uint8>, info: nat): seq<uint8>
    requires MSG_INFO <= |s|
  {
    Overwrite(s, MSG_LENGTH, Le(2, info))
  }

  lemma LengthRead(s: seq<uint8>, info: nat)
    requires MSG_INFO <= |s| && info < 0x1_0000
    ensures InfoLength(WithLength(s, info)) == info
  {
    OverwriteSlice(s, MSG_LENGTH, Le(2, info), MSG_LENGTH, MSG_INFO);
    NumberRead(Pc16, info);
  }

  lemma LengthLeaves(s: seq<uint8>, info: nat, i: nat, j: nat)
    requires MSG_INFO <= |s| && i <= j <= |s| && (j <= MSG_LENGTH || MSG_INFO <= i)
    ensures WithLength(s, info)[i..j] == s[i..j] && (j == |s| ==> WithLength(s, info)[i..] == s[i..])
  {
    OverwriteSlice(s, MSG_LENGTH, Le(2, info), i, j);
  }

  /** SetENDOfParams on a message without parameters; in pc8 the second byte stays what it was. */
  function Ended(coding: Coding, s: seq<uint8>): (r: seq<uint8>)
    requires MSG_INFO + TERMINATOR <= |s|
    ensures |r| == |s|
  {
    WithLength(Overwrite(s, MSG_INFO, Le(Width(coding), 0)), TERMINATOR)
  }

  lemma EndedCarriesNothing(coding: Coding, s: seq<uint8>)
    requires MSG_INFO + TERMINATOR <= |s|
    ensures Carries(coding, Ended(coding, s), []) && InfoLength(Ended(coding, s)) == TERMINATOR
    ensures Ended(coding, s)[..MSG_LENGTH] == s[..MSG_LENGTH]
    ensures Ended(coding, s)[MSG_INFO + TERMINATOR..] == s[MSG_INFO + TERMINATOR..]
  {
    var zero := Le(Width(coding), 0);
    var o := Overwrite(s, MSG_INFO, zero);
    LengthRead(o, TERMINATOR);
    LengthLeaves(o, TERMINATOR, 0, MSG_LENGTH);
    LengthLeaves(o, TERMINATOR, MSG_INFO, MSG_INFO + TERMINATOR);
    LengthLeaves(o, TERMINATOR, MSG_INFO + TERMINATOR, |s|);
    OverwriteSlice(s, MSG_INFO, zero, 0, MSG_LENGTH);
    OverwriteSlice(s, MSG_INFO, zero, MSG_INFO + TERMINATOR, |s|);
    var t := Ended(coding, s)[MSG_INFO..MSG_INFO + TERMINATOR];
    assert EndsParams(coding, t) by {
      OverwriteAt(s, MSG_INFO, zero, MSG_INFO);
      OverwriteAt(s, MSG_INFO, zero, MSG_INFO + 1);
      assert t[0] == o[MSG_INFO] && t[1] == o[MSG_INFO + 1];
    }
    assert Ended(coding, s) == WithLength(o, TERMINATOR);
    hide Overwrite, WithLength, Ended, EndsParams;
    BodyFrom(coding, Ended(coding, s), [], t);
  }

  /** There is room for one more parameter, and the length field can hold the new length. */
  ghost predicate Fits(coding: Coding, s: seq<uint8>, ps: seq<Param>, p: Param) {
    && Carries(coding, s, ps) && Representable(coding, p)
    && var info := (if InfoLength(s) == 0 then TERMINATOR else InfoLength(s)) + |ParamBytes(coding, p)|;
       info < 0x1_0000 && MSG_INFO + info <= |s|
  }

  lemma PlaceIsInside(coding: Coding, s: seq<uint8>, ps: seq<Param>, code: nat)
    requires Carries(coding, s, ps) && InfoLength(s) != 0
    ensures OffsetOf(coding, ps, PlaceFor(ps, code)) + TERMINATOR <= InfoLength(s)
  {
    var k := PlaceFor(ps, code);
    assert ps == ps[..k] + ps[k..];
    EncodeSplits(coding, ps[..k], ps[k..]);
  }

  lemma EncodeAdded(coding: Coding, ps: seq<Param>, p: Param)
    ensures var k := PlaceFor(ps, p.code);
            && Encode(coding, ps) == Encode(coding, ps[..k]) + Encode(coding, ps[k..])
            && Encode(coding, Added(ps, p)) == Encode(coding, ps[..k]) + ParamBytes(coding, p) + Encode(coding, ps[k..])
  {
    var k := PlaceFor(ps, p.code);
    assert ps == ps[..k] + ps[k..];
    EncodeSplits(coding, ps[..k], ps[k..]);
    EncodeSplits(coding, ps[..k], [p]);
    EncodeOne(coding, p);
    EncodeSplits(coding, ps[..k] + [p], ps[k..]);
  }

  /** The bytes that AddParam writes are the encoding with the parameter added, and the same terminator. */
  lemma MovedBytes(s: seq<uint8>, at: nat, end: nat, a: seq<uint8>, b: seq<uint8>, c: seq<uint8>)
    requires MSG_INFO + |a| == at && at + |c| == end && end + |b| <= |s|
    requires s[MSG_INFO..end] == a + c
    ensures Overwrite(s, at, b + s[at..end])[MSG_INFO..end + |b|] == a + b + c
  {
    var moved := b + s[at..end];
    SliceOfSlice(s, MSG_INFO, end, at - MSG_INFO, end - MSG_INFO);
    SliceOfSlice(s, MSG_INFO, end, 0, at - MSG_INFO);
    assert s[at..end] == c && s[MSG_INFO..at] == a;
    OverwriteSlice(s, at, moved, MSG_INFO, at);
    OverwriteSlice(s, at, moved, at, end + |b|);
    Joins(Overwrite(s, at, moved), MSG_INFO, at, end + |b|);
    hide Overwrite;
    Regroup(a, b, c);
  }

  lemma Joins<T>(s: seq<T>, i: nat, j: nat, k: nat)
    requires i <= j <= k <= |s|
    ensures s[i..k] == s[i..j] + s[j..k]
  {
  }

  /** From s to t, b has been put in at `at` in front of the rest of the message; from t to r, the new length. */
  ghost predicate Spliced(s: seq<uint8>, t: seq<uint8>, r: seq<uint8>, at: nat, b: seq<uint8>) {
    && MSG_INFO <= at <= MSG_INFO + InfoLength(s) && MSG_INFO + InfoLength(s) + |b| <= |s|
    && Wrote(s, t, at, b + s[at..MSG_INFO + InfoLength(s)])
    && Wrote(t, r, MSG_LENGTH, Le(2, InfoLength(s) + |b|))
  }

  lemma SplicedBytes(s: seq<uint8>, t: seq<uint8>, r: seq<uint8>, at: nat, a: seq<uint8>, b: seq<uint8>, c: seq<uint8>)
    requires Spliced(s, t, r, at, b)
    requires MSG_INFO + |a| == at && |a| + |c| == InfoLength(s)
    requires s[MSG_INFO..MSG_INFO + InfoLength(s)] == a + c && InfoLength(s) + |b| < 0x1_0000
    ensures var end := MSG_INFO + InfoLength(s) + |b|;
            |r| == |s| && r[MSG_INFO..end] == a + b + c && MSG_INFO + InfoLength(r) == end
  {
    var end := MSG_INFO + InfoLength(s);
    MovedBytes(s, at, end, a, b, c);
    hide Overwrite;
    LengthRead(t, InfoLength(s) + |b|);
    LengthLeaves(t, InfoLength(s) + |b|, MSG_INFO, end + |b|);
  }

  lemma SplicedOutside(s: seq<uint8>, t: seq<uint8>, r: seq<uint8>, at: nat, b: seq<uint8>)
    requires Spliced(s, t, r, at, b)
    ensures var end := MSG_INFO + InfoLength(s) + |b|;
            |r| == |s| && r[..MSG_LENGTH] == s[..MSG_LENGTH] && r[end..] == s[end..]
  {
    var end := MSG_INFO + InfoLength(s);
    var moved := b + s[at..end];
    OverwriteSlice(s, at, moved, 0, MSG_LENGTH);
    OverwriteSlice(s, at, moved, end + |b|, |s|);
    hide Overwrite;
    LengthLeaves(t, InfoLength(s) + |b|, 0, MSG_LENGTH);
    LengthLeaves(t, InfoLength(s) + |b|, end + |b|, |s|);
  }

  lemma AddedIsRepresentable(coding: Coding, ps: seq<Param>, p: Param)
    requires (forall i :: 0 <= i < |ps| ==> Representable(coding, ps[i])) && Representable(coding, p)
    ensures forall i :: 0 <= i < |Added(ps, p)| ==> Representable(coding, Added(ps, p)[i])
  {
    forall i | 0 <= i < |Added(ps, p)| ensures Representable(coding, Added(ps, p)[i]) {
      AddedAt(ps, p, i);
    }
  }

  /** The splice where FindParamPlace points, with the parameter's bytes. */
  ghost predicate ParamSpliced(coding: Coding, s: seq<uint8>, t: seq<uint8>, r: seq<uint8>, ps: seq<Param>, p: Param) {
    Spliced(s, t, r, MSG_INFO + OffsetOf(coding, ps, PlaceFor(ps, p.code)), ParamBytes(coding, p))
  }

  /** Main theorem of AddParam: the message carries the old parameters with the new one behind all codes that are
      not greater; the header outside the length field, the terminator's bytes and everything behind the message
      are as before. */
  lemma SplicedCarriesAdded(coding: Coding, s: seq<uint8>, t: seq<uint8>, r: seq<uint8>, ps: seq<Param>, p: Param)
    requires Fits(coding, s, ps, p) && InfoLength(s) != 0 && ParamSpliced(coding, s, t, r, ps, p)
    ensures var end := MSG_INFO + InfoLength(s);
            var end' := MSG_INFO + InfoLength(r);
            && |r| == |s| && Carries(coding, r, Added(ps, p)) && end' == end + |ParamBytes(coding, p)| <= |r|
            && r[..MSG_LENGTH] == s[..MSG_LENGTH]
            && r[end' - TERMINATOR..end'] == s[end - TERMINATOR..end] && r[end'..] == s[end'..]
  {
    var end := MSG_INFO + InfoLength(s);
    var tail := s[end - TERMINATOR..end];
    ParamSplicedBytes(coding, s, t, r, ps, p);
    WholeBody(coding, s, ps);
    AddedIsRepresentable(coding, ps, p);
    EncodeAdded(coding, ps, p);
    assert InfoLength(s) == |Encode(coding, ps)| + TERMINATOR;
    hide ParamSpliced, Body, Encode, Added, ParamBytes, EndsParams, Representable, PlaceFor;
    BodyFrom(coding, r, Added(ps, p), tail);
  }

  lemma WholeBody(coding: Coding, s: seq<uint8>, ps: seq<Param>)
    requires Carries(coding, s, ps) && InfoLength(s) != 0
    ensures var end := MSG_INFO + InfoLength(s);
            var t := s[end - TERMINATOR..end];
            s[MSG_INFO..end] == Encode(coding, ps) + t && EndsParams(coding, t)
  {
  }

  lemma ParamSplicedBytes(coding: Coding, s: seq<uint8>, t: seq<uint8>, r: seq<uint8>, ps: seq<Param>, p: Param)
    requires Fits(coding, s, ps, p) && InfoLength(s) != 0 && ParamSpliced(coding, s, t, r, ps, p)
    ensures var end := MSG_INFO + InfoLength(s);
            var end' := MSG_INFO + InfoLength(r);
            && |r| == |s| && end' == end + |ParamBytes(coding, p)| && end' <= |r|
            && r[MSG_INFO..end'] == Encode(coding, Added(ps, p)) + s[end - TERMINATOR..end]
            && r[..MSG_LENGTH] == s[..MSG_LENGTH] && r[end'..] == s[end'..]
  {
    var k := PlaceFor(ps, p.code);
    var b := ParamBytes(coding, p);
    var tail := s[MSG_INFO + InfoLength(s) - TERMINATOR..MSG_INFO + InfoLength(s)];
    var first, rest := Encode(coding, ps[..k]), Encode(coding, ps[k..]);
    WholeBody(coding, s, ps);
    EncodeAdded(coding, ps, p);
    hide *;
    Regroup(first, rest, tail);
    Regroup(first + b, rest, tail);
    SplicedBytes(s, t, r, MSG_INFO + |first|, first, b, rest + tail);
    SplicedOutside(s, t, r, MSG_INFO + |first|, b);
  }

  lemma BodyFrom(coding: Coding, r: seq<uint8>, ps: seq<Param>, t: seq<uint8>)
    requires MSG_INFO + InfoLength(r) <= |r| && InfoLength(r) == |Encode(coding, ps)| + TERMINATOR
    requires r[MSG_INFO..MSG_INFO + InfoLength(r)] == Encode(coding, ps) + t && EndsParams(coding, t)
    ensures Body(coding, r, ps)
    ensures r[MSG_INFO + InfoLength(r) - TERMINATOR..MSG_INFO + InfoLength(r)] == t
  {
    var n := |Encode(coding, ps)|;
    SliceOfSlice(r, MSG_INFO, MSG_INFO + InfoLength(r), 0, n);
    SliceOfSlice(r, MSG_INFO, MSG_INFO + InfoLength(r), n, n + TERMINATOR);
  }

  /** The message with its terminator. */
  function Closed(coding: Coding, s: seq<uint8>): (r: seq<uint8>)
    requires MSG_INFO + TERMINATOR <= |s|
  {
    if InfoLength(s) == 0 then Ended(coding, s) else s
  }

  lemma ClosedCarries(coding: Coding, s: seq<uint8>, ps: seq<Param>)
    requires MSG_INFO + TERMINATOR <= |s| && Carries(coding, s, ps)
    ensures Carries(coding, Closed(coding, s), ps) && |Closed(coding, s)| == |s|
    ensures InfoLength(Closed(coding, s)) == if InfoLength(s) == 0 then TERMINATOR else InfoLength(s)
    ensures Closed(coding, s)[..MSG_LENGTH] == s[..MSG_LENGTH]
    ensures Closed(coding, s)[MSG_INFO + TERMINATOR..] == s[MSG_INFO + TERMINATOR..]
  {
    EndedCarriesNothing(coding, s);
  }

  /** `r` is `s` with parameter p added: no other header byte and no byte behind the message has changed. */
  ghost predicate OneMore(coding: Coding, s: seq<uint8>, r: seq<uint8>, ps: seq<Param>, p: Param) {
    var end := MSG_INFO + InfoLength(r);
    && |r| == |s| && MSG_INFO <= end <= |s| && Carries(coding, r, Added(ps, p))
    && InfoLength(r) == (if InfoLength(s) == 0 then TERMINATOR else InfoLength(s)) + |ParamBytes(coding, p)|
    && r[..MSG_LENGTH] == s[..MSG_LENGTH] && r[end..] == s[end..]
  }

  lemma AddParamWorks(coding: Coding, s: seq<uint8>, c: seq<uint8>, t: seq<uint8>, r: seq<uint8>, ps: seq<Param>,
                      p: Param)
    requires Fits(coding, s, ps, p) && IsClosed(coding, s, c) && ParamSpliced(coding, c, t, r, ps, p)
    ensures OneMore(coding, s, r, ps, p)
  {
    ClosedCarries(coding, s, ps);
    SplicedCarriesAdded(coding, c, t, r, ps, p);
    hide IsClosed, Closed, ParamSpliced, Carries, Representable, Added, InfoLength;
    SameTail(c, s, MSG_INFO + TERMINATOR, MSG_INFO + InfoLength(r));
  }

  lemma SameTail<T>(a: seq<T>, b: seq<T>, i: nat, j: nat)
    requires |a| == |b| && i <= j <= |a| && a[i..] == b[i..]
    ensures a[j..] == b[j..]
  {
    assert a[i..][j - i..] == a[j..] && b[i..][j - i..] == b[j..];
  }

  ghost predicate IsClosed(coding: Coding, s: seq<uint8>, c: seq<uint8>) {
    MSG_INFO + TERMINATOR <= |s| && c == Closed(coding, s)
  }

  /** Which lists can a message carry at all?  What the fields can hold, and nothing else; in particular nothing
      fits that AddParam would have to cut short. */
  lemma CanBeCarried(coding: Coding, ps: seq<Param>)
    ensures (exists s :: Carries(coding, s, ps))
            <==> (forall i :: 0 <= i < |ps| ==> Representable(coding, ps[i]))
                 && |Encode(coding, ps)| + TERMINATOR < 0x1_0000
  {
    if s :| Carries(coding, s, ps) {
      LengthFits(s);
    }
    if (forall i :: 0 <= i < |ps| ==> Representable(coding, ps[i])) && |Encode(coding, ps)| + TERMINATOR < 0x1_0000 {
      var info := Encode(coding, ps) + [0, 0];
      var header: seq<uint8> := seq(MSG_INFO, _ => 0);
      var s := WithLength(header + info, |info|);
      LengthRead(header + info, |info|);
      LengthLeaves(header + info, |info|, MSG_INFO, MSG_INFO + |info|);
      BodyFrom(coding, s, ps, [0, 0]);
      assert Carries(coding, s, ps);
    }
  }

  lemma LengthFits(s: seq<uint8>)
    ensures InfoLength(s) < 0x1_0000
  {
    if MSG_INFO <= |s| {
      var bytes := s[MSG_LENGTH..MSG_LENGTH + 2];
      assert FromLe(bytes[1..]) == bytes[1];
    }
  }
}
