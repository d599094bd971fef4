/** The parameter lists of the standard messages as values (Kernel/standardMsg.cpp, Kernel/stdMsgpc16pl16.cpp).

    Both codings are the same up to the width of code and length fields, which are little-endian. */
module TlvSpec {
  import opened Buffers
  import opened Sequences

  datatype Coding = Pc8 | Pc16

  datatype Param = Param(code: nat, data: seq<uint8>)

  const MSG_LENGTH: nat := 19
  const MSG_INFO: nat := 21
  const TERMINATOR: nat := 2

  /** PARAM_LENGTH_OFFSET: the width of the code, and of the length that follows it. */
  function Width(coding: Coding): nat {
    match coding
    case Pc8 => 1
    case Pc16 => 2
  }

  /** PARAM_HEADER_LENGTH. */
  function HeaderLength(coding: Coding): nat {
    2 * Width(coding)
  }

  /** One more than the largest code and length. */
  function Limit(coding: Coding): nat {
    match coding
    case Pc8 => 0x100
    case Pc16 => 0x1_0000
  }

  // ---------------------------------------------------------------- numbers

  function Le(width: nat, value: nat): (r: seq<uint8>)
    ensures |r| == width
  {
    if width == 0 then [] else [value % 0x100] + Le(width - 1, value / 0x100)
  }

  function FromLe(bytes: seq<uint8>): nat {
    if bytes == [] then 0 else bytes[0] + 0x100 * FromLe(bytes[1..])
  }

  function Power256(width: nat): nat {
    if width == 0 then 1 else 0x100 * Power256(width - 1)
  }

  /** Written and read back, a number loses exactly what does not fit. */
  lemma {:induction false} LeRoundTrip(width: nat, value: nat)
    ensures FromLe(Le(width, value)) == value <==> value < Power256(width)
    ensures FromLe(Le(width, value)) < Power256(width)
  {
    if width != 0 {
      LeRoundTrip(width - 1, value / 0x100);
      assert Le(width, value)[1..] == Le(width - 1, value / 0x100);
    }
  }

  // ---------------------------------------------------------------- messages

  predicate Representable(coding: Coding, p: Param) {
    1 <= p.code < Limit(coding) && |p.data| < Limit(coding)
  }

  function ParamBytes(coding: Coding, p: Param): (r: seq<uint8>)
    ensures |r| == HeaderLength(coding) + |p.data|
  {
    Le(Width(coding), p.code) + Le(Width(coding), |p.data|) + p.data
  }

  function Encode(coding: Coding, ps: seq<Param>): seq<uint8> {
    if ps == [] then [] else ParamBytes(coding, ps[0]) + Encode(coding, ps[1..])
  }

  /** The number at offset `at`; beyond the end, nothing is read. */
  function NumberAt(s: seq<uint8>, width: nat, at: nat): nat {
    if at + width <= |s| then FromLe(s[at..at + width]) else 0
  }

  function InfoLength(s: seq<uint8>): nat {
    NumberAt(s, 2, MSG_LENGTH)
  }

  /** One zero byte ends the parameters in pc8 (the second byte counts but is not looked at), two do in pc16. */
  predicate EndsParams(coding: Coding, t: seq<uint8>) {
    |t| == TERMINATOR && t[0] == 0 && (coding == Pc16 ==> t[1] == 0)
  }

  /** The message `s` (and whatever follows it in its buffer) consists of the parameters `ps`. */
  ghost predicate Carries(coding: Coding, s: seq<uint8>, ps: seq<Param>) {
    && (forall i :: 0 <= i < |ps| ==> Representable(coding, ps[i]))
    && MSG_INFO + InfoLength(s) <= |s|
    && if InfoLength(s) == 0 then ps == [] else Body(coding, s, ps)
  }

  ghost predicate Body(coding: Coding, s: seq<uint8>, ps: seq<Param>) {
    var end := MSG_INFO + |Encode(coding, ps)|;
    && InfoLength(s) == |Encode(coding, ps)| + TERMINATOR && end + TERMINATOR <= |s|
    && s[MSG_INFO..end] == Encode(coding, ps) && EndsParams(coding, s[end..end + TERMINATOR])
  }

  // ---------------------------------------------------------------- where parameters are

  lemma {:induction false} EncodeSplits(coding: Coding, a: seq<Param>, b: seq<Param>)
    ensures Encode(coding, a + b) == Encode(coding, a) + Encode(coding, b)
  {
    if a == [] {
      assert a + b == b;
    } else {
      assert (a + b)[1..] == a[1..] + b;
      EncodeSplits(coding, a[1..], b);
    }
  }

  /** The offset of parameter i in the parameter area. */
  function OffsetOf(coding: Coding, ps: seq<Param>, i: nat): nat
    requires i <= |ps|
  {
    |Encode(coding, ps[..i])|
  }

  lemma EncodeOne(coding: Coding, p: Param)
    ensures Encode(coding, [p]) == ParamBytes(coding, p)
  {
    assert Encode(coding, [p][1..]) == [];
  }

  lemma EncodeAt(coding: Coding, ps: seq<Param>, i: nat)
    requires i < |ps|
    ensures Encode(coding, ps[..i + 1]) == Encode(coding, ps[..i]) + ParamBytes(coding, ps[i])
    ensures Encode(coding, ps) == Encode(coding, ps[..i + 1]) + Encode(coding, ps[i + 1..])
  {
    assert ps[..i + 1] == ps[..i] + [ps[i]] && ps == ps[..i + 1] + ps[i + 1..];
    EncodeSplits(coding, ps[..i], [ps[i]]);
    EncodeSplits(coding, ps[..i + 1], ps[i + 1..]);
    EncodeOne(coding, ps[i]);
  }

  lemma OffsetStep(coding: Coding, ps: seq<Param>, i: nat)
    requires i < |ps|
    ensures OffsetOf(coding, ps, i + 1) == OffsetOf(coding, ps, i) + HeaderLength(coding) + |ps[i].data|
    ensures OffsetOf(coding, ps, i + 1) <= |Encode(coding, ps)|
    ensures Encode(coding, ps)[OffsetOf(coding, ps, i)..OffsetOf(coding, ps, i + 1)] == ParamBytes(coding, ps[i])
  {
    EncodeAt(coding, ps, i);
    Middle(Encode(coding, ps[..i]), ParamBytes(coding, ps[i]), Encode(coding, ps[i + 1..]));
  }

  lemma Middle<T>(a: seq<T>, b: seq<T>, c: seq<T>)
    ensures (a + b + c)[|a|..|a + b|] == b
  {
  }

  lemma SliceOfSlice<T>(s: seq<T>, from: nat, to: nat, i: nat, j: nat)
    requires from <= to <= |s| && i <= j <= to - from
    ensures s[from..to][i..j] == s[from + i..from + j]
  {
    var part := s[from..to];
    forall k | 0 <= k < j - i ensures part[i..j][k] == s[from + i..from + j][k] {
      assert part[i..j][k] == part[i + k] == s[from + (i + k)];
    }
  }

  ghost predicate ParamAt(coding: Coding, s: seq<uint8>, at: nat, p: Param) {
    && at + HeaderLength(coding) + |p.data| <= |s|
    && NumberAt(s, Width(coding), at) == p.code
    && NumberAt(s, Width(coding), at + Width(coding)) == |p.data|
    && s[at + HeaderLength(coding)..at + HeaderLength(coding) + |p.data|] == p.data
  }

  lemma NumberRead(coding: Coding, value: nat)
    requires value < Limit(coding)
    ensures FromLe(Le(Width(coding), value)) == value
  {
    LeRoundTrip(Width(coding), value);
    assert Power256(1) == 0x100 && Power256(2) == 0x100 * Power256(1);
  }

  lemma ReadParam(coding: Coding, s: seq<uint8>, at: nat, p: Param)
    requires Representable(coding, p) && at + |ParamBytes(coding, p)| <= |s|
    requires s[at..at + |ParamBytes(coding, p)|] == ParamBytes(coding, p)
    ensures ParamAt(coding, s, at, p)
  {
    var w := Width(coding);
    var to := at + |ParamBytes(coding, p)|;
    NumberRead(coding, p.code);
    NumberRead(coding, |p.data|);
    SliceOfSlice(s, at, to, 0, w);
    SliceOfSlice(s, at, to, w, w + w);
    SliceOfSlice(s, at, to, w + w, to - at);
    ThreeParts(Le(w, p.code), Le(w, |p.data|), p.data);
  }

  lemma ThreeParts<T>(a: seq<T>, b: seq<T>, c: seq<T>)
    ensures (a + b + c)[0..|a|] == a && (a + b + c)[|a|..|a| + |b|] == b
    ensures (a + b + c)[|a| + |b|..|a + b + c|] == c
  {
  }

  /** Parameter i stands at its offset ... */
  lemma ReadAt(coding: Coding, s: seq<uint8>, ps: seq<Param>, i: nat)
    requires Carries(coding, s, ps) && InfoLength(s) != 0 && i < |ps|
    ensures ParamAt(coding, s, MSG_INFO + OffsetOf(coding, ps, i), ps[i]) && Representable(coding, ps[i])
    ensures OffsetOf(coding, ps, i + 1) == OffsetOf(coding, ps, i) + HeaderLength(coding) + |ps[i].data|
    ensures OffsetOf(coding, ps, i + 1) + TERMINATOR <= InfoLength(s)
  {
    OffsetStep(coding, ps, i);
    var o := OffsetOf(coding, ps, i);
    SliceOfSlice(s, MSG_INFO, MSG_INFO + |Encode(coding, ps)|, o, OffsetOf(coding, ps, i + 1));
    ReadParam(coding, s, MSG_INFO + o, ps[i]);
  }

  /** ... and behind the last one there is a zero code. */
  lemma ReadEnd(coding: Coding, s: seq<uint8>, ps: seq<Param>)
    requires Carries(coding, s, ps) && InfoLength(s) != 0
    ensures NumberAt(s, Width(coding), MSG_INFO + OffsetOf(coding, ps, |ps|)) == 0
    ensures OffsetOf(coding, ps, |ps|) + TERMINATOR == InfoLength(s)
  {
    assert ps[..|ps|] == ps;
    var at := MSG_INFO + OffsetOf(coding, ps, |ps|);
    SliceOfSlice(s, at, at + TERMINATOR, 0, Width(coding));
    ZeroCode(coding, s[at..at + TERMINATOR]);
  }

  lemma ZeroCode(coding: Coding, t: seq<uint8>)
    requires EndsParams(coding, t)
    ensures FromLe(t[0..Width(coding)]) == 0
  {
    var code := t[0..Width(coding)];
    assert code[0] == 0 && (coding == Pc16 ==> code[1..][0] == 0);
    assert coding == Pc16 ==> FromLe(code[1..]) == 0;
  }

  // ---------------------------------------------------------------- adding a parameter

  /** The position of the first parameter with a greater code. */
  function PlaceFor(ps: seq<Param>, code: nat): (k: nat)
    ensures k <= |ps|
    ensures forall i :: 0 <= i < k ==> ps[i].code <= code
    ensures k < |ps| ==> code < ps[k].code
  {
    if ps == [] || code < ps[0].code then 0 else 1 + PlaceFor(ps[1..], code)
  }

  function Added(ps: seq<Param>, p: Param): seq<Param> {
    ps[..PlaceFor(ps, p.code)] + [p] + ps[PlaceFor(ps, p.code)..]
  }

  function AddedAll(ps: seq<Param>): seq<Param> {
    if ps == [] then [] else Added(AddedAll(ps[..|ps| - 1]), ps[|ps| - 1])
  }

  predicate ByCode(ps: seq<Param>) {
    forall i, j :: 0 <= i < j < |ps| ==> ps[i].code <= ps[j].code
  }

  lemma AddedAt(ps: seq<Param>, p: Param, i: nat)
    requires i <= |ps|
    ensures var k := PlaceFor(ps, p.code);
            |Added(ps, p)| == |ps| + 1 && Added(ps, p)[i] == if i < k then ps[i] else if i == k then p else ps[i - 1]
  {
  }

  lemma AddedKeepsOrder(ps: seq<Param>, p: Param)
    requires ByCode(ps)
    ensures ByCode(Added(ps, p))
  {
    forall i, j | 0 <= i < j < |Added(ps, p)| ensures Added(ps, p)[i].code <= Added(ps, p)[j].code {
      AddedAt(ps, p, i);
      AddedAt(ps, p, j);
    }
  }

  lemma AddedKeepsAll(ps: seq<Param>, p: Param)
    ensures multiset(Added(ps, p)) == multiset(ps) + multiset{p}
  {
    var k := PlaceFor(ps, p.code);
    assert ps == ps[..k] + ps[k..];
  }

  /** The values under one code, in message order. */
  function Values(ps: seq<Param>, code: nat): seq<seq<uint8>> {
    if ps == [] then [] else ValueIf(ps[0], code) + Values(ps[1..], code)
  }

  function ValueIf(p: Param, code: nat): seq<seq<uint8>> {
    if p.code == code then [p.data] else []
  }

  lemma {:induction false} ValuesSplit(a: seq<Param>, b: seq<Param>, code: nat)
    ensures Values(a + b, code) == Values(a, code) + Values(b, code)
  {
    if a == [] {
      assert a + b == b;
    } else {
      assert (a + b)[1..] == a[1..] + b && (a + b)[0] == a[0];
      ValuesSplit(a[1..], b, code);
      hide ValueIf;
      Regroup(ValueIf(a[0], code), Values(a[1..], code), Values(b, code));
    }
  }

  lemma {:induction false} NoValues(ps: seq<Param>, code: nat)
    requires forall i :: 0 <= i < |ps| ==> ps[i].code != code
    ensures Values(ps, code) == []
  {
    if ps != [] {
      NoValues(ps[1..], code);
    }
  }

  lemma OneValue(p: Param, code: nat)
    ensures Values([p], code) == ValueIf(p, code)
  {
    assert Values([p][1..], code) == [];
  }

  lemma ValuesAround(a: seq<Param>, p: Param, b: seq<Param>, code: nat)
    requires p.code == code ==> Values(b, code) == []
    ensures Values(a + [p] + b, code) == Values(a + b, code) + ValueIf(p, code)
  {
    ValuesSplit(a, [p], code);
    ValuesSplit(a + [p], b, code);
    ValuesSplit(a, b, code);
    OneValue(p, code);
    var x, v, y := Values(a, code), ValueIf(p, code), Values(b, code);
    assert x + v + y == x + y + v by {
      assert y == [] || v == [];
      hide *;
      if v == [] {
        assert x + v == x && x + y + v == x + y;
      } else {
        assert x + y == x && x + v + y == x + v;
      }
    }
  }

  lemma AddedValues(ps: seq<Param>, p: Param, code: nat)
    requires ByCode(ps)
    ensures Values(Added(ps, p), code) == Values(ps, code) + ValueIf(p, code)
  {
    var k := PlaceFor(ps, p.code);
    if p.code == code {
      NoValues(ps[k..], code);
    }
    assert ps == ps[..k] + ps[k..];
    hide Values, PlaceFor, ByCode, ValueIf;
    ValuesAround(ps[..k], p, ps[k..], code);
  }

  /** However additions under different codes are mixed, each code's values come back in the order added. */
  lemma {:induction false} AddedAllGivesBack(ps: seq<Param>, code: nat)
    ensures ByCode(AddedAll(ps)) && multiset(AddedAll(ps)) == multiset(ps)
    ensures Values(AddedAll(ps), code) == Values(ps, code)
  {
    if ps != [] {
      var front, last := ps[..|ps| - 1], ps[|ps| - 1];
      assert ps == front + [last];
      AddedAllGivesBack(front, code);
      AddedKeepsOrder(AddedAll(front), last);
      AddedKeepsAll(AddedAll(front), last);
      AddedValues(AddedAll(front), last, code);
      ValuesSplit(front, [last], code);
      OneValue(last, code);
    }
  }

  // ---------------------------------------------------------------- searching

  /** The first parameter with this code from position i on; |ps| when there is none. */
  function FindFrom(ps: seq<Param>, code: nat, i: nat): (j: nat)
    requires i <= |ps|
    ensures i <= j <= |ps|
    ensures forall k :: i <= k < j ==> ps[k].code != code
    ensures j < |ps| ==> ps[j].code == code
    decreases |ps| - i
  {
    if i == |ps| || ps[i].code == code then i else FindFrom(ps, code, i + 1)
  }

  /** What a search from position i and then one from behind each hit find, until nothing is found. */
  function Visited(ps: seq<Param>, code: nat, i: nat): seq<seq<uint8>>
    requires i <= |ps|
    decreases |ps| - i
  {
    var j := FindFrom(ps, code, i);
    if j == |ps| then [] else [ps[j].data] + Visited(ps, code, j + 1)
  }

  lemma VisitedFrom(ps: seq<Param>, code: nat, i: nat)
    requires i <= |ps|
    ensures var j := FindFrom(ps, code, i);
            Visited(ps, code, i) == if j < |ps| then [ps[j].data] + Visited(ps, code, j + 1) else []
  {
  }

  /** Searching on and on finds exactly the values under the code, in message order. */
  lemma {:induction false} VisitedIsValues(ps: seq<Param>, code: nat, i: nat)
    requires i <= |ps|
    ensures Visited(ps, code, i) == Values(ps[i..], code)
    decreases |ps| - i
  {
    if i < |ps| {
      VisitedIsValues(ps, code, i + 1);
      VisitedStep(ps, code, i);
      var rest := ps[i..];
      assert rest[0] == ps[i] && rest[1..] == ps[i + 1..];
    }
  }

  lemma VisitedStep(ps: seq<Param>, code: nat, i: nat)
    requires i < |ps|
    ensures Visited(ps, code, i) == ValueIf(ps[i], code) + Visited(ps, code, i + 1)
  {
    if ps[i].code == code {
      assert FindFrom(ps, code, i) == i;
    } else {
      assert FindFrom(ps, code, i) == FindFrom(ps, code, i + 1);
    }
  }
}
