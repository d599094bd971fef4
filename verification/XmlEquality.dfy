/** When does checkXmlEqual take two printed elements for equal?  Exactly when they differ in layout only. */
module XmlEquality {
  import opened Sequences
  import opened XmlSpec
  import opened XmlStripping

  /** No tag name begins with '/', which would make an opening tag look like a closing one. */
  predicate NoSlash(e: Element)
    decreases e
  {
    (e.name == [] || e.name[0] != '/') && NoSlashes(e.children)
  }

  predicate NoSlashes(es: seq<Element>)
    decreases es
  {
    es == [] || (NoSlash(es[0]) && NoSlashes(es[1..]))
  }

  /** Equal but for spaces around the content of elements. */
  predicate SameButLayout(a: Element, b: Element)
    decreases a
  {
    && a.name == b.name && a.attributes == b.attributes && Trim(a.content) == Trim(b.content)
    && AllSameButLayout(a.children, b.children)
  }

  predicate AllSameButLayout(es: seq<Element>, fs: seq<Element>)
    decreases es
  {
    if es == [] || fs == [] then es == [] && fs == []
    else SameButLayout(es[0], fs[0]) && AllSameButLayout(es[1..], fs[1..])
  }

  // ---------------------------------------------------------------- trimming and escaping commute

  lemma {:induction false} SkipEscape(s: Text)
    ensures SkipSpaces(Escape(s)) == Escape(SkipSpaces(s))
  {
    if s != [] {
      var rest := Escape(s[1..]);
      if IsSpace(s[0]) {
        assert Escape(s) == [s[0]] + rest;
        SkipEscape(s[1..]);
        assert ([s[0]] + rest)[1..] == rest;
      } else {
        assert (EscapeChar(s[0]) + rest)[0] == EscapeChar(s[0])[0];
      }
    }
  }

  lemma {:induction false} EscapeLast(s: Text, c: Byte)
    ensures Escape(s + [c]) == Escape(s) + EscapeChar(c)
  {
    if s == [] {
      assert s + [c] == [c] && [c][1..] == [] && EscapeChar(c) + [] == EscapeChar(c);
      assert [] + EscapeChar(c) == EscapeChar(c);
    } else {
      assert (s + [c])[1..] == s[1..] + [c] && (s + [c])[0] == s[0];
      EscapeLast(s[1..], c);
      Regroup(EscapeChar(s[0]), Escape(s[1..]), EscapeChar(c));
    }
  }

  lemma {:induction false} TrimRightEscape(s: Text)
    ensures TrimRight(Escape(s)) == Escape(TrimRight(s))
    decreases |s|
  {
    if s != [] {
      var front, c := s[..|s| - 1], s[|s| - 1];
      assert s == front + [c];
      EscapeLast(front, c);
      var all := Escape(s);
      assert all[|all| - 1] == EscapeChar(c)[|EscapeChar(c)| - 1];
      if IsSpace(c) {
        assert EscapeChar(c) == [c] && all[..|all| - 1] == Escape(front);
        TrimRightEscape(front);
      }
    }
  }

  lemma TrimEscape(s: Text)
    ensures Trim(Escape(s)) == Escape(Trim(s))
  {
    SkipEscape(s);
    TrimRightEscape(SkipSpaces(s));
  }

  lemma EscapeTells(a: Text, b: Text)
    requires Escape(a) == Escape(b)
    ensures a == b
  {
    EscapeRoundTrip(a);
    EscapeRoundTrip(b);
  }

  // ---------------------------------------------------------------- same but for layout: same compact form

  lemma SameCompact(a: Element, b: Element)
    requires SameButLayout(a, b)
    ensures Compact(a) == Compact(b)
    decreases a, 1
  {
    TrimEscape(a.content);
    TrimEscape(b.content);
    AllSameCompact(a.children, b.children);
  }

  lemma AllSameCompact(es: seq<Element>, fs: seq<Element>)
    requires AllSameButLayout(es, fs)
    ensures CompactAll(es) == CompactAll(fs)
    decreases es
  {
    if es != [] {
      SameCompact(es[0], fs[0]);
      AllSameCompact(es[1..], fs[1..]);
    }
  }

  // ---------------------------------------------------------------- the compact form tells the element

  lemma AttributeTells(a: Attribute, b: Attribute, s: Text, t: Text)
    requires FreeOf(a.name, AttributeNameEnd) && FreeOf(b.name, AttributeNameEnd)
    requires AttributeThen(a, s) == AttributeThen(b, t)
    ensures a == b && s == t
  {
    var s1, t1 := Escape(a.value) + (['"'] + s), Escape(b.value) + (['"'] + t);
    ScanOver(a.name, ['='] + (['"'] + s1), AttributeNameEnd);
    ScanOver(b.name, ['='] + (['"'] + t1), AttributeNameEnd);
    assert (['='] + (['"'] + s1))[1..][1..] == s1 && (['='] + (['"'] + t1))[1..][1..] == t1;
    EscapedIsFree(a.value);
    EscapedIsFree(b.value);
    ScanOver(Escape(a.value), ['"'] + s, Quote);
    ScanOver(Escape(b.value), ['"'] + t, Quote);
    EscapeTells(a.value, b.value);
    assert (['"'] + s)[1..] == s && (['"'] + t)[1..] == t;
  }

  lemma {:induction false} AttributesTell(a: seq<Attribute>, b: seq<Attribute>)
    requires forall i :: 0 <= i < |a| ==> FreeOf(a[i].name, AttributeNameEnd)
    requires forall i :: 0 <= i < |b| ==> FreeOf(b[i].name, AttributeNameEnd)
    requires AttributesThen(a, ['>']) == AttributesThen(b, ['>'])
    ensures a == b
  {
    if a != [] && b != [] {
      var s, t := AttributesThen(a[1..], ['>']), AttributesThen(b[1..], ['>']);
      assert AttributesThen(a, ['>'])[1..] == AttributeThen(a[0], s);
      assert AttributesThen(b, ['>'])[1..] == AttributeThen(b[0], t);
      AttributeTells(a[0], b[0], s, t);
      AttributesTell(a[1..], b[1..]);
      assert a == [a[0]] + a[1..] && b == [b[0]] + b[1..];
    } else {
      assert AttributesThen(a, ['>'])[0] == AttributesThen(b, ['>'])[0];
    }
  }

  lemma OpenTells(a: Element, b: Element, s: Text, t: Text)
    requires WellFormed(a) && WellFormed(b) && OpenThen(a, s) == OpenThen(b, t)
    ensures a.name == b.name && a.attributes == b.attributes && s == t
  {
    TagScanned(a, s);
    TagScanned(b, t);
    var x, y := AttributesThen(a.attributes, ['>']), AttributesThen(b.attributes, ['>']);
    assert ['>'] + [] == ['>'];
    assert OpenThen(a, [])[1..] == a.name + x && OpenThen(b, [])[1..] == b.name + y;
    ScanOver(a.name, x, TagNameEnd);
    ScanOver(b.name, y, TagNameEnd);
    AttributesTell(a.attributes, b.attributes);
  }

  /** The compact form followed by `rest`. */
  function CompactThen(e: Element, rest: Text): Text
    decreases e
  {
    OpenThen(e, CompactAllThen(e.children, Trim(Escape(e.content)) + CloseThen(e, rest)))
  }

  function CompactAllThen(es: seq<Element>, rest: Text): Text
    decreases es
  {
    if es == [] then rest else CompactThen(es[0], CompactAllThen(es[1..], rest))
  }

  /** Text that is not a child: content, or a closing tag. */
  predicate NoChild(s: Text) {
    s != [] && (s[0] == '<' ==> |s| > 1 && s[1] == '/')
  }

  lemma ChildIsNot(e: Element, rest: Text)
    requires WellFormed(e) && NoSlash(e)
    ensures !NoChild(CompactThen(e, rest))
  {
    var behind := CompactAllThen(e.children, Trim(Escape(e.content)) + CloseThen(e, rest));
    var attributes := AttributesThen(e.attributes, ['>'] + behind);
    var s := OpenThen(e, behind);
    assert s[0] == '<' && s[1] == (if e.name == [] then attributes[0] else e.name[0]);
  }

  lemma {:induction false} TrimRightIsPrefix(s: Text)
    ensures |TrimRight(s)| <= |s| && TrimRight(s) == s[..|TrimRight(s)|]
    decreases |s|
  {
    if s != [] && IsSpace(s[|s| - 1]) {
      TrimRightIsPrefix(s[..|s| - 1]);
    }
  }

  lemma ContentIsFree(content: Text)
    ensures FreeOf(Trim(Escape(content)), Angle)
  {
    EscapedIsFree(content);
    SkipStaysFree(Escape(content), Angle);
    TrimRightIsPrefix(SkipSpaces(Escape(content)));
  }

  lemma InnerTells(a: Element, b: Element, s: Text, t: Text)
    requires WellFormed(a) && WellFormed(b) && a.name == b.name
    requires Trim(Escape(a.content)) + CloseThen(a, s) == Trim(Escape(b.content)) + CloseThen(b, t)
    ensures Trim(a.content) == Trim(b.content) && s == t
  {
    ContentIsFree(a.content);
    ContentIsFree(b.content);
    ScanOver(Trim(Escape(a.content)), CloseThen(a, s), Angle);
    ScanOver(Trim(Escape(b.content)), CloseThen(b, t), Angle);
    TrimEscape(a.content);
    TrimEscape(b.content);
    EscapeTells(Trim(a.content), Trim(b.content));
    CloseScanned(a, s);
    CloseScanned(b, t);
  }

  lemma EndIsNoChild(e: Element, rest: Text)
    ensures NoChild(Trim(Escape(e.content)) + CloseThen(e, rest))
  {
    ContentIsFree(e.content);
    var c := Trim(Escape(e.content));
    if c == [] {
      assert c + CloseThen(e, rest) == CloseThen(e, rest);
    } else {
      assert !Stops(Angle, c[0]);
    }
  }

  lemma CompactTells(a: Element, b: Element, s: Text, t: Text)
    requires WellFormed(a) && WellFormed(b) && NoSlash(a) && NoSlash(b) && CompactThen(a, s) == CompactThen(b, t)
    ensures SameButLayout(a, b) && s == t
    decreases a, 1
  {
    var x, y := Trim(Escape(a.content)) + CloseThen(a, s), Trim(Escape(b.content)) + CloseThen(b, t);
    OpenTells(a, b, CompactAllThen(a.children, x), CompactAllThen(b.children, y));
    EndIsNoChild(a, s);
    EndIsNoChild(b, t);
    AllTell(a.children, b.children, x, y);
    InnerTells(a, b, s, t);
  }

  lemma AllTell(es: seq<Element>, fs: seq<Element>, x: Text, y: Text)
    requires AllWellFormed(es) && AllWellFormed(fs) && NoSlashes(es) && NoSlashes(fs) && NoChild(x) && NoChild(y)
    requires CompactAllThen(es, x) == CompactAllThen(fs, y)
    ensures AllSameButLayout(es, fs) && x == y
    decreases es
  {
    if es != [] && fs != [] {
      CompactTells(es[0], fs[0], CompactAllThen(es[1..], x), CompactAllThen(fs[1..], y));
      AllTell(es[1..], fs[1..], x, y);
    } else if es != [] {
      ChildIsNot(es[0], CompactAllThen(es[1..], x));
    } else if fs != [] {
      ChildIsNot(fs[0], CompactAllThen(fs[1..], y));
    }
  }

  lemma CompactIsThen(e: Element, rest: Text)
    ensures Compact(e) + rest == CompactThen(e, rest)
    decreases e, 1
  {
    var open, all, text := OpenThen(e, []), CompactAll(e.children), Trim(Escape(e.content));
    var close := CloseThen(e, []);
    CloseBefore(e, [], rest);
    assert [] + rest == rest;
    CompactAllIsThen(e.children, text + CloseThen(e, rest));
    OpenBefore(e, all + (text + CloseThen(e, rest)));
    Regroup(open + (all + text), close, rest);
    Regroup(open, all + text, CloseThen(e, rest));
    Regroup(all, text, CloseThen(e, rest));
  }

  lemma CompactAllIsThen(es: seq<Element>, rest: Text)
    ensures CompactAll(es) + rest == CompactAllThen(es, rest)
    decreases es
  {
    if es == [] {
      assert [] + rest == rest;
    } else {
      CompactIsThen(es[0], CompactAllThen(es[1..], rest));
      CompactAllIsThen(es[1..], rest);
      Regroup(Compact(es[0]), CompactAll(es[1..]), rest);
    }
  }

  /** checkXmlEqual accepts two printed elements, however they are indented, if and only if they are the same but for
      spaces around content. */
  lemma EqualIffSame(a: Element, b: Element, indentA: Text, indentB: Text)
    requires WellFormed(a) && WellFormed(b) && NoSlash(a) && NoSlash(b) && Blank(indentA) && Blank(indentB)
    ensures Stripped(ToString(a, indentA)) == Stripped(ToString(b, indentB)) <==> SameButLayout(a, b)
  {
    StrippedIsCompact(a, indentA);
    StrippedIsCompact(b, indentB);
    if Compact(a) == Compact(b) {
      CompactIsThen(a, []);
      CompactIsThen(b, []);
      assert CompactThen(a, []) == CompactThen(b, []);
      CompactTells(a, b, [], []);
    }
    if SameButLayout(a, b) {
      SameCompact(a, b);
    }
  }
}
