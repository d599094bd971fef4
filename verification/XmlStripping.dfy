/** Stripping a printed element gives its compact form. */
module XmlStripping {
  import opened Sequences
  import opened XmlSpec

  // ---------------------------------------------------------------- well-formed elements and their compact form

  predicate FreeOf(s: Text, stop: Stop) {
    forall i :: 0 <= i < |s| ==> !Stops(stop, s[i])
  }

  /** The scanner takes "<?" and "<!--" for the start of something else. */
  predicate GoodTagName(name: Text) {
    FreeOf(name, TagNameEnd) && !StartsWith(name, "?") && !StartsWith(name, "!--")
  }

  predicate WellFormed(e: Element)
    decreases e
  {
    && GoodTagName(e.name)
    && (forall i :: 0 <= i < |e.attributes| ==> FreeOf(e.attributes[i].name, AttributeNameEnd))
    && AllWellFormed(e.children)
  }

  predicate AllWellFormed(es: seq<Element>)
    decreases es
  {
    es == [] || (WellFormed(es[0]) && AllWellFormed(es[1..]))
  }

  function TrimRight(s: Text): Text {
    if s != [] && IsSpace(s[|s| - 1]) then TrimRight(s[..|s| - 1]) else s
  }

  function Trim(s: Text): Text {
    TrimRight(SkipSpaces(s))
  }

  /** No layout: tags, children and trimmed content one behind the other. */
  function Compact(e: Element): Text
    decreases e
  {
    OpenThen(e, []) + (CompactAll(e.children) + Trim(Escape(e.content))) + CloseThen(e, [])
  }

  function CompactAll(es: seq<Element>): Text
    decreases es
  {
    if es == [] then [] else Compact(es[0]) + CompactAll(es[1..])
  }

  // ---------------------------------------------------------------- escaping

  /** The five predefined entities, section 4.6 of XML 1.0. */
  function Unescape(s: Text): Text {
    if s == [] then []
    else if StartsWith(s, "&lt;") then ['<'] + Unescape(s[4..])
    else if StartsWith(s, "&gt;") then ['>'] + Unescape(s[4..])
    else if StartsWith(s, "&amp;") then ['&'] + Unescape(s[5..])
    else if StartsWith(s, "&apos;") then ['\''] + Unescape(s[6..])
    else if StartsWith(s, "&quot;") then ['"'] + Unescape(s[6..])
    else [s[0]] + Unescape(s[1..])
  }

  lemma UnescapeOne(c: Byte, rest: Text)
    ensures Unescape(EscapeChar(c) + rest) == [c] + Unescape(rest)
  {
    var s := EscapeChar(c) + rest;
    assert s[|EscapeChar(c)|..] == rest;
    assert s[0] == EscapeChar(c)[0];
    assert |EscapeChar(c)| > 1 ==> s[1] == EscapeChar(c)[1] && s[2] == EscapeChar(c)[2];
  }

  /** Escaping loses nothing. */
  lemma {:induction false} EscapeRoundTrip(s: Text)
    ensures Unescape(Escape(s)) == s
  {
    if s != [] {
      EscapeRoundTrip(s[1..]);
      UnescapeOne(s[0], Escape(s[1..]));
      assert s == [s[0]] + s[1..];
    }
  }

  /** Escaped text contains nothing that ends a value or content. */
  lemma {:induction false} EscapedIsFree(s: Text)
    ensures FreeOf(Escape(s), Quote) && FreeOf(Escape(s), Angle)
  {
    if s != [] {
      EscapedIsFree(s[1..]);
    }
  }

  // ---------------------------------------------------------------- scanning what has been printed

  lemma {:induction false} ScanOver(s: Text, rest: Text, stop: Stop)
    requires FreeOf(s, stop) && (rest != [] ==> Stops(stop, rest[0]))
    ensures Before(s + rest, stop) == s && From(s + rest, stop) == rest
  {
    if s == [] {
      assert s + rest == rest;
    } else {
      assert (s + rest)[1..] == s[1..] + rest && (s + rest)[0] == s[0];
      ScanOver(s[1..], rest, stop);
      assert s == [s[0]] + s[1..];
    }
  }

  lemma QuoteScanned(s: Text, rest: Text)
    requires FreeOf(s, Quote)
    ensures QuoteScan(s + (['"'] + rest)) == Scan(rest, s + ['"'])
  {
    ScanOver(s, ['"'] + rest, Quote);
    assert (['"'] + rest)[1..] == rest;
  }

  lemma ValueScanned(value: Text, rest: Text)
    ensures ValueScan(['"'] + (Escape(value) + (['"'] + rest))) == Scan(rest, ['"'] + (Escape(value) + ['"']))
  {
    var s := Escape(value) + (['"'] + rest);
    EscapedIsFree(value);
    QuoteScanned([], s);
    assert [] + (['"'] + s) == ['"'] + s && [] + ['"'] == ['"'];
    QuoteScanned(Escape(value), rest);
  }

  lemma AttributeScanned(a: Attribute, rest: Text)
    requires FreeOf(a.name, AttributeNameEnd)
    ensures AttributeScan(AttributeThen(a, rest)) == Scan(rest, AttributeThen(a, []))
  {
    var value := ['"'] + (Escape(a.value) + (['"'] + rest));
    ScanOver(a.name, ['='] + value, AttributeNameEnd);
    assert (['='] + value)[1..] == value;
    ValueScanned(a.value, rest);
    assert ['"'] + [] == ['"'];
  }

  lemma AttributeBefore(a: Attribute, rest: Text)
    ensures AttributeThen(a, []) + rest == AttributeThen(a, rest)
  {
    var quote: Text := ['"'];
    assert quote + [] == quote;
    Regroup(Escape(a.value), quote, rest);
    Regroup(quote, Escape(a.value) + quote, rest);
    Regroup(['='], quote + (Escape(a.value) + quote), rest);
    Regroup(a.name, ['='] + (quote + (Escape(a.value) + quote)), rest);
  }

  /** No attribute begins like the end of the tag. */
  lemma AttributeBegins(a: Attribute, rest: Text)
    requires FreeOf(a.name, AttributeNameEnd)
    ensures var s := AttributeThen(a, rest); s != [] && !IsSpace(s[0]) && s[0] != '>'
  {
    assert AttributeThen(a, rest)[0] == if a.name == [] then '=' else a.name[0];
  }

  lemma SpaceSkipped(s: Text)
    requires s != [] && !IsSpace(s[0])
    ensures SkipSpaces([' '] + s) == s && SkipSpaces(s) == s
  {
    assert ([' '] + s)[1..] == s;
  }

  lemma {:induction false} AttributesScanned(attributes: seq<Attribute>, rest: Text)
    requires forall i :: 0 <= i < |attributes| ==> FreeOf(attributes[i].name, AttributeNameEnd)
    ensures AttributesScan(AttributesThen(attributes, ['>'] + rest))
            == Scan(['>'] + rest, AttributesThen(attributes, []))
  {
    if attributes != [] {
      var a, more := attributes[0], attributes[1..];
      var behind := AttributesThen(more, ['>'] + rest);
      AttributesScanned(more, rest);
      AttributeBegins(a, behind);
      SpaceSkipped(AttributeThen(a, behind));
      AttributeScanned(a, behind);
      AttributeBefore(a, AttributesThen(more, []));
      assert behind != [];
      var s := AttributesThen(attributes, ['>'] + rest);
      assert s == [' '] + AttributeThen(a, behind);
    }
  }

  lemma TagScanned(e: Element, rest: Text)
    requires FreeOf(e.name, TagNameEnd)
    requires forall i :: 0 <= i < |e.attributes| ==> FreeOf(e.attributes[i].name, AttributeNameEnd)
    ensures TagScan(OpenThen(e, rest)) == Scan(rest, OpenThen(e, []))
  {
    var behind := AttributesThen(e.attributes, ['>'] + rest);
    var name: Text := ['<'] + e.name;
    assert OpenThen(e, rest) == name + behind;
    assert behind != [] && Stops(TagNameEnd, behind[0]);
    ScanOver(name, behind, TagNameEnd);
    AttributesScanned(e.attributes, rest);
    assert CopyOne(['>'] + rest) == Scan(rest, ['>']) by {
      assert (['>'] + rest)[1..] == rest;
    }
    AttributesBefore(e.attributes, ['>']);
    assert ['>'] + [] == ['>'];
    Regroup(['<'], e.name, AttributesThen(e.attributes, ['>']));
  }

  lemma {:induction false} AttributesBefore(attributes: seq<Attribute>, rest: Text)
    ensures AttributesThen(attributes, []) + rest == AttributesThen(attributes, rest)
  {
    if attributes == [] {
      assert [] + rest == rest;
    } else {
      var more := AttributesThen(attributes[1..], []);
      AttributesBefore(attributes[1..], rest);
      AttributeBefore(attributes[0], more);
      AttributeBefore(attributes[0], more + rest);
      Regroup(AttributeThen(attributes[0], []), more, rest);
      Regroup([' '], AttributeThen(attributes[0], more), rest);
    }
  }

  lemma CloseScanned(e: Element, rest: Text)
    requires FreeOf(e.name, TagNameEnd)
    ensures TagScan(CloseThen(e, rest)) == Scan(rest, CloseThen(e, []))
  {
    var name: Text := "</" + e.name;
    var behind: Text := ['>'] + rest;
    assert CloseThen(e, rest) == name + behind;
    ScanOver(name, behind, TagNameEnd);
    assert behind[1..] == rest && ['>'] + [] == ['>'];
    assert SkipSpaces(behind) == behind;
    assert CloseThen(e, []) == name + ['>'];
  }

  lemma OpenBefore(e: Element, rest: Text)
    ensures OpenThen(e, []) + rest == OpenThen(e, rest)
  {
    assert ['>'] + [] == ['>'];
    AttributesBefore(e.attributes, ['>']);
    AttributesBefore(e.attributes, ['>'] + rest);
    var attributes := AttributesThen(e.attributes, []);
    Regroup(attributes, ['>'], rest);
    Regroup(e.name, attributes + ['>'], rest);
    Regroup(['<'], e.name + (attributes + ['>']), rest);
  }

  lemma CloseBefore(e: Element, s: Text, rest: Text)
    ensures CloseThen(e, s) + rest == CloseThen(e, s + rest)
  {
    Regroup(['>'], s, rest);
    Regroup(e.name, ['>'] + s, rest);
    Regroup("</", e.name + (['>'] + s), rest);
  }

  // ---------------------------------------------------------------- the main loop

  lemma {:induction false} BlankSkipped(blank: Text, s: Text)
    requires Blank(blank) && s != [] && !IsSpace(s[0])
    ensures SkipSpaces(blank + s) == s
  {
    if blank == [] {
      assert blank + s == s;
    } else {
      assert (blank + s)[1..] == blank[1..] + s;
      BlankSkipped(blank[1..], s);
    }
  }

  lemma StripSkips(blank: Text, s: Text, stripped: Text)
    requires Blank(blank) && s != [] && !IsSpace(s[0])
    ensures Strip(blank + s, stripped) == Strip(s, stripped)
  {
    BlankSkipped(blank, s);
    assert SkipSpaces(s) == s;
  }

  lemma OpenIsTag(e: Element, rest: Text)
    requires GoodTagName(e.name)
    ensures var s := OpenThen(e, rest);
            s != [] && s[0] == '<' && !StartsWith(s, "<?") && !StartsWith(s, "<!--")
  {
    var s := OpenThen(e, rest);
    var behind := AttributesThen(e.attributes, ['>'] + rest);
    assert behind != [] && (behind[0] == ' ' || behind[0] == '>');
    assert s == ['<'] + (e.name + behind);
    NotPrefixed(e.name, behind, "!--");
    NotPrefixed(e.name, behind, "?");
  }

  lemma NotPrefixed(name: Text, behind: Text, mark: Text)
    requires !StartsWith(name, mark) && behind != [] && behind[0] !in mark
    ensures !StartsWith(['<'] + (name + behind), ['<'] + mark)
  {
    var s := ['<'] + (name + behind);
    if |name| < |mark| {
      assert s[|name| + 1] == behind[0];
      assert (['<'] + mark)[|name| + 1] == mark[|name|];
    } else {
      var i :| 0 <= i < |mark| && name[i] != mark[i];
      assert s[i + 1] == name[i] && (['<'] + mark)[i + 1] == mark[i];
    }
  }

  lemma StripTag(s: Text, stripped: Text)
    requires s != [] && s[0] == '<' && !StartsWith(s, "<?") && !StartsWith(s, "<!--")
    ensures Strip(s, stripped) == Strip(TagScan(s).rest, stripped + TagScan(s).copied)
  {
    assert SkipSpaces(s) == s;
  }

  lemma StripOpen(blank: Text, e: Element, rest: Text, stripped: Text)
    requires WellFormed(e) && Blank(blank)
    ensures Strip(blank + OpenThen(e, rest), stripped) == Strip(rest, stripped + OpenThen(e, []))
  {
    OpenIsTag(e, rest);
    StripSkips(blank, OpenThen(e, rest), stripped);
    TagScanned(e, rest);
    hide *;
    StripTag(OpenThen(e, rest), stripped);
  }

  lemma StripClose(e: Element, rest: Text, stripped: Text)
    requires WellFormed(e)
    ensures Strip(CloseThen(e, rest), stripped) == Strip(rest, stripped + CloseThen(e, []))
  {
    var s := CloseThen(e, rest);
    assert s[0] == '<' && s[1] == '/';
    CloseScanned(e, rest);
    hide CloseThen, TagScan, Strip, SkipSpaces;
    StripTag(s, stripped);
  }

  lemma {:induction false} TrailingRemoved(stripped: Text, s: Text)
    requires s != [] && !IsSpace(s[0])
    ensures RemoveTrailingSpaces(stripped + s) == stripped + TrimRight(s)
    decreases |s|
  {
    var all := stripped + s;
    assert all[|all| - 1] == s[|s| - 1];
    if IsSpace(s[|s| - 1]) {
      assert all[..|all| - 1] == stripped + s[..|s| - 1];
      TrailingRemoved(stripped, s[..|s| - 1]);
    }
  }

  lemma {:induction false} SkipApart(x: Text, y: Text)
    requires y != [] && !IsSpace(y[0])
    ensures SkipSpaces(x + y) == SkipSpaces(x) + y
  {
    if x == [] {
      assert x + y == y;
    } else {
      assert (x + y)[1..] == x[1..] + y && (x + y)[0] == x[0];
      SkipApart(x[1..], y);
    }
  }

  lemma {:induction false} SkipStaysFree(x: Text, stop: Stop)
    requires FreeOf(x, stop)
    ensures FreeOf(SkipSpaces(x), stop)
  {
    if x != [] {
      SkipStaysFree(x[1..], stop);
    }
  }

  /** Text without tags in front of a tag is stripped to its trimmed form. */
  lemma StripContent(x: Text, y: Text, stripped: Text)
    requires FreeOf(x, Angle) && y != [] && y[0] == '<'
    ensures Strip(x + y, stripped) == Strip(y, stripped + Trim(x))
  {
    var t := SkipSpaces(x);
    SkipApart(x, y);
    SkipStaysFree(x, Angle);
    if t == [] {
      assert t + y == y && SkipSpaces(y) == y;
      assert stripped + Trim(x) == stripped;
      StripSame(x + y, y, stripped);
    } else {
      assert (t + y)[0] == t[0] != '<';
      ScanOver(t, y, Angle);
      TrailingRemoved(stripped, t);
    }
  }

  lemma StripSame(s: Text, t: Text, stripped: Text)
    requires s != [] && t != [] && SkipSpaces(s) == SkipSpaces(t)
    ensures Strip(s, stripped) == Strip(t, stripped)
  {
  }

  // ---------------------------------------------------------------- the main theorem

  lemma BlankIsFree(s: Text)
    requires Blank(s)
    ensures FreeOf(s, Angle)
  {
  }

  lemma {:induction false} SkipOfBlank(s: Text)
    requires Blank(s)
    ensures SkipSpaces(s) == []
  {
    if s != [] {
      SkipOfBlank(s[1..]);
    }
  }

  lemma {:induction false} SkipBlankFirst(blank: Text, s: Text)
    requires Blank(blank)
    ensures SkipSpaces(blank + s) == SkipSpaces(s)
  {
    if blank == [] {
      assert blank + s == s;
    } else {
      assert (blank + s)[1..] == blank[1..] + s;
      SkipBlankFirst(blank[1..], s);
    }
  }

  lemma {:induction false} TrimBlankLast(s: Text, blank: Text)
    requires Blank(blank)
    ensures TrimRight(s + blank) == TrimRight(s)
    decreases |blank|
  {
    if blank == [] {
      assert s + blank == s;
    } else {
      var all := s + blank;
      assert all[|all| - 1] == blank[|blank| - 1];
      assert all[..|all| - 1] == s + blank[..|blank| - 1];
      TrimBlankLast(s, blank[..|blank| - 1]);
    }
  }

  /** Layout around text does not change its trimmed form. */
  lemma TrimIgnoresLayout(left: Text, s: Text, right: Text)
    requires Blank(left) && Blank(right)
    ensures Trim(left + (s + right)) == Trim(s)
  {
    SkipBlankFirst(left, s + right);
    if SkipSpaces(s) == [] {
      SkipNone(s, right);
      SkipOfBlank(right);
    } else {
      SkipSome(s, right);
      TrimBlankLast(SkipSpaces(s), right);
    }
  }

  lemma {:induction false} SkipNone(s: Text, right: Text)
    requires SkipSpaces(s) == []
    ensures SkipSpaces(s + right) == SkipSpaces(right)
  {
    if s == [] {
      assert s + right == right;
    } else {
      assert (s + right)[1..] == s[1..] + right;
      SkipNone(s[1..], right);
    }
  }

  lemma {:induction false} SkipSome(s: Text, right: Text)
    requires SkipSpaces(s) != []
    ensures SkipSpaces(s + right) == SkipSpaces(s) + right
  {
    assert (s + right)[0] == s[0];
    if IsSpace(s[0]) {
      assert (s + right)[1..] == s[1..] + right;
      SkipSome(s[1..], right);
    }
  }

  /** The text between the children, or the opening tag, and the closing tag. */
  function Between(e: Element, indent: Text): Text {
    if e.children == [] then Escape(e.content)
    else (['\n'] + indent) + if e.content == [] then [] else Escape(e.content) + (['\n'] + indent)
  }

  lemma BetweenIsContent(e: Element, indent: Text)
    requires Blank(indent)
    ensures FreeOf(Between(e, indent), Angle) && Trim(Between(e, indent)) == Trim(Escape(e.content))
  {
    var line := ['\n'] + indent;
    EscapedIsFree(e.content);
    BlankIsFree(line);
    if e.children != [] {
      if e.content == [] {
        assert line + [] == line + ([] + []);
        TrimIgnoresLayout(line, [], []);
      } else {
        TrimIgnoresLayout(line, Escape(e.content), line);
      }
    }
  }

  lemma CloseBegins(e: Element, rest: Text)
    ensures CloseThen(e, rest) != [] && CloseThen(e, rest)[0] == '<'
  {
  }

  lemma StripPrint(e: Element, indent: Text, rest: Text, stripped: Text)
    requires WellFormed(e) && Blank(indent)
    ensures Strip(PrintThen(e, indent, rest), stripped) == Strip(['\n'] + rest, stripped + Compact(e))
    decreases e, 1
  {
    var close := CloseThen(e, ['\n'] + rest);
    var open, middle := OpenThen(e, []), CompactAll(e.children) + Trim(Escape(e.content));
    hide Strip, OpenThen, CloseThen, CompactAll, Trim;
    StripOpen(indent, e, InnerThen(e, indent, close), stripped);
    CloseBegins(e, ['\n'] + rest);
    StripInner(e, indent, close, stripped + open);
    StripClose(e, ['\n'] + rest, (stripped + open) + middle);
    Regroup(stripped, open, middle);
    Regroup(stripped, open + middle, CloseThen(e, []));
  }

  lemma StripInner(e: Element, indent: Text, close: Text, stripped: Text)
    requires WellFormed(e) && Blank(indent) && close != [] && close[0] == '<'
    ensures Strip(InnerThen(e, indent, close), stripped)
            == Strip(close, stripped + (CompactAll(e.children) + Trim(Escape(e.content))))
    decreases e, 0
  {
    BetweenIsContent(e, indent);
    var all := stripped + CompactAll(e.children);
    StripContent(Between(e, indent), close, all);
    Regroup(stripped, CompactAll(e.children), Trim(Escape(e.content)));
    InnerIsBetween(e, indent, close);
    if e.children == [] {
      assert stripped + [] == stripped;
    } else {
      hide Strip, Trim, Escape, CompactAll, Between;
      StripChildren(e.children, indent + "  ", indent + Tail(e, indent, close), stripped);
    }
  }

  /** What follows the last child. */
  function Tail(e: Element, indent: Text, close: Text): Text {
    if e.content == [] then close
    else Escape(e.content) + if e.children == [] then close else ['\n'] + (indent + close)
  }

  lemma InnerIsBetween(e: Element, indent: Text, close: Text)
    ensures e.children == [] ==> InnerThen(e, indent, close) == Between(e, indent) + close
    ensures e.children != [] ==>
              && InnerThen(e, indent, close)
                 == ['\n'] + ChildrenThen(e.children, indent + "  ", indent + Tail(e, indent, close))
              && ['\n'] + (indent + Tail(e, indent, close)) == Between(e, indent) + close
  {
    var line := ['\n'] + indent;
    var text := Escape(e.content);
    Regroup(['\n'], indent, close);
    Regroup(line, [], close);
    assert [] + close == close && line + [] == line;
    Regroup(text, line, close);
    Regroup(line, text + line, close);
    Regroup(['\n'], indent, Tail(e, indent, close));
    if e.children == [] && e.content == [] {
      assert text == [];
    }
  }

  lemma StripChildren(es: seq<Element>, indent: Text, rest: Text, stripped: Text)
    requires AllWellFormed(es) && Blank(indent)
    ensures Strip(['\n'] + ChildrenThen(es, indent, rest), stripped) == Strip(['\n'] + rest, stripped + CompactAll(es))
    decreases es
  {
    if es == [] {
      assert stripped + [] == stripped;
    } else {
      var more := ChildrenThen(es[1..], indent, rest);
      LineSkipped(es[0], indent, more, stripped);
      hide Strip, Compact;
      StripPrint(es[0], indent, more, stripped);
      StripChildren(es[1..], indent, rest, stripped + Compact(es[0]));
      Regroup(stripped, Compact(es[0]), CompactAll(es[1..]));
    }
  }

  lemma LineSkipped(e: Element, indent: Text, rest: Text, stripped: Text)
    requires WellFormed(e) && Blank(indent)
    ensures Strip(['\n'] + PrintThen(e, indent, rest), stripped) == Strip(PrintThen(e, indent, rest), stripped)
  {
    var s := OpenThen(e, InnerThen(e, indent, CloseThen(e, ['\n'] + rest)));
    OpenIsTag(e, InnerThen(e, indent, CloseThen(e, ['\n'] + rest)));
    Regroup(['\n'], indent, s);
    hide Strip, OpenThen, InnerThen;
    StripSkips(indent, s, stripped);
    StripSkips(['\n'] + indent, s, stripped);
  }

  /** XmlElement::toString. */
  function ToString(e: Element, indent: Text): Text {
    PrintThen(e, indent, [])
  }

  /** XmlUniformiser::stripped. */
  function Stripped(xml: Text): Text {
    Strip(xml, [])
  }

  /** Stripping a printed element gives its compact form, whatever its attribute values and content are and however
      it is indented. */
  lemma StrippedIsCompact(e: Element, indent: Text)
    requires WellFormed(e) && Blank(indent)
    ensures Stripped(ToString(e, indent)) == Compact(e)
  {
    var c := Compact(e);
    StripPrint(e, indent, [], []);
    assert [] + c == c && ['\n'] + [] == ['\n'];
    assert c[|c| - 1] == '>' by {
      CloseEnds(e);
    }
    EndOfText(c);
  }

  lemma CloseEnds(e: Element)
    ensures CloseThen(e, []) != [] && CloseThen(e, [])[|CloseThen(e, [])| - 1] == '>'
  {
    assert ['>'] + [] == ['>'];
  }

  lemma EndOfText(stripped: Text)
    requires stripped != [] && !IsSpace(stripped[|stripped| - 1])
    ensures Strip(['\n'], stripped) == stripped
  {
    assert SkipSpaces(['\n']) == [] by {
      SkipOfBlank(['\n']);
    }
    assert stripped + [] == stripped;
  }
}
