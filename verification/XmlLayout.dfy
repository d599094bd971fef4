/** What stripping does to layout that toString does not print: comments, processing instructions, blanks inside tags,
    attributes without a value, and text or a tag at the end of the input. */
module XmlLayout {
  import opened Sequences
  import opened XmlSpec
  import opened XmlStripping

  // ---------------------------------------------------------------- comments and processing instructions

  /** The mark begins nowhere in the first n places. */
  predicate NoneBefore(s: Text, mark: Text, n: nat)
    requires n <= |s|
  {
    forall i :: 0 <= i < n ==> !StartsWith(s[i..], mark)
  }

  /** Skipping ends right behind the first place where the mark begins ... */
  lemma {:induction false} BehindFirst(s: Text, mark: Text, n: nat)
    requires n < |s| && NoneBefore(s, mark, n) && StartsWith(s[n..], mark)
    ensures n + |mark| <= |s| && Behind(s, mark) == s[n + |mark|..]
  {
    assert s[0..] == s;
    if n != 0 {
      forall i | 0 <= i < n - 1 ensures !StartsWith(s[1..][i..], mark) {
        assert s[1..][i..] == s[i + 1..];
      }
      assert s[1..][n - 1..] == s[n..];
      BehindFirst(s[1..], mark, n - 1);
    }
  }

  /** ... and takes everything when there is none. */
  lemma {:induction false} BehindNone(s: Text, mark: Text)
    requires NoneBefore(s, mark, |s|)
    ensures Behind(s, mark) == []
  {
    if s != [] {
      assert s[0..] == s;
      forall i | 0 <= i < |s[1..]| ensures !StartsWith(s[1..][i..], mark) {
        assert s[1..][i..] == s[i + 1..];
      }
      BehindNone(s[1..], mark);
    }
  }

  datatype Skipped = Comment | Processing

  function Opening(kind: Skipped): Text {
    if kind.Comment? then "<!--" else "<?"
  }

  function Closing(kind: Skipped): Text {
    if kind.Comment? then "-->" else "?>"
  }

  /** A comment or a processing instruction, whose inside is `inner`, in front of `rest`. */
  function SkippedThen(kind: Skipped, inner: Text, rest: Text): Text {
    Opening(kind) + (inner + (Closing(kind) + rest))
  }

  /** The closing mark begins nowhere before its place, counted from the opening mark on. */
  predicate ClosesOnce(kind: Skipped, inner: Text, rest: Text) {
    NoneBefore(SkippedThen(kind, inner, rest), Closing(kind), |Opening(kind)| + |inner|)
  }

  lemma StripSkippedIs(kind: Skipped, s: Text, stripped: Text)
    requires StartsWith(s, Opening(kind))
    ensures Strip(s, stripped) == Strip(Behind(s, Closing(kind)), stripped)
  {
    assert s[0] == '<' && s[1] == if kind.Comment? then '!' else '?';
    assert SkipSpaces(s) == s;
  }

  /** A comment or processing instruction leaves no trace, whatever blanks stand in front of it and whatever has been
      stripped before. */
  lemma SkippedVanishes(kind: Skipped, blank: Text, inner: Text, rest: Text, stripped: Text)
    requires Blank(blank) && ClosesOnce(kind, inner, rest)
    ensures Strip(blank + SkippedThen(kind, inner, rest), stripped) == Strip(rest, stripped)
  {
    var s := SkippedThen(kind, inner, rest);
    var n := |Opening(kind)| + |inner|;
    assert s[0] == '<' && StartsWith(s, Opening(kind));
    assert s[n..] == Closing(kind) + rest && s[n + |Closing(kind)|..] == rest;
    BehindFirst(s, Closing(kind), n);
    StripSkips(blank, s, stripped);
    StripSkippedIs(kind, s, stripped);
  }

  /** One that is not closed takes the rest of the text with it. */
  lemma UnclosedTakesAll(kind: Skipped, blank: Text, s: Text, stripped: Text)
    requires Blank(blank) && StartsWith(s, Opening(kind)) && NoneBefore(s, Closing(kind), |s|)
    ensures Strip(blank + s, stripped) == stripped
  {
    assert s[0] == '<';
    BehindNone(s, Closing(kind));
    StripSkips(blank, s, stripped);
    StripSkippedIs(kind, s, stripped);
  }

  /** For a whole text; and text in front of it is trimmed as in front of a tag. */
  lemma StrippedSkipsComments(kind: Skipped, blank: Text, inner: Text, rest: Text, text: Text)
    requires Blank(blank) && ClosesOnce(kind, inner, rest) && FreeOf(text, Angle)
    ensures Stripped(blank + SkippedThen(kind, inner, rest)) == Stripped(rest)
    ensures Stripped(text + SkippedThen(kind, inner, rest)) == Strip(rest, Trim(text))
  {
    var s := SkippedThen(kind, inner, rest);
    assert s[0] == '<' && [] + s == s && [] + Trim(text) == Trim(text);
    SkippedVanishes(kind, blank, inner, rest, []);
    StripContent(text, s, []);
    SkippedVanishes(kind, [], inner, rest, Trim(text));
  }

  // ---------------------------------------------------------------- blanks inside a tag

  /** An attribute as it may be written: blanks before its name and on both sides of the equals sign. */
  datatype Loose = Loose(attribute: Attribute, before: Text, left: Text, right: Text)

  predicate IsLoose(l: Loose) {
    && FreeOf(l.attribute.name, AttributeNameEnd)
    && l.before != [] && Blank(l.before) && Blank(l.left) && Blank(l.right)
  }

  function LooseValue(l: Loose, rest: Text): Text {
    l.left + (['='] + (l.right + (['"'] + (Escape(l.attribute.value) + (['"'] + rest)))))
  }

  function LooseThen(loose: seq<Loose>, rest: Text): Text {
    if loose == [] then rest
    else loose[0].before + (loose[0].attribute.name + LooseValue(loose[0], LooseThen(loose[1..], rest)))
  }

  function AttributesOf(loose: seq<Loose>): seq<Attribute> {
    if loose == [] then [] else [loose[0].attribute] + AttributesOf(loose[1..])
  }

  lemma LooseValueScanned(l: Loose, rest: Text)
    requires IsLoose(l)
    ensures SkipSpaces(LooseValue(l, rest)) == LooseValue(l.(left := []), rest)
    ensures StartsWith(LooseValue(l.(left := []), rest), "=")
    ensures ValueScan(LooseValue(l.(left := []), rest)[1..])
            == Scan(rest, ['"'] + (Escape(l.attribute.value) + ['"']))
  {
    var value := ['"'] + (Escape(l.attribute.value) + (['"'] + rest));
    var equals := ['='] + (l.right + value);
    assert LooseValue(l.(left := []), rest) == equals && equals[1..] == l.right + value;
    BlankSkipped(l.left, equals);
    BlankSkipped(l.right, value);
    assert SkipSpaces(value) == value;
    ValueScanned(l.attribute.value, rest);
  }

  /** Blanks around the equals sign are dropped. */
  lemma LooseAttributeScanned(l: Loose, rest: Text)
    requires IsLoose(l)
    ensures var s := l.attribute.name + LooseValue(l, rest);
            AttributeScan(SkipSpaces(s)) == Scan(rest, AttributeThen(l.attribute, []))
  {
    var name := l.attribute.name;
    LooseValueScanned(l, rest);
    assert ['"'] + [] == ['"'];
    if name == [] {
      var t := LooseValue(l.(left := []), rest);
      assert name + LooseValue(l, rest) == LooseValue(l, rest);
      assert Before(t, AttributeNameEnd) == [] && From(t, AttributeNameEnd) == t && SkipSpaces(t) == t;
    } else {
      var s := name + LooseValue(l, rest);
      assert s[0] == name[0];
      assert LooseValue(l, rest)[0] == if l.left == [] then '=' else l.left[0];
      ScanOver(name, LooseValue(l, rest), AttributeNameEnd);
    }
  }

  lemma LooseBegins(l: Loose, rest: Text)
    requires IsLoose(l)
    ensures var s := l.before + (l.attribute.name + LooseValue(l, rest));
            && s != [] && IsSpace(s[0]) && SkipSpaces(s) == SkipSpaces(l.attribute.name + LooseValue(l, rest))
            && !StartsWith(SkipSpaces(s), ">")
  {
    var s := l.attribute.name + LooseValue(l, rest);
    SkipBlankFirst(l.before, s);
    LooseValueScanned(l, rest);
    if l.attribute.name == [] {
      assert s == LooseValue(l, rest);
    } else {
      assert s[0] == l.attribute.name[0];
    }
  }

  /** However the attributes of a tag are laid out, they are copied with one space before each and none elsewhere. */
  lemma {:induction false} LooseScanned(loose: seq<Loose>, blank: Text, rest: Text)
    requires (forall i :: 0 <= i < |loose| ==> IsLoose(loose[i])) && Blank(blank)
    ensures AttributesScan(LooseThen(loose, blank + (['>'] + rest)))
            == Scan(['>'] + rest, AttributesThen(AttributesOf(loose), []))
  {
    var end := blank + (['>'] + rest);
    if loose == [] {
      BlankSkipped(blank, ['>'] + rest);
    } else {
      var l, more := loose[0], LooseThen(loose[1..], end);
      LooseScanned(loose[1..], blank, rest);
      LooseBegins(l, more);
      LooseAttributeScanned(l, more);
      LooseIsLong(loose[1..], end);
      AttributeBefore(l.attribute, AttributesThen(AttributesOf(loose[1..]), []));
      assert AttributesOf(loose)[1..] == AttributesOf(loose[1..]);
      assert SkipSpaces(LooseThen(loose, end)) == SkipSpaces(l.attribute.name + LooseValue(l, more));
    }
  }

  lemma LooseIsLong(loose: seq<Loose>, rest: Text)
    requires rest != []
    ensures LooseThen(loose, rest) != []
  {
  }

  /** The opening tag of an element, laid out in any way, is stripped to what toString prints. */
  lemma LooseTagStripped(blank: Text, e: Element, loose: seq<Loose>, end: Text, rest: Text, stripped: Text)
    requires GoodTagName(e.name) && e.attributes == AttributesOf(loose) && Blank(blank) && Blank(end)
    requires forall i :: 0 <= i < |loose| ==> IsLoose(loose[i])
    ensures Strip(blank + (['<'] + (e.name + LooseThen(loose, end + (['>'] + rest)))), stripped)
            == Strip(rest, stripped + OpenThen(e, []))
  {
    var attributes := LooseThen(loose, end + (['>'] + rest));
    var s := ['<'] + (e.name + attributes);
    LooseTagScanned(e, loose, end, rest);
    LooseEnds(loose, end, rest);
    EndIsNoMark(attributes[0]);
    NotPrefixed(e.name, attributes, "!--");
    NotPrefixed(e.name, attributes, "?");
    hide *;
    StripSkips(blank, s, stripped);
    StripTag(s, stripped);
  }

  lemma {:induction false} LooseEnds(loose: seq<Loose>, end: Text, rest: Text)
    requires (forall i :: 0 <= i < |loose| ==> IsLoose(loose[i])) && Blank(end)
    ensures var s := LooseThen(loose, end + (['>'] + rest)); s != [] && (IsSpace(s[0]) || s[0] == '>')
  {
    if loose != [] {
      var l := loose[0];
      assert IsLoose(l);
      assert LooseThen(loose, end + (['>'] + rest))[0] == l.before[0];
    }
  }

  lemma EndIsNoMark(c: Byte)
    requires IsSpace(c) || c == '>'
    ensures Stops(TagNameEnd, c) && c !in "?" && c !in "!--"
  {
  }

  lemma LooseTagScanned(e: Element, loose: seq<Loose>, end: Text, rest: Text)
    requires FreeOf(e.name, TagNameEnd) && e.attributes == AttributesOf(loose) && Blank(end)
    requires forall i :: 0 <= i < |loose| ==> IsLoose(loose[i])
    ensures TagScan(['<'] + (e.name + LooseThen(loose, end + (['>'] + rest)))) == Scan(rest, OpenThen(e, []))
  {
    var attributes := LooseThen(loose, end + (['>'] + rest));
    var name: Text := ['<'] + e.name;
    LooseEnds(loose, end, rest);
    EndIsNoMark(attributes[0]);
    Regroup(['<'], e.name, attributes);
    ScanOver(name, attributes, TagNameEnd);
    LooseScanned(loose, end, rest);
    assert (['>'] + rest)[1..] == rest && ['>'] + [] == ['>'];
    AttributesBefore(e.attributes, ['>']);
    Regroup(['<'], e.name, AttributesThen(e.attributes, ['>']));
  }

  // ---------------------------------------------------------------- what is not well-formed

  /** An attribute without a value gets a space behind it. */
  lemma ValuelessScanned(name: Text, blank: Text, rest: Text)
    requires FreeOf(name, AttributeNameEnd) && Blank(blank)
    requires rest != [] && !IsSpace(rest[0]) && rest[0] != '=' && (blank == [] ==> rest[0] == '>')
    ensures AttributeScan(name + (blank + rest)) == Scan(rest, name + [' '])
  {
    BlankSkipped(blank, rest);
    assert (blank + rest)[0] == if blank == [] then rest[0] else blank[0];
    ScanOver(name, blank + rest, AttributeNameEnd);
  }

  /** A tag cut off behind its name is copied with a space behind it. */
  lemma CutOffTag(name: Text, stripped: Text)
    requires GoodTagName(name)
    ensures Strip(['<'] + name, stripped) == stripped + (['<'] + (name + [' ']))
  {
    var s: Text := ['<'] + name;
    assert s + [] == s && SkipSpaces(s) == s;
    ScanOver(s, [], TagNameEnd);
    assert AttributeScan([]) == Scan([], [' ']);
    assert AttributesScan([]) == Scan([], [' ']) && TagScan(s) == Scan([], s + [' ']);
    assert forall i :: 1 <= i < |s| ==> s[i] == name[i - 1];
    Regroup(['<'], name, [' ']);
  }

  /** Text at the end of the input is trimmed like text in front of a tag. */
  lemma LastText(x: Text, stripped: Text)
    requires FreeOf(x, Angle) && (stripped == [] || !IsSpace(stripped[|stripped| - 1]))
    ensures Strip(x, stripped) == stripped + Trim(x)
  {
    var t := SkipSpaces(x);
    SkipStaysFree(x, Angle);
    if t == [] {
      assert stripped + [] == stripped;
    } else {
      assert t + [] == t;
      ScanOver(t, [], Angle);
      TrailingRemoved(stripped, t);
      assert t[0] != '<';
    }
  }
}
