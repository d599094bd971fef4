/** Printed XML elements and the scanner that strips their layout, as functions on text
    (CppUnit_1.12.1/src/cppunit/XmlElement.cpp, CppUnit_1.12.1/examples/cppunittest/XmlUniformiser.cpp). */
module XmlSpec {

  type Byte = c: char | c as int < 0x100 witness ' '
  type Text = seq<Byte>

  datatype Attribute = Attribute(name: Text, value: Text)

  datatype Element = Element(name: Text, attributes: seq<Attribute>, content: Text, children: seq<Element>)

  /** Whether `char` is signed is up to the host. */
  const CHAR_IS_SIGNED: bool

  /** c < 33, as the scanner compares plain characters. */
  predicate IsSpace(c: Byte) {
    c as int < 33 || (CHAR_IS_SIGNED && 128 <= c as int)
  }

  predicate Blank(s: Text) {
    forall i :: 0 <= i < |s| ==> IsSpace(s[i])
  }

  // ---------------------------------------------------------------- printing

  function EscapeChar(c: Byte): Text {
    if c == '<' then "&lt;" else if c == '>' then "&gt;" else if c == '&' then "&amp;"
    else if c == '\'' then "&apos;" else if c == '"' then "&quot;" else [c]
  }

  function Escape(s: Text): Text {
    if s == [] then [] else EscapeChar(s[0]) + Escape(s[1..])
  }

  function AttributeThen(a: Attribute, rest: Text): Text {
    a.name + (['='] + (['"'] + (Escape(a.value) + (['"'] + rest))))
  }

  /** The attributes, each behind a space, followed by `rest`. */
  function AttributesThen(attributes: seq<Attribute>, rest: Text): Text {
    if attributes == [] then rest else
      [' '] + AttributeThen(attributes[0], AttributesThen(attributes[1..], rest))
  }

  function OpenThen(e: Element, rest: Text): Text {
    ['<'] + (e.name + AttributesThen(e.attributes, ['>'] + rest))
  }

  function CloseThen(e: Element, rest: Text): Text {
    "</" + (e.name + (['>'] + rest))
  }

  /** What toString prints, followed by `rest`. */
  function PrintThen(e: Element, indent: Text, rest: Text): Text
    decreases e
  {
    indent + OpenThen(e, InnerThen(e, indent, CloseThen(e, ['\n'] + rest)))
  }

  /** What it prints between the tags. */
  function InnerThen(e: Element, indent: Text, rest: Text): Text
    decreases e, 0
  {
    var tail := if e.content == [] then rest else
                Escape(e.content) + if e.children == [] then rest else ['\n'] + (indent + rest);
    if e.children == [] then tail else ['\n'] + ChildrenThen(e.children, indent + "  ", indent + tail)
  }

  function ChildrenThen(children: seq<Element>, indent: Text, rest: Text): Text
    decreases children
  {
    if children == [] then rest else PrintThen(children[0], indent, ChildrenThen(children[1..], indent, rest))
  }

  // ---------------------------------------------------------------- scanning

  function SkipSpaces(s: Text): (r: Text)
    ensures |r| <= |s| && (r != [] ==> !IsSpace(r[0]))
  {
    if s != [] && IsSpace(s[0]) then SkipSpaces(s[1..]) else s
  }

  predicate StartsWith(s: Text, t: Text) {
    t <= s
  }

  /** What ends the copying of a tag name, of an attribute name, of a value and of content. */
  datatype Stop = TagNameEnd | AttributeNameEnd | Quote | Angle

  predicate Stops(stop: Stop, c: Byte) {
    match stop
    case TagNameEnd => IsSpace(c) || c == '>'
    case AttributeNameEnd => IsSpace(c) || c == '>' || c == '='
    case Quote => c == '"'
    case Angle => c == '<'
  }

  function Before(s: Text, stop: Stop): (r: Text)
    ensures |r| <= |s|
  {
    if s == [] || Stops(stop, s[0]) then [] else [s[0]] + Before(s[1..], stop)
  }

  function From(s: Text, stop: Stop): (r: Text)
    ensures |r| + |Before(s, stop)| == |s| && (r != [] ==> Stops(stop, r[0]))
    ensures s != [] && !Stops(stop, s[0]) ==> |r| < |s|
  {
    if s == [] || Stops(stop, s[0]) then s else From(s[1..], stop)
  }

  /** The rest behind the first occurrence of the mark. */
  function Behind(s: Text, mark: Text): (r: Text)
    ensures |r| <= |s| && (s != [] && mark != [] ==> |r| < |s|)
  {
    if s == [] then [] else if StartsWith(s, mark) then s[|mark|..] else Behind(s[1..], mark)
  }

  /** A result of scanning: what is left to read, and what has been copied. */
  datatype Scan = Scan(rest: Text, copied: Text)

  function CopyOne(s: Text): Scan {
    if s == [] then Scan([], []) else Scan(s[1..], [s[0]])
  }

  /** copyUntilDoubleQuote. */
  function QuoteScan(s: Text): (r: Scan)
    ensures |r.rest| <= |s|
  {
    var last := CopyOne(From(s, Quote));
    Scan(last.rest, Before(s, Quote) + last.copied)
  }

  /** copyAttributeValue. */
  function ValueScan(s: Text): (r: Scan)
    ensures |r.rest| <= |s|
  {
    var open := QuoteScan(SkipSpaces(s));
    var value := QuoteScan(open.rest);
    Scan(value.rest, open.copied + value.copied)
  }

  /** One round of the loop of copyElementAttributes, from a place that is neither a space nor the tag's end. */
  function AttributeScan(s: Text): (r: Scan)
    ensures s != [] && !IsSpace(s[0]) && s[0] != '>' ==> |r.rest| < |s|
    ensures |r.rest| <= |s|
  {
    var name := Before(s, AttributeNameEnd);
    var t := SkipSpaces(From(s, AttributeNameEnd));
    if StartsWith(t, "=") then
      var value := ValueScan(t[1..]);
      Scan(value.rest, name + (['='] + value.copied))
    else
      Scan(t, name + [' '])
  }

  /** The loop of copyElementAttributes. */
  function AttributesScan(s: Text): (r: Scan)
    ensures |r.rest| <= |s|
    decreases |s|
  {
    var t := SkipSpaces(s);
    if StartsWith(t, ">") then Scan(t, [])
    else
      var space := if s != [] && IsSpace(s[0]) then [' '] else [];
      var a := AttributeScan(t);
      if a.rest == [] then Scan([], space + a.copied)
      else
        var more := AttributesScan(a.rest);
        Scan(more.rest, space + (a.copied + more.copied))
  }

  /** copyElement. */
  function TagScan(s: Text): (r: Scan)
    ensures |r.rest| <= |s| && (s != [] && s[0] == '<' ==> |r.rest| < |s|)
  {
    var attributes := AttributesScan(From(s, TagNameEnd));
    var last := CopyOne(attributes.rest);
    Scan(last.rest, Before(s, TagNameEnd) + (attributes.copied + last.copied))
  }

  function RemoveTrailingSpaces(s: Text): Text {
    if 1 < |s| && IsSpace(s[|s| - 1]) then RemoveTrailingSpaces(s[..|s| - 1]) else s
  }

  /** The loop of stripped(): what is stripped so far, and all that the rest of the text adds to it. */
  function Strip(s: Text, stripped: Text): Text
    decreases |s|
  {
    if s == [] then stripped else
      var t := SkipSpaces(s);
      if StartsWith(t, "<?") then Strip(Behind(t, "?>"), stripped)
      else if StartsWith(t, "<!--") then Strip(Behind(t, "-->"), stripped)
      else if StartsWith(t, "<") then Strip(TagScan(t).rest, stripped + TagScan(t).copied)
      else Strip(From(t, Angle), RemoveTrailingSpaces(stripped + Before(t, Angle)))
  }
}
