/** XML elements as objects (CppUnit_1.12.1/src/cppunit/XmlElement.cpp). */
module XmlElements {
  import opened Sequences
  import opened XmlSpec
  import opened XmlStripping

  /** escape. */
  method EscapeText(value: Text) returns (escaped: Text)
    ensures escaped == Escape(value)
  {
    escaped := [];
    var index := 0;
    assert value[0..] == value;
    while index < |value|
      invariant 0 <= index <= |value| && escaped + Escape(value[index..]) == Escape(value)
    {
      var c := value[index];
      assert value[index..][1..] == value[index + 1..];
      Regroup(escaped, EscapeChar(c), Escape(value[index + 1..]));
      if c == '<' {
        escaped := escaped + "&lt;";
      } else if c == '>' {
        escaped := escaped + "&gt;";
      } else if c == '&' {
        escaped := escaped + "&amp;";
      } else if c == '\'' {
        escaped := escaped + "&apos;";
      } else if c == '"' {
        escaped := escaped + "&quot;";
      } else {
        escaped := escaped + [c];
      }
      index := index + 1;
    }
  }

  class XmlElement {
    var name: Text
    var content: Text
    var attributes: seq<Attribute>
    var elements: seq<XmlElement>
    /** The element as a value, and the objects it consists of. */
    ghost var value: Element
    ghost var Repr: set<object>

    /** The elements below this one form a tree. */
    ghost predicate Valid()
      reads this, Repr
      decreases Repr
    {
      && this in Repr
      && value.name == name && value.attributes == attributes && value.content == content
      && |value.children| == |elements|
      && (forall i :: 0 <= i < |elements| ==>
            && elements[i] in Repr && elements[i].Repr <= Repr && this !in elements[i].Repr
            && elements[i].Valid() && value.children[i] == elements[i].value)
      && (forall i, j :: 0 <= i < j < |elements| ==> elements[i].Repr !! elements[j].Repr)
    }

    constructor (elementName: Text, content: Text)
      ensures Valid() && fresh(Repr) && value == Element(elementName, [], content, [])
    {
      name, this.content, attributes, elements := elementName, content, [], [];
      value := Element(elementName, [], content, []);
      Repr := {this};
    }

    method SetName(name: Text)
      requires Valid()
      modifies this`name, this`value
      ensures Valid() && value == old(value).(name := name)
    {
      this.name := name;
      value := value.(name := name);
    }

    method SetContent(content: Text)
      requires Valid()
      modifies this`content, this`value
      ensures Valid() && value == old(value).(content := content)
    {
      this.content := content;
      value := value.(content := content);
    }

    method AddAttribute(attributeName: Text, attributeValue: Text)
      requires Valid()
      modifies this`attributes, this`value
      ensures Valid()
      ensures value == old(value).(attributes := old(value).attributes + [Attribute(attributeName, attributeValue)])
    {
      attributes := attributes + [Attribute(attributeName, attributeValue)];
      value := value.(attributes := attributes);
    }

    /** The node belongs to this element from now on; it must not contain it, nor be in it already. */
    method AddElement(node: XmlElement)
      requires Valid() && node.Valid() && Repr !! node.Repr
      modifies this`elements, this`value, this`Repr
      ensures Valid() && Repr == old(Repr) + node.Repr
      ensures value == old(value).(children := old(value).children + [node.value])
    {
      elements := elements + [node];
      value := value.(children := value.children + [node.value]);
      Repr := Repr + node.Repr;
    }

    /** elementFor: the first child of that name; without one the source throws. */
    method ElementFor(name: Text) returns (index: nat)
      requires Valid()
      ensures index <= |elements| && forall i :: 0 <= i < index ==> value.children[i].name != name
      ensures index < |elements| ==> value.children[index].name == name
    {
      index := 0;
      while index < |elements|
        invariant index <= |elements| && forall i :: 0 <= i < index ==> value.children[i].name != name
      {
        if elements[index].name == name {
          return index;
        }
        index := index + 1;
      }
    }

    method AttributesAsString() returns (text: Text)
      requires Valid()
      ensures attributes != [] ==> [' '] + text == AttributesThen(attributes, [])
      ensures attributes == [] ==> text == []
    {
      text := [];
      var i := 0;
      ghost var all := AttributesThen(attributes, []);
      while i < |attributes|
        invariant 0 <= i <= |attributes|
        invariant i == 0 ==> text == []
        invariant 0 < i ==> text != [] && [' '] + (text + AttributesThen(attributes[i..], [])) == all
      {
        ghost var before := text;
        var a := attributes[i];
        if text != [] {
          text := text + [' '];
        }
        var escaped := EscapeText(a.value);
        var one := a.name + ['='] + ['"'] + escaped + ['"'];
        AttributeText(a, escaped, one);
        text := text + one;
        AttributeRound(attributes, i, before, text);
        i := i + 1;
      }
      assert text + [] == text;
    }

    /** The opening tag. */
    method OpenText(indent: Text) returns (element: Text)
      requires Valid()
      ensures element == indent + OpenThen(value, [])
    {
      element := indent + ['<'] + name;
      ghost var printed: Text := [];
      if attributes != [] {
        var text := AttributesAsString();
        Regroup(element, [' '], text);
        element := element + [' '] + text;
        printed := [' '] + text;
      }
      OpenInParts(value, indent, printed);
      element := element + ['>'];
    }

    /** The loop of toString over the children. */
    method ChildrenText(indent: Text) returns (element: Text)
      requires Valid()
      ensures element == ChildrenThen(value.children, indent, [])
      decreases Repr, 0
    {
      element := [];
      var i := 0;
      assert value.children[..0] == [];
      while i < |elements|
        invariant 0 <= i <= |elements| && element == ChildrenThen(value.children[..i], indent, [])
      {
        var node := elements[i].ToText(indent);
        ChildrenStep(value.children, i, indent);
        element := element + node;
        i := i + 1;
      }
      assert value.children[..i] == value.children;
    }

    /** The content, on lines of its own when there are children. */
    method ContentText(indent: Text) returns (text: Text)
      requires Valid()
      ensures text == if value.content == [] then []
                         else Escape(value.content) + if value.children == [] then [] else ['\n'] + indent
    {
      text := [];
      if content != [] {
        text := EscapeText(content);
        if elements != [] {
          Regroup(text, ['\n'], indent);
          text := text + ['\n'] + indent;
        } else {
          assert text + [] == text;
        }
      }
    }

    /** The children, on lines of their own. */
    method ElementsText(indent: Text) returns (children: Text)
      requires Valid()
      ensures children == if value.children == [] then []
                          else ['\n'] + ChildrenThen(value.children, indent + "  ", []) + indent
      decreases Repr, 1
    {
      children := [];
      if elements != [] {
        children := ChildrenText(indent + "  ");
        children := ['\n'] + children + indent;
      }
    }

    /** toString. */
    method ToText(indent: Text) returns (element: Text)
      requires Valid()
      ensures element == ToString(value, indent)
      decreases Repr, 2
    {
      assert name == value.name;
      hide *;
      var open := OpenText(indent);
      var children := ElementsText(indent);
      var text := ContentText(indent);
      element := open + children + text + ("</" + name + ['>', '\n']);
      PrintedInParts(value, indent, children, text, element);
    }
  }

  /** One round of attributesAsString. */
  lemma AttributeRound(attributes: seq<Attribute>, i: nat, before: Text, after: Text)
    requires i < |attributes| && (i == 0 ==> before == [])
    requires after == (if before != [] then before + [' '] else before) + AttributeThen(attributes[i], [])
    requires 0 < i ==>
               before != [] && [' '] + (before + AttributesThen(attributes[i..], [])) == AttributesThen(attributes, [])
    ensures after != []
    ensures [' '] + (after + AttributesThen(attributes[i + 1..], [])) == AttributesThen(attributes, [])
  {
    var a, more := attributes[i], AttributesThen(attributes[i + 1..], []);
    AttributeBefore(a, more);
    assert attributes[i..][1..] == attributes[i + 1..];
    if i == 0 {
      assert attributes[0..] == attributes && [] + AttributeThen(a, []) == AttributeThen(a, []);
    } else {
      Regroup(before, [' '], AttributeThen(a, more));
      Regroup(before + [' '], AttributeThen(a, []), more);
    }
  }

  lemma AttributeText(a: Attribute, escaped: Text, text: Text)
    requires escaped == Escape(a.value) && text == a.name + ['='] + ['"'] + escaped + ['"']
    ensures text == AttributeThen(a, [])
  {
    var quote: Text := ['"'];
    assert quote + [] == quote;
    Regroup(a.name, ['='], quote);
    Regroup(a.name, ['='] + quote, escaped);
    Regroup(a.name, ['='] + quote + escaped, quote);
    Regroup(['='], quote, escaped);
    Regroup(['='], quote + escaped, quote);
    Regroup(quote, escaped, quote);
  }

  lemma OpenInParts(e: Element, indent: Text, attributes: Text)
    requires attributes == AttributesThen(e.attributes, [])
    ensures indent + ['<'] + e.name + attributes + ['>'] == indent + OpenThen(e, [])
  {
    AttributesBefore(e.attributes, ['>']);
    assert ['>'] + [] == ['>'];
    Regroup(indent, ['<'], e.name);
    Regroup(indent, ['<'] + e.name, attributes);
    Regroup(indent, ['<'] + e.name + attributes, ['>']);
    Regroup(['<'], e.name, attributes);
    Regroup(['<'], e.name + attributes, ['>']);
    Regroup(e.name, attributes, ['>']);
  }

  // ---------------------------------------------------------------- printing in front of a text

  lemma PrintBefore(e: Element, indent: Text, s: Text, rest: Text)
    ensures PrintThen(e, indent, s) + rest == PrintThen(e, indent, s + rest)
    decreases e, 1
  {
    var close := CloseThen(e, ['\n'] + s);
    Regroup(['\n'], s, rest);
    CloseBefore(e, ['\n'] + s, rest);
    InnerBefore(e, indent, close, rest);
    var inner := InnerThen(e, indent, close);
    OpenBefore(e, inner);
    OpenBefore(e, inner + rest);
    Regroup(OpenThen(e, []), inner, rest);
    Regroup(indent, OpenThen(e, inner), rest);
  }

  lemma TailBefore(e: Element, indent: Text, close: Text, rest: Text)
    ensures (indent + Tail(e, indent, close)) + rest == indent + Tail(e, indent, close + rest)
  {
    var text := Escape(e.content);
    Regroup(indent, close, rest);
    Regroup(['\n'], indent + close, rest);
    Regroup(text, close, rest);
    Regroup(text, ['\n'] + (indent + close), rest);
    Regroup(indent, Tail(e, indent, close), rest);
  }

  lemma InnerBefore(e: Element, indent: Text, close: Text, rest: Text)
    ensures InnerThen(e, indent, close) + rest == InnerThen(e, indent, close + rest)
    decreases e, 0
  {
    if e.children == [] {
      InnerIsBetween(e, indent, close);
      InnerIsBetween(e, indent, close + rest);
      Regroup(Between(e, indent), close, rest);
    } else {
      var tail := indent + Tail(e, indent, close);
      TailBefore(e, indent, close, rest);
      ChildrenBefore(e.children, indent + "  ", tail, rest);
      Regroup(['\n'], ChildrenThen(e.children, indent + "  ", tail), rest);
      InnerIsBetween(e, indent, close);
      InnerIsBetween(e, indent, close + rest);
    }
  }

  lemma ChildrenBefore(es: seq<Element>, indent: Text, s: Text, rest: Text)
    ensures ChildrenThen(es, indent, s) + rest == ChildrenThen(es, indent, s + rest)
    decreases es
  {
    if es != [] {
      PrintBefore(es[0], indent, ChildrenThen(es[1..], indent, s), rest);
      ChildrenBefore(es[1..], indent, s, rest);
    }
  }

  lemma {:induction false} ChildrenSplit(a: seq<Element>, b: seq<Element>, indent: Text, rest: Text)
    ensures ChildrenThen(a + b, indent, rest) == ChildrenThen(a, indent, ChildrenThen(b, indent, rest))
  {
    if a == [] {
      assert a + b == b;
    } else {
      assert (a + b)[1..] == a[1..] + b;
      ChildrenSplit(a[1..], b, indent, rest);
    }
  }

  lemma ChildrenStep(es: seq<Element>, i: nat, indent: Text)
    requires i < |es|
    ensures ChildrenThen(es[..i], indent, []) + ToString(es[i], indent) == ChildrenThen(es[..i + 1], indent, [])
  {
    var node := ToString(es[i], indent);
    assert es[..i + 1] == es[..i] + [es[i]];
    ChildrenSplit(es[..i], [es[i]], indent, []);
    ChildrenBefore(es[..i], indent, [], node);
    assert [] + node == node;
    assert ChildrenThen([es[i]], indent, []) == node by {
      assert [es[i]][1..] == [];
    }
  }

  /** The parts that toString appends one after the other. */
  lemma PrintedInParts(e: Element, indent: Text, children: Text, content: Text, all: Text)
    requires children == if e.children == [] then [] else ['\n'] + ChildrenThen(e.children, indent + "  ", []) + indent
    requires content == if e.content == [] then []
                        else Escape(e.content) + if e.children == [] then [] else ['\n'] + indent
    requires all == indent + OpenThen(e, []) + children + content + ("</" + e.name + ['>', '\n'])
    ensures all == ToString(e, indent)
  {
    var close := "</" + e.name + ['>', '\n'];
    assert close == CloseThen(e, ['\n'] + []);
    InnerInParts(e, indent, children, content, close);
    var open := OpenThen(e, []);
    OpenBefore(e, children + content + close);
    Regroup(indent, open, children);
    Regroup(indent, open + children, content);
    Regroup(indent, open + children + content, close);
    Regroup(open, children, content);
    Regroup(open, children + content, close);
  }

  lemma InnerInParts(e: Element, indent: Text, children: Text, content: Text, close: Text)
    requires children == if e.children == [] then [] else ['\n'] + ChildrenThen(e.children, indent + "  ", []) + indent
    requires content == if e.content == [] then []
                        else Escape(e.content) + if e.children == [] then [] else ['\n'] + indent
    ensures children + content + close == InnerThen(e, indent, close)
  {
    InnerIsBetween(e, indent, close);
    var text := Escape(e.content);
    var line := ['\n'] + indent;
    if e.children == [] {
      assert children + content == content && text + [] == text;
      assert e.content == [] ==> text == [];
    } else {
      var tail := indent + Tail(e, indent, close);
      var kids := ChildrenThen(e.children, indent + "  ", []);
      ChildrenBefore(e.children, indent + "  ", [], tail);
      assert [] + tail == tail;
      Regroup(['\n'], kids, indent);
      Regroup(['\n'], kids + indent, content);
      Regroup(['\n'], kids + indent + content, close);
      Regroup(kids, indent, content);
      Regroup(kids, indent + content, close);
      Regroup(indent, content, close);
      Regroup(text, line, close);
      Regroup(['\n'], indent, close);
      assert content + close == Tail(e, indent, close) by {
        assert e.content == [] ==> content + close == close;
      }
    }
  }

  // ---------------------------------------------------------------- line by line

  function AttributeTexts(attributes: seq<Attribute>): Text {
    if attributes == [] then [] else
      var a := attributes[0];
      [' '] + a.name + ['=', '"'] + Escape(a.value) + ['"'] + AttributeTexts(attributes[1..])
  }

  function OpenTag(e: Element): Text {
    ['<'] + e.name + AttributeTexts(e.attributes) + ['>']
  }

  function CloseTag(e: Element): Text {
    ['<', '/'] + e.name + ['>']
  }

  /** An element without children takes one line; otherwise its tags and its content take a line each, and the
      children stand in between, two columns further to the right. */
  function Lines(e: Element, indent: Text): seq<Text>
    decreases e
  {
    if e.children == [] then [indent + OpenTag(e) + Escape(e.content) + CloseTag(e)]
    else [indent + OpenTag(e)] + LinesOfAll(e.children, indent + [' ', ' ']) + LastLines(e, indent)
  }

  function LastLines(e: Element, indent: Text): seq<Text> {
    (if e.content == [] then [] else [indent + Escape(e.content)]) + [indent + CloseTag(e)]
  }

  function LinesOfAll(es: seq<Element>, indent: Text): seq<Text>
    decreases es
  {
    if es == [] then [] else Lines(es[0], indent) + LinesOfAll(es[1..], indent)
  }

  function Unlines(lines: seq<Text>): Text {
    if lines == [] then [] else lines[0] + ['\n'] + Unlines(lines[1..])
  }

  lemma {:induction false} UnlinesJoin(a: seq<Text>, b: seq<Text>)
    ensures Unlines(a + b) == Unlines(a) + Unlines(b)
  {
    if a == [] {
      assert a + b == b && [] + Unlines(b) == Unlines(b);
    } else {
      assert (a + b)[1..] == a[1..] + b;
      UnlinesJoin(a[1..], b);
      Regroup(a[0] + ['\n'], Unlines(a[1..]), Unlines(b));
    }
  }

  lemma UnlinesOne(line: Text)
    ensures Unlines([line]) == line + ['\n']
  {
    assert [line][1..] == [] && line + ['\n'] + [] == line + ['\n'];
  }

  lemma {:induction false} AttributesAreTexts(attributes: seq<Attribute>)
    ensures AttributesThen(attributes, []) == AttributeTexts(attributes)
  {
    if attributes != [] {
      var a, more := attributes[0], AttributeTexts(attributes[1..]);
      AttributesAreTexts(attributes[1..]);
      var value := Escape(a.value);
      assert AttributeTexts(attributes) == [' '] + (a.name + (['='] + (['"'] + (value + (['"'] + more)))));
    }
  }

  lemma OpenIsTagText(e: Element)
    ensures OpenThen(e, []) == OpenTag(e)
  {
    AttributesAreTexts(e.attributes);
    AttributesBefore(e.attributes, ['>']);
    assert ['>'] + [] == ['>'];
    Regroup(['<'], e.name, AttributeTexts(e.attributes));
    Regroup(['<'], e.name + AttributeTexts(e.attributes), ['>']);
    Regroup(e.name, AttributeTexts(e.attributes), ['>']);
  }

  lemma ChildrenAreLines(es: seq<Element>, indent: Text)
    ensures ChildrenThen(es, indent, []) == Unlines(LinesOfAll(es, indent))
    decreases es
  {
    if es != [] {
      var more := ChildrenThen(es[1..], indent, []);
      PrintedLines(es[0], indent);
      ChildrenAreLines(es[1..], indent);
      PrintBefore(es[0], indent, [], more);
      assert [] + more == more;
      UnlinesJoin(Lines(es[0], indent), LinesOfAll(es[1..], indent));
    }
  }

  /** What toString prints, line by line. */
  lemma PrintedLines(e: Element, indent: Text)
    ensures ToString(e, indent) == Unlines(Lines(e, indent))
    decreases e
  {
    var inner: Text := indent + "  ";
    var kids := ChildrenThen(e.children, inner, []);
    var children := if e.children == [] then [] else ['\n'] + kids + indent;
    var content := if e.content == [] then []
                   else Escape(e.content) + if e.children == [] then [] else ['\n'] + indent;
    var all := indent + OpenThen(e, []) + children + content + ("</" + e.name + ['>', '\n']);
    PrintedInParts(e, indent, children, content, all);
    OpenIsTagText(e);
    if e.children == [] {
      hide *;
      OneLine(e, indent, content, all);
    } else {
      ChildrenAreLines(e.children, inner);
      assert inner == indent + [' ', ' '];
      hide *;
      ManyLines(e, indent, content, all);
    }
  }

  lemma OneLine(e: Element, indent: Text, content: Text, all: Text)
    requires e.children == [] && content == if e.content == [] then [] else Escape(e.content) + []
    requires all == indent + OpenTag(e) + [] + content + ("</" + e.name + ['>', '\n'])
    ensures all == Unlines(Lines(e, indent))
  {
    assert content == Escape(e.content);
    UnlinesOne(indent + OpenTag(e) + Escape(e.content) + CloseTag(e));
    assert "</" + e.name + ['>', '\n'] == CloseTag(e) + ['\n'];
    Regroup(indent + OpenTag(e) + content, CloseTag(e), ['\n']);
    assert indent + OpenTag(e) + [] == indent + OpenTag(e);
  }

  lemma ManyLines(e: Element, indent: Text, content: Text, all: Text)
    requires e.children != []
    requires content == if e.content == [] then [] else Escape(e.content) + (['\n'] + indent)
    requires var kids := Unlines(LinesOfAll(e.children, indent + [' ', ' ']));
             all == indent + OpenTag(e) + (['\n'] + kids + indent) + content + ("</" + e.name + ['>', '\n'])
    ensures all == Unlines(Lines(e, indent))
  {
    var first := [indent + OpenTag(e)];
    var middle := LinesOfAll(e.children, indent + [' ', ' ']);
    var kids := Unlines(middle);
    UnlinesOne(indent + OpenTag(e));
    UnlinesJoin(first, middle);
    UnlinesJoin(first + middle, LastLines(e, indent));
    LastAreLines(e, indent, content);
    hide *;
    LinesMeet(indent + OpenTag(e), kids, indent, content, "</" + e.name + ['>', '\n']);
  }

  lemma LinesMeet(open: Text, kids: Text, indent: Text, content: Text, close: Text)
    ensures open + (['\n'] + kids + indent) + content + close
            == (open + ['\n'] + kids) + (indent + content + close)
  {
    Regroup(open, ['\n'] + kids, indent);
    Regroup(open, ['\n'], kids);
    Regroup(open + ['\n'] + kids, indent, content);
    Regroup(open + ['\n'] + kids, indent + content, close);
  }

  lemma LastAreLines(e: Element, indent: Text, content: Text)
    requires content == if e.content == [] then [] else Escape(e.content) + (['\n'] + indent)
    ensures indent + content + ("</" + e.name + ['>', '\n']) == Unlines(LastLines(e, indent))
  {
    var close := CloseTag(e);
    assert "</" + e.name + ['>', '\n'] == close + ['\n'];
    UnlinesOne(indent + close);
    Regroup(indent, close, ['\n']);
    if e.content == [] {
      assert indent + content == indent;
      assert [] + [indent + close] == [indent + close];
    } else {
      var text := Escape(e.content);
      UnlinesOne(indent + text);
      UnlinesJoin([indent + text], [indent + close]);
      Regroup(indent, text, ['\n'] + indent);
      Regroup(indent + text, ['\n'], indent);
      Regroup(indent + text + ['\n'], indent, close + ['\n']);
    }
  }
}
