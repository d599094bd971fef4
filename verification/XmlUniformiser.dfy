/** The stripping scanner as the object with xml, index and stripped
    (CppUnit_1.12.1/examples/cppunittest/XmlUniformiser.cpp). */
module XmlUniformisers {
  import opened Sequences
  import opened XmlSpec
  import opened XmlStripping

  class XmlUniformiser {
    const xml: Text
    var index: nat
    var stripped: Text

    ghost predicate Valid()
      reads this
    {
      index <= |xml|
    }

    /** What is left to read. */
    ghost function Left(): Text
      reads this
      requires Valid()
    {
      xml[index..]
    }

    constructor (xml: Text)
      ensures Valid() && Left() == xml && stripped == [] && this.xml == xml
    {
      this.xml, index, stripped := xml, 0, [];
    }

    predicate IsValidIndex()
      reads this
      requires Valid()
      ensures IsValidIndex() <==> Left() != []
    {
      index < |xml|
    }

    predicate AtSpace()
      reads this
      requires Valid()
      ensures AtSpace() <==> Left() != [] && IsSpace(Left()[0])
    {
      IsValidIndex() && IsSpace(xml[index])
    }

    /** startsWith: substr takes less when less is left. */
    predicate StartsHere(expected: Text)
      reads this
      requires Valid()
      ensures StartsHere(expected) <==> StartsWith(Left(), expected)
    {
      index + |expected| <= |xml| && xml[index..index + |expected|] == expected
    }

    /** skipNext. */
    method SkipNext(count: nat)
      requires Valid() && index + count <= |xml|
      modifies this`index
      ensures Valid() && Left() == old(Left())[count..]
    {
      var n := count;
      while 0 < n
        invariant Valid() && 0 <= n <= count && index == old(index) + count - n
      {
        index := index + 1;
        n := n - 1;
      }
      assert xml[old(index)..][count..] == xml[index..];
    }

    /** copyNext(1). */
    method CopyNext()
      requires Valid()
      modifies this`index, this`stripped
      ensures Valid() && Left() == CopyOne(old(Left())).rest && stripped == old(stripped) + CopyOne(old(Left())).copied
    {
      if IsValidIndex() {
        stripped := stripped + [xml[index]];
        index := index + 1;
      }
    }

    method SkipSpacesHere()
      requires Valid()
      modifies this`index
      ensures Valid() && Left() == SkipSpaces(old(Left())) && old(index) <= index
    {
      while AtSpace()
        invariant Valid() && SkipSpaces(Left()) == SkipSpaces(old(Left())) && old(index) <= index
        decreases |xml| - index
      {
        SkipNext(1);
      }
    }

    /** skipProcessed and skipComment. */
    method SkipBehind(mark: Text)
      requires Valid() && mark != []
      modifies this`index
      ensures Valid() && Left() == Behind(old(Left()), mark)
    {
      while IsValidIndex() && !StartsHere(mark)
        invariant Valid() && Behind(Left(), mark) == Behind(old(Left()), mark)
        decreases |xml| - index
      {
        SkipNext(1);
      }
      if IsValidIndex() {
        SkipNext(|mark|);
      }
    }

    /** The loops of copyElementName, copyAttributeName, copyUntilDoubleQuote and copyElementContent. */
    method CopyUntil(stop: Stop)
      requires Valid()
      modifies this`index, this`stripped
      ensures Valid() && Left() == From(old(Left()), stop) && stripped == old(stripped) + Before(old(Left()), stop)
    {
      while IsValidIndex() && !Stops(stop, xml[index])
        invariant Valid() && From(Left(), stop) == From(old(Left()), stop)
        invariant stripped + Before(Left(), stop) == old(stripped) + Before(old(Left()), stop)
        decreases |xml| - index
      {
        Regroup(stripped, [xml[index]], Before(Left()[1..], stop));
        CopyNext();
      }
      assert stripped + [] == stripped;
    }

    method CopyUntilDoubleQuote()
      requires Valid()
      modifies this`index, this`stripped
      ensures Valid()
      ensures Left() == QuoteScan(old(Left())).rest && stripped == old(stripped) + QuoteScan(old(Left())).copied
    {
      ghost var s, was := Left(), stripped;
      CopyUntil(Quote);
      Regroup(was, Before(s, Quote), CopyOne(Left()).copied);
      CopyNext();
    }

    method CopyAttributeValue()
      requires Valid()
      modifies this`index, this`stripped
      ensures Valid()
      ensures Left() == ValueScan(old(Left())).rest && stripped == old(stripped) + ValueScan(old(Left())).copied
    {
      ghost var s, was := Left(), stripped;
      SkipSpacesHere();
      ghost var t := Left();
      CopyUntilDoubleQuote();
      Regroup(was, QuoteScan(t).copied, QuoteScan(Left()).copied);
      CopyUntilDoubleQuote();
    }

    /** The part of the loop of copyElementAttributes that copies one attribute. */
    method CopyAttribute()
      requires Valid()
      modifies this`index, this`stripped
      ensures Valid()
      ensures Left() == AttributeScan(old(Left())).rest && stripped == old(stripped) + AttributeScan(old(Left())).copied
    {
      ghost var s, was := Left(), stripped;
      ghost var name := Before(s, AttributeNameEnd);
      CopyUntil(AttributeNameEnd);
      SkipSpacesHere();
      if StartsHere("=") {
        ghost var value := ValueScan(Left()[1..]);
        CopyNext();
        CopyAttributeValue();
        Regroup(was + name, ['='], value.copied);
        Regroup(was, name, ['='] + value.copied);
      } else {
        Regroup(was, name, [' ']);
        stripped := stripped + [' '];
      }
    }

    /** The loop of copyElementAttributes, up to the end of the tag. */
    method CopyAttributes()
      requires Valid()
      modifies this`index, this`stripped
      ensures Valid()
      ensures Left() == AttributesScan(old(Left())).rest
      ensures stripped == old(stripped) + AttributesScan(old(Left())).copied
    {
      ghost var all := stripped + AttributesScan(Left()).copied;
      var more := true;
      while more
        invariant Valid()
        invariant more ==> stripped + AttributesScan(Left()).copied == all
                           && AttributesScan(Left()).rest == AttributesScan(old(Left())).rest
        invariant !more ==> stripped == all && Left() == AttributesScan(old(Left())).rest
        decreases |xml| - index, more
      {
        ghost var s, was := Left(), stripped;
        var hadSpace := AtSpace();
        SkipSpacesHere();
        if StartsHere(">") {
          assert stripped + [] == stripped;
          more := false;
        } else {
          ghost var space: Text := if hadSpace then [' '] else [];
          ghost var a := AttributeScan(Left());
          RoundOf(s, was);
          if hadSpace {
            stripped := stripped + [' '];
          } else {
            assert stripped + space == stripped;
          }
          CopyAttribute();
          more := IsValidIndex();
        }
      }
    }

    /** copyElement. */
    method CopyElement()
      requires Valid()
      modifies this`index, this`stripped
      ensures Valid() && Left() == TagScan(old(Left())).rest && stripped == old(stripped) + TagScan(old(Left())).copied
    {
      ghost var s, was := Left(), stripped;
      CopyUntil(TagNameEnd);
      ghost var attributes := AttributesScan(Left());
      CopyAttributes();
      Regroup(was + Before(s, TagNameEnd), attributes.copied, CopyOne(attributes.rest).copied);
      Regroup(was, Before(s, TagNameEnd), attributes.copied + CopyOne(attributes.rest).copied);
      CopyNext();
    }

    method RemoveTrailing()
      modifies this`stripped
      ensures stripped == RemoveTrailingSpaces(old(stripped))
    {
      var length := |stripped|;
      assert stripped[..length] == stripped;
      while 0 < length - 1 && IsSpace(stripped[length - 1])
        invariant 0 <= length <= |stripped|
        invariant RemoveTrailingSpaces(stripped[..length]) == RemoveTrailingSpaces(stripped)
      {
        assert stripped[..length][..length - 1] == stripped[..length - 1];
        length := length - 1;
      }
      stripped := stripped[..length];
    }

    /** stripped. */
    method StripAll() returns (r: Text)
      requires Valid()
      modifies this`index, this`stripped
      ensures Valid() && r == stripped == Strip(old(Left()), old(stripped))
    {
      while IsValidIndex()
        invariant Valid() && Strip(Left(), stripped) == Strip(old(Left()), old(stripped))
        decreases |xml| - index
      {
        SkipSpacesHere();
        if StartsHere("<?") {
          SkipBehind("?>");
        } else if StartsHere("<!--") {
          SkipBehind("-->");
        } else if StartsHere("<") {
          CopyElement();
        } else {
          CopyUntil(Angle);
          RemoveTrailing();
        }
      }
      return stripped;
    }
  }

  lemma RoundOf(s: Text, was: Text)
    requires !StartsWith(SkipSpaces(s), ">")
    ensures var a := AttributeScan(SkipSpaces(s));
            var space: Text := if s != [] && IsSpace(s[0]) then [' '] else [];
            if a.rest == [] then
              AttributesScan(s).rest == [] && was + AttributesScan(s).copied == was + space + a.copied
            else
              && AttributesScan(s).rest == AttributesScan(a.rest).rest
              && was + AttributesScan(s).copied == was + space + a.copied + AttributesScan(a.rest).copied
  {
    var a := AttributeScan(SkipSpaces(s));
    var space: Text := if s != [] && IsSpace(s[0]) then [' '] else [];
    Regroup(was, space, a.copied);
    if a.rest != [] {
      var more := AttributesScan(a.rest).copied;
      Regroup(was + space, a.copied, more);
      Regroup(was, space, a.copied + more);
    }
  }

  /** notEqualIndex: the length of the longest common prefix. */
  method NotEqualIndex(expectedXml: Text, actualXml: Text) returns (index: nat)
    ensures index <= |expectedXml| && index <= |actualXml| && expectedXml[..index] == actualXml[..index]
    ensures index < |expectedXml| && index < |actualXml| ==> expectedXml[index] != actualXml[index]
  {
    index := 0;
    while index < |actualXml| && index < |expectedXml| && actualXml[index] == expectedXml[index]
      invariant index <= |expectedXml| && index <= |actualXml| && expectedXml[..index] == actualXml[..index]
    {
      index := index + 1;
    }
  }

  /** checkXmlEqual: no difference, or where the stripped texts begin to differ. */
  method CheckXmlEqual(expectedXml: Text, actualXml: Text) returns (difference: XmlDifference)
    ensures difference.Same? <==> Stripped(expectedXml) == Stripped(actualXml)
    ensures difference.DifferAt? ==>
              var expected, actual := Stripped(expectedXml), Stripped(actualXml);
              var i := difference.index;
              && i <= |expected| && i <= |actual| && expected[..i] == actual[..i]
              && (i < |expected| && i < |actual| ==> expected[i] != actual[i])
  {
    var expectedUniformiser := new XmlUniformiser(expectedXml);
    var expected := expectedUniformiser.StripAll();
    var actualUniformiser := new XmlUniformiser(actualXml);
    var actual := actualUniformiser.StripAll();
    if expected == actual {
      return Same;
    }
    var index := NotEqualIndex(expected, actual);
    return DifferAt(index);
  }

  datatype XmlDifference = Same | DifferAt(index: nat)
}
