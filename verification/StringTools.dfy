/** Splitting and wrapping text (CppUnit_1.12.1/src/cppunit/StringTools.cpp). */
module StringTools {
  import opened Sequences

  // ---------------------------------------------------------------- pieces

  predicate FreeOf(s: string, separator: char) {
    forall i :: 0 <= i < |s| ==> s[i] != separator
  }

  /** Where the first separator stands; the length when there is none. */
  function Find(s: string, separator: char): (i: nat)
    ensures i <= |s| && FreeOf(s[..i], separator) && (i < |s| ==> s[i] == separator)
  {
    if s == [] || s[0] == separator then 0 else
      var i := 1 + Find(s[1..], separator);
      assert s[..i] == [s[0]] + s[1..][..i - 1];
      i
  }

  /** The text between separators; a text without any is one piece. */
  function Pieces(s: string, separator: char): (r: seq<string>)
    ensures r != []
    decreases |s|
  {
    var i := Find(s, separator);
    if i == |s| then [s] else [s[..i]] + Pieces(s[i + 1..], separator)
  }

  function Split(s: string, separator: char): seq<string> {
    if s == [] then [] else Pieces(s, separator)
  }

  function Join(pieces: seq<string>, separator: char): string {
    if pieces == [] then [] else if |pieces| == 1 then pieces[0]
    else pieces[0] + ([separator] + Join(pieces[1..], separator))
  }

  predicate AllFree(pieces: seq<string>, separator: char) {
    forall i :: 0 <= i < |pieces| ==> FreeOf(pieces[i], separator)
  }

  /** Joining gives the text back, and no piece contains the separator. */
  lemma {:induction false} JoinPieces(s: string, separator: char)
    ensures Join(Pieces(s, separator), separator) == s && AllFree(Pieces(s, separator), separator)
    decreases |s|
  {
    var i := Find(s, separator);
    if i < |s| {
      var rest := s[i + 1..];
      JoinPieces(rest, separator);
      assert s == s[..i] + ([separator] + rest);
      var more := Pieces(rest, separator);
      assert ([s[..i]] + more)[1..] == more;
    } else {
      assert s[..i] == s;
    }
  }

  lemma JoinSplit(s: string, separator: char)
    ensures Join(Split(s, separator), separator) == s && AllFree(Split(s, separator), separator)
    ensures Split(s, separator) == [] <==> s == []
  {
    JoinPieces(s, separator);
  }

  lemma {:induction false} FindAt(s: string, separator: char, rest: string)
    requires FreeOf(s, separator)
    ensures Find(s + ([separator] + rest), separator) == |s| && Find(s, separator) == |s|
  {
    if s == [] {
      assert s + ([separator] + rest) == [separator] + rest;
    } else {
      assert (s + ([separator] + rest))[1..] == s[1..] + ([separator] + rest);
      FindAt(s[1..], separator, rest);
    }
  }

  /** Splitting a joined text gives the pieces back. */
  lemma {:induction false} PiecesJoin(pieces: seq<string>, separator: char)
    requires pieces != [] && AllFree(pieces, separator)
    ensures Pieces(Join(pieces, separator), separator) == pieces
  {
    var s := pieces[0];
    if |pieces| == 1 {
      FindAt(s, separator, []);
    } else {
      var rest := Join(pieces[1..], separator);
      FindAt(s, separator, rest);
      PiecesJoin(pieces[1..], separator);
      var all := s + ([separator] + rest);
      assert all[..|s|] == s && all[|s| + 1..] == rest;
    }
  }

  // ---------------------------------------------------------------- counting separators

  function Count(s: string, separator: char): nat {
    if s == [] then 0 else (if s[0] == separator then 1 else 0) + Count(s[1..], separator)
  }

  lemma {:induction false} CountSplits(a: string, b: string, separator: char)
    ensures Count(a + b, separator) == Count(a, separator) + Count(b, separator)
  {
    if a == [] {
      assert a + b == b;
    } else {
      assert (a + b)[1..] == a[1..] + b;
      CountSplits(a[1..], b, separator);
    }
  }

  lemma {:induction false} CountIsZero(s: string, separator: char)
    ensures Count(s, separator) == 0 <==> FreeOf(s, separator)
  {
    if s != [] {
      CountIsZero(s[1..], separator);
      assert FreeOf(s, separator) <==> s[0] != separator && FreeOf(s[1..], separator) by {
        assert forall i :: 0 <= i < |s| ==> s[i] == if i == 0 then s[0] else s[1..][i - 1];
      }
    }
  }

  /** One piece more than there are separators. */
  lemma {:induction false} PiecesCount(s: string, separator: char)
    ensures |Pieces(s, separator)| == 1 + Count(s, separator)
    decreases |s|
  {
    var i := Find(s, separator);
    if i == |s| {
      assert s[..i] == s;
      CountIsZero(s, separator);
    } else {
      var rest := s[i + 1..];
      assert s == s[..i] + ([separator] + rest) && ([separator] + rest)[1..] == rest;
      CountIsZero(s[..i], separator);
      CountSplits(s[..i], [separator] + rest, separator);
      PiecesCount(rest, separator);
    }
  }

  /** A joined text has a separator between any two pieces, and no others exactly when the pieces have none. */
  lemma {:induction false} JoinCount(pieces: seq<string>, separator: char)
    requires pieces != []
    ensures |pieces| - 1 <= Count(Join(pieces, separator), separator)
    ensures Count(Join(pieces, separator), separator) == |pieces| - 1 <==> AllFree(pieces, separator)
  {
    var s := pieces[0];
    CountIsZero(s, separator);
    if |pieces| > 1 {
      var rest := Join(pieces[1..], separator);
      assert ([separator] + rest)[1..] == rest;
      CountSplits(s, [separator] + rest, separator);
      JoinCount(pieces[1..], separator);
      assert AllFree(pieces, separator) <==> FreeOf(s, separator) && AllFree(pieces[1..], separator) by {
        assert forall i :: 0 <= i < |pieces| ==> pieces[i] == if i == 0 then s else pieces[1..][i - 1];
      }
    }
  }

  // ---------------------------------------------------------------- split

  lemma PiecesStep(s: string, start: nat, at: nat, separator: char)
    requires start <= at <= |s| && at - start == Find(s[start..], separator)
    ensures Pieces(s[start..], separator)
            == if at == |s| then [s[start..]] else [s[start..at]] + Pieces(s[at + 1..], separator)
  {
    var rest := s[start..];
    assert rest[..at - start] == s[start..at];
    assert at < |s| ==> rest[at - start + 1..] == s[at + 1..];
  }

  /** The loop of split. */
  method SplitText(text: string, separator: char) returns (splittedText: seq<string>)
    ensures splittedText == Split(text, separator)
  {
    splittedText := [];
    if text == [] {
      return;
    }
    var start := 0;
    assert text[0..] == text;
    while true
      invariant 0 <= start <= |text| && splittedText + Pieces(text[start..], separator) == Pieces(text, separator)
      decreases |text| - start
    {
      var at := FindSeparator(text, start, separator);
      PiecesStep(text, start, at, separator);
      ghost var before := splittedText;
      splittedText := splittedText + [text[start..at]];
      if at == |text| {
        assert text[start..at] == text[start..];
        break;
      }
      Regroup(before, [text[start..at]], Pieces(text[at + 1..], separator));
      start := at + 1;
    }
  }

  /** std::find. */
  method FindSeparator(text: string, start: nat, separator: char) returns (at: nat)
    requires start <= |text|
    ensures start <= at <= |text| && at - start == Find(text[start..], separator)
  {
    at := start;
    while at < |text| && text[at] != separator
      invariant start <= at <= |text|
      invariant Find(text[start..], separator) == at - start + Find(text[at..], separator)
    {
      assert text[at..][1..] == text[at + 1..];
      at := at + 1;
    }
  }

  // ---------------------------------------------------------------- wrapping

  /** A line cut into slices of `column` characters, the last one shorter. */
  function Slices(line: string, column: nat): (r: seq<string>)
    requires 0 < column
    ensures r != []
  {
    if |line| <= column then [line] else [line[..column]] + Slices(line[column..], column)
  }

  function AllSlices(lines: seq<string>, column: nat): seq<string>
    requires 0 < column
  {
    if lines == [] then [] else Slices(lines[0], column) + AllSlices(lines[1..], column)
  }

  const LINE_BREAK: char := '\n'

  function Wrap(text: string, column: nat): string
    requires 0 < column
  {
    Join(AllSlices(Split(text, LINE_BREAK), column), LINE_BREAK)
  }

  predicate Fit(lines: seq<string>, column: nat) {
    forall i :: 0 <= i < |lines| ==> |lines[i]| <= column
  }

  lemma {:induction false} SlicesFit(line: string, column: nat)
    requires 0 < column && FreeOf(line, LINE_BREAK)
    ensures Fit(Slices(line, column), column) && AllFree(Slices(line, column), LINE_BREAK)
  {
    if column < |line| {
      SlicesFit(line[column..], column);
    }
  }

  lemma {:induction false} AllSlicesFit(lines: seq<string>, column: nat)
    requires 0 < column && AllFree(lines, LINE_BREAK)
    ensures Fit(AllSlices(lines, column), column) && AllFree(AllSlices(lines, column), LINE_BREAK)
    ensures lines != [] ==> AllSlices(lines, column) != []
  {
    if lines != [] {
      SlicesFit(lines[0], column);
      AllSlicesFit(lines[1..], column);
    }
  }

  lemma {:induction false} FittingStay(lines: seq<string>, column: nat)
    requires 0 < column && Fit(lines, column)
    ensures AllSlices(lines, column) == lines
  {
    if lines != [] {
      FittingStay(lines[1..], column);
      assert lines == [lines[0]] + lines[1..];
    }
  }

  // ---------------------------------------------------------------- where a line is broken

  /** How many lines a line of this length takes; an empty one takes one. */
  function LinesFor(length: nat, column: nat): nat
    requires 0 < column
  {
    if length == 0 then 1 else (length + column - 1) / column
  }

  function Concat(pieces: seq<string>): string {
    if pieces == [] then [] else pieces[0] + Concat(pieces[1..])
  }

  /** `cuts` is the line broken behind every `column` characters, and nowhere else. */
  predicate CutEvery(cuts: seq<string>, line: string, column: nat)
    requires 0 < column
  {
    && Concat(cuts) == line && |cuts| == LinesFor(|line|, column)
    && (forall i :: 0 <= i < |cuts| - 1 ==> |cuts[i]| == column)
  }

  /** `cuts` is one line after the other broken like this. */
  predicate CutLines(cuts: seq<string>, lines: seq<string>, column: nat)
    requires 0 < column
  {
    if lines == [] then cuts == [] else
      var n := LinesFor(|lines[0]|, column);
      n <= |cuts| && CutEvery(cuts[..n], lines[0], column) && CutLines(cuts[n..], lines[1..], column)
  }

  lemma QuotientStep(x: nat, c: nat)
    requires 0 < c
    ensures (x + c) / c == x / c + 1
  {
    var q, r := x / c, x % c;
    assert x + c == (q + 1) * c + r;
    QuotientIs(x + c, c, q + 1, r);
  }

  lemma QuotientIs(x: nat, c: nat, q: nat, r: nat)
    requires r < c && x == q * c + r
    ensures x / c == q
  {
    var p := x / c;
    assert p < q ==> (p + 1) * c <= q * c;
    assert q < p ==> (q + 1) * c <= p * c;
  }

  lemma LinesForLonger(length: nat, column: nat)
    requires 0 < column < length
    ensures LinesFor(length, column) == 1 + LinesFor(length - column, column)
  {
    QuotientStep(length - 1, column);
  }

  lemma LinesForShort(length: nat, column: nat)
    requires length <= column && 0 < column
    ensures LinesFor(length, column) == 1
  {
    if length != 0 {
      QuotientIs(length + column - 1, column, 1, length - 1);
    }
  }

  lemma {:induction false} SlicesCut(line: string, column: nat)
    requires 0 < column
    ensures CutEvery(Slices(line, column), line, column)
  {
    var cuts := Slices(line, column);
    if |line| <= column {
      LinesForShort(|line|, column);
      assert cuts[1..] == [] && cuts[0] + [] == line;
    } else {
      LinesForLonger(|line|, column);
      SlicesCut(line[column..], column);
      assert cuts[1..] == Slices(line[column..], column) && line == line[..column] + line[column..];
      assert forall i :: 1 <= i < |cuts| ==> cuts[i] == cuts[1..][i - 1];
    }
  }

  lemma {:induction false} AllSlicesCut(lines: seq<string>, column: nat)
    requires 0 < column
    ensures CutLines(AllSlices(lines, column), lines, column)
  {
    if lines != [] {
      var first, more := Slices(lines[0], column), AllSlices(lines[1..], column);
      SlicesCut(lines[0], column);
      AllSlicesCut(lines[1..], column);
      assert (first + more)[..|first|] == first && (first + more)[|first|..] == more;
    }
  }

  /** Line by line, a wrapped text is broken behind every `column` characters and nowhere else. */
  lemma WrapCuts(text: string, column: nat)
    requires 0 < column
    ensures CutLines(Split(Wrap(text, column), LINE_BREAK), Split(text, LINE_BREAK), column)
  {
    var lines := Split(text, LINE_BREAK);
    AllSlicesCut(lines, column);
    WrapSplits(text, column);
    if Wrap(text, column) == [] && lines != [] {
      AllSlicesAddBreaks(lines, column);
      JoinSplit(text, LINE_BREAK);
    }
  }

  /** There is no other way to break a line like this. */
  lemma {:induction false} CutIsUnique(a: seq<string>, b: seq<string>, line: string, column: nat)
    requires 0 < column && CutEvery(a, line, column) && CutEvery(b, line, column)
    ensures a == b
  {
    if |line| <= column {
      LinesForShort(|line|, column);
      assert a == [a[0]] && b == [b[0]] && a[1..] == [] == b[1..];
      assert Concat(a) == a[0] && Concat(b) == b[0];
    } else {
      LinesForLonger(|line|, column);
      LinesForAtLeast(|line| - column, column);
      assert |a[0]| == column == |b[0]| && a[0] == line[..column] == b[0];
      assert Concat(a[1..]) == line[column..] == Concat(b[1..]);
      CutIsUnique(a[1..], b[1..], line[column..], column);
      assert a == [a[0]] + a[1..] && b == [b[0]] + b[1..];
    }
  }

  lemma LinesForAtLeast(length: nat, column: nat)
    requires 0 < column
    ensures 1 <= LinesFor(length, column)
  {
  }

  /** The lines of a wrapped text are its slices, but for a lone empty line. */
  lemma WrapSplits(text: string, column: nat)
    requires 0 < column
    ensures var slices := AllSlices(Split(text, LINE_BREAK), column);
            && Fit(slices, column) && Wrap(text, column) == Join(slices, LINE_BREAK)
            && (Split(Wrap(text, column), LINE_BREAK) == slices || (Wrap(text, column) == [] && |slices| <= 1))
  {
    var slices := AllSlices(Split(text, LINE_BREAK), column);
    JoinSplit(text, LINE_BREAK);
    AllSlicesFit(Split(text, LINE_BREAK), column);
    if slices != [] {
      PiecesJoin(slices, LINE_BREAK);
    }
  }

  /** Every line of a wrapped text fits the column. */
  lemma WrapFits(text: string, column: nat)
    requires 0 < column
    ensures Fit(Split(Wrap(text, column), LINE_BREAK), column)
  {
    WrapSplits(text, column);
  }

  /** Wrapping twice is wrapping once. */
  lemma WrapTwice(text: string, column: nat)
    requires 0 < column
    ensures Wrap(Wrap(text, column), column) == Wrap(text, column)
  {
    WrapSplits(text, column);
    FittingStay(AllSlices(Split(text, LINE_BREAK), column), column);
  }

  /** `wrapped` is `text` with line breaks put in. */
  predicate OnlyBreaksAdded(text: string, wrapped: string)
    decreases |wrapped|
  {
    if wrapped == [] then text == []
    else
      || (text != [] && text[0] == wrapped[0] && OnlyBreaksAdded(text[1..], wrapped[1..]))
      || (wrapped[0] == LINE_BREAK && OnlyBreaksAdded(text, wrapped[1..]))
  }

  lemma {:induction false} BreaksAddedBehind(s: string, text: string, wrapped: string)
    requires OnlyBreaksAdded(text, wrapped)
    ensures OnlyBreaksAdded(s + text, s + wrapped)
  {
    if s == [] {
      assert s + text == text && s + wrapped == wrapped;
    } else {
      assert (s + text)[1..] == s[1..] + text && (s + wrapped)[1..] == s[1..] + wrapped;
      BreaksAddedBehind(s[1..], text, wrapped);
    }
  }

  lemma BreakAdded(text: string, wrapped: string)
    requires OnlyBreaksAdded(text, wrapped)
    ensures OnlyBreaksAdded(text, [LINE_BREAK] + wrapped)
    ensures OnlyBreaksAdded([LINE_BREAK] + text, [LINE_BREAK] + wrapped)
  {
    assert ([LINE_BREAK] + wrapped)[1..] == wrapped && ([LINE_BREAK] + text)[1..] == text;
  }

  lemma JoinFirst(first: string, more: seq<string>, separator: char)
    ensures Join([first] + more, separator)
            == if more == [] then first else first + ([separator] + Join(more, separator))
  {
    assert ([first] + more)[1..] == more;
  }

  /** `rest` is what a text goes on with behind its first line: nothing, or a line break and the other lines. */
  predicate GoesOn(text: string, more: seq<string>) {
    if more == [] then text == []
    else text != [] && text[0] == LINE_BREAK && OnlyBreaksAdded(text[1..], Join(more, LINE_BREAK))
  }

  lemma LastSlice(line: string, text: string, more: seq<string>)
    requires GoesOn(text, more)
    ensures OnlyBreaksAdded(line + text, Join([line] + more, LINE_BREAK))
  {
    JoinFirst(line, more, LINE_BREAK);
    if more == [] {
      assert line + text == line && line + [] == line;
      BreaksAddedBehind(line, [], []);
    } else {
      BreakAdded(text[1..], Join(more, LINE_BREAK));
      assert text == [LINE_BREAK] + text[1..];
      BreaksAddedBehind(line, text, [LINE_BREAK] + Join(more, LINE_BREAK));
    }
  }

  /** Slicing the first line puts breaks in. */
  lemma {:induction false} SlicesAddBreaks(line: string, column: nat, text: string, more: seq<string>)
    requires 0 < column && GoesOn(text, more)
    ensures OnlyBreaksAdded(line + text, Join(Slices(line, column) + more, LINE_BREAK))
  {
    if |line| <= column {
      LastSlice(line, text, more);
    } else {
      var first, last := line[..column], line[column..];
      var slices := Slices(last, column) + more;
      SlicesAddBreaks(last, column, text, more);
      Regroup([first], Slices(last, column), more);
      assert Slices(line, column) + more == [first] + slices;
      assert line + text == first + (last + text) by {
        Regroup(first, last, text);
        assert line == first + last;
      }
      hide Slices, OnlyBreaksAdded, Join;
      JoinFirst(first, slices, LINE_BREAK);
      BreakAdded(last + text, Join(slices, LINE_BREAK));
      BreaksAddedBehind(first, last + text, [LINE_BREAK] + Join(slices, LINE_BREAK));
    }
  }

  lemma {:induction false} AllSlicesAddBreaks(lines: seq<string>, column: nat)
    requires 0 < column
    ensures OnlyBreaksAdded(Join(lines, LINE_BREAK), Join(AllSlices(lines, column), LINE_BREAK))
    ensures lines != [] ==> AllSlices(lines, column) != []
  {
    if lines != [] {
      var more := AllSlices(lines[1..], column);
      AllSlicesAddBreaks(lines[1..], column);
      var text: string := if |lines| == 1 then [] else [LINE_BREAK] + Join(lines[1..], LINE_BREAK);
      assert |lines| > 1 ==> text[1..] == Join(lines[1..], LINE_BREAK);
      SlicesAddBreaks(lines[0], column, text, more);
      assert |lines| == 1 ==> lines[0] + text == lines[0];
    }
  }

  /** Wrapping does nothing but add line breaks. */
  lemma WrapAddsBreaks(text: string, column: nat)
    requires 0 < column
    ensures OnlyBreaksAdded(text, Wrap(text, column))
  {
    JoinSplit(text, LINE_BREAK);
    AllSlicesAddBreaks(Split(text, LINE_BREAK), column);
  }

  lemma {:induction false} JoinTwo(a: seq<string>, b: seq<string>, separator: char)
    requires a != [] && b != []
    ensures Join(a + b, separator) == Join(a, separator) + ([separator] + Join(b, separator))
  {
    assert (a + b)[1..] == a[1..] + b;
    if |a| > 1 {
      JoinTwo(a[1..], b, separator);
      Regroup([separator], Join(a[1..], separator), [separator] + Join(b, separator));
      Regroup(a[0], [separator] + Join(a[1..], separator), [separator] + Join(b, separator));
    }
  }

  lemma {:induction false} AllSlicesSplit(a: seq<string>, b: seq<string>, column: nat)
    requires 0 < column
    ensures AllSlices(a + b, column) == AllSlices(a, column) + AllSlices(b, column)
  {
    if a == [] {
      assert a + b == b;
    } else {
      assert (a + b)[1..] == a[1..] + b;
      AllSlicesSplit(a[1..], b, column);
    }
  }

  /** The inner loop of wrap. */
  method WrapLine(line: string, wrapColumn: nat) returns (wrapped: string)
    requires 0 < wrapColumn
    ensures wrapped == Join(Slices(line, wrapColumn), LINE_BREAK)
  {
    wrapped := [];
    var index := 0;
    assert line[0..] == line;
    while index < |line|
      invariant 0 <= index && (index < |line| ==>
                  wrapped + Join(Slices(line[index..], wrapColumn), LINE_BREAK)
                  == Join(Slices(line, wrapColumn), LINE_BREAK))
      invariant |line| <= index ==> wrapped == Join(Slices(line, wrapColumn), LINE_BREAK)
      decreases |line| - index
    {
      ghost var rest, before := line[index..], wrapped;
      var end := if index + wrapColumn <= |line| then index + wrapColumn else |line|;
      var lineSlice := line[index..end];
      wrapped := wrapped + lineSlice;
      index := index + wrapColumn;
      if index < |line| {
        wrapped := wrapped + [LINE_BREAK];
        assert rest[..wrapColumn] == lineSlice && rest[wrapColumn..] == line[index..];
        ghost var more := Slices(line[index..], wrapColumn);
        JoinFirst(lineSlice, more, LINE_BREAK);
        Regroup(before, lineSlice, [LINE_BREAK] + Join(more, LINE_BREAK));
        Regroup(before + lineSlice, [LINE_BREAK], Join(more, LINE_BREAK));
      } else {
        assert lineSlice == rest;
      }
    }
  }

  /** wrap, for a positive column. */
  method WrapText(text: string, wrapColumn: nat) returns (wrapped: string)
    requires 0 < wrapColumn
    ensures wrapped == Wrap(text, wrapColumn)
    ensures CutLines(Split(wrapped, LINE_BREAK), Split(text, LINE_BREAK), wrapColumn)
  {
    WrapCuts(text, wrapColumn);
    hide CutLines;
    var lines := SplitText(text, LINE_BREAK);
    wrapped := [];
    var i := 0;
    while i < |lines|
      invariant 0 <= i <= |lines| && wrapped == Join(AllSlices(lines[..i], wrapColumn), LINE_BREAK)
    {
      SliceStep(lines, i, wrapColumn);
      if i != 0 {
        wrapped := wrapped + [LINE_BREAK];
      }
      var line := WrapLine(lines[i], wrapColumn);
      wrapped := wrapped + line;
      i := i + 1;
    }
    assert lines[..i] == lines;
  }

  lemma SliceStep(lines: seq<string>, i: nat, column: nat)
    requires 0 < column && i < |lines|
    ensures var before := Join(AllSlices(lines[..i], column), LINE_BREAK);
            var line := Join(Slices(lines[i], column), LINE_BREAK);
            Join(AllSlices(lines[..i + 1], column), LINE_BREAK)
            == (if i != 0 then before + [LINE_BREAK] else before) + line
  {
    assert lines[..i + 1] == lines[..i] + [lines[i]];
    AllSlicesSplit(lines[..i], [lines[i]], column);
    assert AllSlices([lines[i]], column) == Slices(lines[i], column) by {
      assert [lines[i]][1..] == [];
    }
    if i != 0 {
      assert AllSlices(lines[..i], column) != [];
      JoinTwo(AllSlices(lines[..i], column), Slices(lines[i], column), LINE_BREAK);
    } else {
      assert lines[..0] == [] && AllSlices(lines[..i], column) == [];
      assert [] + Slices(lines[i], column) == Slices(lines[i], column);
    }
  }
}
