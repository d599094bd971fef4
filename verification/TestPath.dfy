/** Paths of tests: searching, printing and resolving (CppUnit_1.12.1/src/cppunit/TestPath.cpp, Test.cpp). */
module TestPaths {
  import opened Options
  import opened Sequences
  import opened StringTools
  import opened TestTree

  const SEPARATOR: char := '/'

  // ---------------------------------------------------------------- printing and resolving

  function Names(path: Path): (r: seq<string>)
    ensures |r| == |path| && forall i :: 0 <= i < |r| ==> r[i] == path[i].name
  {
    seq(|path|, i requires 0 <= i < |path| => path[i].name)
  }

  /** TestPath::toString. */
  function PathText(path: Path): string {
    [SEPARATOR] + Join(Names(path), SEPARATOR)
  }

  /** The first child of that name. */
  function ChildNamed(tests: seq<Test>, name: string): (r: Option<Test>)
    ensures r.Some? ==> r.value in tests && r.value.name == name
    ensures r.None? ==> forall i :: 0 <= i < |tests| ==> tests[i].name != name
  {
    if tests == [] then None else if tests[0].name == name then Some(tests[0]) else ChildNamed(tests[1..], name)
  }

  /** Downwards from `test` by name; None when a name cannot be resolved. */
  function Walk(test: Test, names: seq<string>): (r: Option<Path>)
    decreases |names|
  {
    if names == [] then Some([]) else
      var child := ChildNamed(test.children, names[0]);
      if child.None? then None else
        var rest := Walk(child.value, names[1..]);
        if rest.None? then None else Some([child.value] + rest.value)
  }

  /** splitPathString: is the path relative, and the names in it. */
  function IsRelative(s: string): bool {
    s == [] || s[0] != SEPARATOR
  }

  function PathNames(s: string): seq<string> {
    if s == [] then [] else Pieces(if IsRelative(s) then s else s[1..], SEPARATOR)
  }

  /** findActualRoot; None where the source throws. */
  function ActualRoot(searchRoot: Test, s: string): Option<Test> {
    if s == [] then Some(searchRoot) else
      var names := PathNames(s);
      if IsRelative(s) then
        var found := Found(searchRoot, Name(names[0]));
        if found.Some? && found.value != [] then Some(found.value[|found.value| - 1]) else None
      else if searchRoot.name == names[0] then Some(searchRoot) else None
  }

  /** The constructor from a root and a string. */
  function Resolved(searchRoot: Test, s: string): Option<Path> {
    var root := ActualRoot(searchRoot, s);
    if root.None? then None else
      var names := PathNames(s);
      var rest := Walk(root.value, if names == [] then [] else names[1..]);
      if rest.None? then None else Some([root.value] + rest.value)
  }

  predicate NamesFree(path: Path) {
    forall i :: 0 <= i < |path| ==> FreeOf(path[i].name, SEPARATOR)
  }

  /** On the path no test hides behind an earlier sibling of the same name. */
  predicate NotHidden(path: Path) {
    forall i :: 0 <= i < |path| - 1 ==> ChildNamed(path[i].children, path[i + 1].name) == Some(path[i + 1])
  }

  lemma {:induction false} WalkFollows(test: Test, rest: Path)
    ensures Walk(test, Names(rest)) == Some(rest) <==> NotHidden([test] + rest)
    decreases |rest|
  {
    if rest == [] {
      assert Walk(test, Names(rest)) == Some([]);
      return;
    }
    hide NotHidden, Walk;
    NotHiddenStep(test, rest);
    WalkStep(test, rest);
    assert rest == [rest[0]] + rest[1..];
    WalkFollows(rest[0], rest[1..]);
  }

  lemma WalkStep(test: Test, rest: Path)
    requires rest != []
    ensures Walk(test, Names(rest)) == Some(rest) <==>
              ChildNamed(test.children, rest[0].name) == Some(rest[0])
              && Walk(rest[0], Names(rest[1..])) == Some(rest[1..])
  {
    assert Names(rest)[1..] == Names(rest[1..]);
    var child := ChildNamed(test.children, rest[0].name);
    if child.Some? {
      var walked := Walk(child.value, Names(rest[1..]));
      assert walked.Some? ==> ([child.value] + walked.value)[1..] == walked.value;
      assert rest == [rest[0]] + rest[1..];
    }
  }

  lemma NotHiddenStep(test: Test, rest: Path)
    requires rest != []
    ensures NotHidden([test] + rest) <==> ChildNamed(test.children, rest[0].name) == Some(rest[0]) && NotHidden(rest)
  {
    var path := [test] + rest;
    assert forall i :: 0 <= i < |rest| ==> path[i + 1] == rest[i];
    assert path[0] == test && path[1] == rest[0];
    if NotHidden(path) {
      forall i | 0 <= i < |rest| - 1 ensures ChildNamed(rest[i].children, rest[i + 1].name) == Some(rest[i + 1]) {
        assert path[i + 1] == rest[i] && path[i + 1 + 1] == rest[i + 1];
      }
    }
    if ChildNamed(test.children, rest[0].name) == Some(rest[0]) && NotHidden(rest) {
      forall i | 0 <= i < |path| - 1 ensures ChildNamed(path[i].children, path[i + 1].name) == Some(path[i + 1]) {
        assert i > 0 ==> path[i] == rest[i - 1] && path[i + 1] == rest[i - 1 + 1];
      }
    }
  }

  lemma NamesAreFree(path: Path)
    requires NamesFree(path)
    ensures AllFree(Names(path), SEPARATOR)
  {
  }

  lemma {:induction false} WalkLength(test: Test, names: seq<string>)
    ensures Walk(test, names).Some? ==> |Walk(test, names).value| == |names|
    decreases |names|
  {
    if names != [] {
      var child := ChildNamed(test.children, names[0]);
      if child.Some? {
        WalkLength(child.value, names[1..]);
      }
    }
  }

  lemma NamesJoin(path: Path)
    requires path != []
    ensures PathNames(PathText(path)) == Pieces(Join(Names(path), SEPARATOR), SEPARATOR)
    ensures !IsRelative(PathText(path)) && |Names(path)| <= |PathNames(PathText(path))|
    ensures |PathNames(PathText(path))| == |path| <==> NamesFree(path)
  {
    var names := Names(path);
    assert PathText(path)[1..] == Join(names, SEPARATOR);
    PiecesCount(Join(names, SEPARATOR), SEPARATOR);
    JoinCount(names, SEPARATOR);
    assert AllFree(names, SEPARATOR) <==> NamesFree(path) by {
      assert forall i :: 0 <= i < |path| ==> names[i] == path[i].name;
    }
  }

  lemma ResolvedLength(root: Test, s: string)
    requires Resolved(root, s).Some? && s != []
    ensures |Resolved(root, s).value| == |PathNames(s)|
  {
    WalkLength(ActualRoot(root, s).value, PathNames(s)[1..]);
  }

  lemma ResolveFree(root: Test, path: Path)
    requires path != [] && path[0] == root && NamesFree(path)
    ensures Resolved(root, PathText(path)) == Some(path) <==> NotHidden(path)
  {
    var s := PathText(path);
    var names := Names(path);
    NamesAreFree(path);
    PiecesJoin(names, SEPARATOR);
    assert s[1..] == Join(names, SEPARATOR);
    assert PathNames(s) == names && !IsRelative(s);
    var rest := path[1..];
    assert path == [root] + rest;
    assert names[1..] == Names(rest);
    WalkFollows(root, rest);
    var walked := Walk(root, names[1..]);
    assert walked.Some? ==> ([root] + walked.value)[1..] == walked.value && path[1..] == rest;
  }

  /** Resolving a printed path from its root gives the path back, if and only if no name on it has a slash and no test
      on it hides behind an earlier sibling of the same name. */
  lemma ResolvePrinted(root: Test, path: Path)
    requires path != [] && path[0] == root
    ensures Resolved(root, PathText(path)) == Some(path) <==> NamesFree(path) && NotHidden(path)
  {
    NamesJoin(path);
    if NamesFree(path) {
      ResolveFree(root, path);
    } else if Resolved(root, PathText(path)).Some? {
      ResolvedLength(root, PathText(path));
    }
  }

  // ---------------------------------------------------------------- relative paths

  lemma {:induction false} WalkNames(test: Test, names: seq<string>)
    ensures var r := Walk(test, names);
            r.Some? ==> Names(r.value) == names && IsPath(test, [test] + r.value)
    decreases |names|
  {
    var r := Walk(test, names);
    if names != [] && r.Some? {
      var child := ChildNamed(test.children, names[0]).value;
      var rest := Walk(child, names[1..]).value;
      WalkNames(child, names[1..]);
      assert names == [names[0]] + names[1..];
      assert forall i :: 0 < i < |r.value| ==> ([test] + r.value)[i] == ([child] + rest)[i - 1];
    }
  }

  lemma ActualRootIs(root: Test, s: string)
    requires s != [] && ActualRoot(root, s).Some?
    ensures var start := ActualRoot(root, s).value;
            && start.name == PathNames(s)[0]
            && if IsRelative(s) then FirstOfName(root, start) else start == root
  {
    FirstIs(Preorder(root), ActualRoot(root, s).value);
  }

  /** Whatever a string resolves to spells that string, name by name, on a way down the tree; an absolute one starts at
      the given root. */
  lemma ResolvedNames(root: Test, s: string)
    requires Resolved(root, s).Some? && s != []
    ensures var path := Resolved(root, s).value;
            && path != [] && Names(path) == PathNames(s) && IsPath(path[0], path) && NamesFree(path)
            && (if IsRelative(s) then FirstOfName(root, path[0]) else path[0] == root)
  {
    var names := PathNames(s);
    var path := Resolved(root, s).value;
    ActualRootIs(root, s);
    WalkNames(path[0], names[1..]);
    hide Walk, ActualRoot, IsPath, FirstOfName, Pieces;
    JoinPieces(if IsRelative(s) then s else s[1..], SEPARATOR);
    assert names == [names[0]] + names[1..];
    assert forall i :: 0 <= i < |path| ==> path[i].name == Names(path)[i];
  }

  /** A path printed without the slash in front. */
  function RelativeText(path: Path): string {
    Join(Names(path), SEPARATOR)
  }

  lemma RelativeNames(path: Path)
    requires path != [] && path[0].name != [] && NamesFree(path)
    ensures var s := RelativeText(path);
            s != [] && IsRelative(s) && PathNames(s) == Names(path)
  {
    NamesAreFree(path);
    PiecesJoin(Names(path), SEPARATOR);
    JoinFirst(path[0].name, Names(path)[1..], SEPARATOR);
    assert Names(path) == [path[0].name] + Names(path)[1..];
  }

  /** Printed without the slash in front, a path down from any test of the tree is resolved to itself if and only if
      no name on it has a slash, no test on it hides behind an earlier sibling of the same name, and the first test
      on it is the first of its name in preorder. */
  lemma ResolveRelative(root: Test, path: Path)
    requires path != [] && path[0].name != []
    ensures Resolved(root, RelativeText(path)) == Some(path) <==>
              NamesFree(path) && NotHidden(path) && FirstOfName(root, path[0])
  {
    var s := RelativeText(path);
    if NamesFree(path) {
      RelativeNames(path);
      FirstIs(Preorder(root), path[0]);
      var first, rest := path[0], path[1..];
      assert path == [first] + rest && Names(path)[1..] == Names(rest);
      WalkFollows(first, rest);
      hide Walk, NotHidden, FirstOfName, NamesFree;
      var start := ActualRoot(root, s);
      if start == Some(first) {
        var walked := Walk(first, Names(rest));
        assert walked.Some? ==> ([first] + walked.value)[1..] == walked.value;
      }
    } else if Resolved(root, s) == Some(path) {
      if s != [] {
        ResolvedNames(root, s);
      }
    }
  }

  /** No test of the tree has this name. */
  ghost predicate NoneNamed(root: Test, name: string) {
    forall path: Path :: IsPath(root, path) ==> path[|path| - 1].name != name
  }

  /** A relative path whose first name no test has leads nowhere; the empty one leads to the root. */
  lemma ResolveUnknown(root: Test, s: string)
    ensures s == [] ==> Resolved(root, s) == Some([root])
    ensures s != [] && s[0] != SEPARATOR && NoneNamed(root, s[..Find(s, SEPARATOR)]) ==> Resolved(root, s).None?
  {
    assert s == [] ==> Walk(root, PathNames(s)) == Some([]) && [root] + [] == [root];
    if s != [] && s[0] != SEPARATOR {
      FoundIffThere(root, Name(PathNames(s)[0]));
      assert PathNames(s)[0] == s[..Find(s, SEPARATOR)];
    }
  }

  /** In particular when siblings have distinct names. */
  predicate DistinctNames(tests: seq<Test>) {
    forall i, j :: 0 <= i < j < |tests| ==> tests[i].name != tests[j].name
  }

  lemma {:induction false} DistinctIsFound(tests: seq<Test>, test: Test)
    requires DistinctNames(tests) && test in tests
    ensures ChildNamed(tests, test.name) == Some(test)
  {
    if tests[0] != test {
      var j :| 0 <= j < |tests| && tests[j] == test;
      assert tests[0].name != tests[j].name;
      DistinctIsFound(tests[1..], test);
    }
  }

  lemma ResolvePrintedDistinct(root: Test, path: Path)
    requires IsPath(root, path)
    requires forall i :: 0 <= i < |path| - 1 ==> DistinctNames(path[i].children)
    ensures Resolved(root, PathText(path)) == Some(path) <==> NamesFree(path)
  {
    forall i | 0 <= i < |path| - 1 ensures ChildNamed(path[i].children, path[i + 1].name) == Some(path[i + 1]) {
      DistinctIsFound(path[i].children, path[i + 1]);
    }
    ResolvePrinted(root, path);
  }

  /** The second of two siblings of one name is hidden: its printed path leads to the first. */
  lemma SecondIsHidden(root: Test, first: Test, second: Test)
    requires root.children == [first, second] && first.name == second.name && first != second
    ensures Resolved(root, PathText([root, second])) != Some([root, second])
  {
    var path := [root, second];
    assert !NotHidden(path) by {
      assert path[0 + 1] == second && path[0] == root;
    }
    ResolvePrinted(root, path);
  }

  // ---------------------------------------------------------------- the objects

  class TestPath {
    var tests: Path

    constructor ()
      ensures tests == []
    {
      tests := [];
    }

    method Add(test: Test)
      modifies this
      ensures tests == old(tests) + [test]
    {
      tests := tests + [test];
    }

    /** insert; an index out of range is an error. */
    method Insert(test: Test, index: int) returns (ok: bool)
      modifies this
      ensures ok == (0 <= index <= old(|tests|))
      ensures tests == if ok then old(tests)[..index] + [test] + old(tests)[index..] else old(tests)
      ensures index == 0 ==> tests == [test] + old(tests)
    {
      if index < 0 || index > |tests| {
        return false;
      }
      tests := tests[..index] + [test] + tests[index..];
      return true;
    }

    /** insert of a whole path: last test first, each at the same index. */
    method InsertPath(path: TestPath, index: int) returns (ok: bool)
      requires path != this
      modifies this
      ensures ok == (path.tests == [] || 0 <= index <= old(|tests|))
      ensures tests == if path.tests != [] && ok then old(tests)[..index] + path.tests + old(tests)[index..]
                         else old(tests)
    {
      var itemIndex := |path.tests| - 1;
      ok := true;
      while 0 <= itemIndex
        invariant -1 <= itemIndex < |path.tests| && path.tests == old(path.tests)
        invariant itemIndex < |path.tests| - 1 ==> ok && 0 <= index <= old(|tests|)
        invariant tests == if itemIndex < |path.tests| - 1
                             then old(tests)[..index] + path.tests[itemIndex + 1..] + old(tests)[index..]
                             else old(tests)
      {
        ok := Insert(path.tests[itemIndex], index);
        if !ok {
          return;
        }
        assert path.tests[itemIndex..] == [path.tests[itemIndex]] + path.tests[itemIndex + 1..];
        itemIndex := itemIndex - 1;
      }
    }

    /** toString. */
    method ToText() returns (asString: string)
      ensures asString == PathText(tests)
    {
      asString := [SEPARATOR];
      var index := 0;
      while index < |tests|
        invariant 0 <= index <= |tests| && asString == PathText(tests[..index])
      {
        NextName(tests, index);
        if index > 0 {
          asString := asString + [SEPARATOR];
        }
        asString := asString + tests[index].name;
        index := index + 1;
      }
      assert tests[..index] == tests;
    }
  }

  lemma NextName(path: Path, i: nat)
    requires i < |path|
    ensures PathText(path[..i + 1])
            == PathText(path[..i]) + (if i > 0 then [SEPARATOR] else []) + path[i].name
  {
    assert Names(path[..i + 1]) == Names(path[..i]) + [path[i].name];
    if i > 0 {
      JoinTwo(Names(path[..i]), [path[i].name], SEPARATOR);
    } else {
      assert Names(path[..0]) == [];
    }
  }

  /** Both findTestPath: the search adds the target at the end and the tests above it at the front. */
  method FindTestPath(test: Test, target: Target, testPath: TestPath) returns (found: bool)
    modifies testPath
    ensures found == Found(test, target).Some?
    ensures !found ==> testPath.tests == old(testPath.tests)
    ensures found ==>
              var path := Found(test, target).value;
              path != [] && testPath.tests == Around(path, old(testPath.tests))
    decreases test
  {
    FoundHere(test, target);
    ghost var before := testPath.tests;
    AroundOne(test, before);
    if Hits(target, test) {
      testPath.Add(test);
      return true;
    }
    hide Found, FoundAmong, Around, Hits;
    var childIndex := 0;
    assert test.children[0..] == test.children;
    while childIndex < |test.children|
      invariant 0 <= childIndex <= |test.children| && testPath.tests == before
      invariant FoundAmong(test.children, target) == FoundAmong(test.children[childIndex..], target)
    {
      ghost var rest := test.children[childIndex..];
      FoundStep(rest, target);
      assert rest[0] == test.children[childIndex] && rest[1..] == test.children[childIndex + 1..];
      var inChild := FindTestPath(test.children[childIndex], target, testPath);
      if inChild {
        AroundMore(test, Found(test.children[childIndex], target).value, before);
        var ok := testPath.Insert(test, 0);
        return true;
      }
      childIndex := childIndex + 1;
    }
    return false;
  }

  /** The path with the last test behind `before` and the others in front of it; the path itself if `before` is
      empty. */
  function Around(path: Path, before: Path): (r: Path)
    requires path != []
    ensures before == [] ==> r == path
  {
    path[..|path| - 1] + before + [path[|path| - 1]]
  }

  lemma AroundOne(test: Test, before: Path)
    ensures Around([test], before) == before + [test]
  {
    assert [test][..0] + before == before;
  }

  lemma AroundMore(test: Test, path: Path, before: Path)
    requires path != []
    ensures Around([test] + path, before) == [test] + Around(path, before)
  {
    var longer := [test] + path;
    assert longer[..|longer| - 1] == [test] + path[..|path| - 1];
  }

  /** findTest; without such a test the source throws. */
  method FindTest(test: Test, testName: string) returns (found: Option<Test>)
    ensures var r := Found(test, Name(testName));
            found == if r.Some? && r.value != [] then Some(r.value[|r.value| - 1]) else None
  {
    var path := new TestPath();
    var ok := FindTestPath(test, Name(testName), path);
    if path.tests == [] {
      return None;
    }
    return Some(path.tests[|path.tests| - 1]);
  }

  /** splitPathString. */
  method SplitPathString(pathAsString: string) returns (isRelative: bool, testNames: seq<string>)
    ensures isRelative == IsRelative(pathAsString) && testNames == PathNames(pathAsString)
  {
    testNames := [];
    if pathAsString == [] {
      return true, [];
    }
    isRelative := pathAsString[0] != SEPARATOR;
    var index := if isRelative then 0 else 1;
    assert pathAsString[0..] == pathAsString;
    while true
      invariant 0 <= index <= |pathAsString|
      invariant testNames + Pieces(pathAsString[index..], SEPARATOR) == PathNames(pathAsString)
      decreases |pathAsString| - index
    {
      var separatorIndex := FindSeparator(pathAsString, index, SEPARATOR);
      PiecesStep(pathAsString, index, separatorIndex, SEPARATOR);
      if separatorIndex < |pathAsString| {
        Regroup(testNames, [pathAsString[index..separatorIndex]],
                Pieces(pathAsString[separatorIndex + 1..], SEPARATOR));
        testNames := testNames + [pathAsString[index..separatorIndex]];
        index := separatorIndex + 1;
      } else {
        testNames := testNames + [pathAsString[index..]];
        break;
      }
    }
  }

  method FindActualRoot(searchRoot: Test, pathAsString: string) returns (root: Option<Test>, testNames: seq<string>)
    ensures root == ActualRoot(searchRoot, pathAsString) && testNames == PathNames(pathAsString)
  {
    var isRelative;
    isRelative, testNames := SplitPathString(pathAsString);
    if isRelative && pathAsString == [] {
      return Some(searchRoot), testNames;
    }
    if isRelative {
      root := FindTest(searchRoot, testNames[0]);
      FoundIffThere(searchRoot, Name(testNames[0]));
    } else {
      root := Some(searchRoot);
    }
    if root.Some? && root.value.name != testNames[0] {
      root := None;
    }
  }

  /** The constructor from a root and a string; null where the source throws. */
  method Resolve(searchRoot: Test, pathAsString: string) returns (path: TestPath?)
    ensures path == null <==> Resolved(searchRoot, pathAsString).None?
    ensures path != null ==> fresh(path) && path.tests == Resolved(searchRoot, pathAsString).value
  {
    var root, testNames := FindActualRoot(searchRoot, pathAsString);
    if root.None? {
      return null;
    }
    path := new TestPath();
    path.Add(root.value);
    var parentTest := root.value;
    ghost var names := if testNames == [] then [] else testNames[1..];
    var index := 1;
    while index < |testNames|
      invariant 1 <= index && (testNames != [] ==> index <= |testNames|)
      invariant fresh(path) && path.tests != []
      invariant var rest := if testNames == [] then [] else testNames[index..];
                var walked := Walk(parentTest, rest);
                && Walk(root.value, names).Some? == walked.Some?
                && (walked.Some? ==> path.tests + walked.value == [root.value] + Walk(root.value, names).value)
    {
      ghost var rest := testNames[index..];
      assert rest[0] == testNames[index] && rest[1..] == testNames[index + 1..];
      var child := FindChild(parentTest.children, testNames[index]);
      if child.None? {
        return null;
      }
      parentTest := child.value;
      path.Add(parentTest);
      index := index + 1;
    }
  }

  /** The inner loop of the constructor. */
  method FindChild(tests: seq<Test>, name: string) returns (child: Option<Test>)
    ensures child == ChildNamed(tests, name)
  {
    var childIndex := 0;
    assert tests[0..] == tests;
    while childIndex < |tests|
      invariant 0 <= childIndex <= |tests| && ChildNamed(tests[childIndex..], name) == ChildNamed(tests, name)
    {
      assert tests[childIndex..][1..] == tests[childIndex + 1..];
      if tests[childIndex].name == name {
        return Some(tests[childIndex]);
      }
      childIndex := childIndex + 1;
    }
    return None;
  }
}
