/** Trees of tests and the search for a test by name (CppUnit_1.12.1/src/cppunit/Test.cpp). */
module TestTree {
  import opened Options

  /** A test, with an identity of its own: two tests of the same name and shape are two tests. */
  datatype Test = Test(id: nat, name: string, children: seq<Test>)

  type Path = seq<Test>

  // ---------------------------------------------------------------- paths down the tree

  /** A path from `root` downwards, child by child. */
  predicate IsPath(root: Test, path: Path) {
    && path != [] && path[0] == root
    && forall i :: 0 <= i < |path| - 1 ==> path[i + 1] in path[i].children
  }

  /** All paths from the root down to a node, the nodes in preorder. */
  function Preorder(root: Test): seq<Path>
    decreases root
  {
    [[root]] + Prefixed(root, PreorderAll(root.children))
  }

  function PreorderAll(tests: seq<Test>): seq<Path>
    decreases tests
  {
    if tests == [] then [] else Preorder(tests[0]) + PreorderAll(tests[1..])
  }

  function Prefixed(root: Test, paths: seq<Path>): (r: seq<Path>)
    ensures |r| == |paths| && forall i :: 0 <= i < |r| ==> r[i] == [root] + paths[i]
  {
    if paths == [] then [] else [[root] + paths[0]] + Prefixed(root, paths[1..])
  }

  predicate AllPathsOf(tests: seq<Test>, paths: seq<Path>) {
    forall i :: 0 <= i < |paths| ==> paths[i] != [] && paths[i][0] in tests && IsPath(paths[i][0], paths[i])
  }

  /** The preorder lists paths ... */
  lemma PreorderIsPaths(root: Test)
    ensures forall i :: 0 <= i < |Preorder(root)| ==> IsPath(root, Preorder(root)[i])
    decreases root, 1
  {
    var below := PreorderAll(root.children);
    PreorderAllIsPaths(root.children);
    forall i | 0 <= i < |Preorder(root)| ensures IsPath(root, Preorder(root)[i]) {
      if i != 0 {
        var p := below[i - 1];
        assert Preorder(root)[i] == [root] + p;
        assert forall k :: 0 < k < |p| ==> ([root] + p)[k + 1] == p[k];
      }
    }
  }

  lemma PreorderAllIsPaths(tests: seq<Test>)
    ensures AllPathsOf(tests, PreorderAll(tests))
    decreases tests
  {
    if tests != [] {
      PreorderIsPaths(tests[0]);
      PreorderAllIsPaths(tests[1..]);
    }
  }

  /** ... and every path. */
  lemma {:induction false} PathIsInPreorder(root: Test, path: Path)
    requires IsPath(root, path)
    ensures path in Preorder(root)
    decreases |path|
  {
    if |path| == 1 {
      assert path == [root] == Preorder(root)[0];
    } else {
      var rest := path[1..];
      assert forall i :: 0 <= i < |rest| ==> rest[i] == path[i + 1];
      PathIsInPreorder(path[1], rest);
      InPreorderAll(root.children, path[1], rest);
      var i :| 0 <= i < |PreorderAll(root.children)| && PreorderAll(root.children)[i] == rest;
      assert path == [root] + rest;
      assert Preorder(root)[i + 1] == path;
    }
  }

  lemma {:induction false} InPreorderAll(tests: seq<Test>, test: Test, path: Path)
    requires test in tests && path in Preorder(test)
    ensures path in PreorderAll(tests)
  {
    if tests[0] != test {
      assert test in tests[1..];
      InPreorderAll(tests[1..], test, path);
    }
  }

  // ---------------------------------------------------------------- searching

  /** What is searched for: a name, or a test itself. */
  datatype Target = Name(name: string) | Itself(id: nat)

  predicate Hits(target: Target, test: Test) {
    match target
    case Name(name) => test.name == name
    case Itself(id) => test.id == id
  }

  predicate Reaches(target: Target, path: Path) {
    path != [] && Hits(target, path[|path| - 1])
  }

  /** The first of the paths that leads to the target. */
  function First(target: Target, paths: seq<Path>): (r: Option<Path>)
    ensures r.Some? ==> r.value in paths && Reaches(target, r.value)
    ensures r.None? ==> forall i :: 0 <= i < |paths| ==> !Reaches(target, paths[i])
  {
    if paths == [] then None
    else if Reaches(target, paths[0]) then Some(paths[0])
    else First(target, paths[1..])
  }

  lemma {:induction false} FirstOf(target: Target, a: seq<Path>, b: seq<Path>)
    ensures First(target, a + b) == if First(target, a).Some? then First(target, a) else First(target, b)
  {
    if a == [] {
      assert a + b == b;
    } else {
      assert (a + b)[1..] == a[1..] + b;
      FirstOf(target, a[1..], b);
    }
  }

  lemma {:induction false} FirstPrefixed(target: Target, root: Test, paths: seq<Path>)
    requires forall i :: 0 <= i < |paths| ==> paths[i] != []
    ensures var r := First(target, paths);
            First(target, Prefixed(root, paths)) == if r.Some? then Some([root] + r.value) else None
  {
    if paths != [] {
      var p := [root] + paths[0];
      assert p[|p| - 1] == paths[0][|paths[0]| - 1];
      FirstPrefixed(target, root, paths[1..]);
    }
  }

  /** The first test found in preorder, and the way to it. */
  function Found(root: Test, target: Target): Option<Path> {
    First(target, Preorder(root))
  }

  function FoundAmong(tests: seq<Test>, target: Target): Option<Path> {
    First(target, PreorderAll(tests))
  }

  lemma FoundHere(root: Test, target: Target)
    ensures Hits(target, root) ==> Found(root, target) == Some([root])
    ensures !Hits(target, root) ==>
              var r := FoundAmong(root.children, target);
              Found(root, target) == if r.Some? then Some([root] + r.value) else None
  {
    var paths := PreorderAll(root.children);
    PreorderAllIsPaths(root.children);
    FirstPrefixed(target, root, paths);
    assert Preorder(root)[0] == [root] && Preorder(root)[1..] == Prefixed(root, paths);
  }

  lemma FoundStep(tests: seq<Test>, target: Target)
    requires tests != []
    ensures var r := Found(tests[0], target);
            FoundAmong(tests, target) == if r.Some? then r else FoundAmong(tests[1..], target)
  {
    FirstOf(target, Preorder(tests[0]), PreorderAll(tests[1..]));
  }

  /** The test comes before all others of its name in preorder. */
  predicate FirstOfName(root: Test, test: Test) {
    exists i :: 0 <= i < |Preorder(root)| && IsFirst(Preorder(root), i, test)
  }

  predicate IsFirst(paths: seq<Path>, i: nat, test: Test)
    requires i < |paths|
  {
    && paths[i] != [] && paths[i][|paths[i]| - 1] == test
    && forall j :: 0 <= j < i ==> !Reaches(Name(test.name), paths[j])
  }

  lemma {:induction false} FirstIs(paths: seq<Path>, test: Test)
    ensures (exists i :: 0 <= i < |paths| && IsFirst(paths, i, test)) <==>
              var r := First(Name(test.name), paths);
              r.Some? && r.value[|r.value| - 1] == test
  {
    var target := Name(test.name);
    if paths != [] && !Reaches(target, paths[0]) {
      var rest := paths[1..];
      FirstIs(rest, test);
      if i :| 0 <= i < |paths| && IsFirst(paths, i, test) {
        assert i != 0 && rest[i - 1] == paths[i];
        assert IsFirst(rest, i - 1, test);
      }
      if i :| 0 <= i < |rest| && IsFirst(rest, i, test) {
        assert paths[i + 1] == rest[i];
        assert forall j :: 0 < j < i + 1 ==> paths[j] == rest[j - 1];
        assert IsFirst(paths, i + 1, test);
      }
    } else if paths != [] {
      assert IsFirst(paths, 0, paths[0][|paths[0]| - 1]);
    }
  }

  /** A search succeeds exactly when some test of the tree is the target. */
  lemma FoundIffThere(root: Test, target: Target)
    ensures Found(root, target).Some? <==> exists path :: IsPath(root, path) && Reaches(target, path)
    ensures Found(root, target).Some? ==>
              IsPath(root, Found(root, target).value) && Reaches(target, Found(root, target).value)
  {
    PreorderIsPaths(root);
    if path :| IsPath(root, path) && Reaches(target, path) {
      PathIsInPreorder(root, path);
    }
  }
}
