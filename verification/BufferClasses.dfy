/** The classes that TBuffers is set up with (Kernel/buffers.cpp): its constructor sorts them by length. */
module BufferClasses {

  datatype Class = Class(length: nat, count: nat)

  ghost function Classes(lengths: seq<nat>, counts: seq<nat>): (r: seq<Class>)
    requires |lengths| == |counts|
  {
    seq(|lengths|, i requires 0 <= i < |lengths| => Class(lengths[i], counts[i]))
  }

  ghost function Swap<T>(s: seq<T>, i: nat, j: nat): seq<T>
    requires i < |s| && j < |s|
  {
    s[i := s[j]][j := s[i]]
  }

  lemma SwapPermutes<T>(s: seq<T>, i: nat, j: nat)
    requires i < j < |s|
    ensures multiset(Swap(s, i, j)) == multiset(s)
  {
    var a, b, c := s[..i], s[i + 1..j], s[j + 1..];
    assert s == a + [s[i]] + b + [s[j]] + c;
    assert Swap(s, i, j) == a + [s[j]] + b + [s[i]] + c;
  }

  /** The first k lengths are in order and none of the later ones is smaller. */
  ghost predicate SortedTo(lengths: seq<nat>, k: nat) {
    forall c, d :: 0 <= c < k && c < d < |lengths| ==> lengths[c] <= lengths[d]
  }

  ghost predicate SmallestSoFar(lengths: seq<nat>, i: nat, j: nat) {
    j <= |lengths| && forall d :: i <= d < j ==> lengths[i] <= lengths[d]
  }

  lemma SwapKeepsOrder(lengths: seq<nat>, i: nat, j: nat)
    requires i < j < |lengths| && SortedTo(lengths, i) && SmallestSoFar(lengths, i, j) && lengths[j] < lengths[i]
    ensures SortedTo(Swap(lengths, i, j), i) && SmallestSoFar(Swap(lengths, i, j), i, j + 1)
  {
  }

  method Exchange(a: array<nat>, i: nat, j: nat)
    requires i < j < a.Length
    modifies a
    ensures a[..] == Swap(old(a[..]), i, j)
  {
    var tmp := a[i];
    a[i] := a[j];
    a[j] := tmp;
  }

  lemma ClassesSwap(lengths: seq<nat>, counts: seq<nat>, i: nat, j: nat)
    requires i < j < |lengths| == |counts|
    ensures Classes(Swap(lengths, i, j), Swap(counts, i, j)) == Swap(Classes(lengths, counts), i, j)
  {
  }

  /** The paired exchange sort: counts move with their lengths. */
  method SortClasses(buffersCount: array<nat>, buffersLength: array<nat>)
    requires buffersCount != buffersLength && buffersCount.Length == buffersLength.Length && 0 < buffersLength.Length
    modifies buffersCount, buffersLength
    ensures SortedTo(buffersLength[..], buffersLength.Length)
    ensures multiset(Classes(buffersLength[..], buffersCount[..]))
            == multiset(Classes(old(buffersLength[..]), old(buffersCount[..])))
  {
    var n := buffersLength.Length;
    ghost var given := multiset(Classes(buffersLength[..], buffersCount[..]));
    var i := 0;
    while i < n - 1
      invariant 0 <= i < n && SortedTo(buffersLength[..], i)
      invariant multiset(Classes(buffersLength[..], buffersCount[..])) == given
    {
      var j := i + 1;
      while j < n
        invariant i < j <= n && SortedTo(buffersLength[..], i) && SmallestSoFar(buffersLength[..], i, j)
        invariant multiset(Classes(buffersLength[..], buffersCount[..])) == given
      {
        if buffersLength[i] > buffersLength[j] {
          SwapKeepsOrder(buffersLength[..], i, j);
          ClassesSwap(buffersLength[..], buffersCount[..], i, j);
          SwapPermutes(Classes(buffersLength[..], buffersCount[..]), i, j);
          Exchange(buffersLength, i, j);
          Exchange(buffersCount, i, j);
        }
        j := j + 1;
      }
      i := i + 1;
    }
  }
}
