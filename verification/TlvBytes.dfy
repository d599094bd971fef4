/** Reading and overwriting bytes of a message buffer (Kernel/KernelFunctions.cpp and the string functions). */
module TlvBytes {
  import opened Buffers
  import opened TlvSpec

  function Overwrite(s: seq<uint8>, at: nat, bytes: seq<uint8>): (r: seq<uint8>)
    requires at + |bytes| <= |s|
    ensures |r| == |s|
  {
    s[..at] + bytes + s[at + |bytes|..]
  }

  lemma OverwriteAt(s: seq<uint8>, at: nat, bytes: seq<uint8>, i: nat)
    requires at + |bytes| <= |s| && i < |s|
    ensures Overwrite(s, at, bytes)[i] == if at <= i < at + |bytes| then bytes[i - at] else s[i]
  {
  }

  /** Writing b behind a is writing a + b. */
  lemma OverwriteTwice(s: seq<uint8>, at: nat, a: seq<uint8>, b: seq<uint8>)
    requires at + |a| + |b| <= |s|
    ensures Overwrite(Overwrite(s, at, a), at + |a|, b) == Overwrite(s, at, a + b)
    ensures Overwrite(Overwrite(s, at + |a|, b), at, a) == Overwrite(s, at, a + b)
  {
    var x, y, z := Overwrite(Overwrite(s, at, a), at + |a|, b), Overwrite(Overwrite(s, at + |a|, b), at, a),
                   Overwrite(s, at, a + b);
    forall i | 0 <= i < |s| ensures x[i] == z[i] && y[i] == z[i] {
      OverwriteAt(s, at, a, i);
      OverwriteAt(s, at + |a|, b, i);
      OverwriteAt(Overwrite(s, at, a), at + |a|, b, i);
      OverwriteAt(Overwrite(s, at + |a|, b), at, a, i);
      OverwriteAt(s, at, a + b, i);
    }
  }

  /** A slice apart from the bytes overwritten is as before; a slice within them is theirs. */
  lemma OverwriteSlice(s: seq<uint8>, at: nat, bytes: seq<uint8>, i: nat, j: nat)
    requires at + |bytes| <= |s| && i <= j <= |s|
    ensures j <= at || at + |bytes| <= i ==> Overwrite(s, at, bytes)[i..j] == s[i..j]
    ensures j == |s| && at + |bytes| <= i ==> Overwrite(s, at, bytes)[i..] == s[i..]
    ensures at <= i && j <= at + |bytes| ==> Overwrite(s, at, bytes)[i..j] == bytes[i - at..j - at]
  {
    var r := Overwrite(s, at, bytes);
    forall k | i <= k < j ensures r[k] == if at <= k < at + |bytes| then bytes[k - at] else s[k] {
      OverwriteAt(s, at, bytes, k);
    }
    hide Overwrite;
  }

  /** From s to t, exactly these bytes have been written. */
  ghost predicate Wrote(s: seq<uint8>, t: seq<uint8>, at: nat, bytes: seq<uint8>) {
    at + |bytes| <= |s| && t == Overwrite(s, at, bytes)
  }

  lemma WroteThen(s: seq<uint8>, t: seq<uint8>, u: seq<uint8>, at: nat, mid: nat, a: seq<uint8>, b: seq<uint8>)
    requires Wrote(s, t, at, a) && mid == at + |a| && Wrote(t, u, mid, b)
    ensures Wrote(s, u, at, a + b)
  {
    OverwriteTwice(s, at, a, b);
  }

  lemma WroteBefore(s: seq<uint8>, t: seq<uint8>, u: seq<uint8>, at: nat, mid: nat, a: seq<uint8>, b: seq<uint8>)
    requires Wrote(s, t, mid, b) && mid == at + |a| && Wrote(t, u, at, a)
    ensures Wrote(s, u, at, a + b)
  {
    OverwriteTwice(s, at, a, b);
  }

  /** SetUint16, or one byte. */
  method SetNumber(a: array<uint8>, at: nat, width: nat, value: nat)
    requires 1 <= width <= 2 && at + width <= a.Length
    modifies a
    ensures Wrote(old(a[..]), a[..], at, Le(width, value))
  {
    a[at] := value % 0x100;
    if width == 2 {
      a[at + 1] := value / 0x100 % 0x100;
    }
  }

  /** GetUint16, or one byte. */
  method GetNumber(a: array<uint8>, at: nat, width: nat) returns (value: nat)
    requires 1 <= width <= 2 && at + width <= a.Length
    ensures value == NumberAt(a[..], width, at)
  {
    assert a[..][at..at + width][0] == a[at] && (width == 2 ==> a[..][at..at + width][1..][0] == a[at + 1]);
    assert width == 2 ==> FromLe(a[..][at..at + width][1..]) == a[at + 1];
    if width == 1 {
      return a[at];
    }
    value := a[at + 1];
    value := 0x100 * value + a[at];
  }

  /** memmove within one buffer. */
  method MemMove(a: array<uint8>, to: nat, from: nat, n: nat)
    requires to + n <= a.Length && from + n <= a.Length
    modifies a
    ensures Wrote(old(a[..]), a[..], to, old(a[..])[from..from + n])
  {
    forall i | 0 <= i < n {
      a[to + i] := a[from + i];
    }
  }

  /** memmove or memcpy from elsewhere. */
  method CopyIn(a: array<uint8>, to: nat, bytes: seq<uint8>)
    requires to + |bytes| <= a.Length
    modifies a
    ensures Wrote(old(a[..]), a[..], to, bytes)
  {
    forall i | 0 <= i < |bytes| {
      a[to + i] := bytes[i];
    }
  }
}
