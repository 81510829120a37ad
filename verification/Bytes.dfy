/** Byte sequences, the `indexOf` search and big-endian integers of Node's `Buffer`. */
module Bytes {
  newtype Byte = b: int | 0 <= b < 256
  type Buffer = seq<Byte>

  const HASH: Byte := 0x23   // '#'
  const COLON: Byte := 0x3A  // ':'

  /** `s.indexOf(x, from)` of a buffer or a string: the first index at or after `from`, or -1. */
  function IndexOf<T(==)>(s: seq<T>, x: T, from: nat): (r: int)
    ensures -1 <= r < |s|
    ensures r == -1 ==> forall i :: from <= i < |s| ==> s[i] != x
    ensures r >= 0 ==> from <= r && s[r] == x && forall i :: from <= i < r ==> s[i] != x
    decreases |s| - from
  {
    if from >= |s| then -1
    else if s[from] == x then from
    else IndexOf(s, x, from + 1)
  }

  /** `Buffer.concat`. */
  function Flatten<T>(parts: seq<seq<T>>): seq<T> {
    if parts == [] then [] else parts[0] + Flatten(parts[1..])
  }

  lemma Assoc<T>(a: seq<T>, b: seq<T>, c: seq<T>)
    ensures (a + b) + c == a + (b + c)
  {}

  lemma Uncons<T>(a: seq<T>, b: seq<T>)
    requires a != []
    ensures (a + b)[0] == a[0] && (a + b)[1..] == a[1..] + b
  {}

  lemma {:induction false} FlattenAppend<T>(a: seq<seq<T>>, b: seq<seq<T>>)
    ensures Flatten(a + b) == Flatten(a) + Flatten(b)
  {
    if a == [] {
      assert a + b == b;
    } else {
      FlattenAppend(a[1..], b);
      Uncons(a, b);
      Assoc(a[0], Flatten(a[1..]), Flatten(b));
    }
  }

  // ------------------------------------------------------------------
  // Big-endian integers
  // ------------------------------------------------------------------

  function Pow256(w: nat): (r: nat)
    ensures r >= 1
  {
    if w == 0 then 1 else 256 * Pow256(w - 1)
  }

  /** `readUIntBE(p, w)`. */
  function UIntAt(b: Buffer, p: nat, w: nat): (n: nat)
    requires p + w <= |b|
    ensures n < Pow256(w)
  {
    if w == 0 then 0 else 256 * UIntAt(b, p, w - 1) + b[p + w - 1] as nat
  }

  /** `readIntBE(p, w)`: two's complement. */
  function SIntAt(b: Buffer, p: nat, w: nat): (n: int)
    requires p + w <= |b|
    ensures 0 <= 2 * n + Pow256(w) < 2 * Pow256(w)
  {
    var u := UIntAt(b, p, w);
    if 2 * u < Pow256(w) then u else u - Pow256(w)
  }

  /** `writeUIntBE(n, w)`. */
  function UIntBytes(n: nat, w: nat): (r: Buffer)
    requires n < Pow256(w)
    ensures |r| == w
  {
    if w == 0 then [] else UIntBytes(n / 256, w - 1) + [(n % 256) as Byte]
  }

  /** `writeIntBE(n, w)`. */
  function SIntBytes(n: int, w: nat): (r: Buffer)
    requires 0 <= 2 * n + Pow256(w) < 2 * Pow256(w)
    ensures |r| == w
  {
    UIntBytes(if n < 0 then n + Pow256(w) else n, w)
  }

  lemma {:induction false} UIntRoundTrip(n: nat, w: nat, b: Buffer, p: nat)
    requires n < Pow256(w) && p + w <= |b| && b[p..p + w] == UIntBytes(n, w)
    ensures UIntAt(b, p, w) == n
  {
    if w > 0 {
      var r := UIntBytes(n, w);
      assert r[..w - 1] == UIntBytes(n / 256, w - 1);
      assert b[p..p + w - 1] == b[p..p + w][..w - 1];
      UIntRoundTrip(n / 256, w - 1, b, p);
      assert b[p + w - 1] == b[p..p + w][w - 1];
    }
  }

  lemma SIntRoundTrip(n: int, w: nat, b: Buffer, p: nat)
    requires 0 <= 2 * n + Pow256(w) < 2 * Pow256(w)
    requires p + w <= |b| && b[p..p + w] == SIntBytes(n, w)
    ensures SIntAt(b, p, w) == n
  {
    UIntRoundTrip(if n < 0 then n + Pow256(w) else n, w, b, p);
  }

  /** A big-endian integer depends only on the bytes it covers. */
  lemma {:induction false} UIntAtLocal(a: Buffer, b: Buffer, p: nat, w: nat)
    requires p + w <= |a| && p + w <= |b| && a[p..p + w] == b[p..p + w]
    ensures UIntAt(a, p, w) == UIntAt(b, p, w)
  {
    if w > 0 {
      assert a[p..p + w - 1] == a[p..p + w][..w - 1];
      assert b[p..p + w - 1] == b[p..p + w][..w - 1];
      UIntAtLocal(a, b, p, w - 1);
      assert a[p + w - 1] == a[p..p + w][w - 1];
      assert b[p + w - 1] == b[p..p + w][w - 1];
    }
  }

  /** Reading inside a slice is reading at the shifted offset. */
  lemma {:induction false} UIntAtShift(b: Buffer, lo: nat, hi: nat, p: nat, w: nat)
    requires lo + p + w <= hi <= |b|
    ensures UIntAt(b[lo..hi], p, w) == UIntAt(b, lo + p, w)
  {
    if w > 0 {
      UIntAtShift(b, lo, hi, p, w - 1);
    }
  }

  lemma SliceShift<T>(s: seq<T>, lo: nat, hi: nat, i: nat, j: nat)
    requires i <= j && lo + j <= hi <= |s|
    ensures s[lo..hi][i..j] == s[lo + i..lo + j]
  {
    forall k | 0 <= k < j - i
      ensures s[lo..hi][i..j][k] == s[lo + i..lo + j][k]
    {
      assert s[lo..hi][i + k] == s[lo + i + k];
    }
  }
}
