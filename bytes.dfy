/**
 * Bytes, little-endian integers and what a Python binary stream returns
 * when it is read near or past its end.
 */
module Bytes {
  newtype byte = b: int | 0 <= b < 0x100

  const U32Limit: nat := 0x1_0000_0000

  function Min(a: nat, b: nat): nat { if a <= b then a else b }

  /** `int.from_bytes(s, byteorder="little")` for a byte string of any length. */
  function FromLE(s: seq<byte>): nat
  {
    if s == [] then 0 else s[0] as nat + 0x100 * FromLE(s[1..])
  }

  function Pow256(k: nat): (r: nat)
    ensures r > 0
  {
    if k == 0 then 1 else 0x100 * Pow256(k - 1)
  }

  /** A little-endian number of k bytes is below 256^k. */
  lemma {:induction false} FromLEBound(s: seq<byte>)
    ensures FromLE(s) < Pow256(|s|)
  {
    if s != [] {
      FromLEBound(s[1..]);
    }
  }

  /**
   * Every `int.from_bytes(br.read(4), "little")` lies in [0, 2^32), and a
   * full read is b0 + 256*b1 + 65536*b2 + 16777216*b3.
   */
  lemma U32Value(s: seq<byte>)
    requires |s| <= 4
    ensures FromLE(s) < U32Limit
    ensures |s| == 4 ==> FromLE(s) == s[0] as int + 0x100 * s[1] as int + 0x1_0000 * s[2] as int + 0x100_0000 * s[3] as int
  {
    FromLEBound(s);
    assert Pow256(|s|) <= Pow256(4);
    if |s| == 4 {
      assert s[1..][1..] == s[2..];
      assert s[2..][1..] == s[3..];
      assert s[3..][1..] == [];
    }
  }

  /**
   * What `read(n)` returns when the stream stands at `p`: the next `n` bytes,
   * fewer when the file ends first, none when `p` is at or past its end.
   */
  function Slice(data: seq<byte>, p: nat, n: nat): (r: seq<byte>)
    ensures |r| <= n
    ensures |r| == if |data| <= p then 0 else Min(n, |data| - p)
  {
    var m := if |data| <= p then 0 else Min(n, |data| - p);
    seq(m, i requires 0 <= i < m => data[p + i])
  }

  /** A read that fits in the file returns exactly the n bytes at p. */
  lemma SliceInBounds(data: seq<byte>, p: nat, n: nat)
    requires p + n <= |data|
    ensures Slice(data, p, n) == data[p..p + n]
  {
  }

  /** Where the stream stands after `read(n)` from `p`: it never moves past the end by reading. */
  function Advance(len: nat, p: nat, n: nat): (q: nat)
    ensures p <= len ==> q <= len
    ensures p + n <= len ==> q == p + n
  {
    if len <= p then p else Min(p + n, len)
  }

  /** The byte at i, or 0 past the end: the contribution of a byte a short read did not return. */
  function At(data: seq<byte>, i: nat): byte
  {
    if i < |data| then data[i] else 0
  }

  /** The little-endian value of the n bytes at p, bytes past the end counting as zero. */
  function LE(data: seq<byte>, p: nat, n: nat): (v: nat)
    ensures v < Pow256(n)
    decreases n
  {
    if n == 0 then 0 else At(data, p) as nat + 0x100 * LE(data, p + 1, n - 1)
  }

  /** `int.from_bytes(read(4), "little")` at `p`, a short read counting the missing bytes as zero. */
  function U32At(data: seq<byte>, p: nat): (v: nat)
    ensures v < U32Limit
  {
    LE(data, p, 4)
  }

  /** Past the end of the buffer every value reads as zero. */
  lemma {:induction false} LEPastEnd(data: seq<byte>, p: nat, n: nat)
    requires |data| <= p
    ensures LE(data, p, n) == 0
    decreases n
  {
    if n > 0 {
      LEPastEnd(data, p + 1, n - 1);
    }
  }

  /** A read that returns something starts with the byte at p and continues with the read from p + 1. */
  lemma SliceTail(data: seq<byte>, p: nat, n: nat)
    requires p < |data| && 0 < n
    ensures Slice(data, p, n) == [data[p]] + Slice(data, p + 1, n - 1)
  {
  }

  /** The value of the bytes `read(n)` returns at p is LE(data, p, n), however many it returns. */
  lemma {:induction false} ReadValue(data: seq<byte>, p: nat, n: nat)
    ensures FromLE(Slice(data, p, n)) == LE(data, p, n)
    decreases n
  {
    var s := Slice(data, p, n);
    if n > 0 {
      if |data| <= p {
        LEPastEnd(data, p, n);
      } else {
        SliceTail(data, p, n);
        ReadValue(data, p + 1, n - 1);
      }
    }
  }

  /**
   * A stream cursor `c` stands in for the layout position `a`: they are equal,
   * or both are at or past the end of a file of `len` bytes, where every read is empty.
   */
  predicate Agrees(len: nat, c: nat, a: nat)
  {
    c == a || (len <= c && len <= a)
  }

  /** Reading from a cursor that agrees with a layout position reads the same bytes, and they keep agreeing. */
  lemma ReadAgrees(data: seq<byte>, c: nat, a: nat, n: nat)
    requires Agrees(|data|, c, a)
    ensures Slice(data, c, n) == Slice(data, a, n)
    ensures Agrees(|data|, Advance(|data|, c, n), a + n)
  {
  }

  /** The sum of a sequence of lengths, defined from the back so that a prefix extends by one term. */
  function Sum(s: seq<nat>): nat
  {
    if s == [] then 0 else Sum(s[..|s| - 1]) + s[|s| - 1]
  }

  /** `count` little-endian u32 values read one after another from `at`, as `extract_entry` and `extract_dts` append them. */
  function U32s(data: seq<byte>, at: nat, count: nat): (vs: seq<nat>)
    ensures |vs| == count
  {
    seq(count, t requires 0 <= t < count => U32At(data, at + 4 * t))
  }

  /** The four bytes of a u32, least significant first: what `to_bytes(4, "little")` gives. */
  function ToLE32(v: nat): (b: seq<byte>)
    requires v < U32Limit
    ensures |b| == 4
  {
    [(v % 0x100) as byte, (v / 0x100 % 0x100) as byte, (v / 0x1_0000 % 0x100) as byte, (v / 0x100_0000) as byte]
  }

  /** Writing a u32 and reading it back as `int.from_bytes(..., "little")` gives it back. */
  lemma FromToLE32(v: nat)
    requires v < U32Limit
    ensures FromLE(ToLE32(v)) == v
  {
    U32Value(ToLE32(v));
  }

  /** A u32 stored in the buffer at p reads back as itself. */
  lemma U32AtStored(data: seq<byte>, p: nat, v: nat)
    requires v < U32Limit && p + 4 <= |data| && data[p..p + 4] == ToLE32(v)
    ensures U32At(data, p) == v
  {
    ReadValue(data, p, 4);
    SliceInBounds(data, p, 4);
    FromToLE32(v);
  }
}
