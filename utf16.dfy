/**
 * UTF-16 little-endian text, as Python's strict "utf-16le" codec reads and
 * writes it. Dafny's `char` is a Unicode scalar value, so a decoded name is
 * a real string; surrogate pairs become one character.
 */
module Utf16 {
  import opened Options
  import opened Bytes

  predicate IsHighSurrogate(u: int) { 0xD800 <= u < 0xDC00 }
  predicate IsLowSurrogate(u: int) { 0xDC00 <= u < 0xE000 }

  /** The 16-bit code unit stored as the byte pair (lo, hi). */
  function CodeUnit(lo: byte, hi: byte): (u: nat)
    ensures u < 0x1_0000
  {
    lo as nat + 0x100 * hi as nat
  }

  /** The byte pair that stores code unit `u`, low byte first. */
  function Unit(u: nat): (b: seq<byte>)
    requires u < 0x1_0000
    ensures |b| == 2 && CodeUnit(b[0], b[1]) == u
  {
    [(u % 0x100) as byte, (u / 0x100) as byte]
  }

  function Prepend(c: char, rest: Option<string>): Option<string>
  {
    match rest
    case None => None
    case Some(t) => Some([c] + t)
  }

  /**
   * `b.decode("utf-16le")`: None exactly where the codec raises
   * UnicodeDecodeError (an odd byte count, a low surrogate without a high one
   * before it, a high surrogate without a low one after it).
   */
  function Decode(b: seq<byte>): Option<string>
    decreases |b|
  {
    if |b| == 0 then Some([])
    else if |b| == 1 then None
    else
      var u := CodeUnit(b[0], b[1]);
      if !IsHighSurrogate(u) && !IsLowSurrogate(u) then
        Prepend(u as char, Decode(b[2..]))
      else if IsLowSurrogate(u) || |b| < 4 then None
      else
        var w := CodeUnit(b[2], b[3]);
        if !IsLowSurrogate(w) then None
        else Prepend((0x1_0000 + (u - 0xD800) * 0x400 + (w - 0xDC00)) as char, Decode(b[4..]))
  }

  /**
   * The same decoding as the codec performs it, scanning `b` from byte i
   * onwards by position: two bytes for an ordinary code unit, four for a
   * surrogate pair.
   */
  function Scan(b: seq<byte>, i: nat): (r: Option<string>)
    requires i <= |b|
    ensures r.Some? ==> 2 * |r.value| <= |b| - i
    decreases |b| - i
  {
    if |b| - i == 0 then Some([])
    else if |b| - i == 1 then None
    else
      var u := CodeUnit(b[i], b[i + 1]);
      if !IsHighSurrogate(u) && !IsLowSurrogate(u) then
        Prepend(u as char, Scan(b, i + 2))
      else if IsLowSurrogate(u) || |b| - i < 4 then None
      else
        var w := CodeUnit(b[i + 2], b[i + 3]);
        if !IsLowSurrogate(w) then None
        else Prepend((0x1_0000 + (u - 0xD800) * 0x400 + (w - 0xDC00)) as char, Scan(b, i + 4))
  }

  /** Scanning from byte i decodes exactly the bytes from i on. */
  lemma {:induction false} ScanDecodes(b: seq<byte>, i: nat)
    requires i <= |b|
    ensures Scan(b, i) == Decode(b[i..])
    decreases |b| - i
  {
    var t := b[i..];
    if |t| >= 2 {
      assert t[0] == b[i] && t[1] == b[i + 1];
      var u := CodeUnit(b[i], b[i + 1]);
      if !IsHighSurrogate(u) && !IsLowSurrogate(u) {
        ScanDecodes(b, i + 2);
        assert t[2..] == b[i + 2..];
      } else if !IsLowSurrogate(u) && |t| >= 4 {
        assert t[2] == b[i + 2] && t[3] == b[i + 3];
        ScanDecodes(b, i + 4);
        assert t[4..] == b[i + 4..];
      }
    }
  }

  /** An odd number of bytes never decodes: the codec raises on the truncated last code unit. */
  lemma {:induction false} OddFails(b: seq<byte>)
    requires |b| % 2 == 1
    ensures Decode(b) == None
    decreases |b|
  {
    if |b| >= 2 {
      var u := CodeUnit(b[0], b[1]);
      if !IsHighSurrogate(u) && !IsLowSurrogate(u) {
        OddFails(b[2..]);
      } else if !IsLowSurrogate(u) && |b| >= 4 && IsLowSurrogate(CodeUnit(b[2], b[3])) {
        OddFails(b[4..]);
      }
    }
  }

  /** `c.encode("utf-16le")`: one code unit below U+10000, a surrogate pair above. */
  function EncodeChar(c: char): (b: seq<byte>)
    ensures |b| == 2 || |b| == 4
  {
    var v := c as int;
    if v < 0x1_0000 then Unit(v)
    else Unit(0xD800 + (v - 0x1_0000) / 0x400) + Unit(0xDC00 + (v - 0x1_0000) % 0x400)
  }

  /** `s.encode("utf-16le")`, without byte-order mark or terminator. */
  function Encode(s: string): (b: seq<byte>)
    ensures 2 * |s| <= |b| <= 4 * |s|
  {
    if s == [] then [] else EncodeChar(s[0]) + Encode(s[1..])
  }

  /** Every string survives encoding and decoding. */
  lemma {:induction false} DecodeEncode(s: string)
    ensures Decode(Encode(s)) == Some(s)
  {
    if s != [] {
      var c, e, rest := s[0], EncodeChar(s[0]), Encode(s[1..]);
      var b := e + rest;
      DecodeEncode(s[1..]);
      var v := c as int;
      if v < 0x1_0000 {
        assert CodeUnit(b[0], b[1]) == v;
        assert b[2..] == rest;
      } else {
        var hi, lo := 0xD800 + (v - 0x1_0000) / 0x400, 0xDC00 + (v - 0x1_0000) % 0x400;
        assert CodeUnit(b[0], b[1]) == hi;
        assert CodeUnit(b[2], b[3]) == lo;
        assert b[4..] == rest;
        assert 0x1_0000 + (hi - 0xD800) * 0x400 + (lo - 0xDC00) == v;
      }
      assert [c] + s[1..] == s;
    }
  }

  /** The byte pair of a code unit is the pair it was read from. */
  lemma UnitOfCodeUnit(lo: byte, hi: byte)
    ensures Unit(CodeUnit(lo, hi)) == [lo, hi]
  {
  }

  /** A high and a low surrogate combine into a supplementary character that splits back into them. */
  lemma PairSplits(u: nat, w: nat)
    requires IsHighSurrogate(u) && IsLowSurrogate(w)
    ensures var v := 0x1_0000 + (u - 0xD800) * 0x400 + (w - 0xDC00);
      0x1_0000 <= v < 0x11_0000 && (v - 0x1_0000) / 0x400 == u - 0xD800 && (v - 0x1_0000) % 0x400 == w - 0xDC00
  {
  }

  /** Whatever decodes is the encoding of what it decodes to, so a decoded name determines its bytes. */
  lemma {:induction false} EncodeDecode(b: seq<byte>)
    requires Decode(b).Some?
    ensures Encode(Decode(b).value) == b
    decreases |b|, 1
  {
    if |b| > 0 {
      var u := CodeUnit(b[0], b[1]);
      if !IsHighSurrogate(u) && !IsLowSurrogate(u) {
        EncodeDecodeSingle(b);
      } else {
        EncodeDecodePair(b);
      }
    }
  }

  lemma {:induction false} EncodeDecodeSingle(b: seq<byte>)
    requires |b| >= 2 && Decode(b).Some?
    requires var u := CodeUnit(b[0], b[1]); !IsHighSurrogate(u) && !IsLowSurrogate(u)
    ensures Encode(Decode(b).value) == b
    decreases |b|, 0
  {
    var u := CodeUnit(b[0], b[1]);
    var t := Decode(b[2..]).value;
    var s := Decode(b).value;
    assert s == [u as char] + t;
    EncodeDecode(b[2..]);
    UnitOfCodeUnit(b[0], b[1]);
    assert EncodeChar(s[0]) == b[..2];
    assert s[1..] == t;
    assert Encode(s) == b[..2] + b[2..];
    assert b == b[..2] + b[2..];
  }

  lemma {:induction false} EncodeDecodePair(b: seq<byte>)
    requires |b| >= 2 && Decode(b).Some?
    requires IsHighSurrogate(CodeUnit(b[0], b[1])) || IsLowSurrogate(CodeUnit(b[0], b[1]))
    ensures Encode(Decode(b).value) == b
    decreases |b|, 0
  {
    var u := CodeUnit(b[0], b[1]);
    var w := CodeUnit(b[2], b[3]);
    var t := Decode(b[4..]).value;
    var v := 0x1_0000 + (u - 0xD800) * 0x400 + (w - 0xDC00);
    var s := Decode(b).value;
    assert s == [v as char] + t;
    EncodeDecode(b[4..]);
    UnitOfCodeUnit(b[0], b[1]);
    UnitOfCodeUnit(b[2], b[3]);
    PairSplits(u, w);
    assert EncodeChar(s[0]) == b[..2] + b[2..4];
    assert s[1..] == t;
    assert Encode(s) == b[..2] + b[2..4] + b[4..];
    assert b == b[..2] + b[2..4] + b[4..];
  }
}
