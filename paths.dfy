/**
 * Output names: POSIX `os.path.join`, the `f"{i:04d}{ext}"` file name and the
 * extension chosen from what the sniffer says.
 */
module Paths {
  import opened Options

  /** `os.path.join(a, b)` on POSIX: an absolute `b` replaces `a`; otherwise one separator goes between them. */
  function Join(a: string, b: string): string
  {
    if |b| > 0 && b[0] == '/' then b
    else if a == [] || a[|a| - 1] == '/' then a + b
    else a + "/" + b
  }

  /** The directory a resource goes to: `os.path.join(savedir, entry, group)`. */
  function GroupDir(savedir: string, entry: string, group: string): string
  {
    Join(Join(savedir, entry), group)
  }

  /** With plain relative names the directory is savedir/entry/group. */
  lemma GroupDirPlain(savedir: string, entry: string, group: string)
    requires savedir != [] && savedir[|savedir| - 1] != '/'
    requires entry != [] && entry[0] != '/' && entry[|entry| - 1] != '/'
    requires group != [] && group[0] != '/'
    ensures GroupDir(savedir, entry, group) == savedir + "/" + entry + "/" + group
  {
    var se := savedir + "/" + entry;
    assert se[|se| - 1] == entry[|entry| - 1];
  }

  /** A group name that starts with '/' discards savedir and the entry name altogether. */
  lemma GroupDirAbsolute(savedir: string, entry: string, group: string)
    requires group != [] && group[0] == '/'
    ensures GroupDir(savedir, entry, group) == group
  {
  }

  predicate IsDigit(c: char) { '0' <= c <= '9' }

  predicate AllDigits(s: string) { forall k :: 0 <= k < |s| ==> IsDigit(s[k]) }

  function DigitChar(d: nat): (c: char)
    requires d < 10
    ensures IsDigit(c) && c as int - '0' as int == d
  {
    ('0' as int + d) as char
  }

  /** `str(n)` for a non-negative integer: decimal digits, no leading zero. */
  function Decimal(n: nat): string
    decreases n
  {
    if n < 10 then [DigitChar(n)] else Decimal(n / 10) + [DigitChar(n % 10)]
  }

  function Zeros(k: nat): string
  {
    seq(k, _ => '0')
  }

  /** `f"{n:04d}"`: the decimal digits of n, zero-padded on the left to at least four. */
  function Pad4(n: nat): string
  {
    var d := Decimal(n);
    if |d| < 4 then Zeros(4 - |d|) + d else d
  }

  /** The value of a string of decimal digits, leading zeros allowed. */
  function ParseDecimal(s: string): nat
    requires AllDigits(s)
  {
    if s == [] then 0 else 10 * ParseDecimal(s[..|s| - 1]) + (s[|s| - 1] as int - '0' as int)
  }

  function Pow10(k: nat): (r: nat)
    ensures r >= 1
  {
    if k == 0 then 1 else 10 * Pow10(k - 1)
  }

  lemma Regroup(x: int, p: int, y: int, d: int)
    ensures 10 * (x * p + y) + d == x * (10 * p) + (10 * y + d)
  {
  }

  lemma {:induction false} ParseAppend(a: string, b: string)
    requires AllDigits(a) && AllDigits(b)
    ensures AllDigits(a + b)
    ensures ParseDecimal(a + b) == ParseDecimal(a) * Pow10(|b|) + ParseDecimal(b)
    decreases |b|
  {
    var ab := a + b;
    if b == [] {
      assert ab == a;
    } else {
      var b' := b[..|b| - 1];
      assert ab[..|ab| - 1] == a + b';
      ParseAppend(a, b');
      var x, p, y, d := ParseDecimal(a), Pow10(|b'|), ParseDecimal(b'), b[|b| - 1] as int - '0' as int;
      assert ParseDecimal(ab) == 10 * (x * p + y) + d;
      assert ParseDecimal(b) == 10 * y + d;
      Regroup(x, p, y, d);
    }
  }

  lemma {:induction false} ParseZeros(k: nat)
    ensures |Zeros(k)| == k && AllDigits(Zeros(k)) && ParseDecimal(Zeros(k)) == 0
  {
    if k > 0 {
      assert Zeros(k)[..k - 1] == Zeros(k - 1);
      ParseZeros(k - 1);
    }
  }

  /** `str(n)` is a non-empty run of digits that reads back as n. */
  lemma {:induction false} ParseDecimalOf(n: nat)
    ensures |Decimal(n)| >= 1 && AllDigits(Decimal(n))
    ensures ParseDecimal(Decimal(n)) == n
    decreases n
  {
    if n >= 10 {
      var d := Decimal(n);
      ParseDecimalOf(n / 10);
      assert d == Decimal(n / 10) + [DigitChar(n % 10)];
      assert d[..|d| - 1] == Decimal(n / 10);
    }
  }

  lemma {:induction false} DecimalLength(n: nat, k: nat)
    requires 1 <= k && n < Pow10(k)
    ensures |Decimal(n)| <= k
    decreases k
  {
    if n >= 10 {
      assert k >= 2;
      DecimalLength(n / 10, k - 1);
    }
  }

  /**
   * The formatted index is all digits, at least four of them, exactly four
   * below 10000, and it reads back as the index.
   */
  lemma Pad4Shape(n: nat)
    ensures AllDigits(Pad4(n)) && |Pad4(n)| >= 4
    ensures n < 10000 ==> |Pad4(n)| == 4
    ensures ParseDecimal(Pad4(n)) == n
  {
    var d := Decimal(n);
    ParseDecimalOf(n);
    if n < 10000 {
      Pow10Four();
      DecimalLength(n, 4);
    }
    if |d| < 4 {
      PadParse(d);
    }
  }

  lemma Pow10Four()
    ensures Pow10(4) == 10000
  {
  }

  lemma PadParse(d: string)
    requires AllDigits(d) && |d| < 4
    ensures AllDigits(Zeros(4 - |d|) + d) && ParseDecimal(Zeros(4 - |d|) + d) == ParseDecimal(d)
  {
    var z := Zeros(4 - |d|);
    ParseZeros(4 - |d|);
    ParseAppend(z, d);
    var pz, pw := ParseDecimal(z), Pow10(|d|);
    assert pz == 0;
    assert pz * pw == 0;
  }

  /** The extension part: "." + what the sniffer names, or ".unknown" when it names nothing. */
  function ExtOf(sniffed: Option<string>): (e: string)
    ensures |e| >= 2 && e[0] == '.'
  {
    if sniffed.Some? && sniffed.value != "" then "." + sniffed.value else ".unknown"
  }

  /** `f"{i:04d}{ext}"` */
  function FileName(index: nat, sniffed: Option<string>): string
  {
    Pad4(index) + ExtOf(sniffed)
  }

  /**
   * Two resources of one group never share a file name: the name fixes the
   * index, whatever the sniffer says about either.
   */
  lemma FileNamesDistinct(i: nat, e: Option<string>, j: nat, f: Option<string>)
    requires FileName(i, e) == FileName(j, f)
    ensures i == j
  {
    var p, q := Pad4(i), Pad4(j);
    var name := FileName(i, e);
    Pad4Shape(i);
    Pad4Shape(j);
    assert |p| == |q| by {
      assert name[|p|] == '.' && name[|q|] == '.';
      assert forall k :: 0 <= k < |p| ==> IsDigit(name[k]);
      assert forall k :: 0 <= k < |q| ==> IsDigit(name[k]);
    }
    assert p == name[..|p|] == q;
  }

  /** The index and the sniffed extension can be read back from a file name. */
  lemma FileNameParts(i: nat, e: Option<string>)
    ensures var name := FileName(i, e); var p := Pad4(i);
      |p| < |name| && AllDigits(name[..|p|]) && ParseDecimal(name[..|p|]) == i && name[|p|..] == ExtOf(e)
  {
    Pad4Shape(i);
    var name := FileName(i, e);
    assert name[..|Pad4(i)|] == Pad4(i);
  }
}
