/**
 * The inverse of reading one resource group: the bytes that a group with a
 * given name and resources occupies, laid out as `extract_entry` reads them,
 * and the proof that decoding those bytes gives the name and the resources
 * back.
 */
module GroupEncoder {
  import opened Options
  import opened Bytes
  import Utf16
  import opened Layout
  import opened LayoutFacts
  import opened Properties

  /** u32 values stored one after another, as the resource length table holds them. */
  function Table(vs: seq<nat>): (b: seq<byte>)
    requires forall t :: 0 <= t < |vs| ==> vs[t] < U32Limit
    ensures |b| == 4 * |vs|
  {
    if vs == [] then [] else Table(vs[..|vs| - 1]) + ToLE32(vs[|vs| - 1])
  }

  /** Byte strings stored back to back, as the resources of a group are. */
  function Concat(rs: seq<seq<byte>>): seq<byte>
  {
    if rs == [] then [] else Concat(rs[..|rs| - 1]) + rs[|rs| - 1]
  }

  function Lengths(rs: seq<seq<byte>>): (ls: seq<nat>)
    ensures |ls| == |rs|
  {
    seq(|rs|, t requires 0 <= t < |rs| => |rs[t]|)
  }

  /** Every count and length fits its u32 field. */
  predicate Encodable(name: string, rs: seq<seq<byte>>)
  {
    |Utf16.Encode(name)| + 2 < U32Limit && |rs| < U32Limit
    && forall t :: 0 <= t < |rs| ==> |rs[t]| < U32Limit
  }

  const Terminator: seq<byte> := [0, 0]
  const Gap: seq<byte> := [0, 0, 0, 0, 0, 0, 0, 0]

  /** The name field: its byte length (terminator included), the UTF-16LE name, the terminator. */
  function NameField(name: string): (b: seq<byte>)
    requires |Utf16.Encode(name)| + 2 < U32Limit
    ensures |b| == |Utf16.Encode(name)| + 6
  {
    var n := Utf16.Encode(name);
    ToLE32(|n| + 2) + n + Terminator
  }

  /** The header of a group: its name field, the 8-byte gap and the resource count. */
  function Header(name: string, count: nat): (h: seq<byte>)
    requires |Utf16.Encode(name)| + 2 < U32Limit && count < U32Limit
  {
    NameField(name) + Gap + ToLE32(count)
  }

  /** A whole group: header, resource length table, then the resources. */
  function EncodeGroup(name: string, rs: seq<seq<byte>>): (b: seq<byte>)
    requires Encodable(name, rs)
    ensures |b| == |Header(name, |rs|)| + 4 * |rs| + |Concat(rs)|
  {
    Header(name, |rs|) + Table(Lengths(rs)) + Concat(rs)
  }

  // ---- Where each piece lies ----

  /** The bytes b lie in the buffer from position p on. */
  predicate StoredAt(data: seq<byte>, p: nat, b: seq<byte>)
  {
    p + |b| <= |data| && forall i :: 0 <= i < |b| ==> data[p + i] == b[i]
  }

  /** Bytes stored one after the other are each stored at their own place. */
  lemma Split(data: seq<byte>, p: nat, x: seq<byte>, y: seq<byte>)
    requires StoredAt(data, p, x + y)
    ensures StoredAt(data, p, x) && StoredAt(data, p + |x|, y)
  {
    forall i | 0 <= i < |x|
      ensures data[p + i] == x[i]
    {
      assert (x + y)[i] == x[i];
    }
    forall i | 0 <= i < |y|
      ensures data[p + |x| + i] == y[i]
    {
      assert (x + y)[|x| + i] == y[i];
    }
  }

  /** A stored u32 reads back as itself. */
  lemma ReadStored(data: seq<byte>, p: nat, v: nat)
    requires v < U32Limit && StoredAt(data, p, ToLE32(v))
    ensures U32At(data, p) == v
  {
    assert data[p..p + 4] == ToLE32(v);
    U32AtStored(data, p, v);
  }

  /** Entry t of a stored table reads back as itself. */
  lemma {:induction false} ReadTable(data: seq<byte>, p: nat, vs: seq<nat>, t: nat)
    requires forall t :: 0 <= t < |vs| ==> vs[t] < U32Limit
    requires t < |vs| && StoredAt(data, p, Table(vs))
    ensures U32At(data, p + 4 * t) == vs[t]
    decreases |vs|
  {
    var init := vs[..|vs| - 1];
    Split(data, p, Table(init), ToLE32(vs[|vs| - 1]));
    if t < |init| {
      ReadTable(data, p, init, t);
    } else {
      ReadStored(data, p + 4 * t, vs[t]);
    }
  }

  lemma {:induction false} ConcatLength(rs: seq<seq<byte>>)
    ensures |Concat(rs)| == Sum(Lengths(rs))
    decreases |rs|
  {
    if rs != [] {
      var init := rs[..|rs| - 1];
      ConcatLength(init);
      assert Lengths(rs)[..|rs| - 1] == Lengths(init);
    }
  }

  /** Resource j of stored resources lies after the lengths of the ones before it. */
  lemma {:induction false} StoredResource(data: seq<byte>, p: nat, rs: seq<seq<byte>>, j: nat)
    requires j < |rs| && StoredAt(data, p, Concat(rs))
    ensures StoredAt(data, p + Sum(Lengths(rs)[..j]), rs[j])
    decreases |rs|
  {
    var init := rs[..|rs| - 1];
    Split(data, p, Concat(init), rs[|rs| - 1]);
    assert Lengths(rs)[..j] == Lengths(init)[..j];
    if j < |init| {
      StoredResource(data, p, init, j);
    } else {
      ConcatLength(init);
      assert Lengths(init)[..j] == Lengths(init);
    }
  }

  /** A stored read returns the stored bytes. */
  lemma ReadBytes(data: seq<byte>, p: nat, b: seq<byte>)
    requires StoredAt(data, p, b)
    ensures Slice(data, p, |b|) == b
  {
  }

  // ---- The round trip ----

  /** The name bytes read back from a name field stored at g: the terminator is dropped. */
  lemma NameFieldRead(data: seq<byte>, g: nat, n: seq<byte>)
    requires |n| + 2 < U32Limit && StoredAt(data, g, ToLE32(|n| + 2) + n + Terminator)
    ensures NameLength(data, g) == |n| + 2
    ensures NameBytes(data, g) == n
  {
    var a := ToLE32(|n| + 2);
    Split(data, g, a + n, Terminator);
    Split(data, g, a, n);
    ReadStored(data, g, |n| + 2);
    var s := Slice(data, g + 4, |n| + 2);
    assert s[..|n|] == n;
  }

  /** The name read back from a name field stored at g. */
  lemma NameRead(data: seq<byte>, g: nat, name: string)
    requires |Utf16.Encode(name)| + 2 < U32Limit && StoredAt(data, g, NameField(name))
    ensures Utf16.Scan(NameBytes(data, g), 0) == Some(name)
  {
    var n := Utf16.Encode(name);
    NameFieldRead(data, g, n);
    Utf16.ScanDecodes(n, 0);
    assert n[0..] == n;
    Utf16.DecodeEncode(name);
  }

  /** The name and the resource count read back from a group header stored at g; the rest follows the count. */
  lemma HeaderRead(data: seq<byte>, g: nat, name: string, count: nat, rest: seq<byte>)
    requires |Utf16.Encode(name)| + 2 < U32Limit && count < U32Limit
    requires StoredAt(data, g, Header(name, count) + rest)
    ensures Utf16.Scan(NameBytes(data, g), 0) == Some(name)
    ensures ResourceCount(data, g) == count
    ensures StoredAt(data, CountAt(data, g) + 4, rest)
  {
    Split(data, g, Header(name, count), rest);
    Split(data, g, NameField(name) + Gap, ToLE32(count));
    Split(data, g, NameField(name), Gap);
    NameFieldRead(data, g, Utf16.Encode(name));
    NameRead(data, g, name);
    ReadStored(data, CountAt(data, g), count);
  }

  /** The resource lengths read back from a table stored after a group's count; the rest follows the table. */
  lemma LengthsRead(data: seq<byte>, g: nat, rs: seq<seq<byte>>, rest: seq<byte>)
    requires forall t :: 0 <= t < |rs| ==> |rs[t]| < U32Limit
    requires ResourceCount(data, g) == |rs| && StoredAt(data, CountAt(data, g) + 4, Table(Lengths(rs)) + rest)
    ensures ResourceLengths(data, g) == Lengths(rs)
    ensures StoredAt(data, ResourcesAt(data, g), rest)
  {
    Split(data, CountAt(data, g) + 4, Table(Lengths(rs)), rest);
    forall t | 0 <= t < |rs|
      ensures ResourceLengths(data, g)[t] == |rs[t]|
    {
      ReadTable(data, CountAt(data, g) + 4, Lengths(rs), t);
    }
  }

  /** The resources read back from where a group's length table ends. */
  lemma ResourcesRead(data: seq<byte>, g: nat, rs: seq<seq<byte>>)
    requires ResourceCount(data, g) == |rs| && ResourceLengths(data, g) == Lengths(rs)
    requires StoredAt(data, ResourcesAt(data, g), Concat(rs))
    ensures forall t :: 0 <= t < |rs| ==> ResourceRaw(data, g, t) == rs[t]
  {
    forall t | 0 <= t < |rs|
      ensures ResourceRaw(data, g, t) == rs[t]
    {
      StoredResource(data, ResourcesAt(data, g), rs, t);
      ReadBytes(data, ResourceStart(data, g, t), rs[t]);
    }
  }

  /**
   * What a group with this name and these resources should write: file t
   * holds resource t (decrypted when the password is truthy) and is named
   * from t and its sniffed content.
   */
  function Written(env: Env, entry: string, name: string, rs: seq<seq<byte>>): (w: seq<Record>)
    ensures |w| == |rs|
  {
    seq(|rs|, t requires 0 <= t < |rs| => Emit(env, entry, name, t, rs[t]))
  }

  /** A group whose name and resources read back as given writes exactly what it should. */
  lemma GroupWritten(data: seq<byte>, env: Env, entry: string, g: nat, name: string, rs: seq<seq<byte>>)
    requires Utf16.Scan(NameBytes(data, g), 0) == Some(name) && ResourceCount(data, g) == |rs|
    requires forall t :: 0 <= t < |rs| ==> ResourceRaw(data, g, t) == rs[t]
    ensures GroupOutcome(data, env, entry, g) == Outcome(Written(env, entry, name, rs), None)
  {
    GroupRecords(data, env, entry, g, name);
    var o := GroupOutcome(data, env, entry, g);
    forall t | 0 <= t < |rs|
      ensures o.records[t] == Written(env, entry, name, rs)[t]
    {
    }
    assert o.records == Written(env, entry, name, rs);
  }

  /** A group encoded at g decodes, without error, to exactly what it should write. */
  lemma GroupRoundTrip(data: seq<byte>, env: Env, entry: string, g: nat, name: string, rs: seq<seq<byte>>)
    requires Encodable(name, rs) && StoredAt(data, g, EncodeGroup(name, rs))
    ensures GroupOutcome(data, env, entry, g) == Outcome(Written(env, entry, name, rs), None)
  {
    var h, table, resources := Header(name, |rs|), Table(Lengths(rs)), Concat(rs);
    assert EncodeGroup(name, rs) == h + (table + resources);
    HeaderRead(data, g, name, |rs|, table + resources);
    LengthsRead(data, g, rs, resources);
    ResourcesRead(data, g, rs);
    GroupWritten(data, env, entry, g, name, rs);
  }
}
