/**
 * What decoding promises, proved about `Layout.Decode`: the two header
 * gates, the only decoding error that can follow them, where every written file goes,
 * how many files a group writes and with which bytes, and how a group's name
 * is cut out of the buffer.
 */
module Properties {
  import opened Options
  import opened Bytes
  import Utf16
  import opened Paths
  import opened Layout
  import opened LayoutFacts

  // ---- Soundness of every record ----

  /** What each loop fixes about the records it writes. */
  ghost predicate Within(loop: Loop, r: Record)
  {
    match loop
    case ResourceLoop(_, _, entry, group, _) => r.entry == entry && r.group == group
    case GroupLoop(_, _, entry, _) => r.entry == entry
    case EntryLoop(_, _, catalog) => r.entry in catalog
  }

  /**
   * An outcome of `loop` can only have failed on a group name, and every
   * record it holds is written under `<savedir>/<entry>/<group>` as
   * `<index:04d><ext>`, where its entry and group are the loop's own.
   */
  ghost predicate Sound(loop: Loop, o: Outcome)
  {
    (o.failure.Some? ==> o.failure == Some(GroupNameNotUtf16))
    && forall r :: r in o.records ==> WellNamed(loop.env, r) && Within(loop, r)
  }

  lemma {:induction false} RunSound(loop: Loop, k: nat, n: nat)
    ensures Sound(loop, Run(loop, k, n))
    decreases Depth(loop), n - k, 3
  {
    if k < n {
      IterationSound(loop, k);
      RunSound(loop, k + 1, n);
    }
  }

  lemma {:induction false} IterationSound(loop: Loop, k: nat)
    ensures Sound(loop, Iteration(loop, k))
    decreases Depth(loop), 0, 2
  {
    match loop
    case ResourceLoop(_, _, _, _, _) =>
    case GroupLoop(data, env, entry, s) =>
      var g := GroupStart(data, s, k);
      var name := Utf16.Scan(NameBytes(data, g), 0);
      if name.Some? {
        RunSound(ResourceLoop(data, env, entry, name.value, g), 0, ResourceCount(data, g));
      }
    case EntryLoop(data, env, catalog) =>
      if k < |catalog| && EntryLength(data, k) != 0 {
        var s := EntryStart(data, k);
        assert Iteration(loop, k) == EntryOutcome(data, env, catalog[k], s);
        RunSound(GroupLoop(data, env, catalog[k], s), 0, GroupCount(data, s));
      }
  }

  /**
   * Every file `extract_dts` writes belongs to a catalogued entry and is
   * named from its entry, group, index and (sniffed) content; the only
   * decoding error after the header checks is a group name that is not
   * UTF-16LE.
   */
  lemma DecodeSound(data: seq<byte>, env: Env, catalog: seq<string>)
    ensures var o := Decode(data, env, catalog);
      (o.failure.Some? ==> o.failure in {Some(SignatureMismatch), Some(PasswordRequired), Some(GroupNameNotUtf16)})
      && forall r :: r in o.records ==> r.entry in catalog && WellNamed(env, r)
  {
    RunSound(EntryLoop(data, env, catalog), 0, |catalog|);
  }

  /** Every file that entry i writes carries the catalogue's name i, even where names repeat. */
  lemma EntryRecordsNamed(data: seq<byte>, env: Env, catalog: seq<string>, i: nat)
    requires i < |catalog|
    ensures forall r :: r in Iteration(EntryLoop(data, env, catalog), i).records ==>
      r.entry == catalog[i] && WellNamed(env, r)
  {
    if EntryLength(data, i) != 0 {
      assert Iteration(EntryLoop(data, env, catalog), i) == EntryOutcome(data, env, catalog[i], EntryStart(data, i));
      RunSound(GroupLoop(data, env, catalog[i], EntryStart(data, i)), 0, GroupCount(data, EntryStart(data, i)));
    }
  }

  // ---- The header gates ----

  /** The signature check: fails, writing nothing, exactly when the first four bytes are not "SDTS". */
  lemma SignatureGate(data: seq<byte>, env: Env, catalog: seq<string>)
    ensures Decode(data, env, catalog).failure == Some(SignatureMismatch)
      <==> !(4 <= |data| && data[..4] == Signature)
    ensures Decode(data, env, catalog).failure == Some(SignatureMismatch) ==> Decode(data, env, catalog).records == []
  {
    if 4 <= |data| {
      SliceInBounds(data, 0, 4);
    }
    RunSound(EntryLoop(data, env, catalog), 0, |catalog|);
  }

  /**
   * The password check: with a good signature, fails, writing nothing,
   * exactly when bytes 4-7 read 1 and the password is `None` or empty.
   */
  lemma PasswordGate(data: seq<byte>, env: Env, catalog: seq<string>)
    requires 4 <= |data| && data[..4] == Signature
    ensures Decode(data, env, catalog).failure == Some(PasswordRequired)
      <==> U32At(data, FlagAt) == 1 && !Truthy(env.password)
    ensures Decode(data, env, catalog).failure == Some(PasswordRequired) ==> Decode(data, env, catalog).records == []
  {
    SliceInBounds(data, 0, 4);
    RunSound(EntryLoop(data, env, catalog), 0, |catalog|);
  }

  /** The flag is a u32 in bytes 4-7, least significant byte first. */
  lemma FlagValue(data: seq<byte>)
    requires 8 <= |data|
    ensures U32At(data, FlagAt) == data[4] as nat + 0x100 * data[5] as nat + 0x1_0000 * data[6] as nat + 0x100_0000 * data[7] as nat
  {
    ReadValue(data, FlagAt, 4);
    SliceInBounds(data, FlagAt, 4);
    U32Value(data[4..8]);
  }

  // ---- Loops whose every iteration succeeds ----

  /** The records of parts k.., one part after another. */
  function Flatten(parts: seq<seq<Record>>, k: nat): (r: seq<Record>)
    decreases |parts| - k
  {
    if |parts| <= k then [] else parts[k] + Flatten(parts, k + 1)
  }

  /** Parts of one record each, from k on: place t - k holds part t's record. */
  lemma {:induction false} FlattenSingles(parts: seq<seq<Record>>, k: nat, t: nat)
    requires k <= t < |parts| && forall j :: k <= j < |parts| ==> |parts[j]| == 1
    ensures |Flatten(parts, k)| == |parts| - k
    ensures Flatten(parts, k)[t - k] == parts[t][0]
    decreases |parts| - k
  {
    if k + 1 < |parts| {
      FlattenSingles(parts, k + 1, if k < t then t else k + 1);
    }
  }

  /** A loop whose iterations all succeed writes their records one after another and does not fail. */
  lemma {:induction false} RunAll(loop: Loop, k: nat, parts: seq<seq<Record>>)
    requires k <= |parts|
    requires forall j :: k <= j < |parts| ==> Iteration(loop, j) == Outcome(parts[j], None)
    ensures Run(loop, k, |parts|) == Outcome(Flatten(parts, k), None)
    decreases |parts| - k
  {
    if k < |parts| {
      RunAll(loop, k + 1, parts);
    }
  }

  // ---- One resource group ----

  /** Resources k..n-1 of a group: one record each and no failure. */
  lemma {:induction false} ResourceRunShape(data: seq<byte>, env: Env, entry: string, group: string, g: nat, k: nat, n: nat)
    requires k <= n <= ResourceCount(data, g)
    ensures Run(ResourceLoop(data, env, entry, group, g), k, n).failure == None
    ensures |Run(ResourceLoop(data, env, entry, group, g), k, n).records| == n - k
    decreases n - k
  {
    if k < n {
      ResourceRunShape(data, env, entry, group, g, k + 1, n);
    }
  }

  /** Among resources k..n-1 of a group, the record at place t - k is resource t's. */
  lemma ResourceRunAt(data: seq<byte>, env: Env, entry: string, group: string, g: nat, k: nat, n: nat, t: nat)
    requires k <= t < n <= ResourceCount(data, g)
    ensures |Run(ResourceLoop(data, env, entry, group, g), k, n).records| == n - k
    ensures Run(ResourceLoop(data, env, entry, group, g), k, n).records[t - k] == ResourceRecord(data, env, entry, group, g, t)
  {
    var loop := ResourceLoop(data, env, entry, group, g);
    var parts := seq(n, j requires 0 <= j < n => [ResourceRecord(data, env, entry, group, g, j)]);
    assert forall j :: k <= j < n ==> Iteration(loop, j) == Outcome(parts[j], None);
    RunAll(loop, k, parts);
    FlattenSingles(parts, k, t);
  }

  /**
   * A group whose name decodes writes exactly `resource_count` files: file t
   * holds the t-th resource's bytes, decrypted when the password is truthy,
   * and is named `<t:04d><ext>` under `<savedir>/<entry>/<group>`.
   */
  lemma GroupRecords(data: seq<byte>, env: Env, entry: string, g: nat, group: string)
    requires Utf16.Scan(NameBytes(data, g), 0) == Some(group)
    ensures GroupOutcome(data, env, entry, g).failure == None
    ensures |GroupOutcome(data, env, entry, g).records| == ResourceCount(data, g)
    ensures forall t :: 0 <= t < ResourceCount(data, g) ==>
      var r := GroupOutcome(data, env, entry, g).records[t];
      r.entry == entry && r.index == t && r.group == group && r.content == Transform(env, ResourceRaw(data, g, t))
      && r.dir == GroupDir(env.savedir, entry, group) && r.fileName == FileName(t, env.sniff(r.content))
  {
    var n := ResourceCount(data, g);
    ResourceRunShape(data, env, entry, group, g, 0, n);
    forall t | 0 <= t < n
      ensures GroupOutcome(data, env, entry, g).records[t] == ResourceRecord(data, env, entry, group, g, t)
    {
      ResourceRunAt(data, env, entry, group, g, 0, n, t);
    }
  }

  /** A resource that lies inside the buffer is read whole, from where the ones before it end. */
  lemma ResourceInBounds(data: seq<byte>, g: nat, j: nat)
    requires j < ResourceCount(data, g)
    requires ResourceStart(data, g, j) + ResourceLengths(data, g)[j] <= |data|
    ensures ResourceRaw(data, g, j)
      == data[ResourceStart(data, g, j)..ResourceStart(data, g, j) + ResourceLengths(data, g)[j]]
    ensures ResourceStart(data, g, j + 1) == ResourceStart(data, g, j) + |ResourceRaw(data, g, j)|
  {
    SliceInBounds(data, ResourceStart(data, g, j), ResourceLengths(data, g)[j]);
    ResourceNext(data, g, j);
  }

  /** A group fails, writing nothing, exactly when its name bytes are not valid UTF-16LE. */
  lemma GroupNameFailure(data: seq<byte>, env: Env, entry: string, g: nat)
    ensures GroupOutcome(data, env, entry, g).failure.Some?
      <==> Utf16.Decode(NameBytes(data, g)) == None
    ensures GroupOutcome(data, env, entry, g).failure.Some? ==> GroupOutcome(data, env, entry, g) == Outcome([], Some(GroupNameNotUtf16))
  {
    Utf16.ScanDecodes(NameBytes(data, g), 0);
    assert NameBytes(data, g)[0..] == NameBytes(data, g);
    match Utf16.Scan(NameBytes(data, g), 0)
    case None =>
    case Some(group) => ResourceRunShape(data, env, entry, group, g, 0, ResourceCount(data, g));
  }

  /**
   * The name field inside the buffer: its stored bytes minus the last two.
   * A stored length of 0 or 1 leaves an empty name.
   */
  lemma NameShape(data: seq<byte>, g: nat)
    requires g + 4 + NameLength(data, g) <= |data|
    ensures NameBytes(data, g)
      == if NameLength(data, g) < 2 then [] else data[g + 4..g + 4 + NameLength(data, g) - 2]
  {
    SliceInBounds(data, g + 4, NameLength(data, g));
  }

  /** An odd stored name length of at least 3, inside the buffer, makes the group fail. */
  lemma OddNameFails(data: seq<byte>, env: Env, entry: string, g: nat)
    requires g + 4 + NameLength(data, g) <= |data|
    requires NameLength(data, g) % 2 == 1 && NameLength(data, g) >= 3
    ensures GroupOutcome(data, env, entry, g) == Outcome([], Some(GroupNameNotUtf16))
  {
    NameShape(data, g);
    assert |NameBytes(data, g)| == NameLength(data, g) - 2;
    Utf16.OddFails(NameBytes(data, g));
    GroupNameFailure(data, env, entry, g);
  }

  // ---- Entries ----

  /** Entries k..n-1 that all have length 0 write nothing and cannot fail. */
  lemma {:induction false} EmptyEntries(data: seq<byte>, env: Env, catalog: seq<string>, k: nat, n: nat)
    requires forall i :: k <= i < n && i < |catalog| ==> EntryLength(data, i) == 0
    ensures Run(EntryLoop(data, env, catalog), k, n) == Nothing
    decreases n - k
  {
    if k < n {
      assert Iteration(EntryLoop(data, env, catalog), k) == Nothing;
      EmptyEntries(data, env, catalog, k + 1, n);
      assert Nothing.records + Nothing.records == [];
    }
  }

  /** A container whose top-level offsets are all equal writes nothing beyond the header checks. */
  lemma EqualOffsetsWriteNothing(data: seq<byte>, env: Env, catalog: seq<string>)
    requires forall i :: 0 <= i < |catalog| ==> TopOffset(data, i) == TopOffset(data, i + 1)
    ensures Decode(data, env, catalog).records == []
  {
    EmptyEntries(data, env, catalog, 0, |catalog|);
  }
}
