/**
 * The inverse of `extract_dts`: the bytes of a whole SDTS container built
 * from its entries, each a list of resource groups, laid out as the
 * extractor reads them. Decoding such a container gives back, in catalog
 * order, exactly the files its groups should write.
 */
module ContainerEncoder {
  import opened Options
  import opened Bytes
  import opened Layout
  import opened Properties
  import opened GroupEncoder

  /** A resource group as a container holds it: its name and its resources. */
  datatype Group = Group(name: string, resources: seq<seq<byte>>)

  // ---- Parts stored back to back, and a table of where each begins ----

  /** Where part k of parts stored back to back begins, counted from the first. */
  function Start(bs: seq<seq<byte>>, k: nat): nat
    requires k <= |bs|
  {
    if k == 0 then 0 else Start(bs, k - 1) + |bs[k - 1]|
  }

  /** Where a part begins depends only on the parts before it. */
  lemma {:induction false} StartPrefix(bs: seq<seq<byte>>, init: seq<seq<byte>>, k: nat)
    requires k <= |init| <= |bs| && init == bs[..|init|]
    ensures Start(bs, k) == Start(init, k)
  {
    if k > 0 {
      StartPrefix(bs, init, k - 1);
    }
  }

  /** The parts end where their concatenation does. */
  lemma {:induction false} StartAll(bs: seq<seq<byte>>)
    ensures Start(bs, |bs|) == |Concat(bs)|
    decreases |bs|
  {
    if bs != [] {
      StartAll(bs[..|bs| - 1]);
      StartPrefix(bs, bs[..|bs| - 1], |bs| - 1);
    }
  }

  /** No part begins after the parts end. */
  lemma {:induction false} StartBound(bs: seq<seq<byte>>, k: nat)
    requires k <= |bs|
    ensures Start(bs, k) <= Start(bs, |bs|)
    decreases |bs| - k
  {
    if k < |bs| {
      StartBound(bs, k + 1);
    }
  }

  /** Part k of stored parts lies where it begins. */
  lemma {:induction false} StoredPart(data: seq<byte>, p: nat, bs: seq<seq<byte>>, k: nat)
    requires k < |bs| && StoredAt(data, p, Concat(bs))
    ensures StoredAt(data, p + Start(bs, k), bs[k])
    decreases |bs|
  {
    Split(data, p, Concat(bs[..|bs| - 1]), bs[|bs| - 1]);
    StartPrefix(bs, bs[..|bs| - 1], k);
    if k < |bs| - 1 {
      StoredPart(data, p, bs[..|bs| - 1], k);
    } else {
      StartAll(bs[..|bs| - 1]);
    }
  }

  /** Every part begins within the parts. */
  lemma {:induction false} StartsWithin(bs: seq<seq<byte>>)
    ensures forall k :: 0 <= k <= |bs| ==> Start(bs, k) <= |Concat(bs)|
  {
    StartAll(bs);
    forall k | 0 <= k <= |bs|
      ensures Start(bs, k) <= Start(bs, |bs|)
    {
      StartBound(bs, k);
    }
  }

  /**
   * The offsets of parts stored back to back from `base`: offset k is where
   * part k begins and the last is where the parts end. Each fits a u32.
   */
  function Offsets(base: nat, bs: seq<seq<byte>>): (os: seq<nat>)
    requires base + |Concat(bs)| < U32Limit
    ensures |os| == |bs| + 1
    ensures forall k :: 0 <= k < |os| ==> os[k] == base + Start(bs, k) && os[k] < U32Limit
  {
    StartsWithin(bs);
    seq(|bs| + 1, k requires 0 <= k <= |bs| => base + Start(bs, k))
  }

  /** Bytes stored at p are stored at any position equal to p. */
  lemma {:induction false} Moved(data: seq<byte>, p: nat, q: nat, b: seq<byte>)
    requires p == q && StoredAt(data, p, b)
    ensures StoredAt(data, q, b)
  {
  }

  /**
   * Parts stored from `from` = `origin` + `base`, with a table of their
   * offsets stored at `at`: offset k, plus `origin`, is where part k lies,
   * and the next offset minus it is part k's length.
   */
  lemma {:induction false} PartStored(data: seq<byte>, at: nat, origin: nat, base: nat, from: nat, bs: seq<seq<byte>>, k: nat)
    requires k < |bs| && base + |Concat(bs)| < U32Limit && from == origin + base
    requires StoredAt(data, at, Table(Offsets(base, bs))) && StoredAt(data, from, Concat(bs))
    ensures U32At(data, at + 4 * (k + 1)) - U32At(data, at + 4 * k) == |bs[k]|
    ensures StoredAt(data, U32At(data, at + 4 * k) + origin, bs[k])
  {
    ReadTable(data, at, Offsets(base, bs), k);
    ReadTable(data, at, Offsets(base, bs), k + 1);
    StoredPart(data, from, bs, k);
    Moved(data, from + Start(bs, k), U32At(data, at + 4 * k) + origin, bs[k]);
  }

  // ---- Entries ----

  /** Where the groups of an entry of m groups begin: after the group count and m + 1 local offsets. */
  function EntryHead(m: nat): nat
  {
    4 + 4 * (m + 1)
  }

  /** Every local offset of an entry made of these groups fits a u32. */
  predicate EntryFits(gs: seq<seq<byte>>)
  {
    EntryHead(|gs|) + |Concat(gs)| < U32Limit
  }

  /**
   * An entry made of the given encoded groups: its group count, its local
   * offsets (counted from the entry start), then the groups. An entry
   * without groups is stored as nothing at all, so its length is 0.
   */
  function Entry(gs: seq<seq<byte>>): (b: seq<byte>)
    requires EntryFits(gs)
    ensures gs != [] ==> |b| >= 4
  {
    if gs == [] then [] else ToLE32(|gs|) + Table(Offsets(EntryHead(|gs|), gs)) + Concat(gs)
  }

  /** Three pieces stored one after another from p, each at its place. */
  lemma {:induction false} SplitThree(data: seq<byte>, p: nat, b: seq<byte>, x: seq<byte>, y: seq<byte>, z: seq<byte>, at: nat, from: nat)
    requires b == x + y + z && at == p + |x| && from == p + |x| + |y|
    requires StoredAt(data, p, b)
    ensures StoredAt(data, p, x) && StoredAt(data, at, y) && StoredAt(data, from, z)
  {
    Split(data, p, x + y, z);
    Split(data, p, x, y);
  }

  /** The pieces of an entry with groups stored at s: its group count, its local offsets, its groups. */
  lemma {:induction false} EntryPieces(data: seq<byte>, s: nat, gs: seq<seq<byte>>)
    requires EntryFits(gs) && gs != [] && StoredAt(data, s, Entry(gs))
    ensures GroupCount(data, s) == |gs|
    ensures StoredAt(data, s + 4, Table(Offsets(EntryHead(|gs|), gs)))
    ensures StoredAt(data, s + EntryHead(|gs|), Concat(gs))
  {
    SplitThree(data, s, Entry(gs), ToLE32(|gs|), Table(Offsets(EntryHead(|gs|), gs)), Concat(gs), s + 4, s + EntryHead(|gs|));
    ReadStored(data, s, |gs|);
  }

  /** In an entry stored at s, group k lies at local offset k plus s, as `extract_entry` seeks it. */
  lemma {:induction false} EntryLayout(data: seq<byte>, s: nat, gs: seq<seq<byte>>, k: nat)
    requires EntryFits(gs) && k < |gs| && StoredAt(data, s, Entry(gs))
    ensures GroupCount(data, s) == |gs|
    ensures StoredAt(data, GroupStart(data, s, k), gs[k])
  {
    EntryPieces(data, s, gs);
    PartStored(data, s + 4, s, EntryHead(|gs|), s + EntryHead(|gs|), gs, k);
  }

  predicate GroupsEncodable(groups: seq<Group>)
  {
    forall k :: 0 <= k < |groups| ==> Encodable(groups[k].name, groups[k].resources)
  }

  function GroupBytes(groups: seq<Group>): (bs: seq<seq<byte>>)
    requires GroupsEncodable(groups)
    ensures |bs| == |groups|
  {
    seq(|groups|, k requires 0 <= k < |groups| => EncodeGroup(groups[k].name, groups[k].resources))
  }

  predicate EntryEncodable(groups: seq<Group>)
  {
    GroupsEncodable(groups) && EntryFits(GroupBytes(groups))
  }

  /** The entry holding these resource groups. */
  function EncodeEntry(groups: seq<Group>): (b: seq<byte>)
    requires EntryEncodable(groups)
    ensures groups != [] ==> |b| >= 4
  {
    Entry(GroupBytes(groups))
  }

  /** What each group of an entry should write. */
  function GroupParts(env: Env, entry: string, groups: seq<Group>): (ps: seq<seq<Record>>)
    ensures |ps| == |groups|
  {
    seq(|groups|, k requires 0 <= k < |groups| => Written(env, entry, groups[k].name, groups[k].resources))
  }

  /** Group k of an entry stored at s, encoded from this name and these resources, decodes to what they should write. */
  lemma {:induction false} NthGroupRoundTrip(data: seq<byte>, env: Env, entry: string, s: nat, gs: seq<seq<byte>>, k: nat,
                          name: string, rs: seq<seq<byte>>)
    requires EntryFits(gs) && k < |gs| && StoredAt(data, s, Entry(gs))
    requires Encodable(name, rs) && gs[k] == EncodeGroup(name, rs)
    ensures Iteration(GroupLoop(data, env, entry, s), k) == Outcome(Written(env, entry, name, rs), None)
  {
    EntryLayout(data, s, gs, k);
    GroupRoundTrip(data, env, entry, GroupStart(data, s, k), name, rs);
  }

  /** An entry with groups, encoded at s, decodes to what its groups should write, one group after another. */
  lemma {:induction false} EntryRoundTrip(data: seq<byte>, env: Env, entry: string, s: nat, groups: seq<Group>)
    requires EntryEncodable(groups) && groups != [] && StoredAt(data, s, EncodeEntry(groups))
    ensures EntryOutcome(data, env, entry, s) == Outcome(Flatten(GroupParts(env, entry, groups), 0), None)
  {
    EntryLayout(data, s, GroupBytes(groups), 0);
    forall k | 0 <= k < |groups|
      ensures Iteration(GroupLoop(data, env, entry, s), k) == Outcome(GroupParts(env, entry, groups)[k], None)
    {
      NthGroupRoundTrip(data, env, entry, s, GroupBytes(groups), k, groups[k].name, groups[k].resources);
    }
    RunAll(GroupLoop(data, env, entry, s), 0, GroupParts(env, entry, groups));
  }

  // ---- Containers ----

  /** Where the entries begin: after the header and the n + 1 top-level offsets, and never before byte 168. */
  function Body(n: nat): nat
  {
    if TableAt + 4 * (n + 1) <= Preamble then Preamble else TableAt + 4 * (n + 1)
  }

  /** Every top-level offset of a container of these entries, counted from byte 168, fits a u32. */
  predicate ContainerFits(es: seq<seq<byte>>)
  {
    Body(|es|) - Preamble + |Concat(es)| < U32Limit
  }

  function Padding(k: nat): (b: seq<byte>)
    ensures |b| == k
  {
    seq(k, _ => 0)
  }

  /** The 24-byte header: signature, encrypted flag, version, 8 reserved bytes, project offset. */
  function ContainerHeader(flag: nat, version: nat, project: nat): (h: seq<byte>)
    requires flag < U32Limit && version < U32Limit && project < U32Limit
    ensures |h| == TableAt
  {
    Signature + ToLE32(flag) + ToLE32(version) + Padding(8) + ToLE32(project)
  }

  /** A container of the given encoded entries: header, top-level offsets (counted from byte 168), zero padding up to the entries, then the entries. */
  function Container(flag: nat, version: nat, project: nat, es: seq<seq<byte>>): seq<byte>
    requires flag < U32Limit && version < U32Limit && project < U32Limit && ContainerFits(es)
  {
    ContainerHeader(flag, version, project) + Table(Offsets(Body(|es|) - Preamble, es))
      + Padding(Body(|es|) - (TableAt + 4 * (|es| + 1))) + Concat(es)
  }

  /** The header of a container passes the signature check and holds the flag it was given. */
  lemma {:induction false} HeaderPasses(data: seq<byte>, flag: nat, version: nat, project: nat)
    requires flag < U32Limit && version < U32Limit && project < U32Limit
    requires StoredAt(data, 0, ContainerHeader(flag, version, project))
    ensures SignatureOk(data) && U32At(data, FlagAt) == flag
  {
    Split(data, 0, Signature + ToLE32(flag) + ToLE32(version) + Padding(8), ToLE32(project));
    Split(data, 0, Signature + ToLE32(flag) + ToLE32(version), Padding(8));
    Split(data, 0, Signature + ToLE32(flag), ToLE32(version));
    Split(data, 0, Signature, ToLE32(flag));
    ReadBytes(data, 0, Signature);
    ReadStored(data, FlagAt, flag);
  }

  /** Four pieces stored one after another from 0: the first, second and fourth at their places `at` and `from`. */
  lemma {:induction false} SplitFour(data: seq<byte>, b: seq<byte>, w: seq<byte>, x: seq<byte>, y: seq<byte>, z: seq<byte>, at: nat, from: nat)
    requires b == w + x + y + z && at == |w| && from == |w| + |x| + |y|
    requires StoredAt(data, 0, b)
    ensures StoredAt(data, 0, w) && StoredAt(data, at, x) && StoredAt(data, from, z)
  {
    Split(data, 0, w + x + y, z);
    Split(data, 0, w + x, y);
    Split(data, 0, w, x);
  }

  /** The pieces of a container: its header, its top-level offsets, its entries from Body on. */
  lemma {:induction false} ContainerPieces(data: seq<byte>, flag: nat, version: nat, project: nat, es: seq<seq<byte>>)
    requires flag < U32Limit && version < U32Limit && project < U32Limit && ContainerFits(es)
    requires StoredAt(data, 0, Container(flag, version, project, es))
    ensures SignatureOk(data) && U32At(data, FlagAt) == flag
    ensures StoredAt(data, TableAt, Table(Offsets(Body(|es|) - Preamble, es)))
    ensures StoredAt(data, Body(|es|), Concat(es))
  {
    SplitFour(data, Container(flag, version, project, es), ContainerHeader(flag, version, project), Table(Offsets(Body(|es|) - Preamble, es)),
      Padding(Body(|es|) - (TableAt + 4 * (|es| + 1))), Concat(es), TableAt, Body(|es|));
    HeaderPasses(data, flag, version, project);
  }

  /** Entry i of a container: its length, the difference of its offsets, is that of its bytes, which lie at its offset plus 168. */
  lemma {:induction false} EntryPlaced(data: seq<byte>, es: seq<seq<byte>>, i: nat)
    requires ContainerFits(es) && i < |es|
    requires StoredAt(data, TableAt, Table(Offsets(Body(|es|) - Preamble, es)))
    requires StoredAt(data, Body(|es|), Concat(es))
    ensures EntryLength(data, i) == |es[i]|
    ensures StoredAt(data, EntryStart(data, i), es[i])
  {
    PartStored(data, TableAt, Preamble, Body(|es|) - Preamble, Body(|es|), es, i);
  }

  /** A container stored from byte 0 passes the signature check, holds its flag, and holds each entry where and as long as `extract_dts` reads it. */
  lemma {:induction false} ContainerLayout(data: seq<byte>, flag: nat, version: nat, project: nat, es: seq<seq<byte>>)
    requires flag < U32Limit && version < U32Limit && project < U32Limit && ContainerFits(es)
    requires StoredAt(data, 0, Container(flag, version, project, es))
    ensures SignatureOk(data) && U32At(data, FlagAt) == flag
    ensures forall i :: 0 <= i < |es| ==> EntryLength(data, i) == |es[i]| && StoredAt(data, EntryStart(data, i), es[i])
  {
    ContainerPieces(data, flag, version, project, es);
    forall i | 0 <= i < |es|
      ensures EntryLength(data, i) == |es[i]| && StoredAt(data, EntryStart(data, i), es[i])
    {
      EntryPlaced(data, es, i);
    }
  }

  predicate EntriesEncodable(entries: seq<seq<Group>>)
  {
    forall i :: 0 <= i < |entries| ==> EntryEncodable(entries[i])
  }

  function EntryBytes(entries: seq<seq<Group>>): (bs: seq<seq<byte>>)
    requires EntriesEncodable(entries)
    ensures |bs| == |entries|
  {
    seq(|entries|, i requires 0 <= i < |entries| => EncodeEntry(entries[i]))
  }

  predicate ContainerEncodable(entries: seq<seq<Group>>)
  {
    EntriesEncodable(entries) && ContainerFits(EntryBytes(entries))
  }

  /** The container holding these entries, each a list of resource groups, in catalog order. */
  function EncodeContainer(flag: nat, version: nat, project: nat, entries: seq<seq<Group>>): seq<byte>
    requires flag < U32Limit && version < U32Limit && project < U32Limit && ContainerEncodable(entries)
  {
    Container(flag, version, project, EntryBytes(entries))
  }

  /** What each catalogued entry should write: its groups' files, one group after another. */
  function EntryParts(env: Env, catalog: seq<string>, entries: seq<seq<Group>>): (ps: seq<seq<Record>>)
    requires |entries| == |catalog|
    ensures |ps| == |entries|
  {
    seq(|entries|, i requires 0 <= i < |entries| => Flatten(GroupParts(env, catalog[i], entries[i]), 0))
  }

  /** Entry i, whose bytes e encode its groups, lie where it starts and are as long as it is, decodes to what its groups should write; one without groups writes nothing. */
  lemma {:induction false} NthEntryRoundTrip(data: seq<byte>, env: Env, catalog: seq<string>, entries: seq<seq<Group>>, i: nat, e: seq<byte>)
    requires |entries| == |catalog| && i < |entries| && EntryEncodable(entries[i]) && e == EncodeEntry(entries[i])
    requires EntryLength(data, i) == |e| && StoredAt(data, EntryStart(data, i), e)
    ensures Iteration(EntryLoop(data, env, catalog), i) == Outcome(Flatten(GroupParts(env, catalog[i], entries[i]), 0), None)
  {
    if entries[i] == [] {
      assert Iteration(EntryLoop(data, env, catalog), i) == Nothing;
    } else {
      assert Iteration(EntryLoop(data, env, catalog), i) == EntryOutcome(data, env, catalog[i], EntryStart(data, i));
      EntryRoundTrip(data, env, catalog[i], EntryStart(data, i), entries[i]);
    }
  }

  /** Entries whose bytes lie where they start, with their lengths, decode to what their groups should write, in catalog order. */
  lemma {:induction false} EntriesRoundTrip(data: seq<byte>, env: Env, catalog: seq<string>, entries: seq<seq<Group>>)
    requires |entries| == |catalog| && EntriesEncodable(entries)
    requires forall i :: 0 <= i < |entries| ==>
      EntryLength(data, i) == |EntryBytes(entries)[i]| && StoredAt(data, EntryStart(data, i), EntryBytes(entries)[i])
    ensures Run(EntryLoop(data, env, catalog), 0, |catalog|) == Outcome(Flatten(EntryParts(env, catalog, entries), 0), None)
  {
    forall i | 0 <= i < |entries|
      ensures Iteration(EntryLoop(data, env, catalog), i) == Outcome(EntryParts(env, catalog, entries)[i], None)
    {
      NthEntryRoundTrip(data, env, catalog, entries, i, EntryBytes(entries)[i]);
    }
    RunAll(EntryLoop(data, env, catalog), 0, EntryParts(env, catalog, entries));
  }

  /**
   * A container encoded from entries in catalog order, whose flag is not 1
   * or whose password is truthy, decodes without error to exactly the files
   * its groups should write, entry after entry and group after group.
   */
  lemma {:induction false} ContainerRoundTrip(env: Env, catalog: seq<string>,
                           flag: nat, version: nat, project: nat, entries: seq<seq<Group>>)
    requires flag < U32Limit && version < U32Limit && project < U32Limit
    requires |entries| == |catalog| && ContainerEncodable(entries)
    requires flag != 1 || Truthy(env.password)
    ensures Decode(EncodeContainer(flag, version, project, entries), env, catalog)
         == Outcome(Flatten(EntryParts(env, catalog, entries), 0), None)
  {
    assert StoredAt(EncodeContainer(flag, version, project, entries), 0, EncodeContainer(flag, version, project, entries));
    ContainerLayout(EncodeContainer(flag, version, project, entries), flag, version, project, EntryBytes(entries));
    EntriesRoundTrip(EncodeContainer(flag, version, project, entries), env, catalog, entries);
  }
}
