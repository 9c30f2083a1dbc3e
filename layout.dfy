/**
 * The SDTS container as a byte layout: where each field sits, and the
 * records (entry, group, index, bytes, directory, file name) that decoding
 * a buffer yields. Positions here are plain arithmetic on the layout; reads
 * follow Python's stream semantics (`Bytes.Slice`), so a field beyond the end
 * of the buffer reads as empty and a u32 there as 0. Nothing here needs the
 * buffer to be well formed: the extractor checks no bounds, and neither does
 * this description.
 */
module Layout {
  import opened Options
  import opened Bytes
  import Utf16
  import opened Paths

  /** The four bytes "SDTS". */
  const Signature: seq<byte> := [0x53, 0x44, 0x54, 0x53]
  /** Header: signature 0-3, encrypted flag 4-7, version 8-11, 8 skipped, project offset 20-23. */
  const FlagAt: nat := 4
  const TableAt: nat := 24
  /** Top-level offsets count from this position. */
  const Preamble: nat := 168
  /** Bytes skipped between a group's name and its resource count. */
  const GroupGap: nat := 8

  datatype Failure =
    | SignatureMismatch    // InvalidDataError("signature mismatch")
    | PasswordRequired     // InvalidDataError("password is required")
    | GroupNameNotUtf16    // UnicodeDecodeError from the group name

  /**
   * What decoding depends on besides the buffer: the password argument, the
   * output root, and the two collaborators the core calls but does not define
   * (`decrypt_asset` and `filetype.guess_extension`).
   */
  datatype Env = Env(
    password: Option<string>,
    savedir: string,
    decrypt: (seq<byte>, string) -> seq<byte>,
    sniff: seq<byte> -> Option<string>)

  /** One extracted resource: what is written, and where. */
  datatype Record = Record(entry: string, group: string, index: nat, content: seq<byte>, dir: string, fileName: string)

  /**
   * The records written, in order, and the error that stopped decoding, if
   * any. Files written before an error stay written.
   */
  datatype Outcome = Outcome(records: seq<Record>, failure: Option<Failure>)

  const Nothing := Outcome([], None)

  /** `a` followed by `b`, unless `a` already stopped. */
  function Then(a: Outcome, b: Outcome): Outcome
  {
    if a.failure.Some? then a else Outcome(a.records + b.records, b.failure)
  }

  /** Python truthiness of `password: str | None`. */
  predicate Truthy(password: Option<string>)
  {
    password.Some? && password.value != ""
  }

  /** A resource is decrypted exactly when the password is truthy; the header flag plays no part. */
  function Transform(env: Env, raw: seq<byte>): seq<byte>
  {
    if Truthy(env.password) then env.decrypt(raw, env.password.value) else raw
  }

  /** The record for the `index`-th resource of a group, read as `raw`. */
  function Emit(env: Env, entry: string, group: string, index: nat, raw: seq<byte>): Record
  {
    var content := Transform(env, raw);
    Record(entry, group, index, content, GroupDir(env.savedir, entry, group), FileName(index, env.sniff(content)))
  }

  /** A record carries the directory and file name its entry, group, index and content call for. */
  ghost predicate WellNamed(env: Env, r: Record)
  {
    r.dir == GroupDir(env.savedir, r.entry, r.group) && r.fileName == FileName(r.index, env.sniff(r.content))
  }

  // ---- Resource group at g ----

  /** The name length field sits at g; the name bytes follow it. */
  function NameLength(data: seq<byte>, g: nat): nat { U32At(data, g) }

  /** The stored name with its final two bytes (the terminator) dropped: `[:-2]`. */
  function DropTerminator(raw: seq<byte>): seq<byte>
  {
    if |raw| < 2 then [] else raw[..|raw| - 2]
  }

  function NameBytes(data: seq<byte>, g: nat): seq<byte>
  {
    DropTerminator(Slice(data, g + 4, NameLength(data, g)))
  }

  /** The resource count field: after the length field, the name and the 8-byte gap. */
  function CountAt(data: seq<byte>, g: nat): nat
  {
    g + 4 + NameLength(data, g) + GroupGap
  }

  function ResourceCount(data: seq<byte>, g: nat): nat
  {
    U32At(data, CountAt(data, g))
  }

  function ResourceLengths(data: seq<byte>, g: nat): seq<nat>
  {
    U32s(data, CountAt(data, g) + 4, ResourceCount(data, g))
  }

  /** The first resource starts right after the length table. */
  function ResourcesAt(data: seq<byte>, g: nat): nat
  {
    CountAt(data, g) + 4 + 4 * ResourceCount(data, g)
  }

  /** Resource j starts where the ones before it end: no table of offsets at this level. */
  function ResourceStart(data: seq<byte>, g: nat, j: nat): nat
    requires j <= ResourceCount(data, g)
  {
    ResourcesAt(data, g) + Sum(ResourceLengths(data, g)[..j])
  }

  function ResourceRaw(data: seq<byte>, g: nat, j: nat): seq<byte>
    requires j < ResourceCount(data, g)
  {
    Slice(data, ResourceStart(data, g, j), ResourceLengths(data, g)[j])
  }

  function ResourceRecord(data: seq<byte>, env: Env, entry: string, group: string, g: nat, j: nat): Record
    requires j < ResourceCount(data, g)
  {
    Emit(env, entry, group, j, ResourceRaw(data, g, j))
  }

  // ---- Entry at s ----

  function GroupCount(data: seq<byte>, s: nat): nat { U32At(data, s) }

  /** The k-th local offset, in the table after the group count. */
  function LocalOffset(data: seq<byte>, s: nat, k: nat): nat { U32At(data, s + 4 + 4 * k) }

  /** Local offsets count from the position of the group count, which is the entry start. */
  function GroupStart(data: seq<byte>, s: nat, k: nat): nat { LocalOffset(data, s, k) + s }

  // ---- Container ----

  function TopOffset(data: seq<byte>, i: nat): nat { U32At(data, TableAt + 4 * i) }

  function EntryStart(data: seq<byte>, i: nat): nat { TopOffset(data, i) + Preamble }

  /** May be negative: offsets are not checked to increase. */
  function EntryLength(data: seq<byte>, i: nat): int { TopOffset(data, i + 1) - TopOffset(data, i) }

  // ---- The three loops ----

  /**
   * The nested loops of the extractor: the resources of the group at g
   * (named `group`), the groups of the entry at s, and the entries of the
   * catalog.
   */
  datatype Loop =
    | ResourceLoop(data: seq<byte>, env: Env, entry: string, group: string, g: nat)
    | GroupLoop(data: seq<byte>, env: Env, entry: string, s: nat)
    | EntryLoop(data: seq<byte>, env: Env, catalog: seq<string>)

  /** How many loops run inside each iteration of `loop`. */
  function Depth(loop: Loop): nat
  {
    match loop
    case ResourceLoop(_, _, _, _, _) => 0
    case GroupLoop(_, _, _, _) => 1
    case EntryLoop(_, _, _) => 2
  }

  /**
   * Iterations k..n-1 of `loop`, in order, stopping at the first that fails:
   * the records written before the failure stay written.
   */
  function Run(loop: Loop, k: nat, n: nat): Outcome
    decreases Depth(loop), n - k, 3
  {
    if n <= k then Nothing else Then(Iteration(loop, k), Run(loop, k + 1, n))
  }

  /** Iteration k of `loop`: resource k of a group, group k of an entry, or entry k of the catalog. */
  function Iteration(loop: Loop, k: nat): Outcome
    decreases Depth(loop), 0, 2
  {
    match loop
    case ResourceLoop(data, env, entry, group, g) =>
      if k < ResourceCount(data, g) then Outcome([ResourceRecord(data, env, entry, group, g, k)], None) else Nothing
    case GroupLoop(data, env, entry, s) => GroupOutcome(data, env, entry, GroupStart(data, s, k))
    case EntryLoop(data, env, catalog) => if k < |catalog| then EntryAt(data, env, catalog, k) else Nothing
  }

  /** The records of the group at g, or the failure of decoding its name. */
  function GroupOutcome(data: seq<byte>, env: Env, entry: string, g: nat): Outcome
    decreases 1, 0, 1
  {
    match Utf16.Scan(NameBytes(data, g), 0)
    case None => Outcome([], Some(GroupNameNotUtf16))
    case Some(group) => Run(ResourceLoop(data, env, entry, group, g), 0, ResourceCount(data, g))
  }

  /** The groups of the entry at s, in index order. */
  function EntryOutcome(data: seq<byte>, env: Env, entry: string, s: nat): Outcome
    decreases 2, 0, 0
  {
    Run(GroupLoop(data, env, entry, s), 0, GroupCount(data, s))
  }

  /** Entry i, named `catalog[i]`; an entry of length exactly 0 is skipped. */
  function EntryAt(data: seq<byte>, env: Env, catalog: seq<string>, i: nat): Outcome
    requires i < |catalog|
    decreases 2, 0, 1
  {
    if EntryLength(data, i) == 0 then Nothing else EntryOutcome(data, env, catalog[i], EntryStart(data, i))
  }

  predicate SignatureOk(data: seq<byte>) { Slice(data, 0, 4) == Signature }

  predicate EncryptedFlag(data: seq<byte>) { U32At(data, FlagAt) == 1 }

  /** Everything `extract_dts` writes for a buffer, and how it ends. */
  function Decode(data: seq<byte>, env: Env, catalog: seq<string>): Outcome
  {
    if !SignatureOk(data) then Outcome([], Some(SignatureMismatch))
    else if EncryptedFlag(data) && !Truthy(env.password) then Outcome([], Some(PasswordRequired))
    else Run(EntryLoop(data, env, catalog), 0, |catalog|)
  }
}

/** Facts about the layout that the extractor's loops rely on. */
module LayoutFacts {
  import opened Options
  import opened Bytes
  import opened Layout

  /** Running one part after another does not depend on how the parts are grouped. */
  lemma ThenAssoc(a: Outcome, b: Outcome, c: Outcome)
    ensures Then(Then(a, b), c) == Then(a, Then(b, c))
  {
    if a.failure.None? && b.failure.None? {
      assert (a.records + b.records) + c.records == a.records + (b.records + c.records);
    }
  }

  /** Resource j+1 starts where resource j ends. */
  lemma ResourceNext(data: seq<byte>, g: nat, j: nat)
    requires j < ResourceCount(data, g)
    ensures ResourceStart(data, g, j + 1) == ResourceStart(data, g, j) + ResourceLengths(data, g)[j]
  {
    var ls := ResourceLengths(data, g);
    assert ls[..j + 1][..j] == ls[..j];
  }

  /** Entry i of a table read from byte 24 starts at its offset plus 168 and runs to the next offset. */
  lemma TableEntry(data: seq<byte>, offsets: seq<nat>, i: nat)
    requires i + 1 < |offsets| && offsets == U32s(data, TableAt, |offsets|)
    ensures offsets[i] + Preamble == EntryStart(data, i)
    ensures offsets[i + 1] as int - offsets[i] as int == EntryLength(data, i)
  {
  }

  /** Group k of the entry at s starts at its local offset plus s. */
  lemma LocalEntry(data: seq<byte>, s: nat, offsets: seq<nat>, k: nat)
    requires k < |offsets| && offsets == U32s(data, s + 4, |offsets|)
    ensures offsets[k] + s == GroupStart(data, s, k)
  {
  }
}
