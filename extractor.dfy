/**
 * `extract_dts` and `extract_entry`: the cursor walk over an SDTS buffer.
 * Each method is proved to write exactly the records the layout in module
 * Layout describes, although it reads through a stream whose position
 * stops at the end of the file while the layout's positions do not.
 */
module Extractor {
  import opened Options
  import opened Bytes
  import Utf16
  import opened Paths
  import opened Layout
  import opened LayoutFacts
  import opened Stream

  /**
   * `for _ in range(count): table.append(int.from_bytes(br.read(4), "little"))`:
   * the `count` u32 values stored from layout position `at`.
   */
  method ReadU32s(br: Reader, count: nat, ghost at: nat) returns (table: seq<nat>)
    requires Agrees(|br.data|, br.pos, at)
    modifies br
    ensures table == U32s(br.data, at, count)
    ensures Agrees(|br.data|, br.pos, at + 4 * count)
  {
    table := [];
    var k := 0;
    while k < count
      invariant k <= count
      invariant table == U32s(br.data, at, k)
      invariant Agrees(|br.data|, br.pos, at + 4 * k)
    {
      ghost var c := br.pos;
      var v := br.ReadU32();
      ReadAgrees(br.data, c, at + 4 * k, 4);
      table := table + [v];
      k := k + 1;
    }
  }

  /**
   * One pass of the resource loop of `extract_entry`: read resource j,
   * decrypt it when the password is truthy, sniff its extension, and name
   * its file `<index:04d><ext>` under `<savedir>/<entry>/<group>`.
   */
  method ReadResource(br: Reader, env: Env, entry: string, group: string, length: nat, ghost g: nat, j: nat)
    returns (record: Record)
    requires j < ResourceCount(br.data, g) && length == ResourceLengths(br.data, g)[j]
    requires Agrees(|br.data|, br.pos, ResourceStart(br.data, g, j))
    modifies br
    ensures record == ResourceRecord(br.data, env, entry, group, g, j)
    ensures Agrees(|br.data|, br.pos, ResourceStart(br.data, g, j + 1))
  {
    ghost var c := br.pos;
    var content;
    if Truthy(env.password) {
      var encrypted := br.Read(length);
      content := env.decrypt(encrypted, env.password.value);
    } else {
      content := br.Read(length);
    }
    ReadAgrees(br.data, c, ResourceStart(br.data, g, j), length);
    ResourceNext(br.data, g, j);
    var ext := ExtOf(env.sniff(content));
    var dir := GroupDir(env.savedir, entry, group);
    record := Record(entry, group, j, content, dir, Pad4(j) + ext);
  }

  /** The resource loop of `extract_entry`: the resources follow one another with no gaps. */
  method ReadResources(br: Reader, env: Env, entry: string, group: string, lengths: seq<nat>, ghost g: nat)
    returns (records: seq<Record>)
    requires lengths == ResourceLengths(br.data, g)
    requires Agrees(|br.data|, br.pos, ResourcesAt(br.data, g))
    modifies br
    ensures Outcome(records, None) == Run(ResourceLoop(br.data, env, entry, group, g), 0, |lengths|)
    ensures Agrees(|br.data|, br.pos, ResourceStart(br.data, g, |lengths|))
  {
    ghost var loop := ResourceLoop(br.data, env, entry, group, g);
    records := [];
    var j := 0;
    while j < |lengths|
      invariant j <= |lengths|
      invariant Then(Outcome(records, None), Run(loop, j, |lengths|)) == Run(loop, 0, |lengths|)
      invariant Agrees(|br.data|, br.pos, ResourceStart(br.data, g, j))
    {
      var record := ReadResource(br, env, entry, group, lengths[j], g, j);
      ThenAssoc(Outcome(records, None), Iteration(loop, j), Run(loop, j + 1, |lengths|));
      records := records + [record];
      j := j + 1;
    }
  }

  /** The group name: a u32 byte length, then that many UTF-16LE bytes of which the last two are dropped. */
  method ReadGroupName(br: Reader, ghost g: nat) returns (decoded: Option<string>)
    requires br.pos == g
    modifies br
    ensures decoded == Utf16.Scan(NameBytes(br.data, g), 0)
    ensures Agrees(|br.data|, br.pos, g + 4 + NameLength(br.data, g))
  {
    var nameLength := br.ReadU32();
    ReadAgrees(br.data, Advance(|br.data|, g, 4), g + 4, nameLength);
    var raw := br.Read(nameLength);
    decoded := Utf16.Scan(DropTerminator(raw), 0);
  }

  /** After the name: 8 bytes skipped, the resource count, then that many u32 resource lengths. */
  method ReadLengths(br: Reader, ghost g: nat) returns (lengths: seq<nat>)
    requires Agrees(|br.data|, br.pos, g + 4 + NameLength(br.data, g))
    modifies br
    ensures lengths == ResourceLengths(br.data, g)
    ensures Agrees(|br.data|, br.pos, ResourcesAt(br.data, g))
  {
    ghost var c := br.pos;
    var _ := br.Read(GroupGap);
    ReadAgrees(br.data, c, g + 4 + NameLength(br.data, g), GroupGap);
    c := br.pos;
    var count := br.ReadU32();
    ReadAgrees(br.data, c, CountAt(br.data, g), 4);
    lengths := ReadU32s(br, count, CountAt(br.data, g) + 4);
  }

  /**
   * One resource group of `extract_entry` (its loop body): seek to the
   * group, read its name, skip 8 bytes, read its resource lengths, then its
   * resources.
   */
  method ExtractGroup(br: Reader, env: Env, entry: string, position: nat) returns (out: Outcome)
    modifies br
    ensures out == GroupOutcome(br.data, env, entry, position)
  {
    br.Seek(position);
    var decoded := ReadGroupName(br, position);
    if decoded.None? {
      return Outcome([], Some(GroupNameNotUtf16));
    }
    var lengths := ReadLengths(br, position);
    var records := ReadResources(br, env, entry, decoded.value, lengths, position);
    out := Outcome(records, None);
  }

  /**
   * `extract_entry(br, (name, position, length), ...)`: nothing for a length
   * of 0; otherwise the group count and local offsets at the current
   * position (not the `position` passed in), then each group in index order.
   */
  method ExtractEntry(br: Reader, name: string, position: nat, length: int, env: Env) returns (out: Outcome)
    modifies br
    ensures out == if length == 0 then Nothing else EntryOutcome(br.data, env, name, old(br.pos))
  {
    if length == 0 {
      return Nothing;
    }
    ghost var data := br.data;
    var entryPosition := br.Tell();
    var groupCount := br.ReadU32();
    ReadAgrees(data, entryPosition, entryPosition, 4);
    var offsets := ReadU32s(br, groupCount + 1, entryPosition + 4);
    assert groupCount == GroupCount(data, entryPosition);
    out := ExtractGroups(br, env, name, entryPosition, offsets);
  }

  /** One pass of the group loop of `extract_entry`: group k starts at local offset k plus the entry start s. */
  method ExtractNthGroup(br: Reader, env: Env, name: string, s: nat, offsets: seq<nat>, k: nat) returns (group: Outcome)
    requires k < |offsets| && offsets == U32s(br.data, s + 4, |offsets|)
    modifies br
    ensures group == Iteration(GroupLoop(br.data, env, name, s), k)
  {
    LocalEntry(br.data, s, offsets, k);
    group := ExtractGroup(br, env, name, offsets[k] + s);
  }

  /** The group loop of `extract_entry`: the groups in index order, stopping at the first that raises. */
  method ExtractGroups(br: Reader, env: Env, name: string, s: nat, offsets: seq<nat>) returns (out: Outcome)
    requires |offsets| >= 1 && offsets == U32s(br.data, s + 4, |offsets|)
    modifies br
    ensures out == Run(GroupLoop(br.data, env, name, s), 0, |offsets| - 1)
  {
    ghost var loop := GroupLoop(br.data, env, name, s);
    var count := |offsets| - 1;
    out := Nothing;
    var k := 0;
    while k < count
      invariant k <= count
      invariant Then(out, Run(loop, k, count)) == Run(loop, 0, count) && out.failure.None?
    {
      var group := ExtractNthGroup(br, env, name, s, offsets, k);
      ThenAssoc(out, group, Run(loop, k + 1, count));
      out := Then(out, group);
      if out.failure.Some? {
        return;
      }
      k := k + 1;
    }
  }

  /**
   * `extract_dts`: check the signature, refuse an encrypted container without
   * a password, read the header and the `|catalog| + 1` top-level offsets at
   * byte 24, then extract entry i from offset i + 168 with length
   * offset(i+1) - offset(i).
   */
  method ExtractDts(data: seq<byte>, catalog: seq<string>, env: Env) returns (out: Outcome)
    ensures out == Decode(data, env, catalog)
  {
    var br := new Reader(data);
    var signature := br.Read(4);
    if signature != Signature {
      return Outcome([], Some(SignatureMismatch));
    }
    ReadAgrees(data, 0, 0, 4);
    ghost var c := br.pos;
    var flag := br.ReadU32();
    ReadAgrees(data, c, FlagAt, 4);
    var isEncrypted := flag == 1;
    if isEncrypted && !Truthy(env.password) {
      return Outcome([], Some(PasswordRequired));
    }
    c := br.pos;
    var version := br.ReadU32();
    ReadAgrees(data, c, 8, 4);
    c := br.pos;
    var _ := br.Read(8);
    ReadAgrees(data, c, 12, 8);
    c := br.pos;
    var projectOffset := br.ReadU32();
    ReadAgrees(data, c, 20, 4);
    projectOffset := projectOffset + Preamble;
    var offsets := ReadU32s(br, |catalog| + 1, TableAt);
    out := ExtractEntries(br, catalog, offsets, env);
  }

  /**
   * One pass of the entry loop of `extract_dts`: entry i starts at top-level
   * offset i plus 168, and its length is the next offset minus its own.
   */
  method ExtractNthEntry(br: Reader, catalog: seq<string>, offsets: seq<nat>, env: Env, i: nat) returns (entry: Outcome)
    requires i < |catalog| && offsets == U32s(br.data, TableAt, |catalog| + 1)
    modifies br
    ensures entry == Iteration(EntryLoop(br.data, env, catalog), i)
  {
    var entryPosition := offsets[i] + Preamble;
    var entryLength := offsets[i + 1] as int - offsets[i] as int;
    TableEntry(br.data, offsets, i);
    br.Seek(entryPosition);
    entry := ExtractEntry(br, catalog[i], entryPosition, entryLength, env);
  }

  /** The entry loop of `extract_dts`: the entries in catalog order, stopping at the first that raises. */
  method ExtractEntries(br: Reader, catalog: seq<string>, offsets: seq<nat>, env: Env) returns (out: Outcome)
    requires offsets == U32s(br.data, TableAt, |catalog| + 1)
    modifies br
    ensures out == Run(EntryLoop(br.data, env, catalog), 0, |catalog|)
  {
    ghost var loop := EntryLoop(br.data, env, catalog);
    out := Nothing;
    var i := 0;
    while i < |catalog|
      invariant i <= |catalog|
      invariant Then(out, Run(loop, i, |catalog|)) == Run(loop, 0, |catalog|) && out.failure.None?
    {
      var entry := ExtractNthEntry(br, catalog, offsets, env, i);
      ThenAssoc(out, entry, Run(loop, i + 1, |catalog|));
      out := Then(out, entry);
      if out.failure.Some? {
        return;
      }
      i := i + 1;
    }
  }
}
