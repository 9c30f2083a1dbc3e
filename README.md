# SDTS container decoder: a verified model

SRPG Studio games ship their assets in a `data.dts` container. The file
`srpgstudioextractor.py` unpacks it: `extract_dts` checks the
`SDTS` signature and the encrypted flag, reads a table of top-level offsets,
and hands each named entry to `extract_entry`. `extract_entry` walks the
resource groups of the entry and writes every resource of every group to
`<savedir>/<entry>/<group>/<index:04d><ext>`, decrypting it first when a
password is given.

This project models that decoder in Dafny and proves what it does.

- `Bytes` (bytes.dfy) holds Python's short-read semantics for `read(n)`
  (`Slice`, `Advance`), little-endian u32 values (`FromLE`, `LE`, `U32At`)
  and their inverse `ToLE32`.
- `Utf16` (utf16.dfy) is strict UTF-16LE decoding, the way
  `bytes.decode("utf-16le")` behaves, with an encoder and both round trips.
- `Paths` (paths.dfy) holds POSIX `os.path.join`, the `f"{i:04d}"` index and
  the `.ext` / `.unknown` suffix.
- `Layout` (layout.dfy) states declaratively where every field sits and
  which records decoding a buffer yields. It defines `Decode`, the
  specification of `extract_dts`. Its three nested loops (resources of a
  group, groups of an entry, entries of the catalog) are one `Run` over a
  `Loop` value. `LayoutFacts` holds small facts about these positions.
- `Stream` (reader.dfy) holds `Reader`, a class standing for the
  `BufferedReader`: fixed contents, and a `pos` field that `Read`, `ReadU32`
  and `Seek` update.
- `Extractor` (extractor.dfy) is the imperative walk of `extract_dts` and
  `extract_entry`, with the source's loops and cursor. Each method is proved
  to produce exactly what `Layout` specifies.
- `Properties` (properties.dfy) proves what decoding promises:
  - the two header gates, both directions;
  - the only decoding error that can follow the gates;
  - that the records of entry i all carry entry name i;
  - the directory and file name of every written file;
  - exactly `resource_count` files per group, with their bytes;
  - how a group name is cut out of the buffer;
  - zero-length entries write nothing.
- `GroupEncoder` (encoder.dfy) writes a resource group as bytes. It proves
  that decoding those bytes, wherever in a buffer they lie, writes exactly
  the files the group's name and resources call for.
- `ContainerEncoder` (container.dfy) writes whole entries and whole
  containers as bytes: the header, the top-level offsets, the group counts,
  the local offsets and the groups. It proves that decoding an encoded
  container, when the password gate lets it through, writes exactly the
  files of its groups, entry after entry and group after group, and raises
  no decoding error.

The decoder never checks bounds. Reads past the end of the file return fewer
bytes or none, a u32 read there counts the missing bytes as 0, and `seek`
may go past the end. The model keeps all of this: no operation requires a
well-formed buffer. The specification functions use layout positions, while
the methods use the cursor, which stops at the end of the file. The
predicate `Bytes.Agrees` connects the two.

Writing files is modelled as the list of records written (entry, group,
index, bytes, directory, file name). An error stops decoding, and the
records written before it stay written (`Layout.Outcome`).

## Model

| member | source | states |
|---|---|---|
| Bytes.U32Value | srpgstudioextractor.py:31 | every `int.from_bytes(read(4), "little")` is below 2^32, and a full read is b0 + 256·b1 + 65536·b2 + 16777216·b3 |
| Bytes.U32At | srpgstudioextractor.py:40 | a u32 read at any position, short or past the end, lies in [0, 2^32) |
| Bytes.ReadValue | srpgstudioextractor.py:34 | the value of the bytes `read(n)` returns equals the little-endian value at that position with missing bytes counted as 0 |
| Bytes.LEPastEnd | srpgstudioextractor.py:43 | a u32 read at or past the end of the file is 0 |
| Bytes.SliceInBounds | srpgstudioextractor.py:51 | a read that fits in the file returns exactly the next n bytes |
| Bytes.Advance | srpgstudioextractor.py:48 | a read moves the position forward by n when it fits and never past the end of the file |
| Bytes.ReadAgrees | srpgstudioextractor.py:37-43 | a cursor that stands for a layout position reads the same bytes as that position and still stands for it after the read |
| Bytes.FromToLE32 | srpgstudioextractor.py:76 | reading back the four little-endian bytes of a u32 gives that u32 |
| Bytes.U32AtStored | srpgstudioextractor.py:76 | a u32 stored at p reads back as itself |
| Utf16.Scan | srpgstudioextractor.py:38 | a successful UTF-16LE decode yields at most one character per two bytes |
| Utf16.ScanDecodes | srpgstudioextractor.py:38 | the position-based decoder used by the extractor agrees with the reference definition of strict UTF-16LE decoding |
| Utf16.OddFails | srpgstudioextractor.py:38 | an odd number of bytes never decodes as UTF-16LE |
| Utf16.DecodeEncode | srpgstudioextractor.py:38 | every string, encoded as UTF-16LE, decodes back to itself |
| Utf16.EncodeDecode | srpgstudioextractor.py:38 | every byte string that decodes is exactly the encoding of what it decodes to |
| Utf16.Encode | srpgstudioextractor.py:38 | an encoding takes two or four bytes per character |
| Paths.GroupDirPlain | srpgstudioextractor.py:57 | with relative, non-empty names the output directory is `savedir/entry/group` |
| Paths.GroupDirAbsolute | srpgstudioextractor.py:57 | a group name starting with `/` replaces both savedir and the entry name |
| Paths.ExtOf | srpgstudioextractor.py:52-56 | the suffix always starts with `.` and has at least one character after it: the sniffed extension, or `unknown` |
| Paths.ParseDecimalOf | srpgstudioextractor.py:59 | the decimal digits of an index are non-empty and read back as the index |
| Paths.Pad4Shape | srpgstudioextractor.py:59 | `{i:04d}` is all digits, at least four of them, exactly four below 10000, and reads back as i |
| Paths.FileNamesDistinct | srpgstudioextractor.py:59 | two resources of one group never get the same file name, whatever the sniffer says |
| Paths.FileNameParts | srpgstudioextractor.py:52-59 | the index and the suffix can be read back from a file name |
| LayoutFacts.ThenAssoc | srpgstudioextractor.py:77-82 | running the iterations of a loop in order does not depend on how they are grouped, which lets each loop stop at its first error |
| LayoutFacts.ResourceNext | srpgstudioextractor.py:44-51 | resource j+1 starts where resource j ends: the resources lie back to back |
| LayoutFacts.TableEntry | srpgstudioextractor.py:75-79 | entry i of the table read at byte 24 starts at offsets[i] + 168, and its length is offsets[i+1] - offsets[i] |
| LayoutFacts.LocalEntry | srpgstudioextractor.py:33-36 | group k of an entry starts at local offset k plus the entry's own position |
| Properties.RunSound | srpgstudioextractor.py:35-60 | each loop can only fail on a group name, and writes each record to the directory and file name that its entry, group, index and content call for |
| Properties.IterationSound | srpgstudioextractor.py:35-60 | the same for one iteration of each loop |
| Properties.EntryRecordsNamed | srpgstudioextractor.py:77-82 | every file that entry i writes is under entry name `catalog[i]` and is named as lines 57-59 name it, even when catalogue names repeat |
| Properties.DecodeSound | srpgstudioextractor.py:62-82 | every written file belongs to a catalogued entry and sits at `join(savedir, entry, group)/<index:04d><ext>`; the only decoding errors are a bad signature, a missing password and a group name that is not UTF-16LE |
| Properties.SignatureGate | srpgstudioextractor.py:65-67 | decoding fails with the signature error, writing nothing, if and only if the first four bytes are not `SDTS` |
| Properties.PasswordGate | srpgstudioextractor.py:68-70 | with a good signature, decoding fails with the password error, writing nothing, if and only if bytes 4-7 read 1 and the password is `None` or empty |
| Properties.FlagValue | srpgstudioextractor.py:68 | the flag is the little-endian u32 of bytes 4-7 |
| Properties.ResourceRunShape | srpgstudioextractor.py:44-60 | the resource loop never fails and writes one record per resource |
| Properties.ResourceRunAt | srpgstudioextractor.py:44-60 | the resource loop's record at place t is resource t's |
| Properties.GroupRecords | srpgstudioextractor.py:40-60 | a group whose name decodes writes exactly `resource_count` files: file t holds resource t's bytes (decrypted exactly when the password is truthy), is named `<t:04d><ext>` and lies in `join(savedir, entry, group)` |
| Properties.ResourceInBounds | srpgstudioextractor.py:44-51 | a resource inside the buffer is read whole, and the next one starts right after it |
| Properties.GroupNameFailure | srpgstudioextractor.py:38 | a group fails, writing nothing, if and only if its name bytes are not valid UTF-16LE |
| Properties.NameShape | srpgstudioextractor.py:38 | the group name is the stored length's worth of bytes after the length field, minus the last two; a stored length below 2 gives an empty name |
| Properties.OddNameFails | srpgstudioextractor.py:38 | an odd stored name length of at least 3 inside the buffer makes the group fail |
| Properties.EmptyEntries | srpgstudioextractor.py:29 | entries of length 0 write nothing and cannot fail |
| Properties.EqualOffsetsWriteNothing | srpgstudioextractor.py:77-82 | a container whose top-level offsets are all equal writes no file |
| GroupEncoder.Table | srpgstudioextractor.py:41-43 | an encoded length table takes four bytes per length |
| GroupEncoder.EncodeGroup | srpgstudioextractor.py:38-51 | an encoded group is its header, then four bytes per resource length, then the resources |
| GroupEncoder.ReadTable | srpgstudioextractor.py:41-43 | entry t of a stored u32 table reads back as itself |
| GroupEncoder.StoredResource | srpgstudioextractor.py:44-51 | stored resources lie back to back, resource j after the lengths of those before it |
| GroupEncoder.NameFieldRead | srpgstudioextractor.py:38 | a stored name field reads back with its two-byte terminator dropped |
| GroupEncoder.NameRead | srpgstudioextractor.py:38 | a stored name field decodes back to the name |
| GroupEncoder.HeaderRead | srpgstudioextractor.py:38-40 | a stored group header gives back its name and resource count, and the length table follows the count |
| GroupEncoder.LengthsRead | srpgstudioextractor.py:41-43 | a stored length table gives back the resource lengths, and the resources follow it |
| GroupEncoder.ResourcesRead | srpgstudioextractor.py:44-51 | stored resources are read back one by one |
| GroupEncoder.GroupWritten | srpgstudioextractor.py:36-60 | a group whose name and resources read back as given writes exactly one file per resource, in order, as `Written` lists them |
| GroupEncoder.GroupRoundTrip | srpgstudioextractor.py:35-60 | an encoded group decodes, without a decoding error, to exactly the records `Written` lists: one per resource in order, each with the encoded group name and the resource's bytes (decrypted when the password is truthy) |
| Properties.RunAll | srpgstudioextractor.py:35-37 | a loop whose every iteration succeeds writes their records one after another and does not fail |
| ContainerEncoder.StoredPart | srpgstudioextractor.py:35-37 | in parts stored back to back, part k lies after the lengths of the parts before it |
| ContainerEncoder.Offsets | srpgstudioextractor.py:32-34 | offset k of parts stored from a base is where part k begins, the last is where they end, and each fits a u32 |
| ContainerEncoder.PartStored | srpgstudioextractor.py:78-79 | with a stored offset table, offset k plus the origin is where part k lies, and the next offset minus offset k is its length |
| ContainerEncoder.EntryPieces | srpgstudioextractor.py:30-34 | an encoded entry stored at s gives back its group count, and its local offsets and groups lie where the count is followed by them |
| ContainerEncoder.EntryLayout | srpgstudioextractor.py:35-37 | in an encoded entry stored at s, group k lies at local offset k plus s |
| ContainerEncoder.NthGroupRoundTrip | srpgstudioextractor.py:35-60 | group k of an encoded entry decodes to exactly the files its name and resources call for |
| ContainerEncoder.EntryRoundTrip | srpgstudioextractor.py:27-60 | an encoded entry with groups decodes, without a decoding error, to the files of its groups in index order |
| ContainerEncoder.HeaderPasses | srpgstudioextractor.py:65-68 | an encoded header passes the signature check and holds the encrypted flag it was given |
| ContainerEncoder.ContainerPieces | srpgstudioextractor.py:65-76 | an encoded container holds its header at byte 0, its top-level offsets at byte 24, and its entries from where the offsets point |
| ContainerEncoder.EntryPlaced | srpgstudioextractor.py:78-79 | entry i of an encoded container lies at offsets[i] + 168, and offsets[i+1] - offsets[i] is its length |
| ContainerEncoder.ContainerLayout | srpgstudioextractor.py:62-82 | an encoded container passes the signature check, holds its flag, and holds each entry where and as long as `extract_dts` reads it |
| ContainerEncoder.NthEntryRoundTrip | srpgstudioextractor.py:77-82 | entry i, stored where and as long as it is read, decodes to the files of its groups; an entry without groups has length 0 and writes nothing |
| ContainerEncoder.EntriesRoundTrip | srpgstudioextractor.py:77-82 | entries stored where they are read decode, without a decoding error, to the files of their groups in catalog order |
| ContainerEncoder.ContainerRoundTrip | srpgstudioextractor.py:62-82 | an encoded container whose flag is not 1, or whose password is truthy, decodes without a decoding error to exactly the files of its groups, entry after entry and group after group |
| Stream.Reader.constructor | srpgstudioextractor.py:64 | a freshly opened file stands at position 0 |
| Stream.Reader.Read | srpgstudioextractor.py:65 | `read(n)` returns the next n bytes, fewer at the end of the file, and moves the position past them |
| Stream.Reader.ReadU32 | srpgstudioextractor.py:68 | `int.from_bytes(read(4), "little")` returns the u32 at the position, below 2^32, and advances by 4 or to the end of the file |
| Stream.Reader.Seek | srpgstudioextractor.py:81 | `seek(p, 0)` moves to p, also past the end of the file |
| Stream.Reader.Tell | srpgstudioextractor.py:30 | `tell()` returns the position |
| Extractor.ReadU32s | srpgstudioextractor.py:74-76 | the loop that appends u32 values reads the `count` values stored from the table's position |
| Extractor.ReadResource | srpgstudioextractor.py:45-59 | one pass of the resource loop writes resource j's record, decrypting exactly when the password is truthy, and leaves the cursor where resource j+1 starts |
| Extractor.ReadResources | srpgstudioextractor.py:44-60 | the resource loop writes exactly the records that `Layout` specifies for the group, and leaves the cursor where the last resource ends |
| Extractor.ReadGroupName | srpgstudioextractor.py:38 | the group name is read as a u32 length and that many bytes minus the last two, decoded as UTF-16LE |
| Extractor.ReadLengths | srpgstudioextractor.py:39-43 | after the name, 8 bytes are skipped, then come the resource count and that many u32 lengths |
| Extractor.ExtractGroup | srpgstudioextractor.py:36-60 | one pass of the group loop writes exactly the specified records of the group at that position, or fails on its name |
| Extractor.ExtractNthGroup | srpgstudioextractor.py:35-37 | group k is read from local offset k plus the entry position |
| Extractor.ExtractGroups | srpgstudioextractor.py:35-60 | the group loop writes the specified records of the groups in index order and stops at the first that fails |
| Extractor.ExtractEntry | srpgstudioextractor.py:27-60 | `extract_entry` writes nothing for a length of 0, and otherwise exactly the specified records of the entry at the current position |
| Extractor.ExtractNthEntry | srpgstudioextractor.py:78-82 | entry i is read from offsets[i] + 168 with length offsets[i+1] - offsets[i] |
| Extractor.ExtractEntries | srpgstudioextractor.py:77-82 | the entry loop writes the specified records of the entries in catalog order and stops at the first that fails |
| Extractor.ExtractDts | srpgstudioextractor.py:62-82 | `extract_dts` writes exactly the records, and raises exactly the error, that `Layout.Decode` specifies |

## Left out

- `extract_srk` and the command-line driver (argument parsing, `os.walk`,
  error printing) are not part of this model. They are file-system glue
  around the decoder.
- File I/O is not modelled. `os.makedirs` and `open(...).write` are the
  records of `Layout.Outcome`. Opening the file is the `Reader`
  constructor over the file's bytes. Failures of the file system are not
  modelled.
- `decrypt_asset` (MD5 of the UTF-16LE password as the ARC4 key) is the
  parameter `Env.decrypt`: a cipher is outside what is proved here. Every
  statement about decrypted bytes holds for any decryption function.
- Properties.DecodeSound: exceptions raised by `os.makedirs` and `open`
  are not modelled. Examples are a `ValueError` for a group or entry name
  holding U+0000, and an `OSError` for a name the file system refuses. So
  "the only errors" in `Properties.DecodeSound` and "without a decoding
  error" in the round trips speak of decoding only: a container whose
  group name holds U+0000 decodes without a decoding error in the model,
  while the program stops at line 58 before that group's first file.
- Paths.GroupDir: paths are joined as POSIX `os.path.join` does (`/`
  separator, a component starting with `/` restarts the path). Windows
  `ntpath` joining (the `\` separator, drive letters) is not modelled.
- `filetype.guess_extension` is the parameter `Env.sniff`. Any sniffer is
  allowed, including one that returns an empty string.
- `known_entry_names` lives in a constants module that is not part of this
  model. It is the `catalog` parameter of `Decode` and `ExtractDts`.
- The version field and the project offset (bytes 8-11 and 20-23) are read
  and then never used. The model reads them too, and nothing depends on
  them.
- The encoders write offsets that increase and entries and groups that do
  not overlap. Containers with other layouts are still covered by
  `Layout.Decode` and the properties above, but have no encoder.
- `srpgstudioextractor.py` makes none of the following checks, and the
  model follows the code:
  - Offsets are not checked to increase. A negative entry length counts as
    non-zero, and that entry is decoded like any other.
  - An odd name length is no error of its own. It fails only through UTF-16
    decoding (`Properties.OddNameFails`), and a stored length of 1 gives an
    empty name.
  - A read past the end of the buffer does not fail. It returns fewer bytes.
  - The top-level offset table is read from byte 24, not byte 168.
    Offsets count from 168.
  - A resource is decrypted whenever the password is truthy, whatever the
    encrypted flag says. The flag only decides whether a missing password
    is an error.
