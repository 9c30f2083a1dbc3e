/** A binary file opened for reading: fixed contents and a position that `read` and `seek` move. */
module Stream {
  import opened Bytes

  class Reader {
    const data: seq<byte>
    var pos: nat

    /** `open(path, "rb")` on a file holding `data`. */
    constructor (data: seq<byte>)
      ensures this.data == data && pos == 0
    {
      this.data := data;
      pos := 0;
    }

    /** `read(n)`: at most n bytes, fewer at the end of the file; never fails. */
    method Read(n: nat) returns (chunk: seq<byte>)
      modifies this
      ensures chunk == Slice(data, old(pos), n)
      ensures pos == Advance(|data|, old(pos), n)
    {
      if |data| <= pos {
        chunk := [];
      } else {
        var end := Min(pos + n, |data|);
        chunk := data[pos..end];
        assert chunk == Slice(data, pos, n);
        pos := end;
      }
    }

    /** `int.from_bytes(read(4), byteorder="little")` */
    method ReadU32() returns (v: nat)
      modifies this
      ensures v == U32At(data, old(pos)) && v < U32Limit
      ensures pos == Advance(|data|, old(pos), 4)
    {
      var b := Read(4);
      v := FromLE(b);
      ReadValue(data, old(pos), 4);
    }

    /** `seek(p, 0)`: any position, also past the end. */
    method Seek(p: nat)
      modifies this
      ensures pos == p
    {
      pos := p;
    }

    /** `tell()` */
    method Tell() returns (p: nat)
      ensures p == pos
    {
      p := pos;
    }
  }
}
