/** Sequential, forward-only reader over a buffer; a read past the end fails and moves nothing. */
module BufferCursors {
  import opened Bytes
  import opened Wrappers

  datatype Truncated = Truncated(requestedBytes: nat, remainingBytes: nat, offset: nat)

  /** What every read of `count` bytes does to a cursor: it fails iff fewer remain, and then the cursor stays. */
  ghost predicate Moved<T>(r: Result<T, Truncated>, count: nat, size: nat, before: nat, after: nat) {
    && before <= size
    && (r.Success? <==> before + count <= size)
    && (r.Success? ==> after == before + count)
    && (r.Failure? ==> after == before && r.error == Truncated(count, size - before, before))
  }

  class BufferCursor {
    const buf: Buffer
    var offset: nat

    ghost predicate Valid()
      reads this
    {
      offset <= |buf|
    }

    constructor (buf: Buffer)
      ensures Valid() && this.buf == buf && offset == 0
    {
      this.buf := buf;
      offset := 0;
    }

    function Remaining(): nat
      requires Valid()
      reads this
    {
      |buf| - offset
    }

    method ReadBytes(count: nat) returns (r: Result<Buffer, Truncated>)
      requires Valid()
      modifies this`offset
      ensures Valid() && Moved(r, count, |buf|, old(offset), offset)
      ensures r.Success? ==> r.value == buf[old(offset)..old(offset) + count]
    {
      if Remaining() < count {
        return Failure(Truncated(count, Remaining(), offset));
      }
      r := Success(buf[offset..offset + count]);
      offset := offset + count;
    }

    method Skip(count: nat) returns (r: Result<(), Truncated>)
      requires Valid()
      modifies this`offset
      ensures Valid() && Moved(r, count, |buf|, old(offset), offset)
    {
      if Remaining() < count {
        return Failure(Truncated(count, Remaining(), offset));
      }
      r := Success(());
      offset := offset + count;
    }

    /** `readUIntBE`, and with width 1, 2, 4 `readUInt8`, `readUInt16BE`, `readUInt32BE`. */
    method ReadUInt(width: nat) returns (r: Result<nat, Truncated>)
      requires Valid()
      modifies this`offset
      ensures Valid() && Moved(r, width, |buf|, old(offset), offset)
      ensures r.Success? ==> r.value == UIntAt(buf, old(offset), width)
    {
      if Remaining() < width {
        return Failure(Truncated(width, Remaining(), offset));
      }
      r := Success(UIntAt(buf, offset, width));
      offset := offset + width;
    }

    /** `readIntBE`, and with width 1, 2, 4 `readInt8`, `readInt16BE`, `readInt32BE`. */
    method ReadInt(width: nat) returns (r: Result<int, Truncated>)
      requires Valid()
      modifies this`offset
      ensures Valid() && Moved(r, width, |buf|, old(offset), offset)
      ensures r.Success? ==> r.value == SIntAt(buf, old(offset), width)
    {
      if Remaining() < width {
        return Failure(Truncated(width, Remaining(), offset));
      }
      r := Success(SIntAt(buf, offset, width));
      offset := offset + width;
    }
  }
}
