/** The growable byte buffer (class `Buffer` of buffer/buffer.h and
    buffer/buffer.cpp): a `vector<char>` with a read cursor and a write
    cursor, `read <= write <= size`. The bytes in `[read, write)` are the
    readable ones, `[write, size)` the writable tail, `[0, read)` the
    already consumed (prependable) head. */
module ByteBuffer {
  import opened Common

  /** Size of the stack region that catches the overflow of one vectored read. */
  const MAX_BUFFER_SIZE: nat := 65535
  /** Default argument of the constructor. */
  const DEFAULT_BUFFER_SIZE: nat := 1024

  // ---------------------------------------------------------------------
  // Geometry: the storage size and the two cursors, as plain numbers.
  // ---------------------------------------------------------------------

  datatype Cursors = Cursors(size: nat, read: nat, write: nat)

  predicate WellFormed(c: Cursors)
  {
    c.read <= c.write <= c.size
  }

  function Writable(c: Cursors): nat
    requires WellFormed(c)
  {
    c.size - c.write
  }

  function Readable(c: Cursors): nat
    requires WellFormed(c)
  {
    c.write - c.read
  }

  function Prependable(c: Cursors): nat
  {
    c.read
  }

  /** Where `MakeSpace(makeSize)` leaves the cursors: when the writable tail
      and the consumed head together are too small the storage grows to
      `write + makeSize`, otherwise the readable bytes slide to offset 0. */
  function MakeSpacePlan(c: Cursors, makeSize: nat): (r: Cursors)
    requires WellFormed(c)
    ensures WellFormed(r)
    ensures Readable(r) == Readable(c)
    ensures r.size >= c.size
    ensures Writable(c) + Prependable(c) < makeSize ==>
      r.size > c.size && r.read == c.read && Writable(r) == makeSize
    ensures Writable(c) + Prependable(c) >= makeSize ==>
      r.size == c.size && r.read == 0 && Writable(r) == Writable(c) + Prependable(c)
  {
    if Writable(c) + Prependable(c) < makeSize then Cursors(c.write + makeSize, c.read, c.write)
    else Cursors(c.size, 0, Readable(c))
  }

  /** `SetEnsureWritable(len)` as it evidently should be: `MakeSpace(len)`
      whenever fewer than `len` bytes are writable. It always delivers the
      promise of its final assertion, and it grows the storage by no more
      than that promise needs. */
  function EnsureWritablePlan(c: Cursors, len: nat): (r: Cursors)
    requires WellFormed(c) && len > 0
    ensures WellFormed(r) && Readable(r) == Readable(c) && r.size >= c.size
    ensures Writable(r) >= len
    ensures Writable(c) >= len ==> r == c
    ensures r.size > c.size ==> Writable(r) == len
  {
    if Writable(c) < len then MakeSpacePlan(c, len) else c
  }

  /** `SetEnsureWritable(len)` as written: it asks `MakeSpace` for
      `len - writable` bytes only. The storage still never shrinks and the
      readable count is kept, but afterwards at least `len` bytes are
      writable exactly when nothing was writable before or the writable
      tail and the consumed head together already held `len` bytes. */
  function EnsureWritableAsWritten(c: Cursors, len: nat): (r: Cursors)
    requires WellFormed(c) && len > 0
    ensures WellFormed(r) && Readable(r) == Readable(c) && r.size >= c.size
    ensures Writable(r) >= len <==> Writable(c) == 0 || Writable(c) + Prependable(c) >= len
  {
    if Writable(c) < len then MakeSpacePlan(c, len - Writable(c)) else c
  }

  /** Where `Append` of `len` bytes leaves the cursors. */
  function AppendPlan(c: Cursors, len: nat): (r: Cursors)
    requires WellFormed(c) && len > 0
    ensures WellFormed(r) && Readable(r) == Readable(c) + len && r.size >= c.size
  {
    var e := EnsureWritablePlan(c, len);
    Cursors(e.size, e.read, e.write + len)
  }

  // ---------------------------------------------------------------------
  // The buffer object.
  // ---------------------------------------------------------------------

  /** How a vectored read ended: an OS error code, or the bytes delivered. */
  datatype ReadOutcome = ReadFailed(errno: int) | ReadBytes(bytes: seq<char>)

  class Buffer {
    var buf: array<char>
    var readPos: nat
    var writePos: nat

    ghost predicate Valid()
      reads this
    {
      readPos <= writePos <= buf.Length
    }

    function Layout(): (c: Cursors)
      reads this
    {
      Cursors(buf.Length, readPos, writePos)
    }

    /** The readable bytes. */
    function Contents(): seq<char>
      reads this, buf
      requires Valid()
    {
      buf[readPos..writePos]
    }

    function GetWritableBytes(): (n: nat)
      reads this
      requires Valid()
      ensures n == Writable(Layout())
    {
      buf.Length - writePos
    }

    function GetReadableBytes(): (n: nat)
      reads this
      requires Valid()
      ensures n == Readable(Layout())
    {
      writePos - readPos
    }

    function GetPrependableBytes(): (n: nat)
      reads this
      ensures n == Prependable(Layout())
    {
      readPos
    }

    /** A new buffer: `maxBuffSize` zeroed bytes, both cursors at 0. */
    constructor (maxBuffSize: nat := DEFAULT_BUFFER_SIZE)
      ensures Valid() && fresh(buf)
      ensures buf.Length == maxBuffSize && readPos == 0 && writePos == 0
      ensures Contents() == [] && AllNul(buf[..])
    {
      buf := new char[maxBuffSize](_ => NUL);
      readPos, writePos := 0, 0;
    }

    /** Copies `data` into the storage at offset `at` (a `std::copy` or a
        formatted print through `GetBeginWritePos()`); nothing else moves. */
    method CopyAt(at: nat, data: seq<char>)
      requires at + |data| <= buf.Length
      modifies buf
      ensures buf[..] == old(buf[..at]) + data + old(buf[at + |data|..])
    {
      var i := 0;
      while i < |data|
        invariant 0 <= i <= |data|
        invariant forall k :: 0 <= k < buf.Length ==>
          buf[k] == if at <= k < at + i then data[k - at] else old(buf[k])
      {
        buf[at + i] := data[i];
        i := i + 1;
      }
      assert buf[..] == old(buf[..at]) + data + old(buf[at + |data|..]);
    }

    /** Grows the storage, or compacts the readable bytes to offset 0. */
    method MakeSpace(makeSize: nat)
      requires Valid()
      modifies this, buf
      ensures Valid()
      ensures Layout() == MakeSpacePlan(old(Layout()), makeSize)
      ensures Contents() == old(Contents())
      ensures old(GetWritableBytes() + GetPrependableBytes()) < makeSize ==>
        fresh(buf) && buf[..old(buf.Length)] == old(buf[..]) && AllNul(buf[old(buf.Length)..])
      ensures old(GetWritableBytes() + GetPrependableBytes()) >= makeSize ==>
        buf == old(buf) && buf[writePos..] == old(buf[..])[writePos..]
    {
      if GetWritableBytes() + GetPrependableBytes() < makeSize {
        Grow(writePos + makeSize);
      } else {
        Compact();
      }
    }

    /** `m_buffer.resize(newSize)`: the old bytes stay where they were and
        the new ones are zero. */
    method Grow(newSize: nat)
      requires Valid() && buf.Length < newSize
      modifies this`buf
      ensures Valid() && fresh(buf) && buf.Length == newSize
      ensures buf[..old(buf.Length)] == old(buf[..]) && AllNul(buf[old(buf.Length)..])
      ensures Contents() == old(Contents())
    {
      var grown := new char[newSize](_ => NUL);
      var i := 0;
      while i < buf.Length
        modifies grown
        invariant 0 <= i <= buf.Length < grown.Length
        invariant forall k :: 0 <= k < i ==> grown[k] == buf[k]
        invariant forall k :: buf.Length <= k < grown.Length ==> grown[k] == NUL
      {
        grown[i] := buf[i];
        i := i + 1;
      }
      ghost var before := buf;
      buf := grown;
      assert buf[..before.Length] == before[..];
      assert Contents() == buf[..before.Length][readPos..writePos];
    }

    /** `std::copy` of the readable bytes to offset 0; the bytes after them
        are left as they were. */
    method Compact()
      requires Valid()
      modifies this`readPos, this`writePos, buf
      ensures Valid() && readPos == 0 && writePos == old(writePos - readPos)
      ensures Contents() == old(Contents())
      ensures buf[writePos..] == old(buf[..])[writePos..]
    {
      ghost var before := Contents();
      ghost var storage := buf[..];
      var readable := writePos - readPos;
      var i := 0;
      while i < readable
        modifies buf
        invariant 0 <= i <= readable
        invariant forall k :: 0 <= k < i ==> buf[k] == before[k]
        invariant forall k :: i <= k < buf.Length ==> buf[k] == storage[k]
      {
        buf[i] := buf[readPos + i];
        i := i + 1;
      }
      readPos := 0;
      writePos := readable;
      assert Contents() == before;
      assert buf[writePos..] == storage[writePos..];
    }

    /** Makes at least `len` bytes writable, asking `MakeSpace` for `len`
        bytes (the evident intent of buffer.cpp:79). */
    method SetEnsureWritable(len: nat)
      requires Valid() && len > 0
      modifies this, buf
      ensures Valid() && (buf == old(buf) || fresh(buf))
      ensures Layout() == EnsureWritablePlan(old(Layout()), len)
      ensures Contents() == old(Contents())
      ensures GetWritableBytes() >= len
      ensures old(GetWritableBytes()) >= len ==> buf == old(buf)
    {
      if GetWritableBytes() < len {
        MakeSpace(len);
      }
    }

    /** `SetEnsureWritable` as written: `MakeSpace(len - writable)`. Its
        final assertion holds only in the cases stated below. */
    method SetEnsureWritableAsWritten(len: nat)
      requires Valid() && len > 0
      modifies this, buf
      ensures Valid() && (buf == old(buf) || fresh(buf))
      ensures Layout() == EnsureWritableAsWritten(old(Layout()), len)
      ensures Contents() == old(Contents())
      ensures GetWritableBytes() >= len <==>
        old(GetWritableBytes()) == 0 || old(GetWritableBytes() + GetPrependableBytes()) >= len
    {
      if GetWritableBytes() < len {
        MakeSpace(len - GetWritableBytes());
      }
    }

    /** Advances the write cursor over `len` bytes already in the storage.
        The source asserts `len < 0`, which no `size_t` meets; the model
        requires what the callers need, `len <= writable`. */
    method RefreshWritePos(len: nat)
      requires Valid() && len <= GetWritableBytes()
      modifies this`writePos
      ensures Valid()
      ensures writePos == old(writePos) + len
      ensures Contents() == old(Contents()) + buf[old(writePos)..writePos]
    {
      writePos := writePos + len;
    }

    /** `Append(const char* data, size_t len)`: `None` is the null pointer,
        `Some(bytes)` the `len` bytes at `data`. */
    method Append(data: Option<seq<char>>)
      requires Valid()
      requires data.Some? ==> |data.value| > 0
      modifies this, buf
      ensures Valid() && (buf == old(buf) || fresh(buf))
      ensures data.None? ==> unchanged(this) && unchanged(buf)
      ensures data.Some? ==> Contents() == old(Contents()) + data.value
      ensures data.Some? ==> Layout() == AppendPlan(old(Layout()), |data.value|)
      ensures data.Some? && |data.value| <= old(GetWritableBytes()) ==> buf == old(buf)
    {
      if data.None? {
        return;
      }
      var bytes := data.value;
      SetEnsureWritable(|bytes|);
      ghost var before := Contents();
      CopyAt(writePos, bytes);
      assert buf[readPos..writePos] == before;
      RefreshWritePos(|bytes|);
    }

    /** `Append(const std::string data, size_t len)`: `len` is ignored, the
        whole string is appended, and an empty string changes nothing. */
    method AppendString(data: string, len: nat)
      requires Valid()
      modifies this, buf
      ensures Valid() && (buf == old(buf) || fresh(buf))
      ensures Contents() == old(Contents()) + data
      ensures data == [] ==> unchanged(this) && unchanged(buf)
      ensures data != [] ==> Layout() == AppendPlan(old(Layout()), |data|)
    {
      if data == [] {
        return;
      }
      Append(Some(data));
    }

    /** `Append(const Buffer& buff)`: appends the readable bytes of another
        buffer, which is left as it was. The source passes
        `buff.GetReadableBytes()` on to an assertion that it is positive. */
    method AppendBuffer(other: Buffer)
      requires Valid() && other.Valid()
      requires other != this && other.buf != buf
      requires other.GetReadableBytes() > 0
      modifies this, buf
      ensures Valid() && (buf == old(buf) || fresh(buf))
      ensures Contents() == old(Contents()) + old(other.Contents())
      ensures unchanged(other) && unchanged(other.buf)
    {
      Append(Some(other.Contents()));
    }

    /** Consumes `len` readable bytes. */
    method Retrieve(len: nat)
      requires Valid() && len <= GetReadableBytes()
      modifies this`readPos
      ensures Valid()
      ensures readPos == old(readPos) + len
      ensures Contents() == old(Contents())[len..]
    {
      readPos := readPos + len;
    }

    /** Consumes the readable bytes up to storage offset `end` (the pointer
        `end` of the source, as an offset). */
    method RetrieveUntil(end: nat)
      requires Valid() && readPos <= end && end - readPos <= GetReadableBytes()
      modifies this`readPos
      ensures Valid()
      ensures readPos == end
      ensures Contents() == old(Contents())[end - old(readPos)..]
    {
      Retrieve(end - readPos);
    }

    /** Zeroes the storage and resets both cursors. */
    method Clear()
      requires Valid()
      modifies this`readPos, this`writePos, buf
      ensures Valid()
      ensures readPos == 0 && writePos == 0 && Contents() == []
      ensures AllNul(buf[..])
    {
      forall i | 0 <= i < buf.Length {
        buf[i] := NUL;
      }
      writePos := 0;
      readPos := 0;
    }

    /** Returns every readable byte and clears the buffer: afterwards it is
        in the state of a freshly constructed buffer of the same capacity. */
    method RetrieveToStr() returns (s: string)
      requires Valid()
      modifies this`readPos, this`writePos, buf
      ensures Valid()
      ensures s == old(Contents())
      ensures readPos == 0 && writePos == 0 && Contents() == []
      ensures AllNul(buf[..])
    {
      s := Contents();
      Clear();
    }

    /** `ReadFd` with the outcome of its `readv` as a parameter. The read
        targets the writable tail and a `MAX_BUFFER_SIZE` stack region, so
        at most `writable + MAX_BUFFER_SIZE` bytes arrive. Bytes that fit
        the tail only advance the write cursor; an overflow marks the
        storage full and is appended through `Append`. On failure the
        error code is reported and nothing changes. */
    method ReadFd(outcome: ReadOutcome) returns (len: int, error: Option<int>)
      requires Valid()
      requires outcome.ReadBytes? ==> |outcome.bytes| <= GetWritableBytes() + MAX_BUFFER_SIZE
      modifies this, buf
      ensures Valid() && (buf == old(buf) || fresh(buf))
      ensures outcome.ReadFailed? ==>
        len < 0 && error == Some(outcome.errno) && unchanged(this) && unchanged(buf)
      ensures outcome.ReadBytes? ==>
        len == |outcome.bytes| && error == None && Contents() == old(Contents()) + outcome.bytes
      ensures outcome.ReadBytes? && len <= old(GetWritableBytes()) ==>
        buf == old(buf) && readPos == old(readPos) && writePos == old(writePos) + len
      ensures outcome.ReadBytes? && len > old(GetWritableBytes()) ==>
        Layout() == AppendPlan(Cursors(old(buf.Length), old(readPos), old(buf.Length)), len - old(GetWritableBytes()))
    {
      var writable := GetWritableBytes();
      match outcome
      case ReadFailed(errno) =>
        len, error := -1, Some(errno);
      case ReadBytes(bytes) =>
        len, error := |bytes|, None;
        if |bytes| <= writable {
          ReadFits(bytes);
        } else {
          ReadOverflow(bytes);
        }
    }

    /** A read that fits the writable tail lands there directly. */
    method ReadFits(bytes: seq<char>)
      requires Valid() && |bytes| <= GetWritableBytes()
      modifies this`writePos, buf
      ensures Valid() && readPos == old(readPos) && writePos == old(writePos) + |bytes|
      ensures Contents() == old(Contents()) + bytes
    {
      ghost var before := Contents();
      CopyAt(writePos, bytes);
      assert buf[readPos..writePos] == before;
      RefreshWritePos(|bytes|);
      assert buf[old(writePos)..writePos] == bytes;
    }

    /** A read larger than the writable tail fills the tail, marks the
        storage full, and appends the rest from the extra buffer. */
    method ReadOverflow(bytes: seq<char>)
      requires Valid() && GetWritableBytes() < |bytes|
      modifies this, buf
      ensures Valid() && (buf == old(buf) || fresh(buf))
      ensures Contents() == old(Contents()) + bytes
      ensures Layout() == AppendPlan(Cursors(old(buf.Length), old(readPos), old(buf.Length)),
                                     |bytes| - old(GetWritableBytes()))
    {
      var writable := GetWritableBytes();
      ghost var before := Contents();
      CopyAt(writePos, bytes[..writable]);
      assert buf[readPos..writePos] == before;
      writePos := buf.Length;
      assert Contents() == before + bytes[..writable];
      Append(Some(bytes[writable..]));
      assert bytes[..writable] + bytes[writable..] == bytes;
    }

    /** `WriteFd` with the count its `write` reports as a parameter: exactly
        the bytes written (the front of the readable region) are retrieved. */
    method WriteFd(written: nat) returns (len: int, sent: seq<char>)
      requires Valid() && written <= GetReadableBytes()
      modifies this`readPos
      ensures Valid()
      ensures len == written
      ensures sent == old(Contents())[..written] && sent + Contents() == old(Contents())
    {
      sent := Contents()[..written];
      Retrieve(written);
      len := written;
    }
  }
}
