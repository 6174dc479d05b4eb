/** Facts about the buffer that relate several calls: the readable bytes
    behave as a FIFO byte stream, and the shortfall of the literal
    `SetEnsureWritable` arithmetic. */
module BufferFacts {
  import opened Common
  import opened ByteBuffer

  // ---------------------------------------------------------------------
  // The readable region as a byte stream.
  // ---------------------------------------------------------------------

  /** One call that changes the readable bytes: an `Append` of some bytes
      (any overload) or a `Retrieve` of a count. */
  datatype Op = AppendOp(data: seq<char>) | RetrieveOp(count: nat)

  /** What one call does to the readable bytes, as `Buffer.Append` and
      `Buffer.Retrieve` promise. */
  function Step(readable: seq<char>, op: Op): seq<char>
    requires op.RetrieveOp? ==> op.count <= |readable|
  {
    match op
    case AppendOp(data) => readable + data
    case RetrieveOp(count) => readable[count..]
  }

  /** Every `Retrieve` in `ops` respects its precondition when the calls are
      made in order from `readable`. */
  predicate Legal(readable: seq<char>, ops: seq<Op>)
    decreases |ops|
  {
    ops == [] ||
    ((ops[0].RetrieveOp? ==> ops[0].count <= |readable|) && Legal(Step(readable, ops[0]), ops[1..]))
  }

  function Run(readable: seq<char>, ops: seq<Op>): seq<char>
    requires Legal(readable, ops)
    decreases |ops|
  {
    if ops == [] then readable else Run(Step(readable, ops[0]), ops[1..])
  }

  /** The bytes one call appends. */
  function AppendedBy(op: Op): seq<char>
  {
    if op.AppendOp? then op.data else []
  }

  /** The number of bytes one call retrieves. */
  function RetrievedBy(op: Op): nat
  {
    if op.RetrieveOp? then op.count else 0
  }

  /** All bytes appended by `ops`, in order. */
  function Appended(ops: seq<Op>): seq<char>
  {
    if ops == [] then [] else AppendedBy(ops[0]) + Appended(ops[1..])
  }

  /** Total number of bytes retrieved by `ops`. */
  function Retrieved(ops: seq<Op>): nat
  {
    if ops == [] then 0 else RetrievedBy(ops[0]) + Retrieved(ops[1..])
  }

  /** One step moves the window over the stream without changing it. */
  lemma StepShiftsWindow(readable: seq<char>, op: Op, tail: seq<char>, m: nat)
    requires op.RetrieveOp? ==> op.count <= |readable|
    requires m <= |Step(readable, op)| + |tail|
    ensures RetrievedBy(op) + m <= |readable| + |AppendedBy(op)| + |tail|
    ensures (Step(readable, op) + tail)[m..] == (readable + (AppendedBy(op) + tail))[RetrievedBy(op) + m..]
  {
    match op
    case AppendOp(data) =>
      assert readable + (data + tail) == (readable + data) + tail;
    case RetrieveOp(count) =>
      assert (readable[count..] + tail)[m..] == (readable + tail)[count + m..];
      assert AppendedBy(op) + tail == tail;
  }

  /** After any legal sequence of appends and retrieves the readable bytes
      are exactly the bytes that were readable or appended, minus as many
      from the front as were retrieved: nothing is lost, duplicated or
      reordered. */
  lemma {:induction false} RunIsStreamSuffix(readable: seq<char>, ops: seq<Op>)
    requires Legal(readable, ops)
    ensures Retrieved(ops) <= |readable| + |Appended(ops)|
    ensures Run(readable, ops) == (readable + Appended(ops))[Retrieved(ops)..]
    decreases |ops|
  {
    if ops == [] {
      assert readable + [] == readable;
    } else {
      var op, rest := ops[0], ops[1..];
      var next := Step(readable, op);
      assert Run(readable, ops) == Run(next, rest);
      assert Appended(ops) == AppendedBy(op) + Appended(rest);
      assert Retrieved(ops) == RetrievedBy(op) + Retrieved(rest);
      RunIsStreamSuffix(next, rest);
      assert Run(next, rest) == (next + Appended(rest))[Retrieved(rest)..];
      StepShiftsWindow(readable, op, Appended(rest), Retrieved(rest));
    }
  }

  /** readable = initially readable + appended - retrieved. */
  lemma ReadableBalance(readable: seq<char>, ops: seq<Op>)
    requires Legal(readable, ops)
    ensures |Run(readable, ops)| == |readable| + |Appended(ops)| - Retrieved(ops)
  {
    RunIsStreamSuffix(readable, ops);
  }

  // ---------------------------------------------------------------------
  // The buffer object driven through its own methods.
  // ---------------------------------------------------------------------

  /** Makes the calls `ops` on `b`, each append through
      `Append(std::string, len)` and each retrieve through `Retrieve`: the
      readable bytes end as `Run` says, so every fact proved about `Run`
      holds of the buffer object. */
  method Replay(b: Buffer, ops: seq<Op>)
    requires b.Valid() && Legal(b.Contents(), ops)
    modifies b, b.buf
    ensures b.Valid() && (b.buf == old(b.buf) || fresh(b.buf))
    ensures b.Contents() == Run(old(b.Contents()), ops)
  {
    assert ops[0..] == ops;
    var i := 0;
    while i < |ops|
      invariant 0 <= i <= |ops|
      invariant b.Valid() && (b.buf == old(b.buf) || fresh(b.buf))
      invariant Legal(b.Contents(), ops[i..])
      invariant Run(b.Contents(), ops[i..]) == Run(old(b.Contents()), ops)
      decreases |ops| - i
    {
      assert ops[i..][1..] == ops[i + 1..];
      match ops[i] {
        case AppendOp(data) =>
          b.AppendString(data, |data|);
        case RetrieveOp(count) =>
          b.Retrieve(count);
      }
      i := i + 1;
    }
  }

  /** Corrected (through the corrected `Append`). The end-to-end run of a
      new buffer given more bytes than its capacity (capacity 4 and five
      bytes, for one): the append grows the storage to exactly the data's
      length, all of the data is readable, `RetrieveToStr` hands it back,
      and nothing is readable afterwards. On every one of these inputs the
      literal `SetEnsureWritable` falls short of the data's length, so the
      source's own run fails its assertion instead (last ensures). */
  method Session(capacity: nat, data: seq<char>) returns (b: Buffer, readable: nat, s: string)
    requires 0 < capacity < |data|
    ensures fresh(b) && b.Valid() && b.buf.Length == |data|
    ensures readable == |data| && s == data
    ensures b.GetReadableBytes() == 0 && b.Contents() == []
    ensures Writable(EnsureWritableAsWritten(Cursors(capacity, 0, 0), |data|)) < |data|
  {
    AsWrittenShortfall(Cursors(capacity, 0, 0), |data|);
    b := new Buffer(capacity);
    b.Append(Some(data));
    readable := b.GetReadableBytes();
    s := b.RetrieveToStr();
  }

  /** Corrected (through the corrected `Append`, which the literal
      `SetEnsureWritable` falls short of whenever an append finds some but
      too few writable bytes; see `AsWrittenShortfall`). A new buffer
      driven by an append, a retrieve of one byte and a
      second append: its readable bytes are those `Run` gives for the same
      calls, the appended bytes without the first, and `RetrieveToStr`
      returns them. */
  method StreamSession(capacity: nat, first: seq<char>, second: seq<char>) returns (b: Buffer, s: string)
    requires |first| >= 1
    ensures fresh(b) && b.Valid() && b.Contents() == []
    ensures Legal([], [AppendOp(first), RetrieveOp(1), AppendOp(second)])
    ensures s == Run([], [AppendOp(first), RetrieveOp(1), AppendOp(second)])
    ensures s == first[1..] + second
  {
    b := new Buffer(capacity);
    var ops := [AppendOp(first), RetrieveOp(1), AppendOp(second)];
    assert Step([], ops[0]) == first;
    assert ops[1..][1..][1..] == [];
    assert Legal(Step(first, ops[1]), ops[1..][1..]);
    Replay(b, ops);
    RunIsStreamSuffix([], ops);
    assert Appended(ops) == first + second by {
      assert Appended(ops[1..][1..]) == second + [];
      assert Appended(ops[1..]) == [] + second;
    }
    assert Retrieved(ops) == 1 by {
      assert Retrieved(ops[1..][1..]) == 0;
      assert Retrieved(ops[1..]) == 1;
    }
    assert ([] + (first + second))[1..] == first[1..] + second;
    s := b.RetrieveToStr();
  }

  // ---------------------------------------------------------------------
  // The literal `SetEnsureWritable` arithmetic.
  // ---------------------------------------------------------------------

  /** A fresh (or cleared) buffer of capacity `c.size` asked to take
      `len` bytes, `c.size < len <= 2 * c.size` (capacity 4 and 5 bytes, for
      one): the literal code asks `MakeSpace` for `len - c.size` bytes,
      compacts instead of growing, and leaves all cursors as they were, so
      fewer than the `len` bytes `Append` then copies are writable. The
      corrected arithmetic grows the storage to exactly `len`. */
  lemma FreshBufferShortfall(c: Cursors, len: nat)
    requires c.read == 0 && c.write == 0 && 0 < c.size < len <= 2 * c.size
    ensures EnsureWritableAsWritten(c, len) == c
    ensures Writable(EnsureWritableAsWritten(c, len)) < len
    ensures EnsureWritablePlan(c, len) == Cursors(len, 0, 0)
  {
  }

  /** With nothing writable the literal and the corrected arithmetic agree;
      this is the state `ReadFd` creates before appending its overflow. */
  lemma AsWrittenAgreesWhenFull(c: Cursors, len: nat)
    requires WellFormed(c) && len > 0 && Writable(c) == 0
    ensures EnsureWritableAsWritten(c, len) == EnsureWritablePlan(c, len)
  {
  }

  /** The literal arithmetic falls short exactly when some, but not enough,
      bytes were writable and the consumed head does not make up the rest;
      it then leaves `len - writable` bytes writable after growing. */
  lemma AsWrittenShortfall(c: Cursors, len: nat)
    requires WellFormed(c) && len > 0
    requires 0 < Writable(c) && Writable(c) + Prependable(c) < len
    ensures Writable(EnsureWritableAsWritten(c, len)) < len
    ensures Writable(c) + Prependable(c) < len - Writable(c) ==>
      Writable(EnsureWritableAsWritten(c, len)) == len - Writable(c)
    ensures Writable(c) + Prependable(c) >= len - Writable(c) ==>
      Writable(EnsureWritableAsWritten(c, len)) == Writable(c) + Prependable(c)
  {
  }
}
