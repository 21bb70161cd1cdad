/** The contiguous byte buffer [prependable | readable | writable], its two ways to make room,
    and the two-segment read that spills into a 64 KiB side buffer. */
module ByteBuffer {

  import opened Wire

  const PREPEND: nat := 8
  const INITIAL: nat := 4096

  /** Size of the on-stack overflow segment of a scatter read. */
  const EXTRA: nat := 65536

  function Max(a: nat, b: nat): nat {
    if a < b then b else a
  }

  /** What can be observed of a buffer: allocated size, read index and readable bytes.
      Bytes outside the readable range are not part of it. */
  datatype Shape = Shape(size: nat, read: nat, content: Bytes) {

    ghost predicate Valid() {
      PREPEND <= read && read + |content| <= size
    }

    function Writable(): nat
      requires Valid()
    {
      size - read - |content|
    }

    /** Slide the readable bytes down when slack suffices, otherwise enlarge the store. */
    function Grow(len: nat): Shape
      requires Valid()
    {
      if Writable() + read >= len + PREPEND then this.(read := PREPEND)
      else this.(size := read + |content| + len)
    }

    function Append(data: Bytes): Shape
      requires Valid()
    {
      var s := if Writable() < |data| then Grow(|data|) else this;
      s.(content := content + data)
    }

    function Retrieve(n: nat): Shape
      requires Valid() && n <= |content|
    {
      if n == |content| then this.(read := PREPEND, content := [])
      else this.(read := read + n, content := content[n..])
    }

    /** The most bytes one scatter read can deliver. */
    function Offered(): nat
      requires Valid()
    {
      if Writable() < EXTRA then Writable() + EXTRA else Writable()
    }

    /** A read that delivers `input`: into the writable segment, the overflow appended after. */
    function ReadFd(input: Bytes): Shape
      requires Valid() && |input| <= Offered()
    {
      var w := Writable();
      if |input| <= w then this.(content := content + input)
      else this.(content := content + input[..w]).Append(input[w..])
    }
  }

  // ---------- The buffer refines a byte queue ----------

  datatype Op = AppendOp(data: Bytes) | RetrieveOp(n: nat) | ReadOp(input: Bytes)

  /** What the callers and the kernel must respect. */
  ghost predicate Legal(s: Shape, op: Op)
    requires s.Valid()
  {
    match op
    case AppendOp(_) => true
    case RetrieveOp(n) => n <= |s.content|
    case ReadOp(input) => |input| <= s.Offered()
  }

  ghost function Apply(s: Shape, op: Op): Shape
    requires s.Valid() && Legal(s, op)
  {
    match op
    case AppendOp(data) => s.Append(data)
    case RetrieveOp(n) => s.Retrieve(n)
    case ReadOp(input) => s.ReadFd(input)
  }

  ghost predicate Step(s: Shape, op: Op, s': Shape) {
    s.Valid() && Legal(s, op) && s' == Apply(s, op)
  }

  /** The same operation on a plain byte queue. */
  ghost function OnQueue(q: Bytes, op: Op): Bytes {
    match op
    case AppendOp(data) => q + data
    case RetrieveOp(n) => if n <= |q| then q[n..] else []
    case ReadOp(input) => q + input
  }

  /** A run, given as the shapes it goes through. */
  ghost predicate IsRun(shapes: seq<Shape>, ops: seq<Op>) {
    && |shapes| == |ops| + 1
    && shapes[0].Valid()
    && forall i :: 0 <= i < |ops| ==> Step(shapes[i], ops[i], shapes[i + 1])
  }

  /** The queue after the first `k` operations. */
  ghost function QueueAfter(q: Bytes, ops: seq<Op>, k: nat): Bytes
    requires k <= |ops|
  {
    if k == 0 then q else OnQueue(QueueAfter(q, ops, k - 1), ops[k - 1])
  }

  /** The largest content among the shapes up to and including the `k`th. */
  ghost function Peak(shapes: seq<Shape>, k: nat): nat
    requires k < |shapes|
  {
    if k == 0 then |shapes[0].content| else Max(Peak(shapes, k - 1), |shapes[k].content|)
  }

  lemma StepFacts(s: Shape, op: Op)
    requires s.Valid() && Legal(s, op)
    ensures Apply(s, op).Valid()
    ensures Apply(s, op).content == OnQueue(s.content, op)
    ensures s.size <= Apply(s, op).size <= Max(s.size, 2 * |Apply(s, op).content| + PREPEND)
  {
    match op
    case AppendOp(data) =>
    case RetrieveOp(n) =>
      if n == |s.content| {
        assert s.content[n..] == [];
      }
    case ReadOp(input) =>
      var w := s.Writable();
      if |input| > w {
        assert s.content + input[..w] + input[w..] == s.content + input;
      }
  }

  /** At every point of every run of appends, retrieves and reads the indices are in order, the
      buffer holds exactly the bytes of a plain queue, and the store is no larger than initially or
      than twice the peak content so far plus 8. */
  lemma {:induction false} BufferRefinesQueue(shapes: seq<Shape>, ops: seq<Op>, k: nat)
    requires IsRun(shapes, ops) && k <= |ops|
    ensures shapes[k].Valid()
    ensures shapes[k].content == QueueAfter(shapes[0].content, ops, k)
    ensures shapes[k].size <= Max(shapes[0].size, 2 * Peak(shapes, k) + PREPEND)
  {
    if k > 0 {
      BufferRefinesQueue(shapes, ops, k - 1);
      assert Step(shapes[k - 1], ops[k - 1], shapes[k - 1 + 1]);
      StepFacts(shapes[k - 1], ops[k - 1]);
    }
  }

  // ---------- The server's input buffer stays bounded ----------

  /** The decoder loop on a buffer: it consumes what it delivers as frames. */
  function Drain(s: Shape, capped: bool): Shape
    requires s.Valid()
  {
    var used := |s.content| - |Decode(s.content, capped).rest|;
    if used == 0 then s else s.Retrieve(used)
  }

  const SIZE_LIMIT: nat := MAX_BODY + 3 * EXTRA + 2 * PREPEND

  /** The buffer before a read, when the last decode did not reject. */
  ghost predicate Waiting(s: Shape) {
    s.Valid() && |s.content| < HEADER + MAX_BODY && s.size < SIZE_LIMIT
  }

  /** One read event: `mid` is the buffer after the read, `s'` after the decode. */
  ghost predicate Serve(s: Shape, input: Bytes, mid: Shape, s': Shape) {
    && s.Valid() && |input| <= s.Offered() && mid == s.ReadFd(input)
    && mid.Valid() && s' == Drain(mid, true)
  }

  ghost predicate Rejects(mid: Shape) {
    Decode(mid.content, true).verdict != NeedMore
  }

  /** A run of read events on a new connection in which no call before the last one rejected. */
  ghost predicate IsServing(shapes: seq<Shape>, mids: seq<Shape>, inputs: seq<Bytes>) {
    && |shapes| == |inputs| + 1 && |mids| == |inputs|
    && shapes[0] == Shape(PREPEND + INITIAL, PREPEND, [])
    && (forall i :: 0 <= i < |inputs| ==> Serve(shapes[i], inputs[i], mids[i], shapes[i + 1]))
    && (forall i :: 0 <= i < |inputs| - 1 ==> !Rejects(mids[i]))
  }

  lemma DrainFacts(s: Shape, capped: bool)
    requires s.Valid()
    ensures var d := Drain(s, capped); d.Valid() && d.size == s.size && d.content == Decode(s.content, capped).rest
  {
    DecodeSound(s.content, capped);
    var d := Decode(s.content, capped);
    assert s.content[|s.content| - |d.rest|..] == d.rest;
    if d.rest == [] {
      assert s.content[|s.content|..] == [];
    }
  }

  lemma ServeStep(s: Shape, input: Bytes, mid: Shape, s': Shape)
    requires Waiting(s) && Serve(s, input, mid, s')
    ensures mid.size < SIZE_LIMIT && s'.size < SIZE_LIMIT
    ensures !Rejects(mid) ==> Waiting(s')
  {
    StepFacts(s, ReadOp(input));
    DrainFacts(mid, true);
    LeftoverBound(mid.content);
  }

  /** At every point of such a run, up to and including a rejecting last call, the input buffer's
      allocation is below 64 MiB plus 256 KiB. */
  lemma {:induction false} InputBufferBounded(shapes: seq<Shape>, mids: seq<Shape>, inputs: seq<Bytes>, k: nat)
    requires IsServing(shapes, mids, inputs) && k <= |inputs|
    ensures shapes[k].size < SIZE_LIMIT < MAX_BODY + 256 * 1024
    ensures k > 0 ==> mids[k - 1].size < SIZE_LIMIT
    ensures k == 0 || !Rejects(mids[k - 1]) ==> Waiting(shapes[k])
  {
    if k > 0 {
      InputBufferBounded(shapes, mids, inputs, k - 1);
      assert Serve(shapes[k - 1], inputs[k - 1], mids[k - 1], shapes[k - 1 + 1]);
      ServeStep(shapes[k - 1], inputs[k - 1], mids[k - 1], shapes[k]);
    }
  }

  /** Exactly when memory is taken: an append enlarges the store if and only if the data does not fit beside
      the content in all of it, and then to just the room needed behind the content. */
  lemma EnlargesIffFull(s: Shape, data: Bytes)
    requires s.Valid()
    ensures var s' := s.Append(data);
            if s.size < PREPEND + |s.content| + |data| then s'.size == s.read + |s.content| + |data| && s'.read == s.read
            else s'.size == s.size && (s'.read == s.read || s'.read == PREPEND)
  {
  }

  /** A buffer read to its end has all of its store writable again; otherwise only the read index moves. */
  lemma EmptiedIsReset(s: Shape, n: nat)
    requires s.Valid() && n <= |s.content|
    ensures var s' := s.Retrieve(n);
            && s'.size == s.size
            && if n == |s.content| then s'.Valid() && s'.Writable() == s.size - PREPEND
               else s'.Valid() && s'.Writable() == s.Writable()
  {
  }

  /** A read can always deliver 64 KiB: the overflow segment is offered exactly when less is writable. */
  lemma ScatterRoom(s: Shape)
    requires s.Valid()
    ensures s.Offered() >= 65536
    ensures s.Offered() == s.Writable() + if s.Writable() >= 65536 then 0 else 65536
  {
  }

  // ---------- The buffer itself ----------

  class Buffer {
    var buf: array<Byte>
    var readIdx: nat
    var writeIdx: nat

    ghost predicate Valid()
      reads this
    {
      PREPEND <= readIdx <= writeIdx <= buf.Length
    }

    ghost function View(): (s: Shape)
      reads this, buf
      requires Valid()
      ensures s.Valid()
    {
      Shape(buf.Length, readIdx, buf[readIdx..writeIdx])
    }

    constructor (initialSize: nat := INITIAL)
      ensures Valid() && fresh(buf)
      ensures View() == Shape(PREPEND + initialSize, PREPEND, [])
    {
      buf := new Byte[PREPEND + initialSize];
      readIdx, writeIdx := PREPEND, PREPEND;
    }

    function Readable(): (n: nat)
      reads this, buf
      requires Valid()
      ensures n == |View().content|
    {
      writeIdx - readIdx
    }

    /** The first `n` readable bytes, without consuming them. */
    method Peek(n: nat) returns (s: Bytes)
      requires Valid() && n <= Readable()
      ensures s == View().content[..n]
    {
      s := buf[readIdx..readIdx + n];
    }

    method Grow(len: nat)
      requires Valid() && buf.Length - writeIdx < len
      modifies this, buf
      ensures Valid() && (buf == old(buf) || fresh(buf))
      ensures View() == old(View()).Grow(len)
      ensures buf.Length - writeIdx >= len
    {
      if buf.Length - writeIdx + readIdx >= len + PREPEND {
        var n := writeIdx - readIdx;
        forall i | 0 <= i < n {
          buf[PREPEND + i] := buf[readIdx + i];
        }
        assert buf[PREPEND..PREPEND + n] == old(buf[readIdx..writeIdx]);
        readIdx, writeIdx := PREPEND, PREPEND + n;
      } else {
        var bigger := new Byte[writeIdx + len];
        forall i | 0 <= i < buf.Length {
          bigger[i] := buf[i];
        }
        assert bigger[readIdx..writeIdx] == buf[readIdx..writeIdx];
        buf := bigger;
      }
    }

    /** Copy into the writable segment and advance the write index over it. */
    method Fill(data: Bytes)
      requires Valid() && |data| <= buf.Length - writeIdx
      modifies this`writeIdx, buf
      ensures Valid()
      ensures View() == old(View()).(content := old(View().content) + data)
    {
      forall i | 0 <= i < |data| {
        buf[writeIdx + i] := data[i];
      }
      writeIdx := writeIdx + |data|;
      assert buf[readIdx..old(writeIdx)] == old(buf[readIdx..writeIdx]);
      assert buf[old(writeIdx)..writeIdx] == data;
    }

    method Append(data: Bytes)
      requires Valid()
      modifies this, buf
      ensures Valid() && (buf == old(buf) || fresh(buf))
      ensures View() == old(View()).Append(data)
      ensures View().content == old(View().content) + data
    {
      if buf.Length - writeIdx < |data| {
        Grow(|data|);
      }
      Fill(data);
    }

    method Retrieve(n: nat)
      requires Valid() && n <= Readable()
      modifies this
      ensures Valid() && buf == old(buf)
      ensures View() == old(View()).Retrieve(n)
      ensures View().content == old(View().content)[n..]
    {
      readIdx := readIdx + n;
      if readIdx == writeIdx {
        readIdx, writeIdx := PREPEND, PREPEND;
      }
    }

    method RetrieveAsString(n: nat) returns (s: Bytes)
      requires Valid() && n <= Readable()
      modifies this
      ensures Valid() && buf == old(buf)
      ensures s == old(View().content)[..n]
      ensures View() == old(View()).Retrieve(n)
    {
      s := Peek(n);
      Retrieve(n);
    }

    /** `readv` delivers `input`; a failed read delivers nothing and leaves the buffer alone. */
    method ReadFd(input: Bytes)
      requires Valid() && |input| <= View().Offered()
      modifies this, buf
      ensures Valid() && (buf == old(buf) || fresh(buf))
      ensures View() == old(View()).ReadFd(input)
      ensures View().content == old(View().content) + input
    {
      var w := buf.Length - writeIdx;
      if |input| <= w {
        Fill(input);
      } else {
        Fill(input[..w]);
        Append(input[w..]);
        assert old(View().content) + input[..w] + input[w..] == old(View().content) + input;
      }
    }
  }
}
