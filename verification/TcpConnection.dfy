/** The output path and the life cycle of one connection: direct and buffered writes, write
    interest, graceful half-close and forced close. Method bodies are atomic steps; the kernel's
    answer to each `write` is a parameter. */
module TcpConnection {

  import opened Basics
  import opened Wire
  import ByteBuffer

  datatype State = Connecting | Connected | Disconnecting | Disconnected

  /** Result of one `write` on the socket: a byte count, would-block, or another error. */
  datatype WriteResult = Wrote(n: nat) | WouldBlock | Failed

  /** Work posted to the loop for this connection. */
  datatype Functor = SendData(data: Bytes) | ShutdownWrite | Close

  /** `posted`, `accepted` and `wire` record what `send` took, what reached the output path, and what
      the kernel took; `halfClosed` that the write side was shut down, `removed` that the connection
      was torn down. */
  datatype Conn = Conn(state: State, writing: bool, out: Bytes, queue: seq<Functor>, removed: bool,
                       posted: Bytes, accepted: Bytes, wire: Bytes, halfClosed: bool)

  const NEW_CONN := Conn(Connecting, false, [], [], false, [], [], [], false)

  // ---------- The operations on values ----------

  /** What the kernel may answer to a write of `len` bytes. After the write side was shut down it takes
      nothing and fails with EPIPE; an empty write may still be answered with zero. */
  predicate Takes(c: Conn, r: WriteResult, len: nat) {
    && (r.Wrote? ==> r.n <= len)
    && (c.halfClosed ==> r.Failed? || (len == 0 && r.Wrote?))
  }

  function HandleClose(c: Conn): Conn {
    c.(state := Disconnected, writing := false)
  }

  function SendInLoop(c: Conn, data: Bytes, r: WriteResult): Conn
    requires Takes(c, r, |data|)
  {
    if c.state == Disconnected then c
    else
      var c := c.(accepted := c.accepted + data);
      if c.writing || c.out != [] then c.(out := c.out + data, writing := true)
      else match r
        case Failed => HandleClose(c)
        case WouldBlock => c.(out := data, writing := true)
        case Wrote(n) =>
          if n == |data| then c.(wire := c.wire + data)
          else c.(wire := c.wire + data[..n], out := data[n..], writing := true)
  }

  function Send(c: Conn, data: Bytes, inLoop: bool, r: WriteResult): Conn
    requires Takes(c, r, |data|)
  {
    if c.state != Connected then c
    else
      var c := c.(posted := c.posted + data);
      if inLoop then SendInLoop(c, data, r) else c.(queue := c.queue + [SendData(data)])
  }

  function ShutdownInLoop(c: Conn): Conn {
    if c.writing then c else c.(halfClosed := true)
  }

  function Shutdown(c: Conn, inLoop: bool): Conn {
    if c.state != Connected then c
    else if inLoop then ShutdownInLoop(c.(state := Disconnecting))
    else c.(state := Disconnecting, queue := c.queue + [ShutdownWrite])
  }

  function ForceClose(c: Conn): Conn {
    if c.state == Connected || c.state == Disconnecting
    then c.(state := Disconnecting, queue := c.queue + [Close])
    else c
  }

  function HandleWrite(c: Conn, r: WriteResult): Conn
    requires Takes(c, r, |c.out|)
  {
    if !c.writing || !r.Wrote? || r.n == 0 then c
    else
      var c := c.(wire := c.wire + c.out[..r.n], out := c.out[r.n..]);
      if c.out != [] then c
      else
        var c := c.(writing := false);
        if c.state == Disconnecting then ShutdownInLoop(c) else c
  }

  function RunFunctor(c: Conn, r: WriteResult): Conn
    requires c.queue != [] && (c.queue[0].SendData? ==> Takes(c, r, |c.queue[0].data|))
  {
    var d := c.(queue := c.queue[1..]);
    match c.queue[0]
    case SendData(data) => SendInLoop(d, data, r)
    case ShutdownWrite => ShutdownInLoop(d)
    case Close => HandleClose(d)
  }

  /** Channel removal always clears the event mask, whatever the state. */
  function Destroy(c: Conn): Conn {
    c.(state := if c.state == Connected then Disconnected else c.state, writing := false, removed := true)
  }

  // ---------- Runs ----------

  datatype Op =
    | EstablishOp
    | SendOp(data: Bytes, inLoop: bool, r: WriteResult)
    | ShutdownOp(inLoop: bool)
    | ForceCloseOp
    | FunctorOp(r: WriteResult)
    | WritableOp(r: WriteResult)
    | PeerClosedOp
    | DestroyOp

  predicate Legal(c: Conn, op: Op) {
    match op
    case EstablishOp => c == NEW_CONN
    case SendOp(data, _, r) => Takes(c, r, |data|)
    case FunctorOp(r) => c.queue != [] && (c.queue[0].SendData? ==> Takes(c, r, |c.queue[0].data|))
    case WritableOp(r) => Takes(c, r, |c.out|)
    case _ => true
  }

  function Apply(c: Conn, op: Op): Conn
    requires Legal(c, op)
  {
    match op
    case EstablishOp => c.(state := Connected)
    case SendOp(data, inLoop, r) => Send(c, data, inLoop, r)
    case ShutdownOp(inLoop) => Shutdown(c, inLoop)
    case ForceCloseOp => ForceClose(c)
    case FunctorOp(r) => RunFunctor(c, r)
    case WritableOp(r) => HandleWrite(c, r)
    case PeerClosedOp => HandleClose(c)
    case DestroyOp => Destroy(c)
  }

  ghost predicate Step(c: Conn, op: Op, c': Conn) {
    Legal(c, op) && c' == Apply(c, op)
  }

  /** A run from `c`: the connection's values before and after each operation. */
  ghost predicate IsRunFrom(c: Conn, conns: seq<Conn>, ops: seq<Op>) {
    && |conns| == |ops| + 1 && conns[0] == c
    && forall i :: 0 <= i < |ops| ==> Step(conns[i], ops[i], conns[i + 1])
  }

  ghost predicate IsRun(conns: seq<Conn>, ops: seq<Op>) {
    IsRunFrom(NEW_CONN, conns, ops)
  }

  ghost predicate NonEmptyOps(ops: seq<Op>) {
    forall i :: 0 <= i < |ops| && ops[i].SendOp? ==> ops[i].data != []
  }

  // ---------- Conservation of output ----------

  /** Neither disconnected nor torn down. A send queued before the teardown can still turn a torn-down
      connection's interest on again, which puts its channel back in the poller. */
  predicate Live(c: Conn) {
    c.state != Disconnected && !c.removed
  }

  /** States only move forward. */
  function Rank(s: State): nat {
    match s
    case Connecting => 0
    case Connected => 1
    case Disconnecting => 2
    case Disconnected => 3
  }

  ghost predicate Conserved(c: Conn) {
    && c.wire <= c.accepted
    && (c.state != Disconnected ==> c.wire + c.out == c.accepted)
    && (c.state == Disconnected ==> !c.writing)
    && (c.state == Connecting ==> c == NEW_CONN.(removed := c.removed))
    && (ShutdownWrite in c.queue || c.halfClosed ==> Rank(c.state) >= Rank(Disconnecting))
    && (c.halfClosed && c.out == [] ==> !c.writing)
  }

  /** Moving bytes from the buffer to the wire, and new bytes behind the buffer, keep the sum. */
  lemma OutputMoves(wire: Bytes, out: Bytes, data: Bytes, n: nat)
    requires n <= |data|
    ensures wire + (out + data) == (wire + out) + data
    ensures (wire + data[..n]) + data[n..] == wire + data
    ensures wire <= wire + out && wire <= wire + data[..n]
  {
  }

  lemma SendConserves(c: Conn, data: Bytes, r: WriteResult)
    requires Conserved(c) && c.state != Connecting && Takes(c, r, |data|)
    ensures var c' := SendInLoop(c, data, r); Conserved(c') && c.accepted <= c'.accepted && c.wire <= c'.wire
  {
    OutputMoves(c.wire, c.out, data, if r.Wrote? then r.n else 0);
    OutputMoves(c.accepted, data, data, 0);
    if c.state != Disconnected && c.out == [] {
      assert c.wire + c.out == c.wire;
    }
  }

  lemma FunctorConserves(c: Conn, r: WriteResult)
    requires Conserved(c) && Legal(c, FunctorOp(r))
    ensures var c' := RunFunctor(c, r); Conserved(c') && c.accepted <= c'.accepted && c.wire <= c'.wire
  {
    if c.queue[0].SendData? {
      SendConserves(c.(queue := c.queue[1..]), c.queue[0].data, r);
    }
  }

  lemma WritableConserves(c: Conn, r: WriteResult)
    requires Conserved(c) && Takes(c, r, |c.out|)
    ensures var c' := HandleWrite(c, r); Conserved(c') && c.accepted == c'.accepted && c.wire <= c'.wire
  {
    OutputMoves(c.wire, c.out, c.out, if r.Wrote? then r.n else 0);
  }

  /** Every operation conserves the output and grows both records. */
  lemma ConservedStep(c: Conn, op: Op)
    requires Conserved(c) && Legal(c, op)
    ensures Conserved(Apply(c, op))
    ensures c.accepted <= Apply(c, op).accepted && c.wire <= Apply(c, op).wire
  {
    match op
    case SendOp(data, inLoop, r) =>
      if c.state == Connected && inLoop {
        SendConserves(c.(posted := c.posted + data), data, r);
      }
    case FunctorOp(r) => FunctorConserves(c, r);
    case WritableOp(r) => WritableConserves(c, r);
    case _ =>
  }

  /** Every operation moves the state forward only; after the half-close the wire stays as it is. */
  lemma ForwardStep(c: Conn, op: Op)
    requires Conserved(c) && Legal(c, op)
    ensures var c' := Apply(c, op);
            && Rank(c.state) <= Rank(c'.state)
            && (c.halfClosed ==> c'.halfClosed && c'.wire == c.wire)
            && (Rank(c.state) >= Rank(Disconnecting) ==> c'.posted == c.posted)
  {
  }

  /** At every point of every run: what the kernel took is a prefix of what was accepted, and until
      the connection is disconnected the rest is exactly the buffered output, in order. */
  lemma {:induction false} OutputConserved(conns: seq<Conn>, ops: seq<Op>, k: nat)
    requires IsRun(conns, ops) && k <= |ops|
    ensures Conserved(conns[k])
  {
    if k > 0 {
      OutputConserved(conns, ops, k - 1);
      assert Step(conns[k - 1], ops[k - 1], conns[k - 1 + 1]);
      ConservedStep(conns[k - 1], ops[k - 1]);
    }
  }

  /** Between any two points of any run the state moves forward, and from a half-close on the wire and
      what `send` took stay as they are. */
  lemma {:induction false} HalfCloseIsFinal(conns: seq<Conn>, ops: seq<Op>, j: nat, k: nat)
    requires IsRun(conns, ops) && j <= k <= |ops|
    ensures Rank(conns[j].state) <= Rank(conns[k].state)
    ensures conns[j].halfClosed ==>
              conns[k].halfClosed && conns[k].wire == conns[j].wire && conns[k].posted == conns[j].posted
    decreases k
  {
    if j < k {
      HalfCloseIsFinal(conns, ops, j, k - 1);
      OutputConserved(conns, ops, k - 1);
      assert Step(conns[k - 1], ops[k - 1], conns[k - 1 + 1]);
      ForwardStep(conns[k - 1], ops[k - 1]);
    }
  }

  // ---------- The records follow the calls ----------

  /** What an operation gives to `write`, if it makes that call. */
  function Offered(c: Conn, op: Op): Option<Bytes> {
    match op
    case SendOp(data, inLoop, _) =>
      if c.state == Connected && inLoop && !c.writing && c.out == [] then Some(data) else None
    case FunctorOp(_) =>
      if c.queue != [] && c.queue[0].SendData? && c.state != Disconnected && !c.writing && c.out == []
      then Some(c.queue[0].data) else None
    case WritableOp(_) => if c.writing then Some(c.out) else None
    case _ => None
  }

  /** The kernel's answer to that call. */
  function Answer(op: Op): WriteResult {
    match op
    case SendOp(_, _, r) => r
    case FunctorOp(r) => r
    case WritableOp(r) => r
    case _ => Wrote(0)
  }

  /** The bytes the kernel took in an operation: the first `n` of those offered when it answered `n`. */
  function Taken(c: Conn, op: Op): Bytes {
    match (Offered(c, op), Answer(op))
    case (Some(data), Wrote(n)) => if n <= |data| then data[..n] else []
    case _ => []
  }

  /** The bytes `send` takes in an operation, and those that enter the output path. */
  function Posted(c: Conn, op: Op): Bytes {
    if op.SendOp? && c.state == Connected then op.data else []
  }

  function Entering(c: Conn, op: Op): Bytes {
    match op
    case SendOp(data, inLoop, _) => if c.state == Connected && inLoop then data else []
    case FunctorOp(_) =>
      if c.queue != [] && c.queue[0].SendData? && c.state != Disconnected then c.queue[0].data else []
    case _ => []
  }

  lemma WireStep(c: Conn, op: Op, c': Conn)
    requires Step(c, op, c')
    ensures c'.wire == c.wire + Taken(c, op)
  {
    assert c.wire + [] == c.wire;
  }

  lemma RecordsStep(c: Conn, op: Op, c': Conn)
    requires Step(c, op, c')
    ensures c'.accepted == c.accepted + Entering(c, op) && c'.posted == c.posted + Posted(c, op)
  {
    assert c.accepted + [] == c.accepted && c.posted + [] == c.posted;
    match op
    case SendOp(data, inLoop, r) =>
      if c.state == Connected && inLoop {
        SendAccepts(c.(posted := c.posted + data), data, r);
      }
    case FunctorOp(r) => FunctorAccepts(c, r);
    case _ =>
  }

  function AllTaken(conns: seq<Conn>, ops: seq<Op>, k: nat): Bytes
    requires k <= |ops| < |conns|
  {
    if k == 0 then [] else AllTaken(conns, ops, k - 1) + Taken(conns[k - 1], ops[k - 1])
  }

  function AllEntered(conns: seq<Conn>, ops: seq<Op>, k: nat): Bytes
    requires k <= |ops| < |conns|
  {
    if k == 0 then [] else AllEntered(conns, ops, k - 1) + Entering(conns[k - 1], ops[k - 1])
  }

  function AllPosted(conns: seq<Conn>, ops: seq<Op>, k: nat): Bytes
    requires k <= |ops| < |conns|
  {
    if k == 0 then [] else AllPosted(conns, ops, k - 1) + Posted(conns[k - 1], ops[k - 1])
  }

  /** At every point of every run the wire holds exactly what the kernel said it took of what it was
      offered, in order; and the other two records are what `send` was given and what entered the output
      path. */
  lemma {:induction false} RecordsFollowCalls(conns: seq<Conn>, ops: seq<Op>, k: nat)
    requires IsRun(conns, ops) && k <= |ops|
    ensures conns[k].wire == AllTaken(conns, ops, k)
    ensures conns[k].accepted == AllEntered(conns, ops, k) && conns[k].posted == AllPosted(conns, ops, k)
  {
    if k > 0 {
      var p := k - 1;
      RecordsFollowCalls(conns, ops, p);
      WireStep(conns[p], ops[p], conns[p + 1]);
      RecordsStep(conns[p], ops[p], conns[p + 1]);
    }
  }

  /** An operation that ends the connected state: a shutdown or close, or a failed write. */
  predicate Closing(c: Conn, op: Op) {
    || op.ShutdownOp? || op.ForceCloseOp? || op.PeerClosedOp? || op.DestroyOp?
    || (op.FunctorOp? && c.queue != [] && c.queue[0] == Close)
    || (!op.WritableOp? && Offered(c, op).Some? && Answer(op) == Failed)
  }

  /** A connection is connected from its establishment until the first operation that closes it. */
  lemma ConnectedUntilClosed(c: Conn, op: Op, c': Conn)
    requires Step(c, op, c')
    ensures c'.state == Connected <==> op.EstablishOp? || (c.state == Connected && !Closing(c, op))
  {
  }

  /** Calls on a connection that is not open for them do nothing. */
  lemma ClosedIsLeftAlone(c: Conn, data: Bytes, inLoop: bool, r: WriteResult)
    requires Takes(c, r, |data|)
    ensures c.state != Connected ==> Send(c, data, inLoop, r) == c && Shutdown(c, inLoop) == c
    ensures c.state == Connecting || c.state == Disconnected ==> ForceClose(c) == c
    ensures !c.writing && Takes(c, r, |c.out|) ==> HandleWrite(c, r) == c
  {
  }

  /** The operations after which the connection is disconnected whatever it was before. */
  predicate Disconnects(c: Conn, op: Op) {
    || op.PeerClosedOp? || (op.DestroyOp? && c.state == Connected)
    || (op.FunctorOp? && c.queue != [] && c.queue[0] == Close)
    || (!op.WritableOp? && Offered(c, op).Some? && Answer(op) == Failed)
  }

  lemma DisconnectedStep(c: Conn, op: Op, c': Conn)
    requires Step(c, op, c')
    ensures Disconnects(c, op) ==> c'.state == Disconnected && !c'.writing
    ensures c.state == Disconnected && !c.writing ==>
              && c'.state == Disconnected && !c'.writing && c'.out == c.out
              && c'.wire == c.wire && c'.accepted == c.accepted && c'.posted == c.posted
  {
  }

  /** After such an operation nothing is taken, accepted, written or watched for any more. */
  lemma {:induction false} DisconnectIsFinal(conns: seq<Conn>, ops: seq<Op>, j: nat, k: nat)
    requires IsRun(conns, ops) && j < k <= |ops| && Disconnects(conns[j], ops[j])
    ensures conns[k].state == Disconnected && !conns[k].writing
    ensures conns[k].wire == conns[j + 1].wire && conns[k].out == conns[j + 1].out
    ensures conns[k].accepted == conns[j + 1].accepted && conns[k].posted == conns[j + 1].posted
    decreases k
  {
    var p := k - 1;
    if j < p {
      DisconnectIsFinal(conns, ops, j, p);
    }
    DisconnectedStep(conns[p], ops[p], conns[p + 1]);
  }

  // ---------- Write interest ----------

  ghost predicate NonEmptySends(c: Conn) {
    forall i :: 0 <= i < |c.queue| && c.queue[i].SendData? ==> c.queue[i].data != []
  }

  ghost predicate InterestMatches(c: Conn) {
    Live(c) ==> (c.writing <==> c.out != [])
  }

  lemma SendKeepsInterest(c: Conn, data: Bytes, r: WriteResult)
    requires InterestMatches(c) && Takes(c, r, |data|) && data != []
    ensures InterestMatches(SendInLoop(c, data, r)) && SendInLoop(c, data, r).queue == c.queue
  {
  }

  lemma InterestStep(c: Conn, op: Op)
    requires Conserved(c) && Legal(c, op) && InterestMatches(c) && NonEmptySends(c)
    requires op.SendOp? ==> op.data != []
    ensures InterestMatches(Apply(c, op))
  {
    match op
    case SendOp(data, inLoop, r) => SendKeepsInterest(c.(posted := c.posted + data), data, r);
    case FunctorOp(r) =>
      if c.queue[0].SendData? {
        SendKeepsInterest(c.(queue := c.queue[1..]), c.queue[0].data, r);
      }
    case _ =>
  }

  lemma NonEmptyStep(c: Conn, op: Op)
    requires Legal(c, op) && NonEmptySends(c) && (op.SendOp? ==> op.data != [])
    ensures NonEmptySends(Apply(c, op))
  {
    if op.FunctorOp? {
      assert Apply(c, op).queue == c.queue[1..];
    }
  }

  /** At every point of every run of non-empty sends, a live connection asks for write events
      exactly when it has buffered output. */
  lemma {:induction false} WriteInterestIffOutput(conns: seq<Conn>, ops: seq<Op>, k: nat)
    requires IsRun(conns, ops) && k <= |ops| && NonEmptyOps(ops)
    ensures InterestMatches(conns[k]) && NonEmptySends(conns[k])
  {
    if k > 0 {
      WriteInterestIffOutput(conns, ops, k - 1);
      OutputConserved(conns, ops, k - 1);
      assert Step(conns[k - 1], ops[k - 1], conns[k - 1 + 1]);
      InterestStep(conns[k - 1], ops[k - 1]);
      NonEmptyStep(conns[k - 1], ops[k - 1]);
    }
  }

  /** Why sends must be non-empty: from a live connection with matching interest, a send keeps it
      matching whatever the kernel answers if and only if it carries data, or output is already queued,
      or the write side is shut. The failing answer is would-block to a write of no bytes. */
  lemma InterestKeptIffNonEmpty(c: Conn, data: Bytes)
    requires Live(c) && InterestMatches(c)
    ensures (forall r :: Takes(c, r, |data|) ==> InterestMatches(SendInLoop(c, data, r))) <==>
              (data != [] || c.out != [] || c.halfClosed)
  {
    if data == [] && c.out == [] && !c.halfClosed {
      assert Takes(c, WouldBlock, |data|) && !InterestMatches(SendInLoop(c, data, WouldBlock));
    }
  }

  /** An empty send, direct or queued, that would block on a live connection with nothing to write. */
  predicate Strands(c: Conn, op: Op) {
    && Live(c) && !c.writing && c.out == []
    && match op
       case SendOp(data, inLoop, r) => c.state == Connected && inLoop && data == [] && r == WouldBlock
       case FunctorOp(r) => c.queue != [] && c.queue[0] == SendData([]) && r == WouldBlock
       case _ => false
  }

  lemma SendStrands(c: Conn, data: Bytes, r: WriteResult)
    requires InterestMatches(c) && Takes(c, r, |data|)
    ensures InterestMatches(SendInLoop(c, data, r)) <==>
              !(Live(c) && !c.writing && c.out == [] && data == [] && r == WouldBlock)
  {
  }

  lemma StrandStep(c: Conn, op: Op, c': Conn)
    requires Conserved(c) && InterestMatches(c) && Step(c, op, c')
    ensures InterestMatches(c') <==> !Strands(c, op)
  {
    match op
    case SendOp(data, inLoop, r) => SendStrands(c.(posted := c.posted + data), data, r);
    case FunctorOp(r) =>
      if c.queue[0].SendData? {
        SendStrands(c.(queue := c.queue[1..]), c.queue[0].data, r);
      }
    case _ =>
  }

  /** Exactly when, for every run: up to step `k` a live connection asks for write events exactly when it
      has output, at every point, if and only if none of the operations strands the interest. */
  lemma {:induction false} InterestMatchesIff(conns: seq<Conn>, ops: seq<Op>, k: nat)
    requires IsRun(conns, ops) && k <= |ops|
    ensures (forall i :: 0 <= i <= k ==> InterestMatches(conns[i])) <==>
              (forall i :: 0 <= i < k ==> !Strands(conns[i], ops[i]))
  {
    if k > 0 {
      var p := k - 1;
      InterestMatchesIff(conns, ops, p);
      OutputConserved(conns, ops, p);
      if InterestMatches(conns[p]) {
        StrandStep(conns[p], ops[p], conns[p + 1]);
      }
    }
  }

  /** Interest with no output outlasts every write event, whatever the kernel answers. */
  lemma StrandedInterest(c: Conn, r: WriteResult)
    requires c.writing && c.out == [] && Takes(c, r, |c.out|)
    ensures HandleWrite(c, r) == c
  {
  }

  /** After an empty send that would block, any number `n` of write events leaves the interest on. */
  lemma EmptySendStrandsInterest(n: nat)
    ensures exists conns: seq<Conn>, ops: seq<Op> ::
              && IsRun(conns, ops) && |ops| == n + 2
              && ops[1] == SendOp([], true, WouldBlock)
              && (forall i :: 2 <= i < |ops| ==> ops[i].WritableOp?)
              && Live(conns[n + 2]) && conns[n + 2].writing && conns[n + 2].out == []
  {
    var c1 := Apply(NEW_CONN, EstablishOp);
    var c2 := Apply(c1, SendOp([], true, WouldBlock));
    StrandedInterest(c2, Wrote(0));
    var ops := [EstablishOp, SendOp([], true, WouldBlock)] + seq(n, _ => WritableOp(Wrote(0)));
    var conns := [NEW_CONN, c1] + seq(n + 1, _ => c2);
    forall i | 0 <= i < |ops|
      ensures Step(conns[i], ops[i], conns[i + 1])
    {
    }
    assert IsRun(conns, ops);
  }

  // ---------- Graceful close ----------

  /** No send is waiting in the loop's queue. */
  ghost predicate NoQueuedSend(c: Conn) {
    forall i :: 0 <= i < |c.queue| ==> !c.queue[i].SendData?
  }

  /** Operations other than sends, and sends on the loop thread, queue no send. */
  lemma NoQueuedSendStep(c: Conn, op: Op)
    requires Legal(c, op) && NoQueuedSend(c) && (op.SendOp? ==> op.inLoop)
    ensures NoQueuedSend(Apply(c, op))
    ensures !op.SendOp? ==> Apply(c, op).accepted == c.accepted
    ensures op.SendOp? ==>
              Apply(c, op).accepted == if c.state == Connected then c.accepted + op.data else c.accepted
  {
  }

  /** Step `k` shuts down the write side. */
  ghost predicate HalfCloses(conns: seq<Conn>, k: nat)
    requires 0 < k < |conns|
  {
    !conns[k - 1].halfClosed && conns[k].halfClosed
  }

  /** A live connection with buffered output has write interest. */
  ghost predicate OutputWatched(c: Conn) {
    Live(c) && c.out != [] ==> c.writing
  }

  lemma OutputWatchedStep(c: Conn, op: Op)
    requires Conserved(c) && OutputWatched(c) && Legal(c, op)
    ensures OutputWatched(Apply(c, op))
  {
  }

  lemma {:induction false} OutputAlwaysWatched(conns: seq<Conn>, ops: seq<Op>, k: nat)
    requires IsRun(conns, ops) && k <= |ops|
    ensures OutputWatched(conns[k])
  {
    if k > 0 {
      OutputAlwaysWatched(conns, ops, k - 1);
      OutputConserved(conns, ops, k - 1);
      assert Step(conns[k - 1], ops[k - 1], conns[k - 1 + 1]);
      OutputWatchedStep(conns[k - 1], ops[k - 1]);
    }
  }

  lemma HalfCloseFindsNoOutput(c: Conn, op: Op)
    requires Conserved(c) && OutputWatched(c) && Legal(c, op)
    requires Live(c) && Live(Apply(c, op)) && !c.halfClosed && Apply(c, op).halfClosed
    ensures Apply(c, op).out == [] && Apply(c, op).wire == Apply(c, op).accepted
  {
    ConservedStep(c, op);
    var c' := Apply(c, op);
    assert c'.out == [];
    assert c'.wire + c'.out == c'.wire;
  }

  /** When a run half-closes a live connection, every byte that reached the output path has been
      written. */
  lemma HalfCloseIsGraceful(conns: seq<Conn>, ops: seq<Op>, k: nat)
    requires IsRun(conns, ops) && 0 < k <= |ops|
    requires HalfCloses(conns, k) && Live(conns[k - 1]) && Live(conns[k])
    ensures conns[k].out == [] && conns[k].wire == conns[k].accepted
  {
    OutputConserved(conns, ops, k - 1);
    OutputAlwaysWatched(conns, ops, k - 1);
    assert Step(conns[k - 1], ops[k - 1], conns[k - 1 + 1]);
    HalfCloseFindsNoOutput(conns[k - 1], ops[k - 1]);
  }

  /** What a shutdown comes to: with nothing to write it half-closes at once; with output it half-closes
      when the output is drained and not before; and with interest but no output, where an empty send
      would block, no write event ever half-closes it. */
  lemma ShutdownThenDrain(c: Conn, r: WriteResult)
    requires Conserved(c) && c.state == Connected && OutputWatched(c) && !c.removed
    requires Takes(c, r, |c.out|)
    ensures var c' := Shutdown(c, true);
            c'.state == Disconnecting && c'.out == c.out && (c'.halfClosed || Takes(c', r, |c'.out|))
    ensures Shutdown(c, true).halfClosed <==> !c.writing
    ensures c.writing ==>
              var c' := HandleWrite(Shutdown(c, true), r);
              && (c'.halfClosed <==> c.out != [] && r == Wrote(|c.out|))
              && (c'.halfClosed ==> c'.wire == c.accepted && c'.out == [] && !c'.writing)
    ensures c.queue == [] ==> RunFunctor(Shutdown(c, false), r) == Shutdown(c, true)
  {
    if c.writing && r.Wrote? && r.n == |c.out| {
      assert c.out[..r.n] == c.out;
    }
  }

  /** A close waiting in the queue disconnects once the queue has been run, whatever else is in it. */
  lemma {:induction false} QueuedCloseDisconnects(c: Conn, conns: seq<Conn>, ops: seq<Op>, k: nat)
    requires IsRunFrom(c, conns, ops) && k <= |ops| <= |c.queue| && forall i :: 0 <= i < |ops| ==> ops[i].FunctorOp?
    ensures conns[k].queue == c.queue[k..]
    ensures (exists i :: 0 <= i < k && c.queue[i] == Close) || c.state == Disconnected ==> conns[k].state == Disconnected
  {
    if k > 0 {
      var p := k - 1;
      QueuedCloseDisconnects(c, conns, ops, p);
      assert Step(conns[p], ops[p], conns[p + 1]);
      assert conns[p].queue[0] == c.queue[p] && conns[p].queue[1..] == c.queue[k..];
      FunctorAccepts(conns[p], ops[p].r);
    }
  }

  /** A forced close of an open connection ends, once its queue has been run, disconnected. */
  lemma ForcedCloseDisconnects(c: Conn, conns: seq<Conn>, ops: seq<Op>)
    requires c.state == Connected || c.state == Disconnecting
    requires IsRunFrom(ForceClose(c), conns, ops) && |ops| == |c.queue| + 1
    requires forall i :: 0 <= i < |ops| ==> ops[i].FunctorOp?
    ensures conns[|ops|].state == Disconnected && conns[|ops|].queue == []
  {
    var closing := ForceClose(c);
    assert |closing.queue| == |ops| && closing.queue[|c.queue|] == Close;
    QueuedCloseDisconnects(closing, conns, ops, |ops|);
  }

  // ---------- Sends from other threads and the half-close ----------

  /** The bytes a functor carries. */
  function Carried(f: Functor): Bytes {
    if f.SendData? then f.data else []
  }

  /** The bytes of the sends waiting in the loop's queue. */
  function QueuedBytes(queue: seq<Functor>): Bytes {
    if queue == [] then []
    else Carried(queue[0]) + QueuedBytes(queue[1..])
  }

  lemma {:induction false} QueuedBytesSnoc(queue: seq<Functor>, f: Functor)
    ensures QueuedBytes(queue + [f]) == QueuedBytes(queue) + Carried(f)
  {
    if queue == [] {
      assert queue + [f] == [f];
    } else {
      assert (queue + [f])[1..] == queue[1..] + [f];
      QueuedBytesSnoc(queue[1..], f);
    }
  }

  lemma {:induction false} NoneQueued(queue: seq<Functor>)
    ensures QueuedBytes(queue) == [] <==> forall i :: 0 <= i < |queue| ==> Carried(queue[i]) == []
  {
    if queue != [] {
      NoneQueued(queue[1..]);
      assert queue == [queue[0]] + queue[1..];
    }
  }

  /** `posted` holds every byte of `accepted` and of `queued`, and nothing more when `whole`. */
  ghost predicate Accounts(posted: Bytes, accepted: Bytes, queued: Bytes, whole: bool) {
    var known := multiset(accepted) + multiset(queued);
    known <= multiset(posted) && (whole ==> known == multiset(posted))
  }

  /** Data may enter at the queue or the output path, move from one to the other, or be dropped. */
  lemma AccountsKept(posted: Bytes, accepted: Bytes, queued: Bytes, data: Bytes, whole: bool)
    ensures Accounts(posted, accepted, queued, whole) ==>
              && Accounts(posted + data, accepted + data, queued, whole)
              && Accounts(posted + data, accepted, queued + data, whole)
              && Accounts(posted, accepted, queued, false)
    ensures Accounts(posted, accepted, data + queued, whole) ==>
              Accounts(posted, accepted + data, queued, whole) && Accounts(posted, accepted, queued, false)
  {
  }

  /** Every byte `send` took has reached the output path or waits in a queued send, until disconnect. */
  ghost predicate PostedOk(c: Conn) {
    Accounts(c.posted, c.accepted, QueuedBytes(c.queue), c.state != Disconnected)
  }

  lemma SendAccepts(c: Conn, data: Bytes, r: WriteResult)
    requires Takes(c, r, |data|)
    ensures var c' := SendInLoop(c, data, r);
            && c'.posted == c.posted && c'.queue == c.queue
            && c'.accepted == (if c.state == Disconnected then c.accepted else c.accepted + data)
            && (c'.state == c.state || c'.state == Disconnected)
  {
  }

  lemma SendPosted(c: Conn, data: Bytes, inLoop: bool, r: WriteResult)
    requires PostedOk(c) && Takes(c, r, |data|)
    ensures PostedOk(Send(c, data, inLoop, r))
  {
    QueuedBytesSnoc(c.queue, SendData(data));
    SendAccepts(c.(posted := c.posted + data), data, r);
    AccountsKept(c.posted, c.accepted, QueuedBytes(c.queue), data, true);
    AccountsKept(c.posted + data, c.accepted + data, QueuedBytes(c.queue), data, true);
  }

  lemma FunctorAccepts(c: Conn, r: WriteResult)
    requires Legal(c, FunctorOp(r))
    ensures var c' := RunFunctor(c, r);
            && c'.posted == c.posted && c'.queue == c.queue[1..]
            && c'.accepted == (if c.state == Disconnected then c.accepted else c.accepted + Carried(c.queue[0]))
            && (c'.state == c.state || c'.state == Disconnected)
  {
    if c.queue[0].SendData? {
      SendAccepts(c.(queue := c.queue[1..]), c.queue[0].data, r);
    } else {
      assert c.accepted + [] == c.accepted;
    }
  }

  lemma FunctorPosted(c: Conn, r: WriteResult)
    requires PostedOk(c) && Legal(c, FunctorOp(r))
    ensures PostedOk(RunFunctor(c, r))
  {
    var data, rest, whole := Carried(c.queue[0]), QueuedBytes(c.queue[1..]), c.state != Disconnected;
    FunctorAccepts(c, r);
    AccountsKept(c.posted, c.accepted, rest, data, whole);
    AccountsKept(c.posted, c.accepted + data, rest, [], whole);
  }

  lemma OtherPosted(c: Conn, op: Op)
    requires Legal(c, op) && !op.SendOp? && !op.FunctorOp?
    ensures var c' := Apply(c, op);
            && c'.posted == c.posted && c'.accepted == c.accepted
            && QueuedBytes(c'.queue) == QueuedBytes(c.queue)
            && (c.state == Disconnected ==> c'.state == Disconnected)
  {
    QueuedBytesSnoc(c.queue, ShutdownWrite);
    QueuedBytesSnoc(c.queue, Close);
    assert QueuedBytes(c.queue) + [] == QueuedBytes(c.queue);
  }

  lemma PostedStep(c: Conn, op: Op)
    requires PostedOk(c) && Legal(c, op)
    ensures PostedOk(Apply(c, op))
  {
    if op.SendOp? {
      SendPosted(c, op.data, op.inLoop, op.r);
    } else if op.FunctorOp? {
      FunctorPosted(c, op.r);
    } else {
      OtherPosted(c, op);
      AccountsKept(c.posted, c.accepted, QueuedBytes(c.queue), [], c.state != Disconnected);
    }
  }

  /** At every point of every run no byte that `send` took is duplicated, and none is lost before the
      disconnect: it is on the wire, in the output buffer, or in a queued send. */
  lemma {:induction false} PostedBytesAccounted(conns: seq<Conn>, ops: seq<Op>, k: nat)
    requires IsRun(conns, ops) && k <= |ops|
    ensures PostedOk(conns[k])
  {
    if k > 0 {
      PostedBytesAccounted(conns, ops, k - 1);
      assert Step(conns[k - 1], ops[k - 1], conns[k - 1 + 1]);
      PostedStep(conns[k - 1], ops[k - 1]);
    }
  }

  /** The half-close can lose what `send` took from another thread: the shutdown overtakes it in the
      loop's queue, and the kernel refuses its write. */
  lemma HalfCloseLosesCrossThreadSend()
    ensures exists conns: seq<Conn>, ops: seq<Op> ::
              && IsRun(conns, ops) && |ops| == 4
              && ops[1] == SendOp([7], false, WouldBlock) && ops[2] == ShutdownOp(true)
              && HalfCloses(conns, 3) && Live(conns[3])
              && conns[4].posted == [7] && conns[4].wire == [] && conns[4].queue == []
  {
    var ops := [EstablishOp, SendOp([7], false, WouldBlock), ShutdownOp(true), FunctorOp(Failed)];
    var c1 := Apply(NEW_CONN, ops[0]);
    var c2 := Apply(c1, ops[1]);
    var c3 := Apply(c2, ops[2]);
    assert Legal(c3, ops[3]);
    var conns := [NEW_CONN, c1, c2, c3, Apply(c3, ops[3])];
    assert IsRun(conns, ops);
  }

  /** A non-empty send is in the queue with no close before it. */
  ghost predicate AwaitsRefusal(queue: seq<Functor>) {
    queue != [] && !queue[0].Close? && ((queue[0].SendData? && queue[0].data != []) || AwaitsRefusal(queue[1..]))
  }

  /** Half-closed, with nothing left that could reach the output path. */
  ghost predicate Quiet(c: Conn) {
    && c.halfClosed && !c.writing
    && (c.state == Disconnected || (c.state == Disconnecting && c.out == [] && !AwaitsRefusal(c.queue)))
  }

  lemma {:induction false} AwaitsRefusalSnoc(queue: seq<Functor>, f: Functor)
    requires !f.SendData?
    ensures AwaitsRefusal(queue + [f]) <==> AwaitsRefusal(queue)
  {
    if queue == [] {
      assert (queue + [f])[1..] == [];
    } else {
      assert (queue + [f])[1..] == queue[1..] + [f];
      AwaitsRefusalSnoc(queue[1..], f);
    }
  }

  lemma QuietStep(c: Conn, op: Op)
    requires Quiet(c) && Legal(c, op)
    ensures Quiet(Apply(c, op)) && Apply(c, op).accepted == c.accepted
  {
    if op.ForceCloseOp? {
      AwaitsRefusalSnoc(c.queue, Close);
    }
  }

  lemma {:induction false} QuietRun(c: Conn, conns: seq<Conn>, ops: seq<Op>, k: nat)
    requires Quiet(c) && IsRunFrom(c, conns, ops) && k <= |ops|
    ensures Quiet(conns[k]) && conns[k].accepted == c.accepted
  {
    if k > 0 {
      QuietRun(c, conns, ops, k - 1);
      assert Step(conns[k - 1], ops[k - 1], conns[k - 1 + 1]);
      QuietStep(conns[k - 1], ops[k - 1]);
    }
  }

  lemma Prepend(c: Conn, op: Op, conns: seq<Conn>, ops: seq<Op>)
    requires Legal(c, op) && IsRunFrom(Apply(c, op), conns, ops)
    ensures IsRunFrom(c, [c] + conns, [op] + ops)
  {
    forall i | 0 <= i < |ops| + 1
      ensures Step(([c] + conns)[i], ([op] + ops)[i], ([c] + conns)[i + 1])
    {
      if i > 0 {
        assert Step(conns[i - 1], ops[i - 1], conns[i - 1 + 1]);
      }
    }
  }

  /** Running the queue up to the first such send gives it to the kernel, which refuses it. */
  lemma {:induction false} RefusalRun(c: Conn) returns (conns: seq<Conn>, ops: seq<Op>)
    requires c.halfClosed && c.state == Disconnecting && !c.writing && c.out == [] && AwaitsRefusal(c.queue)
    ensures IsRunFrom(c, conns, ops)
    ensures conns[|ops|].wire == c.wire && |conns[|ops|].accepted| > |c.accepted|
    decreases |c.queue|
  {
    var f := c.queue[0];
    var op := FunctorOp(if f.SendData? && f.data == [] then Wrote(0) else Failed);
    assert Legal(c, op);
    if f.SendData? && f.data != [] {
      conns, ops := [c, Apply(c, op)], [op];
    } else {
      assert Apply(c, op) == c.(queue := c.queue[1..]) by {
        assert c.accepted + [] == c.accepted && c.wire + [] == c.wire;
      }
      conns, ops := RefusalRun(c.(queue := c.queue[1..]));
      Prepend(c, op, conns, ops);
      conns, ops := [c] + conns, [op] + ops;
    }
  }

  /** Exactly when: from any half-closed, disconnecting connection a run reaches with its output empty,
      no continuation ever gives the kernel a byte that it refuses if and only if no non-empty send is
      in the loop's queue without a close before it. */
  lemma SendRefusedIffQueued(conns: seq<Conn>, ops: seq<Op>, k: nat)
    requires IsRun(conns, ops) && k <= |ops|
    requires conns[k].halfClosed && conns[k].state == Disconnecting && conns[k].out == []
    ensures (forall later: seq<Conn>, more: seq<Op> :: IsRunFrom(conns[k], later, more) ==>
                                                         later[|more|].accepted == conns[k].wire)
            <==> !AwaitsRefusal(conns[k].queue)
  {
    var c := conns[k];
    OutputConserved(conns, ops, k);
    assert c.wire + c.out == c.wire;
    if AwaitsRefusal(c.queue) {
      var later, more := RefusalRun(c);
      assert IsRunFrom(c, later, more) && later[|more|].accepted != c.wire;
    } else {
      forall later: seq<Conn>, more: seq<Op> | IsRunFrom(c, later, more)
        ensures later[|more|].accepted == c.wire
      {
        QuietRun(c, later, more, |more|);
      }
    }
  }

  // ---------- Teardown and the half-close ----------

  /** A connection with one byte buffered that is asked to shut down. */
  lemma ShutDownWithOutput() returns (conns: seq<Conn>, ops: seq<Op>)
    ensures IsRun(conns, ops) && |ops| == 3
    ensures conns[3] == NEW_CONN.(state := Disconnecting, writing := true, out := [7], queue := [ShutdownWrite],
                                  posted := [7], accepted := [7])
  {
    ops := [EstablishOp, SendOp([7], true, WouldBlock), ShutdownOp(false)];
    var c1 := NEW_CONN.(state := Connected);
    var c2 := c1.(posted := [7], accepted := [7], out := [7], writing := true);
    var c3 := c2.(state := Disconnecting, queue := [ShutdownWrite]);
    assert [] + [7] == [7] && [] + [ShutdownWrite] == [ShutdownWrite];
    conns := [NEW_CONN, c1, c2, c3];
  }

  /** Tearing down a disconnecting connection can make it half-close with output unsent: the channel's
      interest is cleared, and a shutdown functor run after it takes that for drained output. */
  lemma TornDownHalfCloseLosesOutput()
    ensures exists conns: seq<Conn>, ops: seq<Op> ::
              && IsRun(conns, ops) && |ops| == 5
              && HalfCloses(conns, 5) && conns[5].state == Disconnecting && conns[5].out == [7]
  {
    var conns, ops := ShutDownWithOutput();
    var c4 := conns[3].(writing := false, removed := true);
    var c5 := c4.(queue := [], halfClosed := true);
    RunGrows(conns, ops, DestroyOp, c4);
    conns, ops := conns + [c4], ops + [DestroyOp];
    assert conns[4] == c4 && [ShutdownWrite][1..] == [];
    RunGrows(conns, ops, FunctorOp(WouldBlock), c5);
    conns, ops := conns + [c5], ops + [FunctorOp(WouldBlock)];
    assert conns[4] == c4 && conns[5] == c5;
  }

  lemma RunGrows(conns: seq<Conn>, ops: seq<Op>, op: Op, c: Conn)
    requires IsRun(conns, ops) && Step(conns[|ops|], op, c)
    ensures IsRun(conns + [c], ops + [op])
  {
    forall i | 0 <= i < |ops| + 1
      ensures Step((conns + [c])[i], (ops + [op])[i], (conns + [c])[i + 1])
    {
      if i < |ops| {
        assert Step(conns[i], ops[i], conns[i + 1]);
      }
    }
  }

  /** The operation runs a send from the loop's queue. */
  ghost predicate RunsSend(c: Conn, op: Op) {
    op.FunctorOp? && c.queue != [] && c.queue[0].SendData?
  }

  ghost predicate SendRunBetween(conns: seq<Conn>, ops: seq<Op>, i: nat, k: nat)
    requires k <= |ops| < |conns|
  {
    exists j :: i < j < k && RunsSend(conns[j], ops[j])
  }

  /** After each teardown before step `k` that found output, a queued send was run. */
  ghost predicate TeardownsMadeGood(conns: seq<Conn>, ops: seq<Op>, k: nat)
    requires k <= |ops| < |conns|
  {
    forall i :: 0 <= i < k && ops[i].DestroyOp? && conns[i].out != [] ==> SendRunBetween(conns, ops, i, k)
  }

  /** How that changes with one operation. */
  ghost predicate MadeGoodAfter(c: Conn, op: Op, before: bool) {
    RunsSend(c, op) || (before && (op.DestroyOp? ==> c.out == []))
  }

  /** A connection not disconnected: its output is watched, or it was torn down with output that stays
      where it is. */
  ghost predicate OutputStands(c: Conn, clean: bool) {
    c.state != Disconnected ==>
      if clean then (c.out != [] ==> c.writing)
      else c.state == Disconnecting && !c.writing && c.out != []
  }

  lemma OutputStandsStep(c: Conn, op: Op, c': Conn, clean: bool)
    requires Conserved(c) && OutputStands(c, clean) && Step(c, op, c')
    ensures OutputStands(c', MadeGoodAfter(c, op, clean))
  {
  }

  lemma MadeGoodStep(conns: seq<Conn>, ops: seq<Op>, k: nat)
    requires k < |ops| < |conns|
    ensures TeardownsMadeGood(conns, ops, k + 1) == MadeGoodAfter(conns[k], ops[k], TeardownsMadeGood(conns, ops, k))
  {
    forall i | 0 <= i < k
      ensures SendRunBetween(conns, ops, i, k + 1) <==> SendRunBetween(conns, ops, i, k) || RunsSend(conns[k], ops[k])
    {
    }
    assert !SendRunBetween(conns, ops, k, k + 1);
  }

  lemma {:induction false} OutputStandsAlong(conns: seq<Conn>, ops: seq<Op>, k: nat)
    requires IsRun(conns, ops) && k <= |ops|
    ensures OutputStands(conns[k], TeardownsMadeGood(conns, ops, k))
  {
    if k > 0 {
      var i := k - 1;
      OutputStandsAlong(conns, ops, i);
      OutputConserved(conns, ops, i);
      MadeGoodStep(conns, ops, i);
      OutputStandsStep(conns[i], ops[i], conns[i + 1], TeardownsMadeGood(conns, ops, i));
    }
  }

  lemma HalfCloseNeedsNoInterest(c: Conn, op: Op, clean: bool)
    requires Conserved(c) && Legal(c, op) && OutputStands(c, clean) && OutputStands(Apply(c, op), clean)
    requires !c.halfClosed && Apply(c, op).halfClosed && Apply(c, op).state != Disconnected
    ensures Apply(c, op).out == [] <==> clean
  {
  }

  lemma HalfCloseComplete(c: Conn, op: Op, c': Conn, clean: bool)
    requires Conserved(c) && Step(c, op, c') && OutputStands(c, clean)
    requires !c.halfClosed && c'.halfClosed && c'.state != Disconnected
    ensures MadeGoodAfter(c, op, clean) == clean
    ensures c'.wire == c'.accepted <==> clean
  {
    OutputStandsStep(c, op, c', clean);
    ConservedStep(c, op);
    HalfCloseNeedsNoInterest(c, op, clean);
    assert |c'.wire| + |c'.out| == |c'.accepted|;
    if c'.out == [] {
      assert c'.wire + c'.out == c'.wire;
    }
  }

  /** Before operation `i` the connection is as the earlier teardowns left it. */
  lemma BeforeHalfClose(conns: seq<Conn>, ops: seq<Op>, i: nat)
    requires IsRun(conns, ops) && i < |ops|
    ensures Conserved(conns[i]) && OutputStands(conns[i], TeardownsMadeGood(conns, ops, i))
    ensures Step(conns[i], ops[i], conns[i + 1])
  {
    OutputConserved(conns, ops, i);
    OutputStandsAlong(conns, ops, i);
  }

  /** Exactly when: if step `k` of any run half-closes a connection not disconnected, torn down or not,
      every accepted byte has been written if and only if after each earlier teardown that found output a
      queued send was run, which turned the interest on again. */
  lemma HalfCloseCompleteIff(conns: seq<Conn>, ops: seq<Op>, k: nat)
    requires IsRun(conns, ops) && 0 < k <= |ops|
    requires HalfCloses(conns, k) && conns[k].state != Disconnected
    ensures conns[k].wire == conns[k].accepted <==> TeardownsMadeGood(conns, ops, k)
  {
    var i := k - 1;
    BeforeHalfClose(conns, ops, i);
    HalfCloseComplete(conns[i], ops[i], conns[k], TeardownsMadeGood(conns, ops, i));
    MadeGoodStep(conns, ops, i);
  }

  /** Nothing waits in the loop's queue with data. */
  ghost predicate NoDataQueued(c: Conn) {
    forall i :: 0 <= i < |c.queue| ==> Carried(c.queue[i]) == []
  }

  /** What was posted is on the wire exactly if the output and the queue hold nothing. */
  lemma AllWritten(wire: Bytes, out: Bytes, accepted: Bytes, queued: Bytes, posted: Bytes)
    requires wire + out == accepted && Accounts(posted, accepted, queued, true)
    ensures multiset(wire) == multiset(posted) <==> wire == accepted && queued == []
  {
    assert |multiset(wire)| == |wire| && |multiset(accepted)| == |accepted|;
    assert |multiset(queued)| == |queued| && |multiset(posted)| == |posted|;
    assert |multiset(accepted) + multiset(queued)| == |accepted| + |queued|;
    assert |accepted| == |wire| + |out|;
    if out == [] {
      assert wire + out == wire;
    }
  }

  /** Exactly when: if step `k` of any run half-closes a connection not disconnected, then at every later
      point `m` every byte that `send` ever took has been written if and only if the half-close is
      complete in the sense of `HalfCloseCompleteIff` and no send with data was waiting in the loop's
      queue at step `k`. */
  lemma HalfCloseLosesIffSendQueued(conns: seq<Conn>, ops: seq<Op>, k: nat, m: nat)
    requires IsRun(conns, ops) && 0 < k <= m <= |ops|
    requires HalfCloses(conns, k) && conns[k].state != Disconnected
    ensures multiset(conns[m].wire) == multiset(conns[m].posted) <==>
              TeardownsMadeGood(conns, ops, k) && NoDataQueued(conns[k])
  {
    var c := conns[k];
    HalfCloseIsFinal(conns, ops, k, m);
    OutputConserved(conns, ops, k);
    PostedBytesAccounted(conns, ops, k);
    AllWritten(c.wire, c.out, c.accepted, QueuedBytes(c.queue), c.posted);
    HalfCloseCompleteIff(conns, ops, k);
    NoneQueued(c.queue);
  }

  // ---------- The connection object ----------

  class Connection {
    var state: State
    var writing: bool
    const output: ByteBuffer.Buffer
    var queue: seq<Functor>
    var removed: bool
    ghost var posted: Bytes
    ghost var accepted: Bytes
    ghost var wire: Bytes
    ghost var halfClosed: bool

    ghost predicate Valid()
      reads this, output
    {
      output.Valid()
    }

    ghost function View(): Conn
      reads this, output, output.buf
      requires Valid()
    {
      Conn(state, writing, output.View().content, queue, removed, posted, accepted, wire, halfClosed)
    }

    constructor ()
      ensures Valid() && fresh(output) && fresh(output.buf)
      ensures View() == NEW_CONN
    {
      state, writing, queue, removed := Connecting, false, [], false;
      posted, accepted, wire, halfClosed := [], [], [], false;
      output := new ByteBuffer.Buffer();
    }

    method Establish()
      requires Valid() && state == Connecting
      modifies this`state
      ensures Valid() && View() == old(View()).(state := Connected)
    {
      state := Connected;
    }

    method OnClose()
      requires Valid()
      modifies this`state, this`writing
      ensures Valid() && View() == HandleClose(old(View()))
    {
      state := Disconnected;
      writing := false;
    }

    method BufferRest(rest: Bytes)
      requires Valid()
      modifies this`writing, output, output.buf
      ensures Valid() && (output.buf == old(output.buf) || fresh(output.buf))
      ensures View() == old(View()).(out := old(View().out) + rest, writing := true)
    {
      output.Append(rest);
      writing := true;
    }

    method WriteOut(data: Bytes, r: WriteResult)
      requires Valid() && Takes(View(), r, |data|)
      modifies this, output, output.buf
      ensures Valid() && (output.buf == old(output.buf) || fresh(output.buf))
      ensures View() == SendInLoop(old(View()), data, r)
    {
      if state == Disconnected {
        return;
      }
      accepted := accepted + data;
      if writing || output.Readable() != 0 {
        BufferRest(data);
        return;
      }
      match r {
        case Failed =>
          OnClose();
        case WouldBlock =>
          BufferRest(data);
          assert [] + data == data;
        case Wrote(n) =>
          wire := wire + data[..n];
          if n == |data| {
            assert data[..n] == data;
          } else {
            BufferRest(data[n..]);
            assert [] + data[n..] == data[n..];
          }
      }
    }

    method SendBytes(data: Bytes, inLoop: bool, r: WriteResult)
      requires Valid() && Takes(View(), r, |data|)
      modifies this, output, output.buf
      ensures Valid() && (output.buf == old(output.buf) || fresh(output.buf))
      ensures View() == Send(old(View()), data, inLoop, r)
    {
      if state != Connected {
        return;
      }
      posted := posted + data;
      if inLoop {
        WriteOut(data, r);
      } else {
        queue := queue + [SendData(data)];
      }
    }

    method HalfClose()
      requires Valid()
      modifies this`halfClosed
      ensures Valid() && View() == ShutdownInLoop(old(View()))
    {
      if !writing {
        halfClosed := true;
      }
    }

    method ShutdownGracefully(inLoop: bool)
      requires Valid()
      modifies this
      ensures Valid() && View() == Shutdown(old(View()), inLoop)
    {
      if state == Connected {
        state := Disconnecting;
        if inLoop {
          HalfClose();
        } else {
          queue := queue + [ShutdownWrite];
        }
      }
    }

    method CloseByForce()
      requires Valid()
      modifies this
      ensures Valid() && View() == ForceClose(old(View()))
    {
      if state == Connected || state == Disconnecting {
        state := Disconnecting;
        queue := queue + [Close];
      }
    }

    method OnWritable(r: WriteResult)
      requires Valid() && Takes(View(), r, |View().out|)
      modifies this, output
      ensures Valid() && output.buf == old(output.buf)
      ensures View() == HandleWrite(old(View()), r)
    {
      if !writing {
        return;
      }
      if r.Wrote? && r.n > 0 {
        wire := wire + output.View().content[..r.n];
        output.Retrieve(r.n);
        if output.Readable() == 0 {
          writing := false;
          if state == Disconnecting {
            HalfClose();
          }
        }
      }
    }

    /** The loop runs the first functor queued for this connection. */
    method RunQueued(r: WriteResult)
      requires Valid() && Legal(View(), FunctorOp(r))
      modifies this, output, output.buf
      ensures Valid() && (output.buf == old(output.buf) || fresh(output.buf))
      ensures View() == RunFunctor(old(View()), r)
    {
      var f := queue[0];
      queue := queue[1..];
      match f {
        case SendData(data) => WriteOut(data, r);
        case ShutdownWrite => HalfClose();
        case Close => OnClose();
      }
    }

    method TearDown()
      requires Valid()
      modifies this
      ensures Valid() && View() == Destroy(old(View()))
    {
      if state == Connected {
        state := Disconnected;
      }
      writing := false;
      removed := true;
    }
  }
}
