/** Client, byte streams and server as one step system: callers, the reader, the server loop, the
    server's connection and the workers interleave, and both byte streams are cut into chunks
    arbitrarily. One connection life. */
module RpcSystem {

  import opened Basics
  import opened Wire
  import TcpConnection
  import opened RpcServer
  import opened RpcClient

  /** A request frame that call `k` wrote. */
  datatype Write = Write(k: nat, req: RpcRequest)

  /** `up` holds the request bytes in transit; reply bytes go through the server's connection, of whose
      wire the client has read the first `read`; `held` and `buf` are the receivers' decode buffers.
      `asked` and `answered` record the messages whose frames are still in the two streams, `written`
      every request frame ever written; no step reads them. */
  datatype System = System(client: Client, up: Bytes, held: Bytes, server: Server,
                           conn: TcpConnection.Conn, read: nat, buf: Bytes,
                           asked: seq<RpcRequest>, answered: seq<Job>, written: seq<Write>)

  const ESTABLISHED := TcpConnection.NEW_CONN.(state := TcpConnection.Connected)

  const START := System(FRESH_CLIENT, [], [], IDLE, ESTABLISHED, 0, [], [], [], [])

  /** The kernel's answer to the write of a reply is the parameter `r`; `ConnectionSteps` is anything
      else that befalls the connection. */
  datatype Event =
    | CallStarts(service: string, methodName: string, msg: Message, async: bool)
    | CallPublishes(k: nat)
    | CallWrites(k: nat, ok: bool)
    | CallWakes(k: nat)
    | ServerReads(n: nat)
    | ServerDecodes(r: TcpConnection.WriteResult)
    | WorkerStarts
    | WorkerEnds(i: nat, outcome: Outcome)
    | LoopReplies(r: TcpConnection.WriteResult)
    | ConnectionSteps(op: TcpConnection.Op)
    | ClientReads(n: nat)
    | ClientDecodes
    | ReaderRecords
    | ReaderFlags
    | ReaderRunsClosure
    | ReaderSweeps
    | ReaderQuits

  function Tail<T>(s: seq<T>): seq<T> {
    if s == [] then s else s[1..]
  }

  function ReplyBody(w: World, j: Job): Bytes {
    if j.Reply? then w.packResponse(j.resp) else []
  }

  /** What the kernel may answer; and a reply that is accepted has a body of fewer than 2^32 bytes. */
  predicate Deliverable(w: World, c: TcpConnection.Conn, j: Job, r: TcpConnection.WriteResult) {
    && TcpConnection.Takes(c, r, |Encode(ReplyBody(w, j))|)
    && (c.state == TcpConnection.Connected ==> Fits(ReplyBody(w, j), false))
  }

  /** `Codec::send` on the loop thread: a connection that is no longer connected drops the reply. */
  function Deliver(w: World, s: System, j: Job, r: TcpConnection.WriteResult): System
    requires Deliverable(w, s.conn, j, r)
  {
    s.(conn := TcpConnection.Send(s.conn, Encode(ReplyBody(w, j)), true, r),
       answered := if s.conn.state == TcpConnection.Connected then s.answered + [j] else s.answered)
  }

  /** Replies handed to the connection by a server step. */
  function Fresh(before: Server, after: Server): seq<Job> {
    if |before.sent| <= |after.sent| then after.sent[|before.sent|..] else []
  }

  predicate ReplyFits(w: World, s: System, e: RpcServer.Event, r: TcpConnection.WriteResult)
    requires RpcServer.Enabled(w, s.server, e)
  {
    var out := Fresh(s.server, RpcServer.Next(w, s.server, e));
    out != [] ==> Deliverable(w, s.conn, out[0], r)
  }

  function ServerStep(w: World, s: System, e: RpcServer.Event, r: TcpConnection.WriteResult): System
    requires RpcServer.Enabled(w, s.server, e) && ReplyFits(w, s, e, r)
  {
    var server := RpcServer.Next(w, s.server, e);
    var out := Fresh(s.server, server);
    var s := s.(server := server);
    if out == [] then s else Deliver(w, s, out[0], r)
  }

  function OnResponse(w: World, c: Client, body: Bytes): Client {
    match w.parseResponse(body)
    case None => c
    case Some(r) => Match(c, r)
  }

  /** The assumptions on the environment are here: the 32-bit ids do not wrap onto unresolved calls,
      a successful write is a whole write, and bodies are within the decoders' limits. */
  predicate Enabled(w: World, s: System, e: Event) {
    var c := s.client;
    match e
    case CallStarts(_, _, _, _) => MayAllocate(c)
    case CallPublishes(k) => At(c, k, Allocated)
    case CallWrites(k, ok) => At(c, k, Published) && (ok ==> Fits(w.packRequest(RequestOf(w, c.calls[k], k)), true))
    case CallWakes(k) => MayWake(c, k)
    case ServerReads(n) => n <= |s.up|
    case ServerDecodes(r) =>
      Peel(s.held, true).Frame? && ReplyFits(w, s, RpcServer.Frame(Peel(s.held, true).body), r)
    case WorkerStarts => RpcServer.Enabled(w, s.server, WorkerTakes)
    case WorkerEnds(i, o) => RpcServer.Enabled(w, s.server, WorkerDone(i, o))
    case LoopReplies(r) => RpcServer.Enabled(w, s.server, FunctorRuns) && ReplyFits(w, s, FunctorRuns, r)
    case ConnectionSteps(op) => !op.SendOp? && TcpConnection.Legal(s.conn, op)
    case ClientReads(n) => c.reader == Reading && s.read + n <= |s.conn.wire|
    case ClientDecodes => c.reader == Reading && !Peel(s.buf, false).Partial?
    case ReaderRecords => c.reader.Holding? && c.reader.k < |c.calls|
    case ReaderFlags => c.reader.Recorded? && c.reader.k < |c.calls|
    case ReaderRunsClosure => c.reader.Flagged? && c.reader.k < |c.calls|
    case ReaderSweeps => c.reader == Reading
    case ReaderQuits => c.reader == Reading
  }

  function Next(w: World, s: System, e: Event): System
    requires Enabled(w, s, e)
  {
    var c := s.client;
    match e
    case CallStarts(service, methodName, msg, async) => s.(client := Allocate(c, service, methodName, msg, async))
    case CallPublishes(k) => s.(client := Publish(c, k))
    case CallWrites(k, ok) =>
      if ok then
        var q := RequestOf(w, c.calls[k], k);
        s.(client := Written(c, k), up := s.up + Encode(w.packRequest(q)), asked := s.asked + [q],
           written := s.written + [Write(k, q)])
      else s.(client := WriteFailed(c, k))
    case CallWakes(k) => s.(client := Wake(c, k))
    case ServerReads(n) => s.(held := s.held + s.up[..n], up := s.up[n..])
    case ServerDecodes(r) =>
      var h := Peel(s.held, true);
      ServerStep(w, s.(held := h.rest, asked := Tail(s.asked)), RpcServer.Frame(h.body), r)
    case WorkerStarts => s.(server := RpcServer.Next(w, s.server, WorkerTakes))
    case WorkerEnds(i, o) => s.(server := RpcServer.Next(w, s.server, WorkerDone(i, o)))
    case LoopReplies(r) => ServerStep(w, s, FunctorRuns, r)
    case ConnectionSteps(op) => s.(conn := TcpConnection.Apply(s.conn, op))
    case ClientReads(n) => s.(buf := s.buf + s.conn.wire[s.read..s.read + n], read := s.read + n)
    case ClientDecodes =>
      (match Peel(s.buf, false)
       case Frame(body, rest) =>
         s.(client := OnResponse(w, c, body), buf := rest, answered := Tail(s.answered))
       case _ => s.(client := Quit(c)))
    case ReaderRecords => s.(client := Record(w, c))
    case ReaderFlags => s.(client := SetFlag(c))
    case ReaderRunsClosure => s.(client := RunClosure(c))
    case ReaderSweeps => s.(client := Sweep(c))
    case ReaderQuits => s.(client := Quit(c))
  }

  ghost predicate Step(w: World, s: System, e: Event, s': System) {
    Enabled(w, s, e) && s' == Next(w, s, e)
  }

  ghost predicate IsRun(w: World, systems: seq<System>, events: seq<Event>) {
    && |systems| == |events| + 1 && systems[0] == START
    && forall i :: 0 <= i < |events| ==> Step(w, systems[i], events[i], systems[i + 1])
  }

  // ---------- Invariant ----------

  function RequestBodies(w: World, qs: seq<RpcRequest>): (bodies: seq<Bytes>)
    ensures |bodies| == |qs| && forall i :: 0 <= i < |qs| ==> bodies[i] == w.packRequest(qs[i])
  {
    seq(|qs|, i requires 0 <= i < |qs| => w.packRequest(qs[i]))
  }

  function ReplyBodies(w: World, jobs: seq<Job>): (bodies: seq<Bytes>)
    ensures |bodies| == |jobs| && forall i :: 0 <= i < |jobs| ==> bodies[i] == ReplyBody(w, jobs[i])
  {
    seq(|jobs|, i requires 0 <= i < |jobs| => ReplyBody(w, jobs[i]))
  }

  /** The bytes of a direction that are not decoded yet are exactly the frames of the messages on their way. */
  ghost predicate Carries(held: Bytes, inTransit: Bytes, bodies: seq<Bytes>, capped: bool) {
    held + inTransit == EncodeAll(bodies) && AllFit(bodies, capped)
  }

  ghost predicate UpStream(w: World, held: Bytes, up: Bytes, asked: seq<RpcRequest>) {
    Carries(held, up, RequestBodies(w, asked), true)
  }

  /** Of what the connection accepted, the client has read a part of what is on the wire; it has decoded
      that, or holds it in its buffer. */
  ghost predicate DownStream(w: World, conn: TcpConnection.Conn, read: nat, buf: Bytes, answered: seq<Job>) {
    && TcpConnection.Conserved(conn) && TcpConnection.NoQueuedSend(conn)
    && read <= |conn.wire| <= |conn.accepted|
    && Carries(buf, conn.accepted[read..], ReplyBodies(w, answered), false)
    && forall i :: 0 <= i < |answered| ==> AnswersItsRequest(w, answered[i])
  }

  /** Requests somewhere between their write and their match. */
  ghost function Tokens(s: System): multiset<RpcRequest> {
    multiset(s.asked) + Open(s.server) + multiset(Reqs(s.answered))
  }

  /** Each is there once, and a sent call expects its answer. */
  ghost predicate TokensOk(w: World, c: Client, tokens: multiset<RpcRequest>) {
    forall q :: q in tokens ==> tokens[q] == 1 && Expects(w, c, q)
  }

  ghost predicate Inv(w: World, s: System) {
    && ClientInv(w, s.client) && JobsOk(w, s.server)
    && UpStream(w, s.held, s.up, s.asked) && DownStream(w, s.conn, s.read, s.buf, s.answered)
    && TokensOk(w, s.client, Tokens(s))
  }

  // ---------- Steps ----------

  lemma ClientAlone(w: World, s: System, c: Client)
    requires Inv(w, s) && ClientInv(w, c) && StillExpects(w, s.client, c, {})
    ensures Inv(w, s.(client := c))
  {
    assert Tokens(s.(client := c)) == Tokens(s);
  }

  lemma ClientSteps(w: World, s: System, e: Event)
    requires Faithful(w) && Inv(w, s) && Enabled(w, s, e)
    requires e.CallStarts? || e.CallPublishes? || (e.CallWrites? && !e.ok) || e.CallWakes?
    ensures Inv(w, Next(w, s, e))
  {
    var c := s.client;
    match e
    case CallStarts(service, methodName, msg, async) =>
      AllocateOk(w, c, service, methodName, msg, async);
      ClientAlone(w, s, Allocate(c, service, methodName, msg, async));
    case CallPublishes(k) =>
      PublishOk(w, c, k);
      ClientAlone(w, s, Publish(c, k));
    case CallWrites(k, _) =>
      WriteFailedOk(w, c, k);
      ClientAlone(w, s, WriteFailed(c, k));
    case CallWakes(k) =>
      WakeOk(w, c, k);
      ClientAlone(w, s, Wake(c, k));
  }

  lemma ReaderSteps(w: World, s: System, e: Event)
    requires Faithful(w) && Inv(w, s) && Enabled(w, s, e)
    requires e.ReaderRecords? || e.ReaderFlags? || e.ReaderRunsClosure? || e.ReaderSweeps? || e.ReaderQuits?
    ensures Inv(w, Next(w, s, e))
  {
    var c := s.client;
    match e
    case ReaderRecords =>
      RecordOk(w, c);
      ClientAlone(w, s, Record(w, c));
    case ReaderFlags =>
      SetFlagOk(w, c);
      ClientAlone(w, s, SetFlag(c));
    case ReaderRunsClosure =>
      RunClosureOk(w, c);
      ClientAlone(w, s, RunClosure(c));
    case ReaderSweeps =>
      SweepOk(w, c);
      ClientAlone(w, s, Sweep(c));
    case ReaderQuits =>
      QuitOk(w, c);
      ClientAlone(w, s, Quit(c));
  }

  lemma StreamGrows(held: Bytes, inTransit: Bytes, bodies: seq<Bytes>, body: Bytes, capped: bool)
    requires Carries(held, inTransit, bodies, capped) && Fits(body, capped)
    ensures Carries(held, inTransit + Encode(body), bodies + [body], capped)
  {
    EncodeAllSnoc(bodies, body);
    assert held + (inTransit + Encode(body)) == (held + inTransit) + Encode(body);
  }

  lemma StreamMoves(held: Bytes, inTransit: Bytes, n: nat)
    requires n <= |inTransit|
    ensures (held + inTransit[..n]) + inTransit[n..] == held + inTransit
  {
  }

  lemma TokenAppears(w: World, s: System, s': System, q: RpcRequest)
    requires TokensOk(w, s.client, Tokens(s)) && Tokens(s') == Tokens(s) + multiset{q}
    requires !Expects(w, s.client, q) && Expects(w, s'.client, q) && StillExpects(w, s.client, s'.client, {})
    ensures TokensOk(w, s'.client, Tokens(s'))
  {
    assert q !in Tokens(s);
  }

  lemma UpStreamGrows(w: World, held: Bytes, up: Bytes, asked: seq<RpcRequest>, q: RpcRequest)
    requires UpStream(w, held, up, asked) && Fits(w.packRequest(q), true)
    ensures UpStream(w, held, up + Encode(w.packRequest(q)), asked + [q])
  {
    StreamGrows(held, up, RequestBodies(w, asked), w.packRequest(q), true);
    assert RequestBodies(w, asked + [q]) == RequestBodies(w, asked) + [w.packRequest(q)];
  }

  lemma AskedTokens(s: System, s': System, q: RpcRequest)
    requires s'.server == s.server && s'.answered == s.answered && s'.asked == s.asked + [q]
    ensures Tokens(s') == Tokens(s) + multiset{q}
  {
  }

  lemma WriteStep(w: World, s: System, k: nat)
    requires Inv(w, s) && Enabled(w, s, CallWrites(k, true))
    ensures Inv(w, Next(w, s, CallWrites(k, true)))
  {
    var q := RequestOf(w, s.client.calls[k], k);
    var s' := Next(w, s, CallWrites(k, true));
    WrittenOk(w, s.client, k);
    UpStreamGrows(w, s.held, s.up, s.asked, q);
    AskedTokens(s, s', q);
    TokenAppears(w, s, s', q);
  }

  lemma ServerReadStep(w: World, s: System, n: nat)
    requires Inv(w, s) && Enabled(w, s, ServerReads(n))
    ensures Inv(w, Next(w, s, ServerReads(n)))
  {
    StreamMoves(s.held, s.up, n);
    assert Tokens(Next(w, s, ServerReads(n))) == Tokens(s);
  }

  lemma ReadAhead(buf: Bytes, wire: Bytes, accepted: Bytes, read: nat, n: nat)
    requires wire <= accepted && read + n <= |wire|
    ensures (buf + wire[read..read + n]) + accepted[read + n..] == buf + accepted[read..]
  {
    assert accepted[read..] == accepted[read..read + n] + accepted[read + n..];
    assert wire[read..read + n] == accepted[read..read + n];
  }

  lemma ClientReadStep(w: World, s: System, n: nat)
    requires Inv(w, s) && Enabled(w, s, ClientReads(n))
    ensures Inv(w, Next(w, s, ClientReads(n)))
  {
    ReadAhead(s.buf, s.conn.wire, s.conn.accepted, s.read, n);
    assert Tokens(Next(w, s, ClientReads(n))) == Tokens(s);
  }

  /** Whatever befalls the connection, the replies it accepted stay what the client decodes. */
  lemma ConnectionStep(w: World, s: System, op: TcpConnection.Op)
    requires Inv(w, s) && Enabled(w, s, ConnectionSteps(op))
    ensures Inv(w, Next(w, s, ConnectionSteps(op)))
  {
    TcpConnection.ConservedStep(s.conn, op);
    TcpConnection.NoQueuedSendStep(s.conn, op);
    assert Tokens(Next(w, s, ConnectionSteps(op))) == Tokens(s);
  }

  /** Everything in order except that `j`, just handed to the connection, is not in a stream yet. */
  ghost predicate Handing(w: World, s: System, j: Job) {
    && ClientInv(w, s.client) && JobsOk(w, s.server)
    && UpStream(w, s.held, s.up, s.asked) && DownStream(w, s.conn, s.read, s.buf, s.answered)
    && AnswersItsRequest(w, j)
    && TokensOk(w, s.client, Tokens(s) + multiset{j.req})
  }

  /** A send on the loop thread keeps the connection's books and accepts all of the data or none. */
  lemma SendBooks(c: TcpConnection.Conn, data: Bytes, r: TcpConnection.WriteResult, read: nat)
    requires TcpConnection.Conserved(c) && TcpConnection.NoQueuedSend(c) && read <= |c.wire| <= |c.accepted|
    requires TcpConnection.Takes(c, r, |data|)
    ensures var c' := TcpConnection.Send(c, data, true, r);
            && TcpConnection.Conserved(c') && TcpConnection.NoQueuedSend(c') && read <= |c'.wire| <= |c'.accepted|
            && c'.accepted[read..] == c.accepted[read..] + if c.state == TcpConnection.Connected then data else []
  {
    TcpConnection.ConservedStep(c, TcpConnection.SendOp(data, true, r));
    TcpConnection.NoQueuedSendStep(c, TcpConnection.SendOp(data, true, r));
    assert (c.accepted + data)[read..] == c.accepted[read..] + data;
    assert c.accepted[read..] + [] == c.accepted[read..];
  }

  lemma DownStreamGrows(w: World, c: TcpConnection.Conn, read: nat, buf: Bytes, answered: seq<Job>,
                        j: Job, r: TcpConnection.WriteResult)
    requires DownStream(w, c, read, buf, answered) && AnswersItsRequest(w, j)
    requires Deliverable(w, c, j, r) && c.state == TcpConnection.Connected
    ensures DownStream(w, TcpConnection.Send(c, Encode(ReplyBody(w, j)), true, r), read, buf, answered + [j])
  {
    SendBooks(c, Encode(ReplyBody(w, j)), r, read);
    StreamGrows(buf, c.accepted[read..], ReplyBodies(w, answered), ReplyBody(w, j), false);
    assert ReplyBodies(w, answered + [j]) == ReplyBodies(w, answered) + [ReplyBody(w, j)];
  }

  lemma AnsweredTokens(s: System, s': System, j: Job)
    requires s'.asked == s.asked && s'.server == s.server && s'.answered == s.answered + [j]
    ensures Tokens(s') == Tokens(s) + multiset{j.req}
  {
    ReqsMoves(s.answered, j, |s.answered|);
  }

  lemma AcceptOk(w: World, s: System, j: Job, r: TcpConnection.WriteResult)
    requires Handing(w, s, j) && Deliverable(w, s.conn, j, r) && s.conn.state == TcpConnection.Connected
    ensures Inv(w, Deliver(w, s, j, r))
  {
    DownStreamGrows(w, s.conn, s.read, s.buf, s.answered, j, r);
    AnsweredTokens(s, Deliver(w, s, j, r), j);
  }

  lemma DropOk(w: World, s: System, j: Job)
    requires Handing(w, s, j)
    ensures Inv(w, s)
  {
    TokensDrop(w, s.client, Tokens(s), j.req);
  }

  lemma TokensDrop(w: World, c: Client, tokens: multiset<RpcRequest>, q: RpcRequest)
    requires TokensOk(w, c, tokens + multiset{q})
    ensures TokensOk(w, c, tokens)
  {
    forall p | p in tokens
      ensures tokens[p] == 1 && Expects(w, c, p)
    {
      assert p in tokens + multiset{q};
    }
  }

  lemma DeliverOk(w: World, s: System, j: Job, r: TcpConnection.WriteResult)
    requires Handing(w, s, j) && Deliverable(w, s.conn, j, r)
    ensures Inv(w, Deliver(w, s, j, r))
  {
    if s.conn.state == TcpConnection.Connected {
      AcceptOk(w, s, j, r);
    } else {
      DropOk(w, s, j);
    }
  }

  lemma WorkerSteps(w: World, s: System, e: Event)
    requires Inv(w, s) && Enabled(w, s, e) && (e.WorkerStarts? || e.WorkerEnds?)
    ensures Inv(w, Next(w, s, e))
  {
    var inner := if e.WorkerStarts? then WorkerTakes else WorkerDone(e.i, e.outcome);
    JobsStep(w, s.server, inner);
    if e.WorkerStarts? {
      TakeEffect(w, s.server);
    } else {
      DoneEffect(w, s.server, e.i, e.outcome);
    }
    assert Tokens(Next(w, s, e)) == Tokens(s);
  }

  lemma FunctorTokens(w: World, s: System)
    requires s.server.functors != []
    ensures var j, server := s.server.functors[0], RpcServer.Next(w, s.server, FunctorRuns);
            Tokens(s.(server := server)) + multiset{j.req} == Tokens(s)
  {
    FunctorEffect(w, s.server);
  }

  lemma FunctorHands(w: World, s: System)
    requires Inv(w, s) && s.server.functors != []
    ensures Handing(w, s.(server := RpcServer.Next(w, s.server, FunctorRuns)), s.server.functors[0])
  {
    JobsStep(w, s.server, FunctorRuns);
    FunctorTokens(w, s);
  }

  lemma ReplyStep(w: World, s: System, r: TcpConnection.WriteResult)
    requires Inv(w, s) && Enabled(w, s, LoopReplies(r))
    ensures Inv(w, Next(w, s, LoopReplies(r)))
  {
    var server := RpcServer.Next(w, s.server, FunctorRuns);
    assert Fresh(s.server, server) == [s.server.functors[0]];
    FunctorHands(w, s);
    DeliverOk(w, s.(server := server), s.server.functors[0], r);
  }

  /** The server's decoder always finds the frame of the oldest request on its way. */
  lemma DecodedRequest(w: World, s: System)
    requires Faithful(w) && UpStream(w, s.held, s.up, s.asked) && Peel(s.held, true).Frame?
    ensures s.asked != [] && w.parseRequest(Peel(s.held, true).body) == Some(s.asked[0])
    ensures UpStream(w, Peel(s.held, true).rest, s.up, s.asked[1..])
  {
    PeelFromStream(s.held, s.up, RequestBodies(w, s.asked), true);
    assert RequestBodies(w, s.asked)[1..] == RequestBodies(w, s.asked[1..]);
  }

  /** Taking the decoded request out of the stream, with the server step it causes. */
  function AfterDecode(w: World, s: System): System
    requires Peel(s.held, true).Frame?
  {
    var h := Peel(s.held, true);
    s.(held := h.rest, asked := Tail(s.asked), server := OnFrame(w, s.server, h.body))
  }

  lemma DecodeTokens(w: World, s: System)
    requires Peel(s.held, true).Frame? && s.asked != []
    requires w.parseRequest(Peel(s.held, true).body) == Some(s.asked[0])
    ensures var s' := AfterDecode(w, s);
            if s'.server.sent == s.server.sent then Tokens(s') == Tokens(s)
            else
              && Tokens(s') + multiset{s.asked[0]} == Tokens(s)
              && |s'.server.sent| == |s.server.sent| + 1 && Fresh(s.server, s'.server) != []
              && Fresh(s.server, s'.server)[0] == s'.server.sent[|s.server.sent|]
              && Fresh(s.server, s'.server)[0].req == s.asked[0]
  {
    assert s.asked == [s.asked[0]] + s.asked[1..];
    FrameEffect(w, s.server, Peel(s.held, true).body);
  }

  lemma ServerDecodeEffect(w: World, s: System)
    requires Faithful(w) && Inv(w, s) && Peel(s.held, true).Frame?
    ensures var s' := AfterDecode(w, s);
            if s'.server.sent == s.server.sent then Inv(w, s')
            else Fresh(s.server, s'.server) != [] && Handing(w, s', Fresh(s.server, s'.server)[0])
  {
    DecodedRequest(w, s);
    DecodeTokens(w, s);
    JobsStep(w, s.server, RpcServer.Frame(Peel(s.held, true).body));
    var s' := AfterDecode(w, s);
    if s'.server.sent != s.server.sent {
      assert AnswersItsRequest(w, s'.server.sent[|s.server.sent|]);
    }
  }

  lemma ServerDecodeStep(w: World, s: System, r: TcpConnection.WriteResult)
    requires Faithful(w) && Inv(w, s) && Enabled(w, s, ServerDecodes(r))
    ensures Inv(w, Next(w, s, ServerDecodes(r)))
  {
    ServerDecodeEffect(w, s);
    var s' := AfterDecode(w, s);
    if s'.server.sent != s.server.sent {
      DeliverOk(w, s', Fresh(s.server, s'.server)[0], r);
    }
  }

  /** The client's decoder always finds the frame of the oldest reply on its way, and never a bad one. */
  lemma DecodedReply(w: World, s: System)
    requires Faithful(w) && DownStream(w, s.conn, s.read, s.buf, s.answered) && !Peel(s.buf, false).Partial?
    ensures Peel(s.buf, false).Frame? && s.answered != [] && AnswersItsRequest(w, s.answered[0])
    ensures w.parseResponse(Peel(s.buf, false).body) == Some(s.answered[0].resp)
    ensures DownStream(w, s.conn, s.read, Peel(s.buf, false).rest, s.answered[1..])
  {
    PeelFromStream(s.buf, s.conn.accepted[s.read..], ReplyBodies(w, s.answered), false);
    assert ReplyBodies(w, s.answered)[1..] == ReplyBodies(w, s.answered[1..]);
  }

  /** What the reader does with any bytes at the front of its buffer: a frame that is no response is
      dropped, a bad header stops it and releases nobody. */
  lemma StrangeBytes(w: World, s: System)
    requires Enabled(w, s, ClientDecodes)
    ensures var s' := Next(w, s, ClientDecodes);
            match Peel(s.buf, false)
            case Frame(body, rest) => s'.buf == rest && (w.parseResponse(body).None? ==> s'.client == s.client)
            case _ =>
              && s'.client.reader == Stopped && s'.client.calls == s.client.calls
              && s'.client.pending == s.client.pending && s'.buf == s.buf
  {
  }

  /** Two different tokens have different ids. */
  lemma OneTokenPerId(w: World, c: Client, tokens: multiset<RpcRequest>, p: RpcRequest, q: RpcRequest)
    requires TokensOk(w, c, tokens + multiset{q}) && p in tokens
    ensures tokens[p] == 1 && Expects(w, c, p) && Expects(w, c, q) && p.id != q.id
  {
    var all := tokens + multiset{q};
    assert p in all && q in all;
    assert all[p] == 1 && all[q] == 1;
  }

  lemma MatchTokens(w: World, c: Client, tokens: multiset<RpcRequest>, j: Job)
    requires ClientInv(w, c) && c.reader == Reading && AnswersItsRequest(w, j)
    requires TokensOk(w, c, tokens + multiset{j.req})
    ensures ClientInv(w, Match(c, j.resp)) && TokensOk(w, Match(c, j.resp), tokens)
  {
    assert j.req in tokens + multiset{j.req};
    MatchOk(w, c, j.req, j.resp);
    forall q | q in tokens
      ensures tokens[q] == 1 && Expects(w, Match(c, j.resp), q)
    {
      OneTokenPerId(w, c, tokens, q, j.req);
    }
  }

  lemma FirstAnswered(s: System, c: Client, buf: Bytes)
    requires s.answered != []
    ensures Tokens(s) == Tokens(s.(client := c, buf := buf, answered := s.answered[1..])) + multiset{s.answered[0].req}
  {
    ReqsMoves(s.answered, s.answered[0], |s.answered|);
  }

  lemma ReplyTaken(w: World, s: System, buf: Bytes)
    requires Inv(w, s) && s.client.reader == Reading && s.answered != []
    requires DownStream(w, s.conn, s.read, buf, s.answered[1..])
    ensures Inv(w, s.(client := Match(s.client, s.answered[0].resp), buf := buf, answered := s.answered[1..]))
  {
    var j := s.answered[0];
    var s' := s.(client := Match(s.client, j.resp), buf := buf, answered := s.answered[1..]);
    FirstAnswered(s, s'.client, buf);
    MatchTokens(w, s.client, Tokens(s'), j);
  }

  lemma ClientDecodeStep(w: World, s: System)
    requires Faithful(w) && Inv(w, s) && Enabled(w, s, ClientDecodes)
    ensures Inv(w, Next(w, s, ClientDecodes))
  {
    DecodedReply(w, s);
    ReplyTaken(w, s, Peel(s.buf, false).rest);
  }

  predicate OnServer(e: Event) {
    e.ServerReads? || e.ServerDecodes? || e.WorkerStarts? || e.WorkerEnds? || e.LoopReplies? || e.ConnectionSteps?
  }

  lemma ServerSteps(w: World, s: System, e: Event)
    requires Faithful(w) && Inv(w, s) && Enabled(w, s, e) && OnServer(e)
    ensures Inv(w, Next(w, s, e))
  {
    match e
    case ServerReads(n) => ServerReadStep(w, s, n);
    case ServerDecodes(r) => ServerDecodeStep(w, s, r);
    case WorkerStarts => WorkerSteps(w, s, e);
    case WorkerEnds(_, _) => WorkerSteps(w, s, e);
    case LoopReplies(r) => ReplyStep(w, s, r);
    case ConnectionSteps(op) => ConnectionStep(w, s, op);
  }

  predicate OnCaller(e: Event) {
    e.CallStarts? || e.CallPublishes? || e.CallWrites? || e.CallWakes?
  }

  lemma CallerSteps(w: World, s: System, e: Event)
    requires Faithful(w) && Inv(w, s) && Enabled(w, s, e) && OnCaller(e)
    ensures Inv(w, Next(w, s, e))
  {
    if e.CallWrites? && e.ok {
      WriteStep(w, s, e.k);
    } else {
      ClientSteps(w, s, e);
    }
  }

  lemma ReaderThreadSteps(w: World, s: System, e: Event)
    requires Faithful(w) && Inv(w, s) && Enabled(w, s, e) && !OnServer(e) && !OnCaller(e)
    ensures Inv(w, Next(w, s, e))
  {
    match e
    case ClientReads(n) => ClientReadStep(w, s, n);
    case ClientDecodes => ClientDecodeStep(w, s);
    case _ => ReaderSteps(w, s, e);
  }

  lemma InvStep(w: World, s: System, e: Event, s': System)
    requires Faithful(w) && Inv(w, s) && Step(w, s, e, s')
    ensures Inv(w, s')
  {
    if OnServer(e) {
      ServerSteps(w, s, e);
    } else if OnCaller(e) {
      CallerSteps(w, s, e);
    } else {
      ReaderThreadSteps(w, s, e);
    }
  }

  lemma {:induction false} RunKeepsInv(w: World, systems: seq<System>, events: seq<Event>, i: nat)
    requires Faithful(w) && IsRun(w, systems, events) && i <= |events|
    ensures Inv(w, systems[i])
  {
    if i > 0 {
      var p := i - 1;
      RunKeepsInv(w, systems, events, p);
      assert Step(w, systems[p], events[p], systems[p + 1]);
      InvStep(w, systems[p], events[p], systems[i]);
    }
  }

  // ---------- Each request is executed at most once ----------

  predicate HasWritten(x: Call) {
    x.phase in {Sent, Matched}
  }

  function Requests(written: seq<Write>): (qs: seq<RpcRequest>)
    ensures |qs| == |written| && forall i :: 0 <= i < |written| ==> qs[i] == written[i].req
  {
    seq(|written|, i requires 0 <= i < |written| => written[i].req)
  }

  /** Each frame written is the request of a call of its own. */
  ghost predicate WritesOk(w: World, c: Client, written: seq<Write>) {
    && (forall i :: 0 <= i < |written| ==>
          && written[i].k < |c.calls| && HasWritten(c.calls[written[i].k])
          && written[i].req == RequestOf(w, c.calls[written[i].k], written[i].k))
    && (forall i, j :: 0 <= i < j < |written| ==> written[i].k != written[j].k)
  }

  /** Each frame written is still on its way or was parsed by the server, once. */
  ghost predicate Accounted(written: seq<Write>, asked: seq<RpcRequest>, parsed: seq<RpcRequest>) {
    multiset(Requests(written)) == multiset(asked) + multiset(parsed)
  }

  ghost predicate Once(w: World, s: System) {
    && WritesOk(w, s.client, s.written) && Accounted(s.written, s.asked, s.server.parsed)
    && StartedOnce(s.server)
  }

  /** The calls made stay what they were, and what they have written stays written. */
  ghost predicate Follows(c: Client, c': Client) {
    && |c.calls| <= |c'.calls|
    && forall k :: 0 <= k < |c.calls| ==>
         && c'.calls[k].service == c.calls[k].service && c'.calls[k].methodName == c.calls[k].methodName
         && c'.calls[k].msg == c.calls[k].msg && (HasWritten(c.calls[k]) ==> HasWritten(c'.calls[k]))
  }

  lemma CallerFollows(w: World, s: System, e: Event)
    requires ClientInv(w, s.client) && Enabled(w, s, e)
    requires OnCaller(e)
    ensures Follows(s.client, Next(w, s, e).client)
  {
  }

  lemma MatchFollows(w: World, c: Client, r: RpcResponse)
    requires ClientInv(w, c)
    ensures Follows(c, Match(c, r))
  {
  }

  lemma ReaderFollows(w: World, s: System, e: Event)
    requires ClientInv(w, s.client) && Enabled(w, s, e)
    requires !OnServer(e) && !OnCaller(e)
    ensures Follows(s.client, Next(w, s, e).client)
    ensures Next(w, s, e).server == s.server && Next(w, s, e).written == s.written && Next(w, s, e).asked == s.asked
  {
    if e.ClientDecodes? && Peel(s.buf, false).Frame? && w.parseResponse(Peel(s.buf, false).body).Some? {
      MatchFollows(w, s.client, w.parseResponse(Peel(s.buf, false).body).value);
    }
  }

  lemma FollowsWrites(w: World, c: Client, c': Client, written: seq<Write>)
    requires WritesOk(w, c, written) && Follows(c, c')
    ensures WritesOk(w, c', written)
  {
  }

  lemma AccountedMoves(written: seq<Write>, asked: seq<RpcRequest>, parsed: seq<RpcRequest>, x: Write)
    requires Accounted(written, asked, parsed)
    ensures Accounted(written + [x], asked + [x.req], parsed)
    ensures asked != [] ==> Accounted(written, asked[1..], parsed + [asked[0]])
  {
    assert Requests(written + [x]) == Requests(written) + [x.req];
    if asked != [] {
      assert asked == [asked[0]] + asked[1..];
    }
  }

  lemma CallerOnce(w: World, s: System, e: Event)
    requires ClientInv(w, s.client) && Once(w, s) && Enabled(w, s, e)
    requires OnCaller(e)
    ensures Once(w, Next(w, s, e))
  {
    var s' := Next(w, s, e);
    CallerFollows(w, s, e);
    FollowsWrites(w, s.client, s'.client, s.written);
    if e.CallWrites? && e.ok {
      var x := Write(e.k, RequestOf(w, s.client.calls[e.k], e.k));
      assert s'.written == s.written + [x];
      AccountedMoves(s.written, s.asked, s.server.parsed, x);
    }
  }

  /** What a server event does to the records. */
  lemma ServerRecords(w: World, s: System, e: Event)
    requires Faithful(w) && UpStream(w, s.held, s.up, s.asked) && Enabled(w, s, e) && OnServer(e)
    requires StartedOnce(s.server)
    ensures var s' := Next(w, s, e);
            && s'.client == s.client && s'.written == s.written && StartedOnce(s'.server)
            && if e.ServerDecodes?
               then s.asked != [] && s'.asked == s.asked[1..] && s'.server.parsed == s.server.parsed + [s.asked[0]]
               else s'.asked == s.asked && s'.server.parsed == s.server.parsed
  {
    match e
    case ServerDecodes(_) =>
      DecodedRequest(w, s);
      FrameQueues(w, s.server, Peel(s.held, true).body);
      StartedOnceStep(w, s.server, RpcServer.Frame(Peel(s.held, true).body));
    case WorkerStarts => StartedOnceStep(w, s.server, WorkerTakes);
    case WorkerEnds(i, o) => StartedOnceStep(w, s.server, WorkerDone(i, o));
    case LoopReplies(_) => StartedOnceStep(w, s.server, FunctorRuns);
    case _ =>
  }

  lemma OnceStep(w: World, s: System, e: Event, s': System)
    requires Faithful(w) && Inv(w, s) && Once(w, s) && Step(w, s, e, s')
    ensures Once(w, s')
  {
    if OnServer(e) {
      ServerRecords(w, s, e);
      AccountedMoves(s.written, s.asked, s.server.parsed, Write(0, RpcRequest("", "", 0, [])));
    } else if OnCaller(e) {
      CallerOnce(w, s, e);
    } else {
      ReaderFollows(w, s, e);
      FollowsWrites(w, s.client, s'.client, s.written);
    }
  }

  lemma {:induction false} RunKeepsOnce(w: World, systems: seq<System>, events: seq<Event>, i: nat)
    requires Faithful(w) && IsRun(w, systems, events) && i <= |events|
    ensures Once(w, systems[i])
  {
    if i > 0 {
      var p := i - 1;
      RunKeepsOnce(w, systems, events, p);
      RunKeepsInv(w, systems, events, p);
      assert Step(w, systems[p], events[p], systems[p + 1]);
      OnceStep(w, systems[p], events[p], systems[i]);
    }
  }

  lemma CountTwice<T>(s: seq<T>, a: nat, b: nat)
    requires a < b < |s| && s[a] == s[b]
    ensures multiset(s)[s[a]] >= 2
  {
    assert s == s[..a] + [s[a]] + s[a + 1..b] + [s[b]] + s[b + 1..];
  }

  lemma {:induction false} CountAtMostOnce<T>(s: seq<T>, x: T)
    requires forall i, j :: 0 <= i < j < |s| ==> s[i] != s[j]
    ensures multiset(s)[x] <= 1
  {
    if s != [] {
      var n := |s| - 1;
      CountAtMostOnce(s[..n], x);
      assert s == s[..n] + [s[n]];
      assert s[n] !in s[..n];
    }
  }

  lemma OneWriteEach(w: World, c: Client, written: seq<Write>)
    requires WritesOk(w, c, written) && |c.calls| <= WORD
    ensures forall i, j :: 0 <= i < j < |written| ==> Requests(written)[i] != Requests(written)[j]
  {
    forall i, j | 0 <= i < j < |written|
      ensures Requests(written)[i] != Requests(written)[j]
    {
      var k, l := written[i].k, written[j].k;
      if k < l {
        IdsDiffer(k, l);
      } else {
        IdsDiffer(l, k);
      }
    }
  }

  /** In every interleaving the service executes only requests that calls have written, no request more
      often than it was written, and none twice as long as the ids have not wrapped. */
  lemma ExecutedAtMostOnce(w: World, systems: seq<System>, events: seq<Event>, i: nat, a: nat)
    requires Faithful(w) && IsRun(w, systems, events) && i <= |events| && a < |systems[i].server.executed|
    ensures var c, q := systems[i].client, systems[i].server.executed[a].req;
            exists k :: 0 <= k < |c.calls| && HasWritten(c.calls[k]) && q == RequestOf(w, c.calls[k], k)
    ensures multiset(Executed(systems[i].server.executed)) <= multiset(Requests(systems[i].written))
    ensures |systems[i].client.calls| <= WORD ==>
              forall b :: 0 <= b < |systems[i].server.executed| && b != a ==>
                            systems[i].server.executed[b].req != systems[i].server.executed[a].req
  {
    RunKeepsOnce(w, systems, events, i);
    var s := systems[i];
    var done, wrote := Executed(s.server.executed), Requests(s.written);
    assert multiset(done) <= multiset(s.server.parsed) <= multiset(wrote);
    assert done[a] in multiset(done) && done[a] in multiset(wrote);
    var j :| 0 <= j < |wrote| && wrote[j] == done[a];
    assert s.written[j].req == done[a];
    if |s.client.calls| <= WORD {
      OneWriteEach(w, s.client, s.written);
      forall b | 0 <= b < |done| && b != a
        ensures done[b] != done[a]
      {
        if done[b] == done[a] {
          CountAtMostOnce(wrote, done[a]);
          CountTwice(done, if a < b then a else b, if a < b then b else a);
        }
      }
    }
  }

  // ---------- Replies come from executions of the call's own request ----------

  /** The same world, in which only the given executions are possible. */
  ghost function Only(w: World, done: seq<Execution>): World {
    w.(serves := (q, o) => Execution(q, o) in done)
  }

  lemma ExecutedStep(w: World, s: System, e: Event, s': System)
    requires Step(w, s, e, s')
    ensures s.server.executed <= s'.server.executed
    ensures e.WorkerEnds? ==> Execution(s.server.running[e.i].req, e.outcome) in s'.server.executed
  {
    if e.ServerDecodes? {
      FrameQueues(w, s.server, Peel(s.held, true).body);
    }
  }

  lemma {:induction false} ExecutedGrows(w: World, systems: seq<System>, events: seq<Event>, j: nat, i: nat)
    requires IsRun(w, systems, events) && j <= i <= |events|
    ensures systems[j].server.executed <= systems[i].server.executed
    decreases i
  {
    if j < i {
      ExecutedGrows(w, systems, events, j, i - 1);
      assert Step(w, systems[i - 1], events[i - 1], systems[i - 1 + 1]);
      ExecutedStep(w, systems[i - 1], events[i - 1], systems[i]);
    }
  }

  lemma ServerNextElsewhere(w: World, done: seq<Execution>, s: Server, e: RpcServer.Event)
    requires RpcServer.Enabled(w, s, e) && (e.WorkerDone? ==> Execution(s.running[e.i].req, e.outcome) in done)
    ensures RpcServer.Enabled(Only(w, done), s, e) && RpcServer.Next(Only(w, done), s, e) == RpcServer.Next(w, s, e)
  {
  }

  lemma ServerStepElsewhere(w: World, done: seq<Execution>, s: System, e: Event, s': System)
    requires Step(w, s, e, s') && OnServer(e)
    requires e.WorkerEnds? ==> Execution(s.server.running[e.i].req, e.outcome) in done
    ensures Step(Only(w, done), s, e, s')
  {
    match e
    case ServerDecodes(_) => ServerNextElsewhere(w, done, s.server, RpcServer.Frame(Peel(s.held, true).body));
    case WorkerStarts => ServerNextElsewhere(w, done, s.server, WorkerTakes);
    case WorkerEnds(i, o) => ServerNextElsewhere(w, done, s.server, WorkerDone(i, o));
    case LoopReplies(_) => ServerNextElsewhere(w, done, s.server, FunctorRuns);
    case _ =>
  }

  lemma CallerStepElsewhere(w: World, done: seq<Execution>, s: System, e: Event, s': System)
    requires Step(w, s, e, s') && OnCaller(e)
    ensures Step(Only(w, done), s, e, s')
  {
  }

  /** A step does not depend on which executions are possible, but that its own is. */
  lemma StepElsewhere(w: World, done: seq<Execution>, s: System, e: Event, s': System)
    requires Step(w, s, e, s')
    requires e.WorkerEnds? ==> Execution(s.server.running[e.i].req, e.outcome) in done
    ensures Step(Only(w, done), s, e, s')
  {
    if OnServer(e) {
      ServerStepElsewhere(w, done, s, e, s');
    } else if OnCaller(e) {
      CallerStepElsewhere(w, done, s, e, s');
    }
  }

  lemma RunElsewhere(w: World, systems: seq<System>, events: seq<Event>, i: nat)
    requires IsRun(w, systems, events) && i <= |events|
    ensures IsRun(Only(w, systems[i].server.executed), systems[..i + 1], events[..i])
  {
    var done := systems[i].server.executed;
    forall j | 0 <= j < i
      ensures Step(Only(w, done), systems[..i + 1][j], events[..i][j], systems[..i + 1][j + 1])
    {
      assert Step(w, systems[j], events[j], systems[j + 1]);
      ExecutedStep(w, systems[j], events[j], systems[j + 1]);
      ExecutedGrows(w, systems, events, j + 1, i);
      StepElsewhere(w, done, systems[j], events[j], systems[j + 1]);
    }
  }

  // ---------- The server's connection in the composition ----------

  /** The operations that befell the connection, apart from sends, in order. */
  function Befallen(events: seq<Event>, i: nat): seq<TcpConnection.Op>
    requires i <= |events|
  {
    if i == 0 then []
    else Befallen(events, i - 1) + if events[i - 1].ConnectionSteps? then [events[i - 1].op] else []
  }

  function NotSends(ops: seq<TcpConnection.Op>): seq<TcpConnection.Op> {
    if ops == [] then []
    else
      var before, last := NotSends(ops[..|ops| - 1]), ops[|ops| - 1];
      if last.SendOp? then before else before + [last]
  }

  lemma NotSendsSnoc(ops: seq<TcpConnection.Op>, op: TcpConnection.Op)
    ensures NotSends(ops + [op]) == NotSends(ops) + if op.SendOp? then [] else [op]
  {
    assert (ops + [op])[..|ops|] == ops;
  }

  /** What an event of the composition is to the connection: nothing, a send of a reply, or the operation
      it names. */
  lemma ConnectionFollows(w: World, s: System, e: Event, s': System) returns (op: Option<TcpConnection.Op>)
    requires Step(w, s, e, s')
    ensures match op
            case None => s'.conn == s.conn && !e.ConnectionSteps?
            case Some(x) => TcpConnection.Step(s.conn, x, s'.conn) && (if e.ConnectionSteps? then x == e.op else x.SendOp?)
  {
    op := None;
    match e {
      case ConnectionSteps(x) => op := Some(x);
      case ServerDecodes(r) =>
        var out := Fresh(s.server, OnFrame(w, s.server, Peel(s.held, true).body));
        if out != [] {
          op := Some(TcpConnection.SendOp(Encode(ReplyBody(w, out[0])), true, r));
        }
      case LoopReplies(r) =>
        var out := Fresh(s.server, RpcServer.Next(w, s.server, FunctorRuns));
        if out != [] {
          op := Some(TcpConnection.SendOp(Encode(ReplyBody(w, out[0])), true, r));
        }
      case _ =>
    }
  }

  lemma EstablishedRun(op: TcpConnection.Op) returns (conns: seq<TcpConnection.Conn>, ops: seq<TcpConnection.Op>)
    requires op.EstablishOp?
    ensures TcpConnection.IsRun(conns, ops) && conns[|ops|] == ESTABLISHED && NotSends(ops) == [op]
  {
    conns, ops := [TcpConnection.NEW_CONN, ESTABLISHED], [op];
    assert TcpConnection.Step(TcpConnection.NEW_CONN, op, ESTABLISHED);
    NotSendsOne(ops);
  }

  lemma NotSendsOne(ops: seq<TcpConnection.Op>)
    requires |ops| == 1 && !ops[0].SendOp?
    ensures NotSends(ops) == ops
  {
    var none := ops[..0];
    assert NotSends(none) == [] && [] + [ops[0]] == ops;
  }

  lemma MoreBefallen(befallen: seq<TcpConnection.Op>, op: TcpConnection.Op)
    ensures ([TcpConnection.EstablishOp] + befallen) + [op] == [TcpConnection.EstablishOp] + (befallen + [op])
    ensures befallen + [] == befallen
  {
  }

  /** In every run of the composition the connection goes through a run of its own: established, then
      exactly the operations that befell it with the sends of replies between them. So everything
      proved of a connection's runs holds of it. */
  lemma {:induction false} ConnectionRun(w: World, systems: seq<System>, events: seq<Event>, i: nat)
    returns (conns: seq<TcpConnection.Conn>, ops: seq<TcpConnection.Op>)
    requires IsRun(w, systems, events) && i <= |events|
    ensures TcpConnection.IsRun(conns, ops) && conns[|ops|] == systems[i].conn
    ensures NotSends(ops) == [TcpConnection.EstablishOp] + Befallen(events, i)
  {
    if i == 0 {
      conns, ops := EstablishedRun(TcpConnection.EstablishOp);
      assert [TcpConnection.EstablishOp] + [] == [TcpConnection.EstablishOp];
    } else {
      var p := i - 1;
      conns, ops := ConnectionRun(w, systems, events, p);
      var op := ConnectionFollows(w, systems[p], events[p], systems[p + 1]);
      if op.Some? {
        TcpConnection.RunGrows(conns, ops, op.value, systems[i].conn);
        NotSendsSnoc(ops, op.value);
        MoreBefallen(Befallen(events, p), op.value);
        conns, ops := conns + [systems[i].conn], ops + [op.value];
      }
    }
  }

  // ---------- Main results ----------

  /** The server has executed `q` with outcome `o`. */
  predicate Ran(s: System, q: RpcRequest, o: Outcome) {
    Execution(q, o) in s.server.executed
  }

  /** What a call may hold, by how far it has come: `q` is its own request. */
  ghost predicate OwnOutcome(w: World, s: System, x: Call, q: RpcRequest) {
    match x.outcome
    case None => true
    case Some(Garbled) => false
    case Some(Replied(m)) =>
      && x.phase == Matched && x.service in w.services && x.methodName in w.services[x.service] && Ran(s, q, Done(m))
    case Some(Failure(text)) =>
      match x.phase
      case Aborted => text == "write failed"
      case Matched =>
        if x.service !in w.services then text == "service not found: " + x.service
        else if x.methodName !in w.services[x.service] then text == "method not found: " + x.methodName
        else Ran(s, q, Failed(text))
      case _ => text == "connection closed" && s.client.reader == Stopped && InTable(x)
  }

  /** In every interleaving, at every moment, for every call: a reply it holds is the outcome of an
      execution of its own request, never unparsed; a failure is its own write's, or the closing of the
      connection before it was answered, or the error the server has for its own request, or the
      failure of an execution of it. */
  lemma CallsGetTheirOwnAnswers(w: World, systems: seq<System>, events: seq<Event>, i: nat, k: nat)
    requires Faithful(w) && IsRun(w, systems, events) && i <= |events| && k < |systems[i].client.calls|
    ensures var x := systems[i].client.calls[k]; OwnOutcome(w, systems[i], x, RequestOf(w, x, k))
  {
    var only := Only(w, systems[i].server.executed);
    RunElsewhere(w, systems, events, i);
    RunKeepsInv(only, systems[..i + 1], events[..i], i);
    var c := systems[i].client;
    assert CallOk(only, c.calls[k], k, c.reader);
  }

  /** In every interleaving each call is matched to at most one response, its closure runs at most once
      and only if it has one, and a synchronous caller has left only with its outcome recorded. */
  lemma EachCallCompletesOnce(w: World, systems: seq<System>, events: seq<Event>, i: nat, k: nat)
    requires Faithful(w) && IsRun(w, systems, events) && i <= |events| && k < |systems[i].client.calls|
    ensures var x := systems[i].client.calls[k];
            && x.matches <= 1 && x.closures <= (if x.async then 1 else 0)
            && (x.closures == 1 ==> x.outcome.Some?)
            && (x.returned && !x.async ==> x.outcome.Some?)
  {
    RunKeepsInv(w, systems, events, i);
    var c := systems[i].client;
    assert CallOk(w, c.calls[k], k, c.reader);
  }

  // ---------- Release when the reader stops ----------

  /** After the reader stopped at `before`, an unresolved call has its flag exactly if the reader swept and
      the call was in the table then. */
  ghost predicate ReleasedFrom(before: Client, swept: bool, c: Client) {
    && c.reader == Stopped && |before.calls| <= |c.calls|
    && forall k :: 0 <= k < |c.calls| && Unresolved(c.calls[k]) ==>
         (c.calls[k].flag <==> swept && k < |before.calls| && InTable(before.calls[k]))
  }

  /** While the reader is at work no unresolved call has its flag. */
  lemma NoFlagWhileReading(w: World, c: Client, k: nat)
    requires ClientInv(w, c) && c.reader == Reading && k < |c.calls| && Unresolved(c.calls[k])
    ensures !c.calls[k].flag
  {
    assert CallOk(w, c.calls[k], k, c.reader);
  }

  lemma SweepReleases(w: World, c: Client)
    requires ClientInv(w, c) && c.reader == Reading
    ensures ReleasedFrom(c, true, Sweep(c)) && ReleasedFrom(c, false, Quit(c))
  {
    SweepOk(w, c);
    forall k | 0 <= k < |c.calls| && Unresolved(c.calls[k])
      ensures !c.calls[k].flag
    {
      NoFlagWhileReading(w, c, k);
    }
  }

  /** The reader stops at step `j`, in whatever way. */
  ghost predicate ReaderStops(systems: seq<System>, j: nat)
    requires j + 1 < |systems|
  {
    systems[j].client.reader != Stopped && systems[j + 1].client.reader == Stopped
  }

  lemma StopIs(w: World, s: System, e: Event, s': System)
    requires Step(w, s, e, s') && s.client.reader != Stopped && s'.client.reader == Stopped
    ensures s.client.reader == Reading
    ensures s'.client == if e.ReaderSweeps? then Sweep(s.client) else Quit(s.client)
  {
  }

  lemma ReleasedStep(w: World, before: Client, swept: bool, s: System, e: Event)
    requires ReleasedFrom(before, swept, s.client) && Enabled(w, s, e)
    ensures ReleasedFrom(before, swept, Next(w, s, e).client)
  {
  }

  lemma {:induction false} ReleasedAlong(w: World, systems: seq<System>, events: seq<Event>, j: nat, i: nat)
    requires Faithful(w) && IsRun(w, systems, events) && j < i <= |events| && ReaderStops(systems, j)
    ensures ReleasedFrom(systems[j].client, events[j].ReaderSweeps?, systems[i].client)
    decreases i
  {
    var p := i - 1;
    assert Step(w, systems[p], events[p], systems[p + 1]);
    if j == p {
      RunKeepsInv(w, systems, events, j);
      StopIs(w, systems[j], events[j], systems[j + 1]);
      SweepReleases(w, systems[j].client);
    } else {
      ReleasedAlong(w, systems, events, j, p);
      ReleasedStep(w, systems[j].client, events[j].ReaderSweeps?, systems[p], events[p]);
    }
  }

  /** Exactly when: if the reader stops at step `j`, in whatever way, then at every later point a
      synchronous caller that has written its request and got no answer may return if and only if the
      reader stopped by a sweep and the call was in the pending table then. */
  lemma ReleasedIffInTable(w: World, systems: seq<System>, events: seq<Event>, j: nat, i: nat, k: nat)
    requires Faithful(w) && IsRun(w, systems, events) && j < i <= |events| && ReaderStops(systems, j)
    requires At(systems[i].client, k, Sent) && !systems[i].client.calls[k].async
    ensures MayWake(systems[i].client, k) <==>
              events[j].ReaderSweeps? && k < |systems[j].client.calls| && InTable(systems[j].client.calls[k])
  {
    ReleasedAlong(w, systems, events, j, i);
  }

  /** The failing case: with the reader gone, a call that enters the table and whose write succeeds is not
      released. */
  lemma LateCall(w: World, s: System, k: nat)
    requires s.client.reader == Stopped && At(s.client, k, Allocated) && !s.client.calls[k].flag
    requires Fits(w.packRequest(RequestOf(w, s.client.calls[k], k)), true)
    ensures Enabled(w, s, CallPublishes(k)) && Enabled(w, Next(w, s, CallPublishes(k)), CallWrites(k, true))
    ensures var s' := Next(w, Next(w, s, CallPublishes(k)), CallWrites(k, true));
            At(s'.client, k, Sent) && s'.client.calls[k].async == s.client.calls[k].async && !MayWake(s'.client, k)
  {
  }

  lemma SweptStart(w: World, service: string, methodName: string, msg: Message)
    ensures var call := CallStarts(service, methodName, msg, false);
            var s := Next(w, START, call);
            && Enabled(w, s, ReaderSweeps)
            && (var c := Next(w, s, ReaderSweeps).client;
                && c.reader == Stopped && At(c, 0, Allocated) && !c.calls[0].flag && !c.calls[0].async
                && RequestOf(w, c.calls[0], 0) == RpcRequest(service, methodName, 1, w.pack(msg)))
  {
  }

  lemma RunSnoc(w: World, systems: seq<System>, events: seq<Event>, e: Event, s: System)
    requires IsRun(w, systems, events) && Step(w, systems[|events|], e, s)
    ensures IsRun(w, systems + [s], events + [e])
  {
    forall i | 0 <= i < |events| + 1
      ensures Step(w, (systems + [s])[i], (events + [e])[i], (systems + [s])[i + 1])
    {
      if i < |events| {
        assert Step(w, systems[i], events[i], systems[i + 1]);
      }
    }
  }

  /** It is real: a call that passed the connection check before the sweep enters the table after it. */
  lemma LateCallIsStranded(w: World, service: string, methodName: string, msg: Message)
    requires Fits(w.packRequest(RpcRequest(service, methodName, 1, w.pack(msg))), true)
    ensures exists systems: seq<System>, events: seq<Event> ::
              && IsRun(w, systems, events) && |events| == 4 && events[1].ReaderSweeps?
              && At(systems[4].client, 0, Sent) && !systems[4].client.calls[0].async
              && !MayWake(systems[4].client, 0)
  {
    var call := CallStarts(service, methodName, msg, false);
    SweptStart(w, service, methodName, msg);
    var s1 := Next(w, START, call);
    var s2 := Next(w, s1, ReaderSweeps);
    RunSnoc(w, [START], [], call, s1);
    RunSnoc(w, [START] + [s1], [] + [call], ReaderSweeps, s2);
    LateCallRun(w, [START] + [s1] + [s2], [] + [call] + [ReaderSweeps]);
  }

  lemma LateCallRun(w: World, systems: seq<System>, events: seq<Event>)
    requires IsRun(w, systems, events) && |events| == 2 && events[1].ReaderSweeps?
    requires var c := systems[2].client; c.reader == Stopped && At(c, 0, Allocated) && !c.calls[0].flag && !c.calls[0].async
    requires Fits(w.packRequest(RequestOf(w, systems[2].client.calls[0], 0)), true)
    ensures exists systems': seq<System>, events': seq<Event> ::
              && IsRun(w, systems', events') && |events'| == 4 && events'[1].ReaderSweeps?
              && At(systems'[4].client, 0, Sent) && !systems'[4].client.calls[0].async
              && !MayWake(systems'[4].client, 0)
  {
    LateCall(w, systems[2], 0);
    var s3 := Next(w, systems[2], CallPublishes(0));
    var s4 := Next(w, s3, CallWrites(0, true));
    RunSnoc(w, systems, events, CallPublishes(0), s3);
    RunSnoc(w, systems + [s3], events + [CallPublishes(0)], CallWrites(0, true), s4);
    assert (systems + [s3] + [s4])[4] == s4 && (events + [CallPublishes(0)] + [CallWrites(0, true)])[1] == events[1];
  }
}
