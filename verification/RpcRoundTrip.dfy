/** What a call comes to, told without the client's and server's own functions: the frame it writes, the
    answer it gets, and that from any reachable state at rest it completes. */
module RpcRoundTrip {

  import opened Basics
  import opened Wire
  import TcpConnection
  import opened RpcServer
  import opened RpcClient
  import opened RpcSystem

  // ---------- Calls are what their callers asked for ----------

  /** The calls started by the first `i` events, in order. */
  function Starts(events: seq<RpcSystem.Event>, i: nat): (starts: seq<RpcSystem.Event>)
    requires i <= |events|
    ensures forall k :: 0 <= k < |starts| ==> starts[k].CallStarts?
  {
    if i == 0 then []
    else if events[i - 1].CallStarts? then Starts(events, i - 1) + [events[i - 1]]
    else Starts(events, i - 1)
  }

  ghost predicate AsStarted(x: Call, e: RpcSystem.Event)
    requires e.CallStarts?
  {
    x.service == e.service && x.methodName == e.methodName && x.msg == e.msg && x.async == e.async
  }

  /** A client's calls stay those that were started. */
  ghost predicate SameCalls(c: Client, c': Client) {
    && |c'.calls| == |c.calls|
    && forall k :: 0 <= k < |c.calls| ==>
         && c'.calls[k].service == c.calls[k].service && c'.calls[k].methodName == c.calls[k].methodName
         && c'.calls[k].msg == c.calls[k].msg && c'.calls[k].async == c.calls[k].async
  }

  lemma CallerKeepsCalls(w: World, s: System, e: RpcSystem.Event, s': System)
    requires RpcSystem.Step(w, s, e, s') && OnCaller(e) && !e.CallStarts?
    ensures SameCalls(s.client, s'.client)
  {
  }

  lemma ReaderKeepsCalls(w: World, s: System, e: RpcSystem.Event, s': System)
    requires RpcSystem.Step(w, s, e, s') && !OnCaller(e)
    ensures SameCalls(s.client, s'.client)
  {
  }

  lemma StartAddsCall(w: World, s: System, e: RpcSystem.Event, s': System)
    requires RpcSystem.Step(w, s, e, s') && e.CallStarts?
    ensures |s'.client.calls| == |s.client.calls| + 1 && s'.client.calls[..|s.client.calls|] == s.client.calls
    ensures AsStarted(s'.client.calls[|s.client.calls|], e)
  {
  }

  /** At every point of every run the calls are those started, in order, with what their callers gave. */
  lemma {:induction false} CallsAreAsStarted(w: World, systems: seq<System>, events: seq<RpcSystem.Event>, i: nat)
    requires RpcSystem.IsRun(w, systems, events) && i <= |events|
    ensures |systems[i].client.calls| == |Starts(events, i)|
    ensures forall k :: 0 <= k < |Starts(events, i)| ==> AsStarted(systems[i].client.calls[k], Starts(events, i)[k])
  {
    if i > 0 {
      var p := i - 1;
      CallsAreAsStarted(w, systems, events, p);
      assert RpcSystem.Step(w, systems[p], events[p], systems[p + 1]);
      if events[p].CallStarts? {
        StartAddsCall(w, systems[p], events[p], systems[i]);
        assert forall k :: 0 <= k < |systems[p].client.calls| ==>
                             systems[i].client.calls[k] == systems[i].client.calls[..|systems[p].client.calls|][k];
      } else if OnCaller(events[p]) {
        CallerKeepsCalls(w, systems[p], events[p], systems[i]);
      } else {
        ReaderKeepsCalls(w, systems[p], events[p], systems[i]);
      }
    }
  }

  /** A request says what was started: service, method, the id of the `k`-th allocation, and arguments
      that parse to the caller's message. */
  ghost predicate Asks(w: World, q: RpcRequest, e: RpcSystem.Event, k: nat)
    requires e.CallStarts?
  {
    && q.service == e.service && q.methodName == e.methodName
    && q.id == (k + 1) % 0x1_0000_0000 && w.parse(q.args) == Some(e.msg)
  }

  /** In every run, the bytes that call `k` writes are one frame, whose body parses to a request that says
      what call `k` was started with. */
  lemma WrittenFrameIsTheCall(w: World, systems: seq<System>, events: seq<RpcSystem.Event>, i: nat, k: nat)
    requires Faithful(w) && RpcSystem.IsRun(w, systems, events) && i < |events| && events[i] == CallWrites(k, true)
    ensures k < |Starts(events, i)| && |systems[i].up| <= |systems[i + 1].up|
    ensures var bytes := systems[i + 1].up[|systems[i].up|..];
            && systems[i].up <= systems[i + 1].up && Peel(bytes, true).Frame? && Peel(bytes, true).rest == []
            && w.parseRequest(Peel(bytes, true).body).Some?
            && Asks(w, w.parseRequest(Peel(bytes, true).body).value, Starts(events, i)[k], k)
  {
    CallsAreAsStarted(w, systems, events, i);
    assert RpcSystem.Step(w, systems[i], events[i], systems[i + 1]);
    var body := w.packRequest(RequestOf(w, systems[i].client.calls[k], k));
    PeelEncoded(body, [], true);
    assert Encode(body) + [] == Encode(body);
    assert systems[i + 1].up == systems[i].up + Encode(body);
    assert systems[i + 1].up[|systems[i].up|..] == Encode(body);
  }

  /** In every run, a reply that call `k` holds is the outcome of an execution of a request that says what
      call `k` was started with. */
  lemma ReplyIsOfTheCall(w: World, systems: seq<System>, events: seq<RpcSystem.Event>, i: nat, k: nat)
    requires Faithful(w) && RpcSystem.IsRun(w, systems, events) && i <= |events| && k < |systems[i].client.calls|
    ensures k < |Starts(events, i)|
    ensures var x := systems[i].client.calls[k];
            x.outcome.Some? && x.outcome.value.Replied? ==>
              exists q :: Execution(q, Done(x.outcome.value.m)) in systems[i].server.executed
                          && Asks(w, q, Starts(events, i)[k], k)
  {
    CallsAreAsStarted(w, systems, events, i);
    CallsGetTheirOwnAnswers(w, systems, events, i, k);
    var x := systems[i].client.calls[k];
    if x.outcome.Some? && x.outcome.value.Replied? {
      var q := RequestOf(w, x, k);
      assert Execution(q, Done(x.outcome.value.m)) in systems[i].server.executed && Asks(w, q, Starts(events, i)[k], k);
    }
  }

  // ---------- A call is made ----------

  /** From any state a call can be made: three events later it is sent, the frame of exactly its request is
      behind what was in transit, and nothing else has changed. */
  lemma MakeCall(w: World, s: System, service: string, methodName: string, msg: Message, async: bool)
    returns (s1: System, s2: System, s3: System)
    requires Inv(w, s) && MayAllocate(s.client)
    requires Fits(w.packRequest(RpcRequest(service, methodName, (|s.client.calls| + 1) % WORD, w.pack(msg))), true)
    ensures var k := |s.client.calls|;
            && RpcSystem.Step(w, s, CallStarts(service, methodName, msg, async), s1)
            && RpcSystem.Step(w, s1, CallPublishes(k), s2) && RpcSystem.Step(w, s2, CallWrites(k, true), s3)
    ensures var k, q := |s.client.calls|, RpcRequest(service, methodName, (|s.client.calls| + 1) % WORD, w.pack(msg));
            && s3 == s.(client := s3.client, up := s.up + Encode(w.packRequest(q)), asked := s.asked + [q],
                        written := s3.written)
            && s3.client.calls == s.client.calls + [Call(service, methodName, msg, async, Sent, None, false, async, 0, 0)]
            && s3.client.pending == s.client.pending[q.id := k] && s3.client.reader == s.client.reader
  {
    var k := |s.client.calls|;
    s1 := RpcSystem.Next(w, s, CallStarts(service, methodName, msg, async));
    s2 := RpcSystem.Next(w, s1, CallPublishes(k));
    s3 := RpcSystem.Next(w, s2, CallWrites(k, true));
  }

  // ---------- A request is served ----------

  /** The response that reports an outcome. */
  function Reporting(w: World, q: RpcRequest, o: Outcome): RpcResponse {
    match o
    case Done(m) => RpcResponse(q.id, true, w.pack(m), "")
    case Failed(text) => RpcResponse(q.id, false, [], text)
  }

  /** Connected, with nothing to write and the write side open. */
  predicate Idle(c: TcpConnection.Conn) {
    c.state == TcpConnection.Connected && !c.writing && c.out == [] && !c.halfClosed
  }

  predicate ServerAtRest(s: Server) {
    s.tasks == [] && s.running == [] && s.functors == []
  }

  lemma RequestArrives(w: World, s: System, q: RpcRequest, m: Message) returns (s1: System, s2: System)
    requires Faithful(w) && s.held == [] && s.up == Encode(w.packRequest(q)) && s.asked == [q] && Fits(w.packRequest(q), true)
    requires q.service in w.services && q.methodName in w.services[q.service] && w.parse(q.args) == Some(m)
    ensures RpcSystem.Step(w, s, ServerReads(|s.up|), s1)
    ensures RpcSystem.Step(w, s1, ServerDecodes(TcpConnection.WouldBlock), s2)
    ensures s2 == s.(up := [], held := [], asked := [],
                     server := s.server.(parsed := s.server.parsed + [q], tasks := s.server.tasks + [Task(q, m)]))
  {
    var body := w.packRequest(q);
    s1 := RpcSystem.Next(w, s, ServerReads(|s.up|));
    assert s1.held == Encode(body) + [] && s1.up == [];
    PeelEncoded(body, [], true);
    assert Fresh(s.server, OnFrame(w, s.server, body)) == [];
    s2 := RpcSystem.Next(w, s1, ServerDecodes(TcpConnection.WouldBlock));
  }

  lemma RequestRuns(w: World, s: System, q: RpcRequest, m: Message, o: Outcome) returns (s1: System, s2: System)
    requires s.server.tasks == [Task(q, m)] && s.server.running == [] && w.serves(q, o)
    ensures RpcSystem.Step(w, s, WorkerStarts, s1) && RpcSystem.Step(w, s1, WorkerEnds(0, o), s2)
    ensures s2 == s.(server := s.server.(tasks := [], executed := s.server.executed + [Execution(q, o)],
                                         functors := s.server.functors + [Reply(q, Reporting(w, q, o))]))
  {
    s1 := RpcSystem.Next(w, s, WorkerStarts);
    assert s1.server.running == [Task(q, m)] && s1.server.tasks == [];
    s2 := RpcSystem.Next(w, s1, WorkerEnds(0, o));
    assert Without(s1.server.running, 0) == [];
  }

  /** A connection that is connected accepts exactly the frame of the reply; any other drops it. */
  lemma DeliverAccepts(w: World, s: System, j: Job, r: TcpConnection.WriteResult)
    requires Deliverable(w, s.conn, j, r) && j.Reply?
    ensures var s' := Deliver(w, s, j, r);
            if s.conn.state == TcpConnection.Connected
            then s'.conn.accepted == s.conn.accepted + Encode(w.packResponse(j.resp)) && s'.answered == s.answered + [j]
            else s' == s
  {
    TcpConnection.RecordsStep(s.conn, TcpConnection.SendOp(Encode(w.packResponse(j.resp)), true, r), Deliver(w, s, j, r).conn);
    assert s.conn.accepted + [] == s.conn.accepted;
  }

  lemma ReplyLeaves(w: World, s: System, j: Job) returns (s1: System)
    requires s.server.functors == [j] && j.Reply? && Idle(s.conn) && Fits(w.packResponse(j.resp), false)
    ensures RpcSystem.Step(w, s, LoopReplies(TcpConnection.Wrote(|Encode(w.packResponse(j.resp))|)), s1)
    ensures s1 == s.(server := s.server.(functors := [], sent := s.server.sent + [j]), conn := s1.conn,
                     answered := s.answered + [j])
    ensures Idle(s1.conn) && s1.conn.wire == s.conn.wire + Encode(w.packResponse(j.resp))
    ensures s1.conn.accepted == s.conn.accepted + Encode(w.packResponse(j.resp))
  {
    var e := LoopReplies(TcpConnection.Wrote(|Encode(w.packResponse(j.resp))|));
    assert Fresh(s.server, RpcServer.Next(w, s.server, FunctorRuns)) == [j];
    assert s.server.functors[1..] == [];
    s1 := RpcSystem.Next(w, s, e);
  }

  // ---------- A reply is delivered ----------

  /** What the caller finds for a response. */
  ghost predicate Says(w: World, r: RpcResponse, outcome: Option<CallResult>) {
    if r.success then exists m :: w.parse(r.result) == Some(m) && outcome == Some(Replied(m))
    else outcome == Some(Failure(r.error))
  }

  /** Before and after the delivery of a response to call `k`. */
  ghost predicate DeliveredTo(w: World, c: Client, c': Client, k: nat, r: RpcResponse)
    requires k < |c.calls|
  {
    && |c'.calls| == |c.calls| && c'.calls == c.calls[k := c'.calls[k]]
    && (var x, x' := c.calls[k], c'.calls[k];
        && x' == x.(phase := Matched, outcome := x'.outcome, flag := true, matches := x.matches + 1,
                    closures := x.closures + if x.async then 1 else 0)
        && Says(w, r, x'.outcome))
    && c'.pending == c.pending - {r.id} && c'.reader == Reading
  }

  lemma AnswerSays(w: World, q: RpcRequest, r: RpcResponse)
    requires Faithful(w) && Answers(w, q, r) && w.parse(q.args).Some?
    ensures Says(w, r, Some(ResultOf(w, r)))
  {
  }

  /** The reader's three steps with a matched call, on the client alone. */
  lemma ReaderDone(w: World, c: Client, k: nat, r: RpcResponse)
    requires c.reader == Holding(k, r) && k < |c.calls|
    ensures var c' := RunClosure(SetFlag(Record(w, c)));
            var x, x' := c.calls[k], c.calls[k].(outcome := Some(ResultOf(w, r)), flag := true,
                                                 closures := c.calls[k].closures + if c.calls[k].async then 1 else 0);
            c' == Client(c.calls[k := x'], c.pending, Reading)
  {
  }

  lemma ReaderFinishes(w: World, s: System, k: nat, r: RpcResponse)
    returns (s1: System, s2: System, s3: System)
    requires s.client.reader == Holding(k, r) && k < |s.client.calls|
    ensures RpcSystem.Step(w, s, ReaderRecords, s1) && RpcSystem.Step(w, s1, ReaderFlags, s2)
    ensures RpcSystem.Step(w, s2, ReaderRunsClosure, s3)
    ensures s3 == s.(client := RunClosure(SetFlag(Record(w, s.client))))
  {
    s1 := s.(client := Record(w, s.client));
    s2 := s.(client := SetFlag(s1.client));
    s3 := s.(client := RunClosure(s2.client));
  }

  /** The oldest reply on its way answers a request that a sent call expects. */
  lemma OldestExpected(w: World, s: System)
    requires Inv(w, s) && s.answered != []
    ensures AnswersItsRequest(w, s.answered[0]) && Expects(w, s.client, s.answered[0].req)
  {
    ReqsMoves(s.answered, s.answered[0], 0);
    assert s.answered[0].req in multiset(Reqs(s.answered));
    assert s.answered[0].req in Tokens(s);
  }

  lemma ClientDecodeIs(w: World, s: System, body: Bytes, rest: Bytes, r: RpcResponse) returns (s1: System)
    requires s.client.reader == Reading && Peel(s.buf, false) == Head.Frame(body, rest) && s.answered != []
    requires w.parseResponse(body) == Some(r)
    ensures RpcSystem.Step(w, s, ClientDecodes, s1)
    ensures s1 == s.(client := Match(s.client, r), buf := rest, answered := s.answered[1..])
  {
    s1 := RpcSystem.Next(w, s, ClientDecodes);
  }

  lemma ReplyMatches(w: World, s: System) returns (k: nat, s1: System)
    requires Faithful(w) && Inv(w, s) && s.client.reader == Reading && Peel(s.buf, false).Frame?
    ensures s.answered != [] && s.answered[0].Reply? && RpcSystem.Step(w, s, ClientDecodes, s1)
    ensures AnswersItsRequest(w, s.answered[0]) && Expects(w, s.client, s.answered[0].req)
    ensures k == s.client.pending[s.answered[0].req.id]
    ensures s1 == s.(client := Match(s.client, s.answered[0].resp), buf := Peel(s.buf, false).rest,
                     answered := s.answered[1..])
  {
    DecodedReply(w, s);
    OldestExpected(w, s);
    k := s.client.pending[s.answered[0].req.id];
    s1 := ClientDecodeIs(w, s, Peel(s.buf, false).body, Peel(s.buf, false).rest, s.answered[0].resp);
  }

  lemma MatchedThenDone(w: World, c: Client, q: RpcRequest, r: RpcResponse)
    requires Faithful(w) && ClientInv(w, c) && c.reader == Reading && Expects(w, c, q) && Answers(w, q, r)
    ensures var k, c1 := c.pending[q.id], Match(c, r);
            && c1.reader == Holding(k, r) && k < |c1.calls|
            && DeliveredTo(w, c, RunClosure(SetFlag(Record(w, c1))), k, r)
  {
    var k, c1 := c.pending[q.id], Match(c, r);
    MatchOk(w, c, q, r);
    ReaderDone(w, c1, k, r);
    AnswerSays(w, q, r);
  }

  /** From any state the system can be in: when the reader decodes and the frame at the front of its buffer
      is whole, four events deliver the oldest reply on its way to the call whose request it answers, which
      then has the outcome the response states, once, with its closure run if it has one; and a
      synchronous caller may return. */
  lemma ReplyIsDelivered(w: World, s: System) returns (k: nat, s1: System, s2: System, s3: System, s4: System)
    requires Faithful(w) && Inv(w, s) && s.client.reader == Reading && Peel(s.buf, false).Frame?
    ensures s.answered != [] && s.answered[0].Reply? && k < |s.client.calls|
    ensures RpcSystem.Step(w, s, ClientDecodes, s1) && RpcSystem.Step(w, s1, ReaderRecords, s2)
    ensures RpcSystem.Step(w, s2, ReaderFlags, s3) && RpcSystem.Step(w, s3, ReaderRunsClosure, s4)
    ensures s.answered[0].req == RequestOf(w, s.client.calls[k], k) && s.client.calls[k].phase == Sent
    ensures s.answered[0].req.id in s.client.pending && s.client.pending[s.answered[0].req.id] == k
    ensures s4 == s.(client := s4.client, buf := Peel(s.buf, false).rest, answered := s.answered[1..])
    ensures DeliveredTo(w, s.client, s4.client, k, s.answered[0].resp)
    ensures !s.client.calls[k].async ==> MayWake(s4.client, k)
  {
    k, s1 := ReplyMatches(w, s);
    var j := s.answered[0];
    MatchedThenDone(w, s.client, j.req, j.resp);
    s2, s3, s4 := ReaderFinishes(w, s1, k, j.resp);
  }

  // ---------- The whole round trip ----------

  /** Nothing on its way anywhere, and both sides able to go on. */
  predicate AtRest(s: System) {
    && s.up == [] && s.held == [] && s.buf == [] && s.asked == [] && s.answered == []
    && ServerAtRest(s.server) && Idle(s.conn) && s.read == |s.conn.wire| && s.client.reader == Reading
  }

  lemma Go(w: World, systems: seq<System>, events: seq<RpcSystem.Event>, e: RpcSystem.Event, s: System)
    returns (systems': seq<System>, events': seq<RpcSystem.Event>)
    requires RpcSystem.IsRun(w, systems, events) && RpcSystem.Step(w, systems[|events|], e, s)
    ensures RpcSystem.IsRun(w, systems', events') && systems'[|events'|] == s && systems <= systems' && events <= events'
  {
    RunSnoc(w, systems, events, e, s);
    systems', events' := systems + [s], events + [e];
  }

  lemma Go3(w: World, systems: seq<System>, events: seq<RpcSystem.Event>, e1: RpcSystem.Event, s1: System,
            e2: RpcSystem.Event, s2: System, e3: RpcSystem.Event, s3: System)
    returns (systems': seq<System>, events': seq<RpcSystem.Event>)
    requires RpcSystem.IsRun(w, systems, events) && RpcSystem.Step(w, systems[|events|], e1, s1)
    requires RpcSystem.Step(w, s1, e2, s2) && RpcSystem.Step(w, s2, e3, s3)
    ensures RpcSystem.IsRun(w, systems', events') && systems'[|events'|] == s3 && systems <= systems' && events <= events'
  {
    systems', events' := Go(w, systems, events, e1, s1);
    systems', events' := Go(w, systems', events', e2, s2);
    systems', events' := Go(w, systems', events', e3, s3);
  }

  /** From the written request to the reply on the wire. */
  lemma RequestIsServed(w: World, s: System, q: RpcRequest, m: Message, o: Outcome)
    returns (s1: System, s2: System, s3: System, s4: System, s5: System)
    requires Faithful(w) && s.held == [] && s.up == Encode(w.packRequest(q)) && s.asked == [q] && Fits(w.packRequest(q), true)
    requires q.service in w.services && q.methodName in w.services[q.service] && w.parse(q.args) == Some(m)
    requires ServerAtRest(s.server) && w.serves(q, o) && Idle(s.conn) && s.answered == []
    requires Fits(w.packResponse(Reporting(w, q, o)), false)
    ensures RpcSystem.Step(w, s, ServerReads(|s.up|), s1)
    ensures RpcSystem.Step(w, s1, ServerDecodes(TcpConnection.WouldBlock), s2)
    ensures RpcSystem.Step(w, s2, WorkerStarts, s3) && RpcSystem.Step(w, s3, WorkerEnds(0, o), s4)
    ensures RpcSystem.Step(w, s4, LoopReplies(TcpConnection.Wrote(|Encode(w.packResponse(Reporting(w, q, o)))|)), s5)
    ensures s5 == s.(up := [], held := [], asked := [], server := s5.server, conn := s5.conn,
                     answered := [Reply(q, Reporting(w, q, o))])
    ensures ServerAtRest(s5.server) && s5.server.executed == s.server.executed + [Execution(q, o)] && Idle(s5.conn)
    ensures s5.conn.wire == s.conn.wire + Encode(w.packResponse(Reporting(w, q, o)))
  {
    s1, s2 := RequestArrives(w, s, q, m);
    assert s2.server.tasks == [Task(q, m)];
    s3, s4 := RequestRuns(w, s2, q, m, o);
    assert s4.server.functors == [Reply(q, Reporting(w, q, o))];
    s5 := ReplyLeaves(w, s4, Reply(q, Reporting(w, q, o)));
  }

  /** The client reads what the wire holds for it. */
  lemma ReplyIsRead(w: World, s: System, wire: Bytes, body: Bytes) returns (s1: System)
    requires s.client.reader == Reading && s.buf == [] && s.read == |wire| && s.conn.wire == wire + Encode(body)
    requires Fits(body, false)
    ensures RpcSystem.Step(w, s, ClientReads(|Encode(body)|), s1)
    ensures s1 == s.(buf := Encode(body), read := |s.conn.wire|) && Peel(s1.buf, false) == Head.Frame(body, [])
  {
    s1 := RpcSystem.Next(w, s, ClientReads(|Encode(body)|));
    assert s.conn.wire[s.read..s.read + |Encode(body)|] == Encode(body);
    assert [] + Encode(body) == Encode(body);
    PeelEncoded(body, [], false);
    assert Encode(body) + [] == Encode(body);
  }

  lemma CallerWakes(w: World, s: System, k: nat) returns (s1: System)
    requires MayWake(s.client, k)
    ensures RpcSystem.Step(w, s, CallWakes(k), s1)
    ensures s1 == s.(client := s.client.(calls := s.client.calls[k := s.client.calls[k].(returned := true)]))
  {
    s1 := RpcSystem.Next(w, s, CallWakes(k));
  }

  /** What a completed call holds for an outcome of the service. */
  function Completed(service: string, methodName: string, msg: Message, async: bool, o: Outcome): Call {
    Call(service, methodName, msg, async, Matched,
         Some(match o case Done(m) => Replied(m) case Failed(text) => Failure(text)),
         true, true, 1, if async then 1 else 0)
  }

  /** `s'` is `s` with the call made. */
  ghost predicate Made(w: World, s: System, s': System, q: RpcRequest, sent: Call) {
    && s' == s.(client := s'.client, up := s.up + Encode(w.packRequest(q)), asked := s.asked + [q], written := s'.written)
    && s'.client.calls == s.client.calls + [sent]
    && s'.client.pending == s.client.pending[q.id := |s.client.calls|] && s'.client.reader == s.client.reader
  }

  lemma GoCall(w: World, systems: seq<System>, events: seq<RpcSystem.Event>,
               service: string, methodName: string, msg: Message, async: bool)
    returns (systems': seq<System>, events': seq<RpcSystem.Event>)
    requires Faithful(w) && RpcSystem.IsRun(w, systems, events) && MayAllocate(systems[|events|].client)
    requires var k := |systems[|events|].client.calls|;
             Fits(w.packRequest(RpcRequest(service, methodName, (k + 1) % WORD, w.pack(msg))), true)
    ensures RpcSystem.IsRun(w, systems', events') && systems <= systems' && events <= events'
    ensures var s := systems[|events|];
            Made(w, s, systems'[|events'|], RpcRequest(service, methodName, (|s.client.calls| + 1) % WORD, w.pack(msg)),
                 Call(service, methodName, msg, async, Sent, None, false, async, 0, 0))
  {
    var s := systems[|events|];
    RunKeepsInv(w, systems, events, |events|);
    var a1, a2, a3 := MakeCall(w, s, service, methodName, msg, async);
    systems', events' := Go3(w, systems, events, CallStarts(service, methodName, msg, async), a1,
                             CallPublishes(|s.client.calls|), a2, CallWrites(|s.client.calls|, true), a3);
  }

  /** `s` has exactly the request `q` in transit and is otherwise at rest. */
  predicate OnlyAsked(w: World, s: System, q: RpcRequest) {
    && s.held == [] && s.up == Encode(w.packRequest(q)) && s.asked == [q] && s.buf == [] && s.answered == []
    && ServerAtRest(s.server) && Idle(s.conn) && s.read == |s.conn.wire| && s.client.reader == Reading
  }

  /** `s'` is `s` with `q` served and its reply in the client's buffer. */
  ghost predicate Served(w: World, s: System, s': System, q: RpcRequest, o: Outcome) {
    && s' == s.(up := [], asked := [], server := s'.server, conn := s'.conn, read := |s'.conn.wire|,
                buf := Encode(w.packResponse(Reporting(w, q, o))), answered := [Reply(q, Reporting(w, q, o))])
    && ServerAtRest(s'.server) && s'.server.executed == s.server.executed + [Execution(q, o)] && Idle(s'.conn)
  }

  lemma GoServe(w: World, systems: seq<System>, events: seq<RpcSystem.Event>, q: RpcRequest, m: Message, o: Outcome)
    returns (systems': seq<System>, events': seq<RpcSystem.Event>)
    requires Faithful(w) && RpcSystem.IsRun(w, systems, events) && OnlyAsked(w, systems[|events|], q)
    requires q.service in w.services && q.methodName in w.services[q.service] && w.parse(q.args) == Some(m)
    requires w.serves(q, o) && Fits(w.packRequest(q), true) && Fits(w.packResponse(Reporting(w, q, o)), false)
    ensures RpcSystem.IsRun(w, systems', events') && systems <= systems' && events <= events'
    ensures Served(w, systems[|events|], systems'[|events'|], q, o)
  {
    var s := systems[|events|];
    var body := w.packResponse(Reporting(w, q, o));
    var b1, b2, b3, b4, b5 := RequestIsServed(w, s, q, m, o);
    systems', events' := Go3(w, systems, events, ServerReads(|s.up|), b1,
                             ServerDecodes(TcpConnection.WouldBlock), b2, WorkerStarts, b3);
    var c1 := ReplyIsRead(w, b5, s.conn.wire, body);
    systems', events' := Go3(w, systems', events', WorkerEnds(0, o), b4,
                             LoopReplies(TcpConnection.Wrote(|Encode(body)|)), b5, ClientReads(|Encode(body)|), c1);
  }

  /** `s` has exactly the reply `j` in the client's buffer and is otherwise at rest. */
  predicate OnlyAnswered(w: World, s: System, j: Job) {
    && j.Reply? && s.up == [] && s.held == [] && s.asked == [] && s.answered == [j]
    && s.buf == Encode(w.packResponse(j.resp)) && Fits(w.packResponse(j.resp), false)
    && ServerAtRest(s.server) && Idle(s.conn) && s.read == |s.conn.wire| && s.client.reader == Reading
  }

  lemma DeliverAtRest(w: World, s: System, j: Job) returns (k: nat, s1: System, s2: System, s3: System, s4: System)
    requires Faithful(w) && Inv(w, s) && OnlyAnswered(w, s, j)
    ensures RpcSystem.Step(w, s, ClientDecodes, s1) && RpcSystem.Step(w, s1, ReaderRecords, s2)
    ensures RpcSystem.Step(w, s2, ReaderFlags, s3) && RpcSystem.Step(w, s3, ReaderRunsClosure, s4)
    ensures j.req.id in s.client.pending && s.client.pending[j.req.id] == k < |s.client.calls|
    ensures s4 == s.(client := s4.client, buf := [], answered := []) && DeliveredTo(w, s.client, s4.client, k, j.resp)
    ensures !s.client.calls[k].async ==> MayWake(s4.client, k)
  {
    PeelEncoded(w.packResponse(j.resp), [], false);
    assert s.buf + [] == s.buf && s.answered[1..] == [];
    k, s1, s2, s3, s4 := ReplyIsDelivered(w, s);
  }

  lemma GoDeliver(w: World, systems: seq<System>, events: seq<RpcSystem.Event>, j: Job)
    returns (k: nat, systems': seq<System>, events': seq<RpcSystem.Event>)
    requires Faithful(w) && RpcSystem.IsRun(w, systems, events) && OnlyAnswered(w, systems[|events|], j)
    ensures RpcSystem.IsRun(w, systems', events') && systems <= systems' && events <= events'
    ensures var s, s' := systems[|events|], systems'[|events'|];
            && j.req.id in s.client.pending && s.client.pending[j.req.id] == k < |s.client.calls|
            && s' == s.(client := s'.client, buf := [], answered := [])
            && DeliveredTo(w, s.client, s'.client, k, j.resp)
            && (!s.client.calls[k].async ==> MayWake(s'.client, k))
  {
    RunKeepsInv(w, systems, events, |events|);
    var d1, d2, d3, d4;
    k, d1, d2, d3, d4 := DeliverAtRest(w, systems[|events|], j);
    systems', events' := Go(w, systems, events, ClientDecodes, d1);
    systems', events' := Go3(w, systems', events', ReaderRecords, d2, ReaderFlags, d3, ReaderRunsClosure, d4);
  }

  /** A synchronous caller that may return does. */
  lemma GoWake(w: World, systems: seq<System>, events: seq<RpcSystem.Event>, k: nat)
    returns (systems': seq<System>, events': seq<RpcSystem.Event>)
    requires RpcSystem.IsRun(w, systems, events) && MayWake(systems[|events|].client, k)
    ensures RpcSystem.IsRun(w, systems', events') && systems <= systems' && events <= events'
    ensures var s := systems[|events|];
            systems'[|events'|] ==
              s.(client := s.client.(calls := s.client.calls[k := s.client.calls[k].(returned := true)]))
  {
    var e1 := CallerWakes(w, systems[|events|], k);
    systems', events' := Go(w, systems, events, CallWakes(k), e1);
  }

  lemma DeliveredCompletes(w: World, c: Client, c': Client, service: string, methodName: string, msg: Message,
                           async: bool, q: RpcRequest, o: Outcome)
    requires Faithful(w) && |c.calls| > 0
    requires c.calls[|c.calls| - 1] == Call(service, methodName, msg, async, Sent, None, false, async, 0, 0)
    requires DeliveredTo(w, c, c', |c.calls| - 1, Reporting(w, q, o))
    ensures |c'.calls| == |c.calls| && c'.calls[..|c.calls| - 1] == c.calls[..|c.calls| - 1]
    ensures c'.calls[|c.calls| - 1] == Completed(service, methodName, msg, async, o).(returned := async)
  {
  }

  /** The last half: the reply in the buffer is delivered to the last call made. */
  lemma GoFinish(w: World, systems: seq<System>, events: seq<RpcSystem.Event>, calls: seq<Call>,
                 service: string, methodName: string, msg: Message, async: bool, q: RpcRequest, o: Outcome)
    returns (systems': seq<System>, events': seq<RpcSystem.Event>)
    requires Faithful(w) && RpcSystem.IsRun(w, systems, events)
    requires var s := systems[|events|];
             && OnlyAnswered(w, s, Reply(q, Reporting(w, q, o)))
             && s.client.calls == calls + [Call(service, methodName, msg, async, Sent, None, false, async, 0, 0)]
             && q.id in s.client.pending && s.client.pending[q.id] == |calls|
    ensures RpcSystem.IsRun(w, systems', events') && systems <= systems' && events <= events'
    ensures var s' := systems'[|events'|];
            && AtRest(s') && s'.server == systems[|events|].server
            && s'.client.calls == calls + [Completed(service, methodName, msg, async, o)]
  {
    var c := systems[|events|].client;
    var k;
    k, systems', events' := GoDeliver(w, systems, events, Reply(q, Reporting(w, q, o)));
    var c' := systems'[|events'|].client;
    assert c.calls[k] == Call(service, methodName, msg, async, Sent, None, false, async, 0, 0) && c.calls[..k] == calls;
    DeliveredCompletes(w, c, c', service, methodName, msg, async, q, o);
    AppendLast(calls, c'.calls, Completed(service, methodName, msg, async, o).(returned := async));
    if !async {
      systems', events' := GoWake(w, systems', events', k);
    }
  }

  /** Every run that has come to rest can be continued by one more call of any method registered, with any
      message, and for any outcome the service may have for that request the call can end with exactly
      that outcome: executed once, matched once, the closure run once or the synchronous caller returned,
      the earlier calls as they were, and the system at rest again. */
  lemma RoundTripCompletes(w: World, systems: seq<System>, events: seq<RpcSystem.Event>,
                           service: string, methodName: string, msg: Message, async: bool, o: Outcome)
    returns (systems': seq<System>, events': seq<RpcSystem.Event>)
    requires Faithful(w) && RpcSystem.IsRun(w, systems, events)
    requires var s := systems[|events|]; AtRest(s) && MayAllocate(s.client)
    requires service in w.services && methodName in w.services[service]
    requires var q := RpcRequest(service, methodName, (|systems[|events|].client.calls| + 1) % WORD, w.pack(msg));
             w.serves(q, o) && Fits(w.packRequest(q), true) && Fits(w.packResponse(Reporting(w, q, o)), false)
    ensures RpcSystem.IsRun(w, systems', events') && systems <= systems' && events <= events'
    ensures var s, s' := systems[|events|], systems'[|events'|];
            var q := RpcRequest(service, methodName, (|s.client.calls| + 1) % WORD, w.pack(msg));
            && AtRest(s') && s'.server.executed == s.server.executed + [Execution(q, o)]
            && s'.client.calls == s.client.calls + [Completed(service, methodName, msg, async, o)]
  {
    var s := systems[|events|];
    var q := RpcRequest(service, methodName, (|s.client.calls| + 1) % WORD, w.pack(msg));
    systems', events' := GoCall(w, systems, events, service, methodName, msg, async);
    assert [] + Encode(w.packRequest(q)) == Encode(w.packRequest(q)) && [] + [q] == [q];
    systems', events' := GoServe(w, systems', events', q, msg, o);
    systems', events' := GoFinish(w, systems', events', s.client.calls, service, methodName, msg, async, q, o);
  }

  lemma AppendLast(calls: seq<Call>, calls': seq<Call>, x: Call)
    requires |calls'| == |calls| + 1 && calls'[..|calls|] == calls && calls'[|calls|] == x
    ensures calls' == calls + [x]
  {
  }
}
