/** Messages, the abstract protobuf and service world, and the server's request processing: frames in,
    errors answered inline, work through the pool, replies through the loop's functor queue. */
module RpcServer {

  import opened Basics
  import opened Wire

  /** A protobuf message, left abstract but for its field values. */
  datatype Message = Message(fields: map<nat, Bytes>)

  datatype RpcRequest = RpcRequest(service: string, methodName: string, id: Word32, args: Bytes)

  datatype RpcResponse = RpcResponse(id: Word32, success: bool, result: Bytes, error: string)

  datatype Outcome = Done(m: Message) | Failed(text: string)

  /** The registered services with their methods; which outcomes an execution of a request may have (any
      relation, so services may be nondeterministic and stateful); and the serializers. */
  datatype World = World(
    services: map<string, set<string>>,
    serves: (RpcRequest, Outcome) -> bool,
    pack: Message -> Bytes,
    parse: Bytes -> Option<Message>,
    packRequest: RpcRequest -> Bytes,
    parseRequest: Bytes -> Option<RpcRequest>,
    packResponse: RpcResponse -> Bytes,
    parseResponse: Bytes -> Option<RpcResponse>)

  /** Parsing undoes serializing. */
  ghost predicate Faithful(w: World) {
    && (forall m :: w.parse(w.pack(m)) == Some(m))
    && (forall q :: w.parseRequest(w.packRequest(q)) == Some(q))
    && (forall r :: w.parseResponse(w.packResponse(r)) == Some(r))
  }

  /** Work in progress for a request: a queued or running task, or a reply on its way out. In a reply
      `req` records the request it answers. */
  datatype Job = Task(req: RpcRequest, msg: Message) | Reply(req: RpcRequest, resp: RpcResponse)

  /** A finished call of a service method, and the request it was made for. */
  datatype Execution = Execution(req: RpcRequest, outcome: Outcome)

  /** `parsed`, `executed` and `sent` record the requests parsed, the service calls finished and the
      replies handed to `Codec::send`. */
  datatype Server = Server(tasks: seq<Job>, running: seq<Job>, functors: seq<Job>,
                           parsed: seq<RpcRequest>, executed: seq<Execution>, sent: seq<Job>)

  const IDLE := Server([], [], [], [], [], [])

  function Error(q: RpcRequest, text: string): Job {
    Reply(q, RpcResponse(q.id, false, [], text))
  }

  function SendInline(s: Server, j: Job): Server {
    s.(sent := s.sent + [j])
  }

  /** What a parsed request gives rise to: an error reply or a task. */
  function JobFor(w: World, q: RpcRequest): Job {
    if q.service !in w.services then Error(q, "service not found: " + q.service)
    else if q.methodName !in w.services[q.service] then Error(q, "method not found: " + q.methodName)
    else match w.parse(q.args)
      case None => Error(q, "failed to parse request args")
      case Some(m) => Task(q, m)
  }

  /** `on_frame`: an unparsable frame is dropped; every other path ends in one reply or one task. */
  function OnFrame(w: World, s: Server, frame: Bytes): Server {
    match w.parseRequest(frame)
    case None => s
    case Some(q) =>
      var s, j := s.(parsed := s.parsed + [q]), JobFor(w, q);
      if j.Reply? then SendInline(s, j) else s.(tasks := s.tasks + [j])
  }

  function Respond(w: World, q: RpcRequest, o: Outcome): RpcResponse {
    match o
    case Done(m) => RpcResponse(q.id, true, w.pack(m), "")
    case Failed(text) => RpcResponse(q.id, false, [], text)
  }

  datatype Event =
    | Frame(frame: Bytes)
    | WorkerTakes
    | WorkerDone(i: nat, outcome: Outcome)
    | FunctorRuns

  predicate Enabled(w: World, s: Server, e: Event) {
    match e
    case Frame(_) => true
    case WorkerTakes => s.tasks != []
    case WorkerDone(i, o) =>
      i < |s.running| && s.running[i].Task? && w.serves(s.running[i].req, o)
    case FunctorRuns => s.functors != []
  }

  /** Tasks start in queue order, finish in any order, and post their replies to the loop's queue. */
  function Next(w: World, s: Server, e: Event): Server
    requires Enabled(w, s, e)
  {
    match e
    case Frame(frame) => OnFrame(w, s, frame)
    case WorkerTakes => s.(tasks := s.tasks[1..], running := s.running + [s.tasks[0]])
    case WorkerDone(i, o) =>
      var q := s.running[i].req;
      s.(running := Without(s.running, i), executed := s.executed + [Execution(q, o)],
         functors := s.functors + [Reply(q, Respond(w, q, o))])
    case FunctorRuns => s.(functors := s.functors[1..], sent := s.sent + [s.functors[0]])
  }

  // ---------- What a reply must say ----------

  /** The reply to a request carries its id and, by case, the prescribed error or an outcome of
      an execution of exactly this request. */
  ghost predicate Answers(w: World, q: RpcRequest, r: RpcResponse) {
    && r.id == q.id
    && if q.service !in w.services then !r.success && r.error == "service not found: " + q.service
       else if q.methodName !in w.services[q.service] then !r.success && r.error == "method not found: " + q.methodName
       else match w.parse(q.args)
         case None => !r.success && r.error == "failed to parse request args"
         case Some(_) =>
           if r.success then exists m :: w.serves(q, Done(m)) && r.result == w.pack(m)
           else w.serves(q, Failed(r.error))
  }

  /** A task may be run: its service and method exist and its message was parsed from the request. */
  ghost predicate Runnable(w: World, j: Job) {
    && j.Task? && j.req.service in w.services && j.req.methodName in w.services[j.req.service]
    && w.parse(j.req.args) == Some(j.msg)
  }

  ghost predicate AnswersItsRequest(w: World, j: Job) {
    j.Reply? && Answers(w, j.req, j.resp)
  }

  function Reqs(jobs: seq<Job>): (qs: seq<RpcRequest>)
    ensures |qs| == |jobs| && forall i :: 0 <= i < |jobs| ==> qs[i] == jobs[i].req
  {
    seq(|jobs|, i requires 0 <= i < |jobs| => jobs[i].req)
  }

  lemma ReqsMoves(jobs: seq<Job>, j: Job, i: nat)
    ensures Reqs(jobs + [j]) == Reqs(jobs) + [j.req]
    ensures i < |jobs| ==> multiset(Reqs(jobs)) == multiset(Reqs(Without(jobs, i))) + multiset{jobs[i].req}
    ensures jobs != [] ==> multiset(Reqs(jobs)) == multiset{jobs[0].req} + multiset(Reqs(jobs[1..]))
  {
    if i < |jobs| {
      assert Reqs(Without(jobs, i)) == Reqs(jobs)[..i] + Reqs(jobs)[i + 1..];
      assert Reqs(jobs) == Reqs(jobs)[..i] + [jobs[i].req] + Reqs(jobs)[i + 1..];
    }
    if jobs != [] {
      assert Reqs(jobs) == [jobs[0].req] + Reqs(jobs[1..]);
    }
  }

  ghost predicate JobsOk(w: World, s: Server) {
    && (forall i :: 0 <= i < |s.tasks| ==> Runnable(w, s.tasks[i]))
    && (forall i :: 0 <= i < |s.running| ==> Runnable(w, s.running[i]))
    && (forall i :: 0 <= i < |s.functors| ==> AnswersItsRequest(w, s.functors[i]))
    && (forall i :: 0 <= i < |s.sent| ==> AnswersItsRequest(w, s.sent[i]))
  }

  /** Requests in the task queue, in running workers and in queued functors. */
  ghost function Open(s: Server): multiset<RpcRequest> {
    multiset(Reqs(s.tasks)) + multiset(Reqs(s.running)) + multiset(Reqs(s.functors))
  }

  ghost predicate Balanced(s: Server) {
    multiset(s.parsed) == multiset(Reqs(s.sent)) + Open(s)
  }

  lemma JobsStep(w: World, s: Server, e: Event)
    requires JobsOk(w, s) && Enabled(w, s, e)
    ensures JobsOk(w, Next(w, s, e))
  {
    if e.WorkerDone? {
      assert Runnable(w, s.running[e.i]);
      var q := s.running[e.i].req;
      if e.outcome.Done? {
        assert w.serves(q, Done(e.outcome.m));
      }
      assert AnswersItsRequest(w, Reply(q, Respond(w, q, e.outcome)));
    }
  }

  /** A frame parsed to `q` makes one task or one reply for `q`. */
  lemma FrameQueues(w: World, s: Server, frame: Bytes)
    ensures var s' := OnFrame(w, s, frame);
            && s'.running == s.running && s'.executed == s.executed && s'.functors == s.functors
            && match w.parseRequest(frame)
               case None => s' == s
               case Some(q) =>
                 && s'.parsed == s.parsed + [q]
                 && if s'.sent == s.sent then Reqs(s'.tasks) == Reqs(s.tasks) + [q]
                    else s'.tasks == s.tasks && |s'.sent| == |s.sent| + 1 && s'.sent[..|s.sent|] == s.sent
                         && s'.sent[|s.sent|].req == q
  {
    var s' := OnFrame(w, s, frame);
    if s'.tasks != s.tasks {
      ReqsMoves(s.tasks, s'.tasks[|s.tasks|], |s.tasks|);
    }
  }

  /** What one frame does: nothing, one more open request, or one more reply handed out. */
  lemma FrameEffect(w: World, s: Server, frame: Bytes)
    ensures var s' := OnFrame(w, s, frame);
            match w.parseRequest(frame)
            case None => s' == s
            case Some(q) =>
              && s'.parsed == s.parsed + [q]
              && if s'.sent == s.sent then Open(s') == Open(s) + multiset{q}
                 else Open(s') == Open(s) && |s'.sent| == |s.sent| + 1 && s'.sent[..|s.sent|] == s.sent
                      && s'.sent[|s.sent|].req == q
  {
    FrameQueues(w, s, frame);
  }

  lemma TakeEffect(w: World, s: Server)
    requires Enabled(w, s, WorkerTakes)
    ensures Open(Next(w, s, WorkerTakes)) == Open(s)
  {
    ReqsMoves(s.tasks, s.tasks[0], |s.tasks|);
    ReqsMoves(s.running, s.tasks[0], |s.running|);
  }

  lemma DoneEffect(w: World, s: Server, i: nat, o: Outcome)
    requires Enabled(w, s, WorkerDone(i, o))
    ensures Open(Next(w, s, WorkerDone(i, o))) == Open(s)
  {
    var q := s.running[i].req;
    ReqsMoves(s.running, s.running[i], i);
    ReqsMoves(s.functors, Reply(q, Respond(w, q, o)), |s.functors|);
  }

  lemma FunctorEffect(w: World, s: Server)
    requires Enabled(w, s, FunctorRuns)
    ensures Open(s) == Open(Next(w, s, FunctorRuns)) + multiset{s.functors[0].req}
  {
    ReqsMoves(s.functors, s.functors[0], |s.functors|);
  }

  /** Balance after a request was parsed and either left open or answered. */
  lemma BalanceMoves(s: Server, s': Server, q: RpcRequest, j: Job)
    requires Balanced(s) && s'.parsed == s.parsed + [q] && j.req == q
    requires (s'.sent == s.sent && Open(s') == Open(s) + multiset{q}) || (s'.sent == s.sent + [j] && Open(s') == Open(s))
    ensures Balanced(s')
  {
    ReqsMoves(s.sent, j, |s.sent|);
  }

  lemma FrameBalanced(w: World, s: Server, frame: Bytes)
    requires Balanced(s)
    ensures Balanced(OnFrame(w, s, frame))
  {
    var s' := OnFrame(w, s, frame);
    FrameEffect(w, s, frame);
    if w.parseRequest(frame).Some? {
      var q := w.parseRequest(frame).value;
      if s'.sent == s.sent {
        BalanceMoves(s, s', q, Error(q, ""));
      } else {
        assert s'.sent == s.sent + [s'.sent[|s.sent|]];
        BalanceMoves(s, s', q, s'.sent[|s.sent|]);
      }
    }
  }

  lemma BalancedStep(w: World, s: Server, e: Event)
    requires Balanced(s) && Enabled(w, s, e)
    ensures Balanced(Next(w, s, e))
  {
    match e
    case Frame(frame) => FrameBalanced(w, s, frame);
    case WorkerTakes => TakeEffect(w, s);
    case WorkerDone(i, o) => DoneEffect(w, s, i, o);
    case FunctorRuns =>
      FunctorEffect(w, s);
      ReqsMoves(s.sent, s.functors[0], |s.sent|);
  }

  function Executed(done: seq<Execution>): (qs: seq<RpcRequest>)
    ensures |qs| == |done| && forall i :: 0 <= i < |done| ==> qs[i] == done[i].req
  {
    seq(|done|, i requires 0 <= i < |done| => done[i].req)
  }

  lemma ExecutedSnoc(done: seq<Execution>, x: Execution)
    ensures Executed(done + [x]) == Executed(done) + [x.req]
  {
  }

  /** Each request parsed is queued, running or executed at most once. */
  ghost predicate StartedOnce(s: Server) {
    multiset(Reqs(s.tasks)) + multiset(Reqs(s.running)) + multiset(Executed(s.executed)) <= multiset(s.parsed)
  }

  lemma OneMore(queued: seq<RpcRequest>, rest: multiset<RpcRequest>, parsed: seq<RpcRequest>, q: RpcRequest)
    requires multiset(queued) + rest <= multiset(parsed)
    ensures multiset(queued) + rest <= multiset(parsed + [q])
    ensures multiset(queued + [q]) + rest <= multiset(parsed + [q])
  {
  }

  lemma FrameStarts(w: World, s: Server, frame: Bytes)
    requires StartedOnce(s)
    ensures StartedOnce(OnFrame(w, s, frame))
  {
    FrameQueues(w, s, frame);
    if w.parseRequest(frame).Some? {
      var rest := multiset(Reqs(s.running)) + multiset(Executed(s.executed));
      OneMore(Reqs(s.tasks), rest, s.parsed, w.parseRequest(frame).value);
    }
  }

  lemma DoneStarts(w: World, s: Server, i: nat, o: Outcome)
    requires StartedOnce(s) && Enabled(w, s, WorkerDone(i, o))
    ensures StartedOnce(Next(w, s, WorkerDone(i, o)))
  {
    ReqsMoves(s.running, s.running[i], i);
    ExecutedSnoc(s.executed, Execution(s.running[i].req, o));
  }

  lemma StartedOnceStep(w: World, s: Server, e: Event)
    requires StartedOnce(s) && Enabled(w, s, e)
    ensures StartedOnce(Next(w, s, e))
  {
    match e
    case Frame(frame) => FrameStarts(w, s, frame);
    case WorkerTakes =>
      ReqsMoves(s.tasks, s.tasks[0], |s.tasks|);
      ReqsMoves(s.running, s.tasks[0], |s.running|);
    case WorkerDone(i, o) => DoneStarts(w, s, i, o);
    case FunctorRuns =>
  }

  ghost predicate Step(w: World, s: Server, e: Event, s': Server) {
    Enabled(w, s, e) && s' == Next(w, s, e)
  }

  ghost predicate IsRun(w: World, servers: seq<Server>, events: seq<Event>) {
    && |servers| == |events| + 1 && servers[0] == IDLE
    && forall i :: 0 <= i < |events| ==> Step(w, servers[i], events[i], servers[i + 1])
  }

  lemma ServerStepKeeps(w: World, s: Server, e: Event, s': Server)
    requires Step(w, s, e, s') && Balanced(s) && JobsOk(w, s) && StartedOnce(s)
    ensures Balanced(s') && JobsOk(w, s') && StartedOnce(s')
  {
    BalancedStep(w, s, e);
    JobsStep(w, s, e);
    StartedOnceStep(w, s, e);
  }

  lemma IdleOk(w: World)
    ensures Balanced(IDLE) && JobsOk(w, IDLE) && StartedOnce(IDLE)
  {
  }

  /** At every point of every interleaving, whatever frames arrive: the parsed requests are, as a
      multiset, those already answered plus those in the task queue, in running workers and in queued
      functors; each reply answers its own request; and no request is executed more often than parsed. */
  lemma {:induction false} NoRequestLostOrDuplicated(w: World, servers: seq<Server>, events: seq<Event>, k: nat)
    requires IsRun(w, servers, events) && k <= |events|
    ensures Balanced(servers[k]) && JobsOk(w, servers[k]) && StartedOnce(servers[k])
  {
    if k == 0 {
      IdleOk(w);
    } else {
      var i := k - 1;
      NoRequestLostOrDuplicated(w, servers, events, i);
      ServerStepKeeps(w, servers[i], events[i], servers[i + 1]);
    }
  }
}
