/** The server on its real layers: requests go through the worker pool, replies through the event loop's
    functor queue, beside other work of the loop. Every run of it is a run of the plain server. */
module ServerLayers {

  import opened Basics
  import opened Wire
  import TcpConnection
  import ThreadPool
  import EventLoop
  import opened RpcServer
  import opened RpcClient
  import RpcSystem
  import RpcRoundTrip

  /** What the loop's queue holds: a reply to send, or work of others. */
  datatype Work = SendReply(j: Job) | OtherWork(n: nat)

  datatype Layers = Layers(pool: ThreadPool.Pool<Job>, loop: EventLoop.Loop<Work>,
                           parsed: seq<RpcRequest>, executed: seq<Execution>, sent: seq<Job>)

  function Start(workers: nat): Layers {
    Layers(ThreadPool.Create(workers), EventLoop.Initial(), [], [], [])
  }

  /** A worker's last action in a task is to post the reply; then it is idle again, with its wakeup of
      the loop still to come. */
  datatype Event =
    | FrameArrives(frame: Bytes)
    | SubmitCompletes
    | WorkerAcquires
    | WorkerPosts(i: nat, outcome: Outcome, tid: EventLoop.Tid)
    | LoopActs(e: EventLoop.Event<Work>)

  predicate Enabled(w: World, l: Layers, e: Event) {
    match e
    case FrameArrives(_) =>
      l.loop.phase == EventLoop.Handling && EventLoop.LOOP !in l.loop.inflight && l.pool.submitting.None?
    case SubmitCompletes => ThreadPool.Enabled(l.pool, ThreadPool.SubmitPush)
    case WorkerAcquires => ThreadPool.Enabled(l.pool, ThreadPool.Acquire)
    case WorkerPosts(i, o, tid) =>
      && i < |l.pool.running| && l.pool.running[i].Task? && w.serves(l.pool.running[i].req, o)
      && tid != EventLoop.LOOP && tid !in l.loop.inflight
    case LoopActs(e) => EventLoop.Enabled(l.loop, e) && (e.Push? ==> e.work.OtherWork?)
  }

  /** The loop thread handles a frame: it sends an error at once or submits a task to the pool. */
  function OnFrame(w: World, l: Layers, frame: Bytes): Layers
    requires l.pool.submitting.None?
  {
    match w.parseRequest(frame)
    case None => l
    case Some(q) =>
      var l, j := l.(parsed := l.parsed + [q]), JobFor(w, q);
      if j.Reply? then l.(sent := l.sent + [j])
      else l.(pool := ThreadPool.Next(l.pool, ThreadPool.SubmitCheck(j)))
  }

  function Next(w: World, l: Layers, e: Event): Layers
    requires Enabled(w, l, e)
  {
    match e
    case FrameArrives(frame) => OnFrame(w, l, frame)
    case SubmitCompletes => l.(pool := ThreadPool.Next(l.pool, ThreadPool.SubmitPush))
    case WorkerAcquires => l.(pool := ThreadPool.Next(l.pool, ThreadPool.Acquire))
    case WorkerPosts(i, o, tid) =>
      var q := l.pool.running[i].req;
      l.(pool := ThreadPool.Next(l.pool, ThreadPool.Finish(i)),
         loop := EventLoop.Next(l.loop, EventLoop.Push(tid, SendReply(Reply(q, Respond(w, q, o))))),
         executed := l.executed + [Execution(q, o)])
    case LoopActs(e) =>
      var l' := l.(loop := EventLoop.Next(l.loop, e));
      if e.RunOne? && l.loop.batch[0].work.SendReply? then l'.(sent := l.sent + [l.loop.batch[0].work.j]) else l'
  }

  ghost predicate Step(w: World, l: Layers, e: Event, l': Layers) {
    Enabled(w, l, e) && l' == Next(w, l, e)
  }

  // ---------- The plain server behind it ----------

  function Replies(entries: seq<EventLoop.Entry<Work>>): seq<Job> {
    if entries == [] then []
    else
      var before, last := Replies(entries[..|entries| - 1]), entries[|entries| - 1].work;
      if last.SendReply? then before + [last.j] else before
  }

  function Submitting(p: ThreadPool.Pool<Job>): seq<Job> {
    match p.submitting
    case None => []
    case Some(j) => [j]
  }

  function Abs(l: Layers): Server {
    Server(l.pool.queue + Submitting(l.pool), l.pool.running, Replies(l.loop.batch) + Replies(l.loop.pending),
           l.parsed, l.executed, l.sent)
  }

  /** The event of the plain server that a step stands for, if any. */
  function Image(l: Layers, e: Event): Option<RpcServer.Event> {
    match e
    case FrameArrives(frame) => Some(RpcServer.Frame(frame))
    case SubmitCompletes => None
    case WorkerAcquires => if l.pool.queue != [] then Some(WorkerTakes) else None
    case WorkerPosts(i, o, _) => Some(WorkerDone(i, o))
    case LoopActs(e) =>
      if e.RunOne? && l.loop.batch != [] && l.loop.batch[0].work.SendReply? then Some(FunctorRuns) else None
  }

  /** The pool is not stopped while the server runs. */
  ghost predicate LayersInv(l: Layers) {
    EventLoop.Inv(l.loop) && !l.pool.stop && l.pool.gone == 0
  }

  lemma RepliesSnoc(entries: seq<EventLoop.Entry<Work>>, x: EventLoop.Entry<Work>)
    ensures Replies(entries + [x]) == Replies(entries) + if x.work.SendReply? then [x.work.j] else []
  {
    assert (entries + [x])[..|entries|] == entries;
  }

  lemma {:induction false} RepliesFirst(entries: seq<EventLoop.Entry<Work>>)
    requires entries != []
    ensures Replies(entries) == (if entries[0].work.SendReply? then [entries[0].work.j] else []) + Replies(entries[1..])
  {
    var n := |entries| - 1;
    if n > 0 {
      RepliesFirst(entries[..n]);
      assert entries[..n][1..] == entries[1..][..n - 1];
    }
  }

  lemma InvStep(w: World, l: Layers, e: Event)
    requires LayersInv(l) && Enabled(w, l, e)
    ensures LayersInv(Next(w, l, e))
  {
    match e
    case WorkerPosts(i, o, tid) =>
      var q := l.pool.running[i].req;
      EventLoop.InvStep(l.loop, EventLoop.Push(tid, SendReply(Reply(q, Respond(w, q, o)))));
    case LoopActs(e) => EventLoop.InvStep(l.loop, e);
    case _ =>
  }

  lemma FrameRefines(w: World, l: Layers, frame: Bytes)
    requires LayersInv(l) && l.pool.submitting.None?
    ensures Abs(OnFrame(w, l, frame)) == RpcServer.OnFrame(w, Abs(l), frame)
  {
    assert l.pool.queue + [] == l.pool.queue;
  }

  lemma PoolRefines(w: World, l: Layers, e: Event)
    requires LayersInv(l) && Enabled(w, l, e) && (e.SubmitCompletes? || e.WorkerAcquires?)
    ensures match Image(l, e)
            case None => Abs(Next(w, l, e)) == Abs(l)
            case Some(image) => RpcServer.Step(w, Abs(l), image, Abs(Next(w, l, e)))
  {
    if e.SubmitCompletes? {
      assert (l.pool.queue + [l.pool.submitting.value]) + [] == l.pool.queue + [l.pool.submitting.value];
    } else {
      assert l.pool.queue + [] == l.pool.queue;
      if l.pool.queue != [] {
        assert l.pool.queue[1..] + [] == l.pool.queue[1..];
      }
    }
  }

  lemma PostRefines(w: World, l: Layers, i: nat, o: Outcome, tid: EventLoop.Tid)
    requires LayersInv(l) && Enabled(w, l, WorkerPosts(i, o, tid))
    ensures RpcServer.Step(w, Abs(l), WorkerDone(i, o), Abs(Next(w, l, WorkerPosts(i, o, tid))))
  {
    var q := l.pool.running[i].req;
    var j := Reply(q, Respond(w, q, o));
    RepliesSnoc(l.loop.pending, EventLoop.Entry(tid, SendReply(j)));
    assert Replies(l.loop.batch) + (Replies(l.loop.pending) + [j]) == (Replies(l.loop.batch) + Replies(l.loop.pending)) + [j];
  }

  lemma LoopRefines(w: World, l: Layers, e: EventLoop.Event<Work>)
    requires LayersInv(l) && Enabled(w, l, LoopActs(e))
    ensures match Image(l, LoopActs(e))
            case None => Abs(Next(w, l, LoopActs(e))) == Abs(l)
            case Some(image) => RpcServer.Step(w, Abs(l), image, Abs(Next(w, l, LoopActs(e))))
  {
    match e
    case Push(tid, work) =>
      RepliesSnoc(l.loop.pending, EventLoop.Entry(tid, work));
      assert Replies(l.loop.pending) + [] == Replies(l.loop.pending);
    case Swap =>
      assert [] + Replies(l.loop.pending) == Replies(l.loop.pending) == Replies(l.loop.pending) + [];
    case RunOne =>
      RepliesFirst(l.loop.batch);
      var rest, pending := Replies(l.loop.batch[1..]), Replies(l.loop.pending);
      if l.loop.batch[0].work.SendReply? {
        var j := l.loop.batch[0].work.j;
        assert ([j] + rest) + pending == [j] + (rest + pending);
        assert ([j] + (rest + pending))[1..] == rest + pending;
      } else {
        assert [] + rest == rest;
      }
    case _ =>
  }

  /** Every step of the layers is the step of the plain server it stands for, or none. */
  lemma StepRefines(w: World, l: Layers, e: Event)
    requires LayersInv(l) && Enabled(w, l, e)
    ensures match Image(l, e)
            case None => Abs(Next(w, l, e)) == Abs(l)
            case Some(image) => RpcServer.Step(w, Abs(l), image, Abs(Next(w, l, e)))
  {
    match e
    case FrameArrives(frame) => FrameRefines(w, l, frame);
    case WorkerPosts(i, o, tid) => PostRefines(w, l, i, o, tid);
    case LoopActs(e) => LoopRefines(w, l, e);
    case _ => PoolRefines(w, l, e);
  }

  // ---------- The layers do answer ----------

  /** The loop in a poll with nothing to do, a worker free, nothing in the pool. */
  predicate Resting(l: Layers) {
    && l.loop.phase == EventLoop.Polling && l.loop.pending == [] && l.loop.batch == [] && l.loop.inflight == {}
    && !l.loop.calling && l.pool.queue == [] && l.pool.running == [] && l.pool.submitting.None? && l.pool.idle > 0
    && !l.pool.stop
  }

  /** The loop wakes up, handles a frame, and goes back to its poll with the task in the pool. */
  lemma FrameIsHandled(w: World, l: Layers, frame: Bytes, q: RpcRequest, m: Message)
    returns (l1: Layers, l2: Layers, l3: Layers, l4: Layers, l5: Layers)
    requires Resting(l) && w.parseRequest(frame) == Some(q)
    requires q.service in w.services && q.methodName in w.services[q.service] && w.parse(q.args) == Some(m)
    ensures Step(w, l, LoopActs(EventLoop.PollReturns), l1) && Step(w, l1, FrameArrives(frame), l2)
    ensures Step(w, l2, SubmitCompletes, l3) && Step(w, l3, LoopActs(EventLoop.Swap), l4)
    ensures Step(w, l4, LoopActs(EventLoop.EndDrain(false)), l5)
    ensures l5 == l.(loop := l.loop.(polled := true), parsed := l.parsed + [q],
                     pool := l.pool.(queue := [Task(q, m)], accepted := l.pool.accepted + [Task(q, m)]))
  {
    l1 := l.(loop := l.loop.(phase := EventLoop.Handling, polled := true));
    l2 := l1.(parsed := l.parsed + [q], pool := l.pool.(submitting := Some(Task(q, m))));
    l3 := l2.(pool := l.pool.(queue := [Task(q, m)], accepted := l.pool.accepted + [Task(q, m)]));
    assert [] + [Task(q, m)] == [Task(q, m)];
    l4 := l3.(loop := l1.loop.(phase := EventLoop.Draining, calling := true));
    l5 := l4.(loop := l1.loop.(phase := EventLoop.Polling));
  }

  /** A worker takes the task, runs it, posts the reply and wakes the loop. */
  lemma TaskIsRun(w: World, l: Layers, q: RpcRequest, m: Message, o: Outcome, tid: EventLoop.Tid)
    returns (l1: Layers, l2: Layers, l3: Layers)
    requires l.pool.queue == [Task(q, m)] && l.pool.running == [] && l.pool.submitting.None? && l.pool.idle > 0
    requires l.loop.inflight == {} && l.loop.pending == [] && tid != EventLoop.LOOP && w.serves(q, o)
    ensures Step(w, l, WorkerAcquires, l1) && Step(w, l1, WorkerPosts(0, o, tid), l2)
    ensures Step(w, l2, LoopActs(EventLoop.Wakeup(tid)), l3)
    ensures l3.pool.queue == [] && l3.pool.running == [] && l3.pool.idle == l.pool.idle && l3.pool.submitting.None?
    ensures l3.pool.stop == l.pool.stop && l3.executed == l.executed + [Execution(q, o)]
    ensures l3.parsed == l.parsed && l3.sent == l.sent
    ensures var x := EventLoop.Entry(tid, SendReply(Reply(q, RpcRoundTrip.Reporting(w, q, o))));
            l3.loop == l.loop.(pending := [x], queued := l.loop.queued + [x], signalled := true)
  {
    var x := EventLoop.Entry(tid, SendReply(Reply(q, RpcRoundTrip.Reporting(w, q, o))));
    l1 := Next(w, l, WorkerAcquires);
    assert l1.pool.running == [Task(q, m)];
    l2 := Next(w, l1, WorkerPosts(0, o, tid));
    assert Without(l1.pool.running, 0) == [] && [] + [x] == [x];
    l3 := Next(w, l2, LoopActs(EventLoop.Wakeup(tid)));
    assert {tid} - {tid} == {};
  }

  /** The loop wakes up, reads the eventfd, sends the reply and goes back to its poll. */
  lemma ReplyIsSent(w: World, l: Layers, tid: EventLoop.Tid, j: Job)
    returns (l1: Layers, l2: Layers, l3: Layers, l4: Layers, l5: Layers)
    requires l.loop.phase == EventLoop.Polling && l.loop.batch == [] && l.loop.inflight == {} && !l.loop.calling
    requires l.loop.pending == [EventLoop.Entry(tid, SendReply(j))]
    ensures Step(w, l, LoopActs(EventLoop.PollReturns), l1) && Step(w, l1, LoopActs(EventLoop.ReadEventfd), l2)
    ensures Step(w, l2, LoopActs(EventLoop.Swap), l3) && Step(w, l3, LoopActs(EventLoop.RunOne), l4)
    ensures Step(w, l4, LoopActs(EventLoop.EndDrain(false)), l5)
    ensures l5 == l.(loop := l.loop.(polled := true, signalled := false, pending := [], ran := l.loop.ran + l.loop.pending),
                     sent := l.sent + [j])
  {
    var x := EventLoop.Entry(tid, SendReply(j));
    l1 := l.(loop := l.loop.(phase := EventLoop.Handling, polled := true));
    l2 := l1.(loop := l1.loop.(signalled := false));
    l3 := l2.(loop := l2.loop.(phase := EventLoop.Draining, calling := true, batch := [x], pending := []));
    assert [x][1..] == [];
    l4 := l3.(loop := l3.loop.(batch := [], ran := l.loop.ran + [x]), sent := l.sent + [j]);
    l5 := l4.(loop := l4.loop.(phase := EventLoop.Polling, calling := false));
  }

  ghost predicate IsLayersRun(w: World, ls: seq<Layers>, es: seq<Event>) {
    |ls| == |es| + 1 && forall i :: 0 <= i < |es| ==> Step(w, ls[i], es[i], ls[i + 1])
  }

  lemma LayersGo(w: World, ls: seq<Layers>, es: seq<Event>, e: Event, l: Layers)
    returns (ls': seq<Layers>, es': seq<Event>)
    requires IsLayersRun(w, ls, es) && Step(w, ls[|es|], e, l)
    ensures IsLayersRun(w, ls', es') && ls'[|es'|] == l && ls'[0] == ls[0]
  {
    ls', es' := ls + [l], es + [e];
    forall i | 0 <= i < |es'|
      ensures Step(w, ls'[i], es'[i], ls'[i + 1])
    {
      if i < |es| {
        assert Step(w, ls[i], es[i], ls[i + 1]);
      }
    }
  }

  lemma LayersGo3(w: World, ls: seq<Layers>, es: seq<Event>, e1: Event, l1: Layers, e2: Event, l2: Layers, e3: Event, l3: Layers)
    returns (ls': seq<Layers>, es': seq<Event>)
    requires IsLayersRun(w, ls, es) && Step(w, ls[|es|], e1, l1) && Step(w, l1, e2, l2) && Step(w, l2, e3, l3)
    ensures IsLayersRun(w, ls', es') && ls'[|es'|] == l3 && ls'[0] == ls[0]
  {
    ls', es' := LayersGo(w, ls, es, e1, l1);
    ls', es' := LayersGo(w, ls', es', e2, l2);
    ls', es' := LayersGo(w, ls', es', e3, l3);
  }

  /** From any state at rest the layers answer a request with any outcome its execution may have, through
      pool and loop, and come to rest again. */
  lemma LayersAnswer(w: World, l: Layers, frame: Bytes, q: RpcRequest, m: Message, o: Outcome, tid: EventLoop.Tid)
    returns (ls: seq<Layers>, es: seq<Event>)
    requires Resting(l) && w.parseRequest(frame) == Some(q) && w.serves(q, o) && tid != EventLoop.LOOP
    requires q.service in w.services && q.methodName in w.services[q.service] && w.parse(q.args) == Some(m)
    ensures IsLayersRun(w, ls, es) && ls[0] == l
    ensures var l' := ls[|es|];
            && Resting(l') && l'.parsed == l.parsed + [q] && l'.executed == l.executed + [Execution(q, o)]
            && l'.sent == l.sent + [Reply(q, RpcRoundTrip.Reporting(w, q, o))]
  {
    var a1, a2, a3, a4, a5 := FrameIsHandled(w, l, frame, q, m);
    ls, es := LayersGo3(w, [l], [], LoopActs(EventLoop.PollReturns), a1, FrameArrives(frame), a2, SubmitCompletes, a3);
    ls, es := LayersGo(w, ls, es, LoopActs(EventLoop.Swap), a4);
    ls, es := LayersGo(w, ls, es, LoopActs(EventLoop.EndDrain(false)), a5);
    var b1, b2, b3 := TaskIsRun(w, a5, q, m, o, tid);
    ls, es := LayersGo3(w, ls, es, WorkerAcquires, b1, WorkerPosts(0, o, tid), b2, LoopActs(EventLoop.Wakeup(tid)), b3);
    var c1, c2, c3, c4, c5 := ReplyIsSent(w, b3, tid, Reply(q, RpcRoundTrip.Reporting(w, q, o)));
    ls, es := LayersGo3(w, ls, es, LoopActs(EventLoop.PollReturns), c1, LoopActs(EventLoop.ReadEventfd), c2,
                        LoopActs(EventLoop.Swap), c3);
    ls, es := LayersGo(w, ls, es, LoopActs(EventLoop.RunOne), c4);
    ls, es := LayersGo(w, ls, es, LoopActs(EventLoop.EndDrain(false)), c5);
  }

  // ---------- The whole system on the layers ----------

  /** The composition of client, streams and connection around the layered server; the plain `server` in
      `system` is not used. */
  datatype Whole = Whole(system: RpcSystem.System, layers: Layers)

  /** What the plain composition looks like from here. */
  function View(x: Whole): RpcSystem.System {
    x.system.(server := Abs(x.layers))
  }

  datatype WholeEvent = Inside(inner: Event, r: TcpConnection.WriteResult) | Outside(outer: RpcSystem.Event)

  predicate OfServer(e: RpcSystem.Event) {
    e.ServerDecodes? || e.WorkerStarts? || e.WorkerEnds? || e.LoopReplies?
  }

  /** The frame handled is the next one decoded; a reply sent goes to the connection. */
  predicate WholeEnabled(w: World, x: Whole, e: WholeEvent) {
    match e
    case Inside(e, r) =>
      && Enabled(w, x.layers, e)
      && (e.FrameArrives? ==> Peel(x.system.held, true).Frame? && Peel(x.system.held, true).body == e.frame)
      && (var out := RpcSystem.Fresh(Abs(x.layers), Abs(Next(w, x.layers, e)));
          out != [] ==> RpcSystem.Deliverable(w, x.system.conn, out[0], r))
    case Outside(e) => !OfServer(e) && RpcSystem.Enabled(w, x.system, e)
  }

  function WholeNext(w: World, x: Whole, e: WholeEvent): Whole
    requires WholeEnabled(w, x, e)
  {
    match e
    case Inside(e, r) =>
      var l := Next(w, x.layers, e);
      var out := RpcSystem.Fresh(Abs(x.layers), Abs(l));
      var s := if e.FrameArrives?
               then x.system.(held := Peel(x.system.held, true).rest, asked := RpcSystem.Tail(x.system.asked))
               else x.system;
      Whole(if out == [] then s else RpcSystem.Deliver(w, s, out[0], r), l)
    case Outside(e) => x.(system := RpcSystem.Next(w, x.system, e))
  }

  ghost predicate WholeStep(w: World, x: Whole, e: WholeEvent, x': Whole) {
    WholeEnabled(w, x, e) && x' == WholeNext(w, x, e)
  }

  ghost predicate IsRun(w: World, workers: nat, xs: seq<Whole>, events: seq<WholeEvent>) {
    && |xs| == |events| + 1 && xs[0] == Whole(RpcSystem.START, Start(workers))
    && forall i :: 0 <= i < |events| ==> WholeStep(w, xs[i], events[i], xs[i + 1])
  }

  /** The event of the plain composition that a step stands for, if any. */
  function WholeImage(x: Whole, e: WholeEvent): Option<RpcSystem.Event> {
    match e
    case Outside(e) => Some(e)
    case Inside(e, r) =>
      match Image(x.layers, e)
      case None => None
      case Some(Frame(_)) => Some(RpcSystem.ServerDecodes(r))
      case Some(WorkerTakes) => Some(RpcSystem.WorkerStarts)
      case Some(WorkerDone(i, o)) => Some(RpcSystem.WorkerEnds(i, o))
      case Some(FunctorRuns) => Some(RpcSystem.LoopReplies(r))
  }

  /** A server step that sends nothing changes nothing else. */
  lemma SilentRefines(w: World, x: Whole, e: Event, r: TcpConnection.WriteResult, x': Whole)
    requires WholeStep(w, x, Inside(e, r), x') && !e.FrameArrives? && x'.layers.sent == x.layers.sent
    ensures View(x') == View(x).(server := Abs(x'.layers))
  {
    assert RpcSystem.Fresh(Abs(x.layers), Abs(x'.layers)) == [];
  }

  lemma WorkerRefines(w: World, x: Whole, e: Event, r: TcpConnection.WriteResult, x': Whole)
    requires LayersInv(x.layers) && WholeStep(w, x, Inside(e, r), x')
    requires e.SubmitCompletes? || e.WorkerAcquires? || e.WorkerPosts?
    ensures match WholeImage(x, Inside(e, r))
            case None => View(x') == View(x)
            case Some(image) => RpcSystem.Step(w, View(x), image, View(x'))
  {
    StepRefines(w, x.layers, e);
    SilentRefines(w, x, e, r, x');
  }

  lemma ReplyRefines(w: World, x: Whole, e: EventLoop.Event<Work>, r: TcpConnection.WriteResult, x': Whole)
    requires LayersInv(x.layers) && WholeStep(w, x, Inside(LoopActs(e), r), x')
    ensures match WholeImage(x, Inside(LoopActs(e), r))
            case None => View(x') == View(x)
            case Some(image) => RpcSystem.Step(w, View(x), image, View(x'))
  {
    StepRefines(w, x.layers, LoopActs(e));
    if Image(x.layers, LoopActs(e)).None? {
      SilentRefines(w, x, LoopActs(e), r, x');
    }
  }

  lemma DecodeRefines(w: World, x: Whole, frame: Bytes, r: TcpConnection.WriteResult, x': Whole)
    requires LayersInv(x.layers) && WholeStep(w, x, Inside(FrameArrives(frame), r), x')
    ensures RpcSystem.Step(w, View(x), RpcSystem.ServerDecodes(r), View(x'))
  {
    FrameRefines(w, x.layers, frame);
  }

  lemma InsideRefines(w: World, x: Whole, e: Event, r: TcpConnection.WriteResult, x': Whole)
    requires LayersInv(x.layers) && WholeStep(w, x, Inside(e, r), x')
    ensures match WholeImage(x, Inside(e, r))
            case None => View(x') == View(x)
            case Some(image) => RpcSystem.Step(w, View(x), image, View(x'))
  {
    match e
    case FrameArrives(frame) => DecodeRefines(w, x, frame, r, x');
    case LoopActs(inner) => ReplyRefines(w, x, inner, r, x');
    case _ => WorkerRefines(w, x, e, r, x');
  }

  lemma OutsideRefines(w: World, x: Whole, e: RpcSystem.Event, x': Whole)
    requires WholeStep(w, x, Outside(e), x')
    ensures RpcSystem.Step(w, View(x), e, View(x'))
  {
  }

  /** The layers' invariant with the plain server's. */
  ghost predicate LayersOk(w: World, l: Layers) {
    LayersInv(l) && Balanced(Abs(l)) && JobsOk(w, Abs(l)) && StartedOnce(Abs(l))
  }

  lemma LayersOkStep(w: World, l: Layers, e: Event)
    requires LayersOk(w, l) && Enabled(w, l, e)
    ensures LayersOk(w, Next(w, l, e))
  {
    InvStep(w, l, e);
    StepRefines(w, l, e);
    if Image(l, e).Some? {
      ServerStepKeeps(w, Abs(l), Image(l, e).value, Abs(Next(w, l, e)));
    }
  }

  lemma StartIs(w: World, workers: nat)
    ensures LayersOk(w, Start(workers)) && View(Whole(RpcSystem.START, Start(workers))) == RpcSystem.START
  {
    var l: Layers := Start(workers);
    assert Abs(l) == IDLE;
    IdleOk(w);
  }

  lemma {:induction false} RunKeepsLayersOk(w: World, workers: nat, xs: seq<Whole>, events: seq<WholeEvent>, k: nat)
    requires IsRun(w, workers, xs, events) && k <= |events|
    ensures LayersOk(w, xs[k].layers)
  {
    if k == 0 {
      StartIs(w, workers);
    } else {
      var p := k - 1;
      RunKeepsLayersOk(w, workers, xs, events, p);
      assert WholeStep(w, xs[p], events[p], xs[p + 1]);
      if events[p].Inside? {
        LayersOkStep(w, xs[p].layers, events[p].inner);
      }
    }
  }

  lemma WholeRefines(w: World, x: Whole, e: WholeEvent, x': Whole)
    requires LayersInv(x.layers) && WholeStep(w, x, e, x')
    ensures match WholeImage(x, e)
            case None => View(x') == View(x)
            case Some(image) => RpcSystem.Step(w, View(x), image, View(x'))
  {
    match e
    case Inside(inner, r) => InsideRefines(w, x, inner, r, x');
    case Outside(outer) => OutsideRefines(w, x, outer, x');
  }

  /** Every run on the layers is, seen from outside, a run of the plain composition. */
  lemma {:induction false} RunRefines(w: World, workers: nat, xs: seq<Whole>, events: seq<WholeEvent>, k: nat)
    returns (systems: seq<RpcSystem.System>, plain: seq<RpcSystem.Event>)
    requires IsRun(w, workers, xs, events) && k <= |events|
    ensures RpcSystem.IsRun(w, systems, plain) && |plain| <= k && systems[|plain|] == View(xs[k])
  {
    if k == 0 {
      StartIs(w, workers);
      systems, plain := [RpcSystem.START], [];
    } else {
      var p := k - 1;
      systems, plain := RunRefines(w, workers, xs, events, p);
      RunKeepsLayersOk(w, workers, xs, events, p);
      assert WholeStep(w, xs[p], events[p], xs[p + 1]);
      WholeRefines(w, xs[p], events[p], xs[k]);
      var image := WholeImage(xs[p], events[p]);
      if image.Some? {
        RpcSystem.RunSnoc(w, systems, plain, image.value, View(xs[k]));
        systems, plain := systems + [View(xs[k])], plain + [image.value];
      }
    }
  }

  /** So on the real layers, too, every call gets only the outcome of an execution of its own request,
      completes once, and no request is executed twice while the ids have not wrapped. */
  lemma LayeredCallsGetTheirOwnAnswers(w: World, workers: nat, xs: seq<Whole>, events: seq<WholeEvent>, i: nat, k: nat)
    requires Faithful(w) && IsRun(w, workers, xs, events) && i <= |events| && k < |xs[i].system.client.calls|
    ensures var x := xs[i].system.client.calls[k];
            && RpcSystem.OwnOutcome(w, View(xs[i]), x, RequestOf(w, x, k))
            && x.matches <= 1 && x.closures <= (if x.async then 1 else 0)
            && (x.returned && !x.async ==> x.outcome.Some?)
    ensures |xs[i].system.client.calls| <= WORD ==>
              forall a, b :: 0 <= a < b < |xs[i].layers.executed| ==>
                               xs[i].layers.executed[a].req != xs[i].layers.executed[b].req
  {
    var systems, plain := RunRefines(w, workers, xs, events, i);
    RpcSystem.CallsGetTheirOwnAnswers(w, systems, plain, |plain|, k);
    RpcSystem.EachCallCompletesOnce(w, systems, plain, |plain|, k);
    forall a, b | |xs[i].system.client.calls| <= WORD && 0 <= a < b < |xs[i].layers.executed|
      ensures xs[i].layers.executed[a].req != xs[i].layers.executed[b].req
    {
      RpcSystem.ExecutedAtMostOnce(w, systems, plain, |plain|, a);
    }
  }

  /** Whenever the server's loop sleeps, in a poll after its first with the eventfd clear and no worker
      about to wake it, every finished request has been answered: the unanswered ones are exactly those
      the pool has queued or is running. */
  lemma SleepingServerHasAnswered(w: World, workers: nat, xs: seq<Whole>, events: seq<WholeEvent>, i: nat)
    requires IsRun(w, workers, xs, events) && i <= |events|
    requires var loop := xs[i].layers.loop;
             loop.phase == EventLoop.Polling && loop.polled && !loop.signalled && loop.inflight == {}
    ensures var l := xs[i].layers;
            multiset(l.parsed) ==
              multiset(Reqs(l.sent)) + multiset(Reqs(l.pool.queue + Submitting(l.pool))) + multiset(Reqs(l.pool.running))
  {
    RunKeepsLayersOk(w, workers, xs, events, i);
    var l := xs[i].layers;
    EventLoop.AsleepWork(l.loop);
    assert l.loop.pending == [] && l.loop.batch == [];
    assert Abs(l).functors == [];
    assert Reqs(Abs(l).functors) == [];
  }
}
