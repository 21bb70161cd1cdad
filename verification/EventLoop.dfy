/** The event loop's functor queue and its wakeup protocol, as a step system in which any number of
    producer threads interleave with the loop thread. */
module EventLoop {

  /** Thread identities; LOOP is the loop's own thread. */
  type Tid = nat

  const LOOP: Tid := 0

  /** A queued functor, with the thread that queued it. */
  datatype Entry<W> = Entry(tid: Tid, work: W)

  /** Where the loop thread is: not yet in the loop, in `epoll_wait`, running event callbacks, running
      the batch of swapped-out functors, or out of the loop. */
  datatype Phase = Before | Polling | Handling | Draining | Exited

  /** `signalled` is the eventfd's readiness (level-triggered); `polled` that a poll has returned;
      `inflight` the threads between their push and the end of their wakeup decision. `ran` and
      `queued` record the functors run and queued so far. */
  datatype Loop<W> = Loop(phase: Phase, polled: bool, calling: bool, signalled: bool,
                          pending: seq<Entry<W>>, batch: seq<Entry<W>>, inflight: set<Tid>,
                          ran: seq<Entry<W>>, queued: seq<Entry<W>>)

  function Initial<W>(): Loop<W> {
    Loop(Before, false, false, false, [], [], {}, [], [])
  }

  datatype Event<W> =
    | Push(tid: Tid, work: W)
    | Wakeup(tid: Tid)
    | StartLoop
    | PollReturns
    | ReadEventfd
    | Swap
    | RunOne
    | EndDrain(quit: bool)

  /** The loop thread itself can queue only from the code it runs, and takes its next step only when
      it is not inside `queue_in_loop`. */
  predicate Enabled<W>(l: Loop<W>, e: Event<W>) {
    match e
    case Push(tid, _) => tid !in l.inflight && (tid == LOOP ==> l.phase in {Before, Handling, Draining})
    case Wakeup(tid) => tid in l.inflight
    case StartLoop => l.phase == Before && LOOP !in l.inflight
    case PollReturns => l.phase == Polling
    case ReadEventfd => l.phase == Handling && LOOP !in l.inflight
    case Swap => l.phase == Handling && LOOP !in l.inflight
    case RunOne => l.phase == Draining && LOOP !in l.inflight && l.batch != []
    case EndDrain(_) => l.phase == Draining && LOOP !in l.inflight && l.batch == []
  }

  function Next<W>(l: Loop<W>, e: Event<W>): Loop<W>
    requires Enabled(l, e)
  {
    match e
    case Push(tid, work) =>
      l.(pending := l.pending + [Entry(tid, work)], queued := l.queued + [Entry(tid, work)],
         inflight := l.inflight + {tid})
    case Wakeup(tid) =>
      l.(inflight := l.inflight - {tid}, signalled := l.signalled || tid != LOOP || l.calling)
    case StartLoop => l.(phase := Polling)
    case PollReturns => l.(phase := Handling, polled := true)
    case ReadEventfd => l.(signalled := false)
    case Swap => l.(phase := Draining, calling := true, batch := l.pending, pending := [])
    case RunOne => l.(ran := l.ran + [l.batch[0]], batch := l.batch[1..])
    case EndDrain(quit) => l.(phase := if quit then Exited else Polling, calling := false)
  }

  ghost predicate Step<W>(l: Loop<W>, e: Event<W>, l': Loop<W>) {
    Enabled(l, e) && l' == Next(l, e)
  }

  ghost predicate IsRun<W>(loops: seq<Loop<W>>, events: seq<Event<W>>) {
    && |loops| == |events| + 1 && loops[0] == Initial()
    && forall i :: 0 <= i < |events| ==> Step(loops[i], events[i], loops[i + 1])
  }

  /** Functors are run in the order queued: done, rest of the batch, and pending make up the history. */
  ghost predicate InOrder<W>(l: Loop<W>) {
    l.ran + l.batch + l.pending == l.queued
  }

  /** With the eventfd clear, each pending functor's producer is still on its way to the wakeup; the
      only exception is what the loop thread queued itself before its first poll. */
  ghost predicate NoLostWakeup<W>(l: Loop<W>) {
    !l.signalled ==>
      forall i :: 0 <= i < |l.pending| ==>
                    l.pending[i].tid in l.inflight || (!l.polled && l.pending[i].tid == LOOP)
  }

  ghost predicate Inv<W>(l: Loop<W>) {
    && InOrder(l)
    && (l.calling <==> l.phase == Draining)
    && (l.phase != Draining ==> l.batch == [])
    && (l.phase == Draining || l.phase == Handling ==> l.polled)
    && (l.phase == Before ==> !l.polled)
    && (l.phase == Polling || l.phase == Exited ==> LOOP !in l.inflight)
    && (l.phase != Handling ==> NoLostWakeup(l))
  }

  lemma InvStep<W>(l: Loop<W>, e: Event<W>)
    requires Inv(l) && Enabled(l, e)
    ensures Inv(Next(l, e))
  {
    var l' := Next(l, e);
    match e
    case Push(tid, work) =>
      assert l.ran + l.batch + (l.pending + [Entry(tid, work)]) == (l.ran + l.batch + l.pending) + [Entry(tid, work)];
    case Swap =>
      assert l.ran + l.pending + [] == l.ran + [] + l.pending;
    case RunOne =>
      assert l.batch == [l.batch[0]] + l.batch[1..];
      assert (l.ran + [l.batch[0]]) + l.batch[1..] == l.ran + l.batch;
    case _ =>
  }

  lemma {:induction false} RunKeepsInv<W>(loops: seq<Loop<W>>, events: seq<Event<W>>, k: nat)
    requires IsRun(loops, events) && k <= |events|
    ensures Inv(loops[k])
  {
    if k > 0 {
      RunKeepsInv(loops, events, k - 1);
      assert Step(loops[k - 1], events[k - 1], loops[k - 1 + 1]);
      InvStep(loops[k - 1], events[k - 1]);
    }
  }

  lemma RanInOrder<W>(ran: seq<Entry<W>>, batch: seq<Entry<W>>, pending: seq<Entry<W>>)
    ensures ran <= ran + batch + pending
  {
  }

  /** At every point of every interleaving: functors run in queue order, none lost or repeated, and a
      loop inside a poll after its first with the eventfd clear has pending work only from producers
      that have pushed but not yet woken it. */
  lemma LoopNeverSleepsOnWork<W>(loops: seq<Loop<W>>, events: seq<Event<W>>, k: nat)
    requires IsRun(loops, events) && k <= |events|
    ensures Inv(loops[k])
    ensures loops[k].ran <= loops[k].queued
    ensures var l := loops[k];
            l.phase == Polling && l.polled && l.pending != [] && !l.signalled ==>
              (forall e :: e in l.pending ==> e.tid in l.inflight && e.tid != LOOP) && l.inflight != {}
  {
    RunKeepsInv(loops, events, k);
    var l := loops[k];
    RanInOrder(l.ran, l.batch, l.pending);
    if l.phase == Polling && l.polled && l.pending != [] && !l.signalled {
      assert l.pending[0].tid in l.inflight;
    }
  }

  // ---------- The records follow the events ----------

  /** The functors pushed by the first `k` events, in order; how many were run; who has pushed and not yet
      decided on a wakeup; and whether a wakeup was written since the eventfd was last read. */
  function Pushed<W>(events: seq<Event<W>>, k: nat): seq<Entry<W>>
    requires k <= |events|
  {
    if k == 0 then []
    else
      var before, e := Pushed(events, k - 1), events[k - 1];
      if e.Push? then before + [Entry(e.tid, e.work)] else before
  }

  function RunCount<W>(events: seq<Event<W>>, k: nat): nat
    requires k <= |events|
  {
    if k == 0 then 0 else RunCount(events, k - 1) + if events[k - 1].RunOne? then 1 else 0
  }

  function Undecided<W>(events: seq<Event<W>>, k: nat): set<Tid>
    requires k <= |events|
  {
    if k == 0 then {}
    else match events[k - 1]
      case Push(tid, _) => Undecided(events, k - 1) + {tid}
      case Wakeup(tid) => Undecided(events, k - 1) - {tid}
      case _ => Undecided(events, k - 1)
  }

  /** Where the loop thread is. */
  function PhaseAfter<W>(events: seq<Event<W>>, k: nat): Phase
    requires k <= |events|
  {
    if k == 0 then Before
    else match events[k - 1]
      case StartLoop => Polling
      case PollReturns => Handling
      case Swap => Draining
      case EndDrain(quit) => if quit then Exited else Polling
      case _ => PhaseAfter(events, k - 1)
  }

  /** A thread writes the eventfd unless it is the loop's own outside its batch of functors. */
  function Written<W>(events: seq<Event<W>>, k: nat): bool
    requires k <= |events|
  {
    if k == 0 then false
    else match events[k - 1]
      case Wakeup(tid) => Written(events, k - 1) || tid != LOOP || PhaseAfter(events, k - 1) == Draining
      case ReadEventfd => false
      case _ => Written(events, k - 1)
  }

  /** At every point of every run: everything pushed, and nothing else, was queued, in order; as many
      functors have run as were run; a swap takes everything pending; and the eventfd is set exactly when
      it was written since it was last read. */
  lemma {:induction false} LoopFollowsEvents<W>(loops: seq<Loop<W>>, events: seq<Event<W>>, k: nat)
    requires IsRun(loops, events) && k <= |events|
    ensures loops[k].queued == Pushed(events, k) && |loops[k].ran| == RunCount(events, k)
    ensures loops[k].inflight == Undecided(events, k)
    ensures loops[k].phase == PhaseAfter(events, k) && (loops[k].signalled <==> Written(events, k))
    ensures k > 0 && events[k - 1].Swap? ==>
              loops[k].pending == [] && loops[k].ran + loops[k].batch == loops[k].queued
  {
    RunKeepsInv(loops, events, k);
    if k > 0 {
      var p := k - 1;
      LoopFollowsEvents(loops, events, p);
      RunKeepsInv(loops, events, p);
      assert Step(loops[p], events[p], loops[p + 1]);
      assert loops[k].ran + loops[k].batch + [] == loops[k].ran + loops[k].batch;
    }
  }

  /** The exception is real: a functor queued by the loop thread before the loop starts waits for the
      first poll with no wakeup pending. */
  lemma FirstPollCanSleepOnWork<W>(work: W)
    ensures exists loops: seq<Loop<W>>, events: seq<Event<W>> ::
              && IsRun(loops, events) && |events| == 3
              && (var l := loops[3]; l.phase == Polling && l.pending != [] && !l.signalled && l.inflight == {})
  {
    var events := [Push(LOOP, work), Wakeup(LOOP), StartLoop];
    var l1 := Next(Initial(), events[0]);
    var l2 := Next(l1, events[1]);
    var loops := [Initial(), l1, l2, Next(l2, events[2])];
    assert IsRun(loops, events);
  }

  /** A poll has returned among the first `k` events. */
  ghost predicate PollReturned<W>(events: seq<Event<W>>, k: nat)
    requires k <= |events|
  {
    exists i :: 0 <= i < k && events[i].PollReturns?
  }

  /** The loop thread has queued a functor among the first `k` events. */
  ghost predicate LoopThreadQueued<W>(events: seq<Event<W>>, k: nat)
    requires k <= |events|
  {
    exists i :: 0 <= i < k && events[i].Push? && events[i].tid == LOOP
  }

  /** Until a poll returns, nothing is run and the loop thread queues only before `loop()`. */
  lemma {:induction false} BeforeTheFirstPoll<W>(loops: seq<Loop<W>>, events: seq<Event<W>>, k: nat)
    requires IsRun(loops, events) && k <= |events|
    ensures loops[k].polled <==> PollReturned(events, k)
    ensures !loops[k].polled ==>
              && loops[k].phase in {Before, Polling} && loops[k].pending == loops[k].queued
              && (LoopThreadQueued(events, k) <==> exists e :: e in loops[k].queued && e.tid == LOOP)
  {
    if k > 0 {
      BeforeTheFirstPoll(loops, events, k - 1);
      var l, e := loops[k - 1], events[k - 1];
      assert Step(l, e, loops[k - 1 + 1]);
      assert PollReturned(events, k) <==> PollReturned(events, k - 1) || e.PollReturns?;
      assert LoopThreadQueued(events, k) <==> LoopThreadQueued(events, k - 1) || (e.Push? && e.tid == LOOP);
      if e.Push? {
        assert Entry(e.tid, e.work) in loops[k].queued;
        assert forall x :: x in loops[k].queued <==> x in l.queued || x == Entry(e.tid, e.work);
      }
    }
  }

  /** A loop in a poll that nobody is about to wake has only its own thread's work, from before any poll. */
  lemma AsleepWork<W>(l: Loop<W>)
    requires Inv(l) && l.phase == Polling && !l.signalled && l.inflight == {}
    ensures forall e :: e in l.pending ==> !l.polled && e.tid == LOOP
    ensures l.pending == l.queued ==> l.ran == []
    ensures l.polled ==> l.pending == []
  {
    forall e | e in l.pending
      ensures !l.polled && e.tid == LOOP
    {
      var i :| 0 <= i < |l.pending| && l.pending[i] == e;
    }
    assert l.pending != [] ==> l.pending[0] in l.pending;
    assert |l.ran| + |l.batch| + |l.pending| == |l.queued|;
  }

  /** Exactly when: at any point of any run where the loop is inside a poll, the eventfd is clear and no
      producer is on its way to the wakeup, the loop sleeps on pending work if and only if no poll has
      returned yet and the loop thread itself queued work, which it can only have done before `loop()`;
      then everything ever queued is that work, and none of it has run. */
  lemma SleepsOnWorkIff<W>(loops: seq<Loop<W>>, events: seq<Event<W>>, k: nat)
    requires IsRun(loops, events) && k <= |events|
    requires loops[k].phase == Polling && !loops[k].signalled && loops[k].inflight == {}
    ensures loops[k].pending != [] <==> !PollReturned(events, k) && LoopThreadQueued(events, k)
    ensures loops[k].pending != [] ==>
              && loops[k].pending == loops[k].queued && loops[k].ran == []
              && forall e :: e in loops[k].queued ==> e.tid == LOOP
  {
    LoopNeverSleepsOnWork(loops, events, k);
    BeforeTheFirstPoll(loops, events, k);
    AsleepWork(loops[k]);
    if loops[k].pending != [] {
      assert loops[k].pending[0] in loops[k].pending;
    }
  }
}
