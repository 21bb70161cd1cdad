/** The worker pool: a task queue under a mutex, a stop flag set without it, and workers that drain
    the queue before they exit. */
module ThreadPool {

  import opened Basics

  /** Workers are interchangeable: `idle` wait or are about to take the mutex, `running` lists the
      tasks of the busy ones, `gone` have returned. `submitting` holds the task of a submitter that
      has passed the stop check and still holds the mutex. `accepted`, `started` and `finished`
      record tasks in the order of those events. */
  datatype Pool<T> = Pool(queue: seq<T>, stop: bool, submitting: Option<T>,
                          idle: nat, running: seq<T>, gone: nat,
                          accepted: seq<T>, started: seq<T>, finished: seq<T>)

  function Create<T>(workers: nat): Pool<T> {
    Pool([], false, None, workers, [], 0, [], [], [])
  }

  datatype Event<T> =
    | SubmitCheck(task: T)
    | SubmitPush
    | Stop
    | Acquire
    | Finish(w: nat)

  predicate Enabled<T>(p: Pool<T>, e: Event<T>) {
    match e
    case SubmitCheck(_) => p.submitting.None?
    case SubmitPush => p.submitting.Some?
    case Stop => true
    case Acquire => p.submitting.None? && p.idle > 0
    case Finish(w) => w < |p.running|
  }

  /** A submit after stop is refused; a worker that finds nothing queued and no stop waits again. */
  function Next<T>(p: Pool<T>, e: Event<T>): Pool<T>
    requires Enabled(p, e)
  {
    match e
    case SubmitCheck(t) => if p.stop then p else p.(submitting := Some(t))
    case SubmitPush =>
      var t := p.submitting.value;
      p.(submitting := None, queue := p.queue + [t], accepted := p.accepted + [t])
    case Stop => p.(stop := true)
    case Acquire =>
      if p.queue != [] then
        p.(queue := p.queue[1..], idle := p.idle - 1, running := p.running + [p.queue[0]],
           started := p.started + [p.queue[0]])
      else if p.stop then p.(idle := p.idle - 1, gone := p.gone + 1)
      else p
    case Finish(w) =>
      p.(running := Without(p.running, w), idle := p.idle + 1, finished := p.finished + [p.running[w]])
  }

  ghost predicate Step<T>(p: Pool<T>, e: Event<T>, p': Pool<T>) {
    Enabled(p, e) && p' == Next(p, e)
  }

  ghost predicate IsRun<T>(pools: seq<Pool<T>>, events: seq<Event<T>>, workers: nat) {
    && |pools| == |events| + 1 && pools[0] == Create(workers)
    && forall i :: 0 <= i < |events| ==> Step(pools[i], events[i], pools[i + 1])
  }

  ghost predicate Inv<T>(p: Pool<T>, workers: nat) {
    && p.idle + |p.running| + p.gone == workers
    && p.started + p.queue == p.accepted
    && multiset(p.started) == multiset(p.finished) + multiset(p.running)
    && (p.gone > 0 ==> p.stop && p.queue == [] && p.submitting.None?)
  }

  lemma WithoutSplit<T>(s: seq<T>, i: nat)
    requires i < |s|
    ensures multiset(s) == multiset(Without(s, i)) + multiset{s[i]}
  {
    assert s == s[..i] + [s[i]] + s[i + 1..];
  }

  lemma InvStep<T>(p: Pool<T>, e: Event<T>, workers: nat)
    requires Inv(p, workers) && Enabled(p, e)
    ensures Inv(Next(p, e), workers)
  {
    match e
    case SubmitPush =>
      assert p.started + (p.queue + [p.submitting.value]) == (p.started + p.queue) + [p.submitting.value];
    case Acquire =>
      if p.queue != [] {
        assert p.queue == [p.queue[0]] + p.queue[1..];
        assert (p.started + [p.queue[0]]) + p.queue[1..] == p.started + p.queue;
      }
    case Finish(w) => WithoutSplit(p.running, w);
    case _ =>
  }

  /** At every point of every interleaving, with stop set at any moment: tasks are started in the
      order accepted, none twice; the started ones are finished or running; and once every worker of
      a non-empty pool has exited, nothing is queued and every accepted task has run exactly once. */
  lemma {:induction false} StoppedPoolHasRunEverything<T>(pools: seq<Pool<T>>, events: seq<Event<T>>, workers: nat, k: nat)
    requires IsRun(pools, events, workers) && k <= |events|
    ensures Inv(pools[k], workers)
    ensures pools[k].started <= pools[k].accepted
    ensures var p := pools[k];
            0 < p.gone == workers ==>
              p.queue == [] && p.started == p.accepted && multiset(p.finished) == multiset(p.accepted)
  {
    if k > 0 {
      StoppedPoolHasRunEverything(pools, events, workers, k - 1);
      assert Step(pools[k - 1], events[k - 1], pools[k - 1 + 1]);
      InvStep(pools[k - 1], events[k - 1], workers);
    }
    if pools[k].queue == [] {
      assert pools[k].started + [] == pools[k].started;
    }
  }

  // ---------- The records follow the events ----------

  /** What the first `k` events say: whether the pool was stopped, the submit that holds the mutex, and
      the tasks accepted. */
  datatype Submitted<T> = Submitted(stop: bool, holding: Option<T>, accepted: seq<T>)

  function SubmittedAfter<T>(events: seq<Event<T>>, k: nat): Submitted<T>
    requires k <= |events|
  {
    if k == 0 then Submitted(false, None, [])
    else
      var x := SubmittedAfter(events, k - 1);
      match events[k - 1]
      case SubmitCheck(t) => if x.stop then x else x.(holding := Some(t))
      case SubmitPush => if x.holding.Some? then x.(holding := None, accepted := x.accepted + [x.holding.value]) else x
      case Stop => x.(stop := true)
      case _ => x
  }

  function FinishCount<T>(events: seq<Event<T>>, k: nat): nat
    requires k <= |events|
  {
    if k == 0 then 0 else FinishCount(events, k - 1) + if events[k - 1].Finish? then 1 else 0
  }

  /** A worker that gets the mutex takes the oldest task; with none it leaves exactly if stop is set. */
  lemma AcquireEffect<T>(p: Pool<T>)
    requires Enabled(p, Acquire)
    ensures var p' := Next(p, Acquire);
            if p.queue != [] then [p.queue[0]] + p'.queue == p.queue && p'.running == p.running + [p.queue[0]] && p'.gone == p.gone
            else p'.queue == [] && p'.running == p.running && p'.gone == p.gone + if p.stop then 1 else 0
  {
  }

  /** At every point of every run: accepted is every task whose submit passed the stop check, in the order
      of their pushes, and nothing else; and as many tasks have finished as workers finished one. */
  lemma {:induction false} PoolFollowsEvents<T>(pools: seq<Pool<T>>, events: seq<Event<T>>, workers: nat, k: nat)
    requires IsRun(pools, events, workers) && k <= |events|
    ensures Submitted(pools[k].stop, pools[k].submitting, pools[k].accepted) == SubmittedAfter(events, k)
    ensures |pools[k].finished| == FinishCount(events, k)
  {
    if k > 0 {
      var p := k - 1;
      PoolFollowsEvents(pools, events, workers, p);
      assert Step(pools[p], events[p], pools[p + 1]);
    }
  }
}
