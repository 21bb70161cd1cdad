/** The client channel: id allocation, the pending table, and the release protocol between callers and
    the reader thread. Each critical section is one step. */
module RpcClient {

  import opened Basics
  import opened Wire
  import opened RpcServer

  /** How far a call has come: id fetched; in the pending table; frame written; taken out of the table
      by the reader; taken out by its own failed write. */
  datatype Phase = Allocated | Published | Sent | Matched | Aborted

  /** What the caller finds when the call is over. Garbled stands for a response message that could not
      be parsed: the code ignores that failure. */
  datatype CallResult = Replied(m: Message) | Garbled | Failure(text: string)

  /** `flag` is the done flag, `returned` that CallMethod has returned; `matches` and `closures` count
      the responses matched to the call and the runs of its completion closure. */
  datatype Call = Call(service: string, methodName: string, msg: Message, async: bool,
                       phase: Phase, outcome: Option<CallResult>, flag: bool, returned: bool,
                       matches: nat, closures: nat)

  /** The reader thread: decoding; or past the table lookup, the recording, the flag; or gone. */
  datatype Reader = Reading | Holding(k: nat, resp: RpcResponse) | Recorded(k: nat) | Flagged(k: nat) | Stopped

  /** Calls in order of id allocation; the pending table maps ids to calls. */
  datatype Client = Client(calls: seq<Call>, pending: map<Word32, nat>, reader: Reader)

  const FRESH_CLIENT := Client([], map[], Reading)

  /** The counter starts at 1 and wraps at 32 bits. */
  function Id(k: nat): Word32 {
    (k + 1) % WORD
  }

  function RequestOf(w: World, x: Call, k: nat): RpcRequest {
    RpcRequest(x.service, x.methodName, Id(k), w.pack(x.msg))
  }

  predicate Unresolved(x: Call) {
    x.phase in {Allocated, Published, Sent}
  }

  predicate InTable(x: Call) {
    x.phase in {Published, Sent}
  }

  // ---------- Steps ----------

  /** Fewer than 2^32 ids are handed out while any call is unresolved. */
  predicate MayAllocate(c: Client) {
    forall j :: 0 <= j < |c.calls| && Unresolved(c.calls[j]) ==> |c.calls| - j < WORD
  }

  function Allocate(c: Client, service: string, methodName: string, msg: Message, async: bool): Client {
    c.(calls := c.calls + [Call(service, methodName, msg, async, Allocated, None, false, false, 0, 0)])
  }

  predicate At(c: Client, k: nat, phase: Phase) {
    k < |c.calls| && c.calls[k].phase == phase
  }

  function Publish(c: Client, k: nat): Client
    requires At(c, k, Allocated)
  {
    c.(calls := c.calls[k := c.calls[k].(phase := Published)], pending := c.pending[Id(k) := k])
  }

  /** A write that did not fail wrote the whole frame; an asynchronous caller is then done. */
  function Written(c: Client, k: nat): Client
    requires At(c, k, Published)
  {
    var x := c.calls[k];
    c.(calls := c.calls[k := x.(phase := Sent, returned := x.async)])
  }

  function WriteFailed(c: Client, k: nat): Client
    requires At(c, k, Published)
  {
    var x := c.calls[k];
    c.(calls := c.calls[k := x.(phase := Aborted, outcome := Some(Failure("write failed")), returned := true,
                                closures := x.closures + if x.async then 1 else 0)],
       pending := c.pending - {Id(k)})
  }

  predicate MayWake(c: Client, k: nat) {
    k < |c.calls| && !c.calls[k].async && c.calls[k].phase in {Sent, Matched} && c.calls[k].flag
  }

  function Wake(c: Client, k: nat): Client
    requires MayWake(c, k)
  {
    c.(calls := c.calls[k := c.calls[k].(returned := true)])
  }

  /** The reader looks a response up and takes the call out of the table; unknown ids are ignored. */
  function Match(c: Client, r: RpcResponse): Client {
    if r.id !in c.pending || c.pending[r.id] >= |c.calls| then c
    else
      var k := c.pending[r.id];
      var x := c.calls[k];
      c.(calls := c.calls[k := x.(phase := Matched, matches := x.matches + 1)],
         pending := c.pending - {r.id}, reader := Holding(k, r))
  }

  function ResultOf(w: World, r: RpcResponse): CallResult {
    if r.success then
      match w.parse(r.result)
      case Some(m) => Replied(m)
      case None => Garbled
    else Failure(r.error)
  }

  function Record(w: World, c: Client): Client
    requires c.reader.Holding? && c.reader.k < |c.calls|
  {
    var k := c.reader.k;
    c.(calls := c.calls[k := c.calls[k].(outcome := Some(ResultOf(w, c.reader.resp)))], reader := Recorded(k))
  }

  function SetFlag(c: Client): Client
    requires c.reader.Recorded? && c.reader.k < |c.calls|
  {
    var k := c.reader.k;
    c.(calls := c.calls[k := c.calls[k].(flag := true)], reader := Flagged(k))
  }

  function RunClosure(c: Client): Client
    requires c.reader.Flagged? && c.reader.k < |c.calls|
  {
    var k := c.reader.k;
    var x := c.calls[k];
    c.(calls := c.calls[k := x.(closures := x.closures + if x.async then 1 else 0)], reader := Reading)
  }

  /** The reader found the connection closed: every pending call is failed and released, and stays in
      the table. */
  function Sweep(c: Client): Client
    requires c.reader == Reading
  {
    c.(calls := seq(|c.calls|, i requires 0 <= i < |c.calls| =>
                      if i in c.pending.Values
                      then c.calls[i].(outcome := Some(Failure("connection closed")), flag := true)
                      else c.calls[i]),
       reader := Stopped)
  }

  function Quit(c: Client): Client
    requires c.reader == Reading
  {
    c.(reader := Stopped)
  }

  // ---------- Invariant ----------

  ghost predicate Table(c: Client) {
    && (forall i :: i in c.pending ==>
          c.pending[i] < |c.calls| && Id(c.pending[i]) == i && InTable(c.calls[c.pending[i]]))
    && (forall k :: 0 <= k < |c.calls| && InTable(c.calls[k]) ==> Id(k) in c.pending && c.pending[Id(k)] == k)
    && (forall j, k :: 0 <= j < k < |c.calls| && Unresolved(c.calls[j]) && Unresolved(c.calls[k]) ==> Id(j) != Id(k))
    && (c.reader != Reading && c.reader != Stopped ==> At(c, c.reader.k, Matched))
  }

  /** An outcome that an execution of call `k`'s own request, or the server's error paths, may have. */
  ghost predicate OutcomeFor(w: World, x: Call, k: nat, o: CallResult) {
    if x.service !in w.services then o == Failure("service not found: " + x.service)
    else if x.methodName !in w.services[x.service] then o == Failure("method not found: " + x.methodName)
    else match o
      case Replied(m) => w.serves(RequestOf(w, x, k), Done(m))
      case Garbled => false
      case Failure(text) => w.serves(RequestOf(w, x, k), Failed(text))
  }

  function Runs(x: Call): nat {
    if x.async then 1 else 0
  }

  ghost predicate Unanswered(x: Call, reader: Reader) {
    && x.closures == 0
    && (x.outcome.None? || (x.outcome == Some(Failure("connection closed")) && reader == Stopped))
  }

  ghost predicate Answered(w: World, x: Call, k: nat) {
    x.outcome.Some? && OutcomeFor(w, x, k, x.outcome.value)
  }

  /** A matched call, by where the reader is with it. */
  ghost predicate MatchedOk(w: World, x: Call, k: nat, reader: Reader) {
    match reader
    case Holding(j, r) =>
      if j == k then x.outcome.None? && x.closures == 0 && Answers(w, RequestOf(w, x, k), r)
      else Answered(w, x, k) && x.flag && x.closures == Runs(x)
    case Recorded(j) => Answered(w, x, k) && (if j == k then x.closures == 0 else x.flag && x.closures == Runs(x))
    case Flagged(j) => Answered(w, x, k) && x.flag && x.closures == (if j == k then 0 else Runs(x))
    case _ => Answered(w, x, k) && x.flag && x.closures == Runs(x)
  }

  ghost predicate CallOk(w: World, x: Call, k: nat, reader: Reader) {
    && x.matches == (if x.phase == Matched then 1 else 0)
    && (x.flag ==> x.outcome.Some?)
    && (x.returned && !x.async ==> x.outcome.Some?)
    && match x.phase
       case Allocated => x.outcome.None? && x.closures == 0 && !x.returned
       case Published => Unanswered(x, reader) && !x.returned
       case Sent => Unanswered(x, reader)
       case Aborted => x.outcome == Some(Failure("write failed")) && x.closures == Runs(x)
       case Matched => MatchedOk(w, x, k, reader)
  }

  ghost predicate CallsOk(w: World, c: Client) {
    forall k :: 0 <= k < |c.calls| ==> CallOk(w, c.calls[k], k, c.reader)
  }

  ghost predicate ClientInv(w: World, c: Client) {
    Table(c) && CallsOk(w, c)
  }

  /** A request of a sent call that has not been answered yet. */
  ghost predicate Expects(w: World, c: Client, q: RpcRequest) {
    && q.id in c.pending && c.pending[q.id] < |c.calls| && c.calls[c.pending[q.id]].phase == Sent
    && q == RequestOf(w, c.calls[c.pending[q.id]], c.pending[q.id])
  }

  /** Nothing expected before stops being expected, except possibly under the given ids. */
  ghost predicate StillExpects(w: World, c: Client, c': Client, except: set<Word32>) {
    forall q :: Expects(w, c, q) && q.id !in except ==> Expects(w, c', q)
  }

  /** The reader is decoding or busy with call `k`. */
  predicate NearCall(reader: Reader, k: nat) {
    reader == Reading || (!reader.Stopped? && reader.k == k)
  }

  /** A step that changes only call `k`, and moves the reader only around it, keeps the others' books. */
  lemma OneCallChanges(w: World, c: Client, c': Client, k: nat)
    requires CallsOk(w, c) && k < |c.calls| == |c'.calls|
    requires c'.calls == c.calls[k := c'.calls[k]] && CallOk(w, c'.calls[k], k, c'.reader)
    requires c'.reader == c.reader || (NearCall(c.reader, k) && NearCall(c'.reader, k))
    ensures CallsOk(w, c')
  {
    forall j | 0 <= j < |c.calls|
      ensures CallOk(w, c'.calls[j], j, c'.reader)
    {
      assert CallOk(w, c.calls[j], j, c.reader);
    }
  }

  /** A step on call `k` that leaves it in or out of the table, and the table alone, keeps the table. */
  lemma TableKept(c: Client, c': Client, k: nat)
    requires Table(c) && k < |c.calls| == |c'.calls| && c'.calls == c.calls[k := c'.calls[k]]
    requires c'.pending == c.pending
    requires InTable(c'.calls[k]) <==> InTable(c.calls[k])
    requires Unresolved(c'.calls[k]) <==> Unresolved(c.calls[k])
    requires c'.reader != Reading && c'.reader != Stopped ==> At(c', c'.reader.k, Matched)
    ensures Table(c')
  {
  }

  lemma AllocateTable(c: Client, service: string, methodName: string, msg: Message, async: bool)
    requires Table(c) && MayAllocate(c)
    ensures Table(Allocate(c, service, methodName, msg, async))
  {
    forall j | 0 <= j < |c.calls| && Unresolved(c.calls[j])
      ensures Id(j) != Id(|c.calls|)
    {
      IdsDiffer(j, |c.calls|);
    }
  }

  lemma AllocateOk(w: World, c: Client, service: string, methodName: string, msg: Message, async: bool)
    requires ClientInv(w, c) && MayAllocate(c)
    ensures var c' := Allocate(c, service, methodName, msg, async);
            ClientInv(w, c') && StillExpects(w, c, c', {})
  {
    AllocateTable(c, service, methodName, msg, async);
  }

  /** The first 2^32 calls may all be made, and later ones as long as no call that many ids back is open. */
  lemma MayAllocateIf(c: Client)
    requires |c.calls| < WORD || forall j :: 0 <= j <= |c.calls| - WORD && j < |c.calls| ==> !Unresolved(c.calls[j])
    ensures MayAllocate(c)
  {
  }

  lemma IdsDiffer(j: nat, k: nat)
    requires j < k < j + WORD
    ensures Id(j) != Id(k)
  {
  }

  lemma Remainder(x: nat, q: nat, r: nat)
    requires x == q * WORD + r && r < WORD
    ensures x % WORD == r
  {
  }

  /** Ids count up from 1 modulo 2^32, so two calls share one exactly when a multiple of 2^32 apart. */
  lemma IdSequence(j: nat, d: nat)
    ensures Id(0) == 1
    ensures Id(j) == Id(j + d) <==> d % WORD == 0
  {
    var a, r := Id(j), d % WORD;
    var q := (j + 1) / WORD + d / WORD;
    if a + r < WORD {
      Remainder(j + d + 1, q, a + r);
    } else {
      Remainder(j + d + 1, q + 1, a + r - WORD);
    }
  }

  lemma IdIsFree(c: Client, k: nat)
    requires Table(c) && At(c, k, Allocated)
    ensures Id(k) !in c.pending
  {
    forall i | i in c.pending
      ensures i != Id(k)
    {
      var j := c.pending[i];
      assert Unresolved(c.calls[j]) && j != k;
    }
  }

  lemma PublishTable(c: Client, k: nat)
    requires Table(c) && At(c, k, Allocated) && Id(k) !in c.pending
    ensures Table(Publish(c, k))
  {
  }

  lemma PublishOk(w: World, c: Client, k: nat)
    requires ClientInv(w, c) && At(c, k, Allocated)
    ensures ClientInv(w, Publish(c, k)) && StillExpects(w, c, Publish(c, k), {})
  {
    IdIsFree(c, k);
    PublishTable(c, k);
    assert CallOk(w, c.calls[k], k, c.reader);
    OneCallChanges(w, c, Publish(c, k), k);
  }

  lemma WrittenOk(w: World, c: Client, k: nat)
    requires ClientInv(w, c) && At(c, k, Published)
    ensures ClientInv(w, Written(c, k)) && StillExpects(w, c, Written(c, k), {})
    ensures var q := RequestOf(w, c.calls[k], k); !Expects(w, c, q) && Expects(w, Written(c, k), q)
  {
    assert CallOk(w, c.calls[k], k, c.reader);
    OneCallChanges(w, c, Written(c, k), k);
    TableKept(c, Written(c, k), k);
  }

  lemma WriteFailedTable(c: Client, k: nat)
    requires Table(c) && At(c, k, Published)
    ensures Table(WriteFailed(c, k))
  {
    var c' := WriteFailed(c, k);
    forall i | i in c'.pending
      ensures c'.pending[i] < |c'.calls| && Id(c'.pending[i]) == i && InTable(c'.calls[c'.pending[i]])
    {
      assert c.pending[i] != k;
    }
  }

  lemma WriteFailedOk(w: World, c: Client, k: nat)
    requires ClientInv(w, c) && At(c, k, Published)
    ensures ClientInv(w, WriteFailed(c, k)) && StillExpects(w, c, WriteFailed(c, k), {})
  {
    WriteFailedTable(c, k);
    assert CallOk(w, c.calls[k], k, c.reader);
    OneCallChanges(w, c, WriteFailed(c, k), k);
  }

  lemma WakeOk(w: World, c: Client, k: nat)
    requires ClientInv(w, c) && MayWake(c, k)
    ensures ClientInv(w, Wake(c, k)) && StillExpects(w, c, Wake(c, k), {})
  {
    assert CallOk(w, c.calls[k], k, c.reader);
    OneCallChanges(w, c, Wake(c, k), k);
    TableKept(c, Wake(c, k), k);
  }

  lemma MatchTable(c: Client, r: RpcResponse)
    requires Table(c) && c.reader == Reading && r.id in c.pending
    ensures Table(Match(c, r))
  {
  }

  /** Matching the response to an expected request keeps the invariant and unexpects only that id: the
      call that sent the request is matched once more, leaves the table, and is what the reader holds. */
  lemma MatchOk(w: World, c: Client, q: RpcRequest, r: RpcResponse)
    requires ClientInv(w, c) && c.reader == Reading && Expects(w, c, q) && Answers(w, q, r)
    ensures ClientInv(w, Match(c, r)) && StillExpects(w, c, Match(c, r), {q.id})
    ensures var k, c' := c.pending[q.id], Match(c, r);
            && At(c, k, Sent) && At(c', k, Matched) && c'.calls[k].matches == c.calls[k].matches + 1
            && c'.pending == c.pending - {q.id} && c'.reader == Holding(k, r)
            && c'.calls == c.calls[k := c'.calls[k]]
  {
    var k := c.pending[r.id];
    assert CallOk(w, c.calls[k], k, c.reader);
    MatchTable(c, r);
    OneCallChanges(w, c, Match(c, r), k);
  }

  /** A response whose id is in no entry of the table is ignored. */
  lemma UnknownIdIgnored(c: Client, r: RpcResponse)
    requires r.id !in c.pending
    ensures Match(c, r) == c
  {
  }

  lemma RecordOk(w: World, c: Client)
    requires Faithful(w) && ClientInv(w, c) && c.reader.Holding?
    ensures ClientInv(w, Record(w, c)) && StillExpects(w, c, Record(w, c), {})
  {
    var k := c.reader.k;
    assert CallOk(w, c.calls[k], k, c.reader);
    ResultJustified(w, c.calls[k], k, c.reader.resp);
    OneCallChanges(w, c, Record(w, c), k);
    TableKept(c, Record(w, c), k);
  }

  lemma ResultJustified(w: World, x: Call, k: nat, r: RpcResponse)
    requires Faithful(w) && Answers(w, RequestOf(w, x, k), r)
    ensures OutcomeFor(w, x, k, ResultOf(w, r))
  {
  }

  lemma SetFlagOk(w: World, c: Client)
    requires ClientInv(w, c) && c.reader.Recorded?
    ensures ClientInv(w, SetFlag(c)) && StillExpects(w, c, SetFlag(c), {})
  {
    var k := c.reader.k;
    assert CallOk(w, c.calls[k], k, c.reader);
    OneCallChanges(w, c, SetFlag(c), k);
    TableKept(c, SetFlag(c), k);
  }

  lemma RunClosureOk(w: World, c: Client)
    requires ClientInv(w, c) && c.reader.Flagged?
    ensures ClientInv(w, RunClosure(c)) && StillExpects(w, c, RunClosure(c), {})
  {
    var k := c.reader.k;
    assert CallOk(w, c.calls[k], k, c.reader);
    OneCallChanges(w, c, RunClosure(c), k);
    TableKept(c, RunClosure(c), k);
  }

  lemma QuitOk(w: World, c: Client)
    requires ClientInv(w, c) && c.reader == Reading
    ensures ClientInv(w, Quit(c)) && StillExpects(w, c, Quit(c), {})
  {
  }

  lemma SweepTable(c: Client)
    requires Table(c) && c.reader == Reading
    ensures Table(Sweep(c)) && forall k :: 0 <= k < |c.calls| ==> (k in c.pending.Values <==> InTable(c.calls[k]))
  {
    forall k | 0 <= k < |c.calls| && InTable(c.calls[k])
      ensures k in c.pending.Values
    {
      assert c.pending[Id(k)] == k;
    }
  }

  /** The sweep fails and releases exactly the calls published or sent and not yet matched, so every
      synchronous caller then waiting may return; the other calls keep what they have. */
  lemma SweepOk(w: World, c: Client)
    requires ClientInv(w, c) && c.reader == Reading
    ensures ClientInv(w, Sweep(c)) && StillExpects(w, c, Sweep(c), {})
    ensures forall k :: 0 <= k < |c.calls| ==>
              Sweep(c).calls[k] ==
                if InTable(c.calls[k]) then c.calls[k].(outcome := Some(Failure("connection closed")), flag := true)
                else c.calls[k]
    ensures forall k :: 0 <= k < |c.calls| && c.calls[k].phase == Sent && !c.calls[k].async ==> MayWake(Sweep(c), k)
  {
    SweepTable(c);
    forall k | 0 <= k < |c.calls|
      ensures CallOk(w, Sweep(c).calls[k], k, Stopped)
    {
      assert CallOk(w, c.calls[k], k, c.reader);
    }
  }

  /** A synchronous caller may return once its call is answered: matched, recorded, and the reader done
      with it; and waking it makes it return, with its outcome as it was. */
  lemma AnsweredCallerReturns(w: World, c: Client, k: nat)
    requires ClientInv(w, c) && At(c, k, Matched) && !c.calls[k].async && c.reader in {Reading, Stopped}
    ensures MayWake(c, k) && c.calls[k].outcome.Some?
    ensures var x := Wake(c, k).calls[k]; x.returned && x.outcome == c.calls[k].outcome
  {
    assert CallOk(w, c.calls[k], k, c.reader);
  }

  /** A write that failed ends the call: failed, returned, out of the table, its closure run if it has one. */
  lemma FailedWriteEndsCall(w: World, c: Client, k: nat)
    requires ClientInv(w, c) && At(c, k, Published)
    ensures var c' := WriteFailed(c, k);
            && c'.calls == c.calls[k := c'.calls[k]] && At(c', k, Aborted)
            && c'.calls[k].outcome == Some(Failure("write failed")) && c'.calls[k].returned
            && c'.calls[k].closures == (if c.calls[k].async then 1 else 0)
            && (forall i :: i in c'.pending <==> i in c.pending && c.pending[i] != k)
  {
    assert CallOk(w, c.calls[k], k, c.reader);
  }

  /** A successful response whose result is no message of the call's type leaves the call without one. */
  lemma UnparsedReply(w: World, r: RpcResponse)
    ensures r.success && w.parse(r.result).None? <==> ResultOf(w, r) == Garbled
  {
  }

  /** A reader that quits stops, and does nothing else. */
  lemma QuitStops(c: Client)
    requires c.reader == Reading
    ensures Quit(c).reader == Stopped && Quit(c).calls == c.calls && Quit(c).pending == c.pending
  {
  }
}
