/** Endpoint selection: the consistent-hash ring and the weighted draw. */
module LoadBalancer {

  import opened Basics
  import opened Strings
  import Decimal

  datatype Endpoint = Endpoint(host: string, port: nat, weight: int) {
    function Address(): string {
      host + ":" + Decimal.Print(port)
    }
  }

  predicate Same(ep: Endpoint, host: string, port: nat) {
    ep.host == host && ep.port == port
  }

  lemma {:induction false} DigitsFree(n: nat, c: char)
    requires !Decimal.IsDigit(c)
    ensures Free(Decimal.Digits(n), c)
  {
    var s := Decimal.Digits(n);
    assert forall i :: 0 <= i < |s| ==> Decimal.IsDigit(s[i]);
  }

  /** An address determines host and port, whatever colons the host contains. */
  lemma AddressInjective(a: Endpoint, b: Endpoint)
    ensures a.Address() == b.Address() <==> Same(a, b.host, b.port)
  {
    if a.Address() == b.Address() {
      DigitsFree(a.port, ':');
      DigitsFree(b.port, ':');
      SplitUnique(a.host, Decimal.Print(a.port), ':', b.host, Decimal.Print(b.port));
      Decimal.PrintInjective(a.port, b.port);
    }
  }

  // ---------- The consistent-hash ring ----------

  type Hash = Word32

  /** Where virtual node `i` of an endpoint sits on the ring, for an arbitrary hash function. */
  function Position(hash: string -> Hash, ep: Endpoint, i: nat): Hash {
    hash(ep.Address() + "#" + Decimal.Print(i))
  }

  /** One of the first `n` virtual nodes of `ep` is at `p`. */
  ghost predicate Marks(ep: Endpoint, n: nat, hash: string -> Hash, p: Hash) {
    exists i: nat :: i < n && Position(hash, ep, i) == p
  }

  ghost predicate Sits(eps: seq<Endpoint>, nodes: nat, hash: string -> Hash, j: nat, p: Hash) {
    j < |eps| && Marks(eps[j], nodes, hash, p)
  }

  /** Position `p` belongs to the last-listed endpoint hashing there. */
  ghost predicate Owns(eps: seq<Endpoint>, nodes: nat, hash: string -> Hash, j: nat, p: Hash) {
    Sits(eps, nodes, hash, j, p) && forall j': nat :: j < j' < |eps| ==> !Sits(eps, nodes, hash, j', p)
  }

  function Clockwise(from: Hash, to: Hash): nat {
    if from <= to then to - from else to - from + WORD
  }

  /** `p` is the occupied position at least clockwise distance from `k`. */
  ghost predicate Nearest(eps: seq<Endpoint>, nodes: nat, hash: string -> Hash, k: Hash, p: Hash) {
    && (exists j :: Sits(eps, nodes, hash, j, p))
    && forall j, q :: Sits(eps, nodes, hash, j, q) ==> Clockwise(k, p) <= Clockwise(k, q)
  }

  ghost predicate ChosenAt(eps: seq<Endpoint>, nodes: nat, hash: string -> Hash, k: Hash, j: nat, p: Hash) {
    Owns(eps, nodes, hash, j, p) && Nearest(eps, nodes, hash, k, p)
  }

  /** What consistent hashing promises: list position `j` owns the nearest position clockwise. */
  ghost predicate Chosen(eps: seq<Endpoint>, nodes: nat, hash: string -> Hash, k: Hash, j: nat) {
    exists p :: ChosenAt(eps, nodes, hash, k, j, p)
  }

  /** The ring maps each occupied position, and no other, to its owner. */
  ghost predicate IsRing(ring: map<Hash, nat>, eps: seq<Endpoint>, nodes: nat, hash: string -> Hash) {
    && (forall p :: p in ring ==> Owns(eps, nodes, hash, ring[p], p))
    && (forall j, p :: Sits(eps, nodes, hash, j, p) ==> p in ring)
  }

  // ---------- Where the virtual nodes are ----------

  /** The string that names virtual node `i`: host:port#i. */
  function NodeName(host: string, port: nat, i: nat): string {
    host + ":" + Decimal.Print(port) + "#" + Decimal.Print(i)
  }

  /** A node's name determines its host, port and number. */
  lemma NodeNameInjective(a: Endpoint, i: nat, b: Endpoint, j: nat)
    ensures NodeName(a.host, a.port, i) == NodeName(b.host, b.port, j) <==> Same(a, b.host, b.port) && i == j
  {
    if NodeName(a.host, a.port, i) == NodeName(b.host, b.port, j) {
      DigitsFree(i, '#');
      DigitsFree(j, '#');
      SplitUnique(a.host + ":" + Decimal.Print(a.port), Decimal.Print(i), '#', b.host + ":" + Decimal.Print(b.port), Decimal.Print(j));
      Decimal.PrintInjective(i, j);
      AddressInjective(a, b);
    }
  }

  /** The hash tells the node names of a list apart. */
  ghost predicate TellsApart(hash: string -> Hash, eps: seq<Endpoint>, nodes: nat) {
    forall j: nat, i: nat, j': nat, i': nat ::
      j < |eps| && j' < |eps| && i < nodes && i' < nodes &&
      hash(NodeName(eps[j].host, eps[j].port, i)) == hash(NodeName(eps[j'].host, eps[j'].port, i')) ==>
        NodeName(eps[j].host, eps[j].port, i) == NodeName(eps[j'].host, eps[j'].port, i')
  }

  /** Two nodes of one endpoint share a position only if the hash collides on their two names. */
  lemma NodesCollideByHashOnly(hash: string -> Hash, ep: Endpoint, i: nat, j: nat)
    requires i != j && Position(hash, ep, i) == Position(hash, ep, j)
    ensures var x, y := NodeName(ep.host, ep.port, i), NodeName(ep.host, ep.port, j); x != y && hash(x) == hash(y)
  {
    NodeNameInjective(ep, i, ep, j);
  }

  /** Where the hash tells names apart, positions agree exactly when host, port and number do. */
  lemma PositionsAgreeIff(hash: string -> Hash, eps: seq<Endpoint>, nodes: nat, j: nat, i: nat, j': nat, i': nat)
    requires TellsApart(hash, eps, nodes) && j < |eps| && j' < |eps| && i < nodes && i' < nodes
    ensures Position(hash, eps[j], i) == Position(hash, eps[j'], i') <==>
              Same(eps[j], eps[j'].host, eps[j'].port) && i == i'
  {
    NodeNameInjective(eps[j], i, eps[j'], i');
    assert Position(hash, eps[j], i) == hash(NodeName(eps[j].host, eps[j].port, i));
    assert Position(hash, eps[j'], i') == hash(NodeName(eps[j'].host, eps[j'].port, i'));
  }

  /** The positions of the first `n` nodes of endpoint `j`. */
  ghost function PositionsOf(hash: string -> Hash, ep: Endpoint, n: nat): set<Hash> {
    if n == 0 then {} else PositionsOf(hash, ep, n - 1) + {Position(hash, ep, n - 1)}
  }

  lemma MarksOneMore(hash: string -> Hash, ep: Endpoint, n: nat, p: Hash)
    ensures Marks(ep, n + 1, hash, p) <==> Marks(ep, n, hash, p) || p == Position(hash, ep, n)
  {
    if Marks(ep, n, hash, p) {
      var i: nat :| i < n && Position(hash, ep, i) == p;
      assert i < n + 1;
    }
  }

  lemma LastIsApart(hash: string -> Hash, eps: seq<Endpoint>, nodes: nat, j: nat, n: nat)
    requires TellsApart(hash, eps, nodes) && j < |eps| && n < nodes
    ensures !Marks(eps[j], n, hash, Position(hash, eps[j], n))
  {
    forall i: nat | i < n
      ensures Position(hash, eps[j], i) != Position(hash, eps[j], n)
    {
      PositionsAgreeIff(hash, eps, nodes, j, i, j, n);
    }
  }

  lemma {:induction false} PositionsOfMarks(hash: string -> Hash, ep: Endpoint, n: nat, p: Hash)
    ensures p in PositionsOf(hash, ep, n) <==> Marks(ep, n, hash, p)
  {
    if n > 0 {
      PositionsOfMarks(hash, ep, n - 1, p);
      MarksOneMore(hash, ep, n - 1, p);
    }
  }

  lemma {:induction false} PositionsOfCount(hash: string -> Hash, eps: seq<Endpoint>, nodes: nat, j: nat, n: nat)
    requires TellsApart(hash, eps, nodes) && j < |eps| && n <= nodes
    ensures |PositionsOf(hash, eps[j], n)| == n
  {
    if n > 0 {
      PositionsOfCount(hash, eps, nodes, j, n - 1);
      LastIsApart(hash, eps, nodes, j, n - 1);
      PositionsOfMarks(hash, eps[j], n - 1, Position(hash, eps[j], n - 1));
    }
  }

  /** The ring positions that belong to list position `j`. */
  ghost function Share(ring: map<Hash, nat>, j: nat): set<Hash> {
    set p | p in ring && ring[p] == j
  }

  /** Listed again later, under any weight. */
  ghost predicate ListedAgain(eps: seq<Endpoint>, j: nat)
    requires j < |eps|
  {
    exists j': nat :: j < j' < |eps| && Same(eps[j'], eps[j].host, eps[j].port)
  }

  lemma OwnerIsLast(ring: map<Hash, nat>, eps: seq<Endpoint>, nodes: nat, hash: string -> Hash, j: nat, p: Hash)
    requires IsRing(ring, eps, nodes, hash) && TellsApart(hash, eps, nodes) && j < |eps| && !ListedAgain(eps, j)
    ensures p in Share(ring, j) <==> Marks(eps[j], nodes, hash, p)
  {
    if Marks(eps[j], nodes, hash, p) {
      assert Sits(eps, nodes, hash, j, p);
      var owner := ring[p];
      assert Owns(eps, nodes, hash, owner, p);
      var i: nat :| i < nodes && Position(hash, eps[j], i) == p;
      var i': nat :| i' < nodes && Position(hash, eps[owner], i') == p;
      PositionsAgreeIff(hash, eps, nodes, owner, i', j, i);
    }
  }

  /** Each address holds exactly `nodes` positions of the ring, all of them under its last listing. */
  lemma RingShares(ring: map<Hash, nat>, eps: seq<Endpoint>, nodes: nat, hash: string -> Hash, j: nat)
    requires IsRing(ring, eps, nodes, hash) && TellsApart(hash, eps, nodes) && j < |eps|
    ensures |Share(ring, j)| == if ListedAgain(eps, j) then 0 else nodes
  {
    if ListedAgain(eps, j) {
      var j': nat :| j < j' < |eps| && Same(eps[j'], eps[j].host, eps[j].port);
      forall p: Hash
        ensures p !in Share(ring, j)
      {
        if p in Share(ring, j) {
          assert Owns(eps, nodes, hash, j, p);
          var i: nat :| i < nodes && Position(hash, eps[j], i) == p;
          assert Position(hash, eps[j'], i) == p;
          assert Sits(eps, nodes, hash, j', p);
        }
      }
      assert Share(ring, j) == {};
    } else {
      PositionsOfCount(hash, eps, nodes, j, nodes);
      forall p: Hash
        ensures p in Share(ring, j) <==> p in PositionsOf(hash, eps[j], nodes)
      {
        PositionsOfMarks(hash, eps[j], nodes, p);
        OwnerIsLast(ring, eps, nodes, hash, j, p);
      }
      assert Share(ring, j) == PositionsOf(hash, eps[j], nodes);
    }
  }

  /** Going clockwise that far from one position arrives at the other. */
  lemma ClockwiseArrives(from: Hash, to: Hash)
    ensures Clockwise(from, to) < WORD && (from + Clockwise(from, to)) % WORD == to
  {
  }

  // ---------- Building the ring and choosing on it ----------

  /** `ring` is `before` with the first `n` virtual nodes of endpoint `j` written over it. */
  ghost predicate Overlay(before: map<Hash, nat>, ring: map<Hash, nat>, ep: Endpoint, n: nat, hash: string -> Hash, j: nat) {
    forall p: Hash ::
      && (p in ring <==> p in before || Marks(ep, n, hash, p))
      && (p in ring ==> ring[p] == if Marks(ep, n, hash, p) then j else before[p])
  }

  lemma OverlayStep(before: map<Hash, nat>, ring: map<Hash, nat>, ep: Endpoint, n: nat, hash: string -> Hash, j: nat)
    requires Overlay(before, ring, ep, n, hash, j)
    ensures Overlay(before, ring[Position(hash, ep, n) := j], ep, n + 1, hash, j)
  {
    forall p: Hash
      ensures Marks(ep, n + 1, hash, p) <==> Marks(ep, n, hash, p) || p == Position(hash, ep, n)
    {
      MarksOneMore(hash, ep, n, p);
    }
  }

  /** Adding all virtual nodes of the next listed endpoint, over whatever was there. */
  lemma RingGrows(before: map<Hash, nat>, ring: map<Hash, nat>, eps: seq<Endpoint>, nodes: nat,
                  hash: string -> Hash, j: nat)
    requires j < |eps| && IsRing(before, eps[..j], nodes, hash)
    requires Overlay(before, ring, eps[j], nodes, hash, j)
    ensures IsRing(ring, eps[..j + 1], nodes, hash)
  {
    var shorter, longer := eps[..j], eps[..j + 1];
    forall i: nat, p: Hash
      ensures Sits(longer, nodes, hash, i, p) <==>
                Sits(shorter, nodes, hash, i, p) || (i == j && Marks(eps[j], nodes, hash, p))
    {
      assert i < j ==> longer[i] == shorter[i];
    }
  }

  method BuildRing(eps: seq<Endpoint>, nodes: nat, hash: string -> Hash) returns (ring: map<Hash, nat>)
    ensures IsRing(ring, eps, nodes, hash)
  {
    ring := map[];
    for j := 0 to |eps|
      invariant IsRing(ring, eps[..j], nodes, hash)
    {
      ghost var before := ring;
      for i := 0 to nodes
        invariant Overlay(before, ring, eps[j], i, hash, j)
      {
        OverlayStep(before, ring, eps[j], i, hash, j);
        ring := ring[Position(hash, eps[j], i) := j];
      }
      RingGrows(before, ring, eps, nodes, hash, j);
    }
    assert eps[..|eps|] == eps;
  }

  /** `lower_bound` on the ordered keys, then wrap to the first key. */
  method FirstAtOrAfter(keys: set<Hash>, k: Hash) returns (p: Hash)
    requires keys != {}
    ensures p in keys && forall q :: q in keys ==> Clockwise(k, p) <= Clockwise(k, q)
  {
    var above := set q | q in keys && k <= q;
    p := Least(if above != {} then above else keys);
    assert forall q :: q in keys ==> (q in above <==> k <= q);
  }

  method Least(keys: set<Hash>) returns (p: Hash)
    requires keys != {}
    ensures p in keys && forall q :: q in keys ==> p <= q
  {
    p :| p in keys;
    var rest := keys - {p};
    while rest != {}
      invariant p in keys && rest <= keys
      invariant forall q :: q in keys && q !in rest ==> p <= q
      decreases |rest|
    {
      var q :| q in rest;
      if q < p {
        p := q;
      }
      rest := rest - {q};
    }
  }

  /** Build the ring, find the key's position, return the list position of its owner. */
  method SelectByHash(eps: seq<Endpoint>, nodes: nat, hash: string -> Hash, key: string) returns (r: Result<nat>)
    requires nodes >= 1
    ensures eps == [] <==> r.Err?
    ensures r.Ok? ==> r.value < |eps| && Chosen(eps, nodes, hash, hash(if key == "" then "default" else key), r.value)
  {
    if eps == [] {
      return Err("no available endpoints");
    }
    var ring := BuildRing(eps, nodes, hash);
    assert Position(hash, eps[0], 0) in ring by {
      assert Sits(eps, nodes, hash, 0, Position(hash, eps[0], 0));
    }
    var k := hash(if key == "" then "default" else key);
    var p := FirstAtOrAfter(ring.Keys, k);
    assert ChosenAt(eps, nodes, hash, k, ring[p], p);
    r := Ok(ring[p]);
  }

  /** No node name of the list hashes nearer to `k`, clockwise, than that of node `i` of endpoint `j`. */
  ghost predicate NearestName(eps: seq<Endpoint>, nodes: nat, hash: string -> Hash, k: Hash, j: nat, i: nat)
    requires j < |eps|
  {
    forall j': nat, i': nat :: j' < |eps| && i' < nodes ==>
      Clockwise(k, hash(NodeName(eps[j].host, eps[j].port, i)))
      <= Clockwise(k, hash(NodeName(eps[j'].host, eps[j'].port, i')))
  }

  /** The chosen endpoint has the node whose name hashes nearest among all node names of the list. */
  lemma ChosenHasNearestName(eps: seq<Endpoint>, nodes: nat, hash: string -> Hash, k: Hash, j: nat)
    requires Chosen(eps, nodes, hash, k, j)
    ensures j < |eps| && exists i: nat :: i < nodes && NearestName(eps, nodes, hash, k, j, i)
  {
    var p :| ChosenAt(eps, nodes, hash, k, j, p);
    var i: nat :| i < nodes && Position(hash, eps[j], i) == p;
    assert p == hash(NodeName(eps[j].host, eps[j].port, i));
    forall j': nat, i': nat | j' < |eps| && i' < nodes
      ensures Clockwise(k, p) <= Clockwise(k, hash(NodeName(eps[j'].host, eps[j'].port, i')))
    {
      var q := Position(hash, eps[j'], i');
      assert Sits(eps, nodes, hash, j', q);
      assert q == hash(NodeName(eps[j'].host, eps[j'].port, i'));
    }
    assert NearestName(eps, nodes, hash, k, j, i);
  }

  lemma NearestUnique(eps: seq<Endpoint>, nodes: nat, hash: string -> Hash, k: Hash, p: Hash, q: Hash)
    requires Nearest(eps, nodes, hash, k, p) && Nearest(eps, nodes, hash, k, q)
    ensures p == q
  {
    assert Clockwise(k, p) == Clockwise(k, q);
  }

  /** The choice is a function of list and key: what SelectByHash guarantees determines its result. */
  lemma ChoiceUnique(eps: seq<Endpoint>, nodes: nat, hash: string -> Hash, k: Hash, i: nat, j: nat)
    requires Chosen(eps, nodes, hash, k, i) && Chosen(eps, nodes, hash, k, j)
    ensures i == j
  {
    var p :| ChosenAt(eps, nodes, hash, k, i, p);
    var q :| ChosenAt(eps, nodes, hash, k, j, q);
    NearestUnique(eps, nodes, hash, k, p, q);
  }

  /** Where list position `j` goes when position `r` is taken out. */
  function Shift(j: nat, r: nat): nat {
    if j < r || j == 0 then j else j - 1
  }

  /** Where list position `j` of the shorter list was before. */
  function Unshift(j: nat, r: nat): nat {
    if j < r then j else j + 1
  }

  lemma SitsAfterRemoval(eps: seq<Endpoint>, nodes: nat, hash: string -> Hash, r: nat, j: nat, p: Hash)
    requires r < |eps|
    ensures Unshift(j, r) != r && Shift(Unshift(j, r), r) == j
    ensures Sits(Without(eps, r), nodes, hash, j, p) <==> Sits(eps, nodes, hash, Unshift(j, r), p)
  {
    if j < |eps| - 1 {
      assert Without(eps, r)[j] == eps[Unshift(j, r)];
    }
  }

  lemma OwnsAfterRemoval(eps: seq<Endpoint>, nodes: nat, hash: string -> Hash, r: nat, j: nat, p: Hash)
    requires r < |eps| && j != r && Owns(eps, nodes, hash, j, p)
    ensures Owns(Without(eps, r), nodes, hash, Shift(j, r), p)
  {
    SitsAfterRemoval(eps, nodes, hash, r, Shift(j, r), p);
    forall i: nat | Shift(j, r) < i < |Without(eps, r)|
      ensures !Sits(Without(eps, r), nodes, hash, i, p)
    {
      SitsAfterRemoval(eps, nodes, hash, r, i, p);
    }
  }

  lemma NearestAfterRemoval(eps: seq<Endpoint>, nodes: nat, hash: string -> Hash, k: Hash, r: nat, j: nat, p: Hash)
    requires r < |eps| && Nearest(eps, nodes, hash, k, p) && Sits(Without(eps, r), nodes, hash, j, p)
    ensures Nearest(Without(eps, r), nodes, hash, k, p)
  {
    forall i: nat, q: Hash | Sits(Without(eps, r), nodes, hash, i, q)
      ensures Clockwise(k, p) <= Clockwise(k, q)
    {
      SitsAfterRemoval(eps, nodes, hash, r, i, q);
      assert Sits(eps, nodes, hash, Unshift(i, r), q);
    }
  }

  /** Removing an endpoint moves only the keys it owned: any other choice stays with the same element
      of the list. For every hash function, colliding or not. */
  lemma RemovalIsLocal(eps: seq<Endpoint>, nodes: nat, hash: string -> Hash, k: Hash, r: nat, j: nat)
    requires r < |eps| && j != r && Chosen(eps, nodes, hash, k, j)
    ensures Chosen(Without(eps, r), nodes, hash, k, Shift(j, r))
    ensures Shift(j, r) < |Without(eps, r)| && Without(eps, r)[Shift(j, r)] == eps[j]
  {
    var p :| ChosenAt(eps, nodes, hash, k, j, p);
    OwnsAfterRemoval(eps, nodes, hash, r, j, p);
    NearestAfterRemoval(eps, nodes, hash, k, r, Shift(j, r), p);
    assert ChosenAt(Without(eps, r), nodes, hash, k, Shift(j, r), p);
  }

  function Insert<T>(s: seq<T>, r: nat, e: T): seq<T>
    requires r <= |s|
  {
    s[..r] + [e] + s[r..]
  }

  lemma WithoutInserted<T>(s: seq<T>, r: nat, e: T)
    requires r <= |s|
    ensures Without(Insert(s, r, e), r) == s
  {
  }

  lemma StayedPut(more: seq<Endpoint>, nodes: nat, hash: string -> Hash, k: Hash, r: nat, before: nat, after: nat)
    requires r < |more| && after != r && after < |more|
    requires Chosen(Without(more, r), nodes, hash, k, before) && Chosen(more, nodes, hash, k, after)
    ensures after == Unshift(before, r)
    ensures before < |more| - 1 && more[after] == Without(more, r)[before]
  {
    RemovalIsLocal(more, nodes, hash, k, r, after);
    ChoiceUnique(Without(more, r), nodes, hash, k, Shift(after, r), before);
  }

  /** Inserting an endpoint anywhere moves a key only to the new endpoint. */
  lemma InsertionIsLocal(eps: seq<Endpoint>, e: Endpoint, nodes: nat, hash: string -> Hash, k: Hash,
                         r: nat, before: nat, after: nat)
    requires r <= |eps| && Chosen(eps, nodes, hash, k, before)
    requires Chosen(Insert(eps, r, e), nodes, hash, k, after)
    ensures after == r || (after == Unshift(before, r) && Insert(eps, r, e)[after] == eps[before])
  {
    WithoutInserted(eps, r, e);
    if after != r {
      StayedPut(Insert(eps, r, e), nodes, hash, k, r, before, after);
    }
  }

  ghost predicate NoCollision(eps: seq<Endpoint>, nodes: nat, hash: string -> Hash) {
    forall i: nat, j: nat, p :: Sits(eps, nodes, hash, i, p) && Sits(eps, nodes, hash, j, p) ==> eps[i] == eps[j]
  }

  /** When different endpoints never collide the chosen endpoint does not depend on the list order. */
  lemma OrderIndependent(a: seq<Endpoint>, b: seq<Endpoint>, nodes: nat, hash: string -> Hash, k: Hash, i: nat, j: nat)
    requires forall e :: e in a <==> e in b
    requires NoCollision(a, nodes, hash)
    requires Chosen(a, nodes, hash, k, i) && Chosen(b, nodes, hash, k, j)
    ensures a[i] == b[j]
  {
    var p :| ChosenAt(a, nodes, hash, k, i, p);
    var q :| ChosenAt(b, nodes, hash, k, j, q);
    var j' := SitsElsewhere(a, b, nodes, hash, i, p);
    var i' := SitsElsewhere(b, a, nodes, hash, j, q);
    assert Clockwise(k, p) == Clockwise(k, q);
    assert p == q;
  }

  lemma SitsElsewhere(a: seq<Endpoint>, b: seq<Endpoint>, nodes: nat, hash: string -> Hash, i: nat, p: Hash)
    returns (j: nat)
    requires forall e :: e in a <==> e in b
    requires Sits(a, nodes, hash, i, p)
    ensures Sits(b, nodes, hash, j, p) && b[j] == a[i]
  {
    assert a[i] in b;
    j :| j < |b| && b[j] == a[i];
  }

  // ---------- The weighted draw ----------

  function Sum(ws: seq<int>, n: nat): int
    requires n <= |ws|
  {
    if n == 0 then 0 else Sum(ws, n - 1) + ws[n - 1]
  }

  /** The scan: subtract weights until the draw goes negative; fall back to the last element. */
  function Scan(ws: seq<int>, draw: int, i: nat): (j: nat)
    requires i <= |ws| && ws != []
    ensures j < |ws|
    decreases |ws| - i
  {
    if i == |ws| then |ws| - 1
    else if draw - ws[i] < 0 then i
    else Scan(ws, draw - ws[i], i + 1)
  }

  function Weights(eps: seq<Endpoint>): (ws: seq<int>)
    ensures |ws| == |eps| && forall i :: 0 <= i < |eps| ==> ws[i] == eps[i].weight
  {
    seq(|eps|, i requires 0 <= i < |eps| => eps[i].weight)
  }

  /** Total the weights, then scan; `draw` is the random generator's answer for the range below the total. */
  method SelectByWeight(eps: seq<Endpoint>, draw: int -> int) returns (r: Result<nat>)
    requires eps != [] ==> var total := Sum(Weights(eps), |eps|); total > 0 && 0 <= draw(total) < total
    ensures eps == [] <==> r.Err?
    ensures r.Ok? ==> r.value == Scan(Weights(eps), draw(Sum(Weights(eps), |eps|)), 0)
  {
    if eps == [] {
      return Err("no available endpoints");
    }
    var total := 0;
    for i := 0 to |eps|
      invariant total == Sum(Weights(eps), i)
    {
      total := total + eps[i].weight;
    }
    var left := draw(total);
    for i := 0 to |eps|
      invariant Scan(Weights(eps), draw(total), 0) == Scan(Weights(eps), left, i)
    {
      left := left - eps[i].weight;
      if left < 0 {
        return Ok(i);
      }
    }
    r := Ok(|eps| - 1);
  }

  ghost predicate NonNegative(ws: seq<int>) {
    forall i :: 0 <= i < |ws| ==> ws[i] >= 0
  }

  lemma {:induction false} SumMonotone(ws: seq<int>, m: nat, n: nat)
    requires NonNegative(ws) && m <= n <= |ws|
    ensures 0 <= Sum(ws, m) <= Sum(ws, n)
    decreases n
  {
    if m < n {
      SumMonotone(ws, m, n - 1);
    } else if n > 0 {
      SumMonotone(ws, n - 1, n - 1);
    }
  }

  /** A draw below the total selects the position whose slice of the running total contains it; the
      trailing fallback is never taken. */
  lemma {:induction false} ScanFindsSlice(ws: seq<int>, draw: int, i: nat)
    requires NonNegative(ws) && ws != [] && i <= |ws|
    requires Sum(ws, i) <= draw < Sum(ws, |ws|)
    ensures i < |ws|
    ensures var j := Scan(ws, draw - Sum(ws, i), i); Sum(ws, j) <= draw < Sum(ws, j + 1)
    decreases |ws| - i
  {
    assert Sum(ws, i + 1) == Sum(ws, i) + ws[i];
    if Sum(ws, i + 1) <= draw {
      ScanFindsSlice(ws, draw, i + 1);
    }
  }

  /** The draws that select position `i`. */
  ghost function DrawsFor(ws: seq<int>, i: nat): set<int>
    requires ws != []
  {
    set d | 0 <= d < Sum(ws, |ws|) && Scan(ws, d, 0) == i
  }

  ghost function Interval(lo: int, hi: int): (s: set<int>)
    requires lo <= hi
    ensures forall d :: d in s <==> lo <= d < hi
    ensures |s| == hi - lo
    decreases hi - lo
  {
    if lo == hi then {} else Interval(lo, hi - 1) + {hi - 1}
  }

  lemma ShareIsWeight(ws: seq<int>, i: nat)
    requires NonNegative(ws) && i < |ws|
    ensures |DrawsFor(ws, i)| == ws[i]
  {
    SumMonotone(ws, i, i + 1);
    SumMonotone(ws, i + 1, |ws|);
    var slice := Interval(Sum(ws, i), Sum(ws, i + 1));
    forall d
      ensures d in DrawsFor(ws, i) <==> d in slice
    {
      if 0 <= d < Sum(ws, |ws|) {
        ScanFindsSlice(ws, d, 0);
        var j := Scan(ws, d, 0);
        if j < i {
          SumMonotone(ws, j + 1, i);
        } else if i < j {
          SumMonotone(ws, i + 1, j);
        }
      }
    }
    assert DrawsFor(ws, i) == slice;
  }

  /** Over all draws below the total each position is selected exactly its weight many times, if and
      only if no weight is negative. */
  lemma SharesExactIffNonNegative(ws: seq<int>)
    requires ws != []
    ensures (forall i: nat :: i < |ws| ==> |DrawsFor(ws, i)| == ws[i]) <==> NonNegative(ws)
  {
    if NonNegative(ws) {
      forall i: nat | i < |ws|
        ensures |DrawsFor(ws, i)| == ws[i]
      {
        ShareIsWeight(ws, i);
      }
    } else {
      var i :| 0 <= i < |ws| && ws[i] < 0;
      assert |DrawsFor(ws, i)| != ws[i];
    }
  }
}
