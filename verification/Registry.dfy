/** The service registry over the in-memory znode tree: paths and endpoints are printed when a
    provider registers and parsed back when a consumer refreshes. */
module Registry {

  import opened Basics
  import opened Strings
  import opened Decimal
  import opened LoadBalancer

  // ---------- The znode tree ----------

  datatype Tree = Tree(nodes: map<string, string>, children: map<string, seq<string>>) {
    function Kids(path: string): seq<string> {
      if path in children then children[path] else []
    }

    function Get(path: string): string {
      if path in nodes then nodes[path] else ""
    }
  }

  function AddOnce(s: seq<string>, x: string): seq<string> {
    if x in s then s else s + [x]
  }

  function Drop(s: seq<string>, x: string): seq<string> {
    if s == [] then [] else if s[|s| - 1] == x then Drop(s[..|s| - 1], x) else Drop(s[..|s| - 1], x) + [s[|s| - 1]]
  }

  function Create(t: Tree, path: string, data: string): Tree {
    var t := t.(nodes := t.nodes[path := data]);
    var slash := RFind(path, '/');
    if slash > 0 then
      var parent, child := path[..slash], path[slash + 1..];
      t.(children := t.children[parent := AddOnce(t.Kids(parent), child)])
    else t
  }

  function Remove(t: Tree, path: string): Tree {
    var t := t.(nodes := t.nodes - {path});
    var slash := RFind(path, '/');
    if slash > 0 then
      var parent, child := path[..slash], path[slash + 1..];
      t.(children := t.children[parent := Drop(t.Kids(parent), child)])
    else t
  }

  predicate Distinct<T(==)>(s: seq<T>) {
    forall i, j :: 0 <= i < j < |s| ==> s[i] != s[j]
  }

  lemma {:induction false} DropFacts(s: seq<string>, x: string)
    requires Distinct(s)
    ensures Distinct(Drop(s, x))
    ensures forall y :: y in Drop(s, x) <==> y in s && y != x
  {
    if s != [] {
      var init, last := s[..|s| - 1], s[|s| - 1];
      DropFacts(init, x);
      assert s == init + [last] && last !in init;
    }
  }

  function Under(parent: string, child: string): string {
    parent + "/" + child
  }

  ghost predicate Agree(t: Tree, parent: string, child: string) {
    parent != "" && Free(child, '/') ==> (child in t.Kids(parent) <==> Under(parent, child) in t.nodes)
  }

  /** Child lists have no duplicates and name exactly the nodes below their path. */
  ghost predicate Consistent(t: Tree) {
    (forall parent :: Distinct(t.Kids(parent))) && (forall parent, child :: Agree(t, parent, child))
  }

  lemma CreateAt(t: Tree, parent: string, child: string, data: string)
    requires parent != "" && Free(child, '/')
    ensures Create(t, Under(parent, child), data) ==
              Tree(t.nodes[Under(parent, child) := data], t.children[parent := AddOnce(t.Kids(parent), child)])
  {
    RFindSplits(parent, '/', child);
  }

  lemma RemoveAt(t: Tree, parent: string, child: string)
    requires parent != "" && Free(child, '/')
    ensures Remove(t, Under(parent, child)) ==
              Tree(t.nodes - {Under(parent, child)}, t.children[parent := Drop(t.Kids(parent), child)])
  {
    RFindSplits(parent, '/', child);
  }

  /** Every path is below a parent in the tree, or has no parent list at all. */
  lemma PathCases(path: string) returns (parent: string, child: string)
    ensures RFind(path, '/') > 0 ==> parent != "" && Free(child, '/') && path == Under(parent, child)
    ensures RFind(path, '/') <= 0 ==>
              forall p, c :: p != "" && Free(c, '/') ==> path != Under(p, c)
  {
    var slash := RFind(path, '/');
    if slash > 0 {
      parent, child := path[..slash], path[slash + 1..];
      assert path == path[..slash] + [path[slash]] + path[slash + 1..];
    } else {
      parent, child := "", "";
      forall p, c | p != "" && Free(c, '/')
        ensures path != Under(p, c)
      {
        RFindSplits(p, '/', c);
      }
    }
  }

  /** Any create and any remove keep the tree consistent. */
  lemma CreateConsistent(t: Tree, path: string, data: string)
    requires Consistent(t)
    ensures Consistent(Create(t, path, data))
  {
    var t' := Create(t, path, data);
    var parent, child := PathCases(path);
    if RFind(path, '/') > 0 {
      CreateAt(t, parent, child, data);
    }
    forall p
      ensures Distinct(t'.Kids(p))
    {
      assert Distinct(t.Kids(p));
    }
    forall p, c
      ensures Agree(t', p, c)
    {
      assert Agree(t, p, c);
      if p != "" && Free(c, '/') && Under(p, c) == path {
        SplitUnique(p, c, '/', parent, child);
      }
    }
  }

  lemma RemoveConsistent(t: Tree, path: string)
    requires Consistent(t)
    ensures Consistent(Remove(t, path))
  {
    var t' := Remove(t, path);
    var parent, child := PathCases(path);
    if RFind(path, '/') > 0 {
      RemoveAt(t, parent, child);
      DropFacts(t.Kids(parent), child);
    }
    forall p
      ensures Distinct(t'.Kids(p))
    {
      assert Distinct(t.Kids(p));
    }
    forall p, c
      ensures Agree(t', p, c)
    {
      assert Agree(t, p, c);
      if p != "" && Free(c, '/') && Under(p, c) == path {
        SplitUnique(p, c, '/', parent, child);
      }
    }
  }

  // ---------- Registering and refreshing ----------

  const ROOT: string := "/rpc"

  function ServicePath(name: string): string {
    Under(ROOT, name)
  }

  function Register(t: Tree, name: string, ep: Endpoint): Tree {
    Create(Create(t, ServicePath(name), ""), Under(ServicePath(name), ep.Address()), Print(ep.weight))
  }

  function Unregister(t: Tree, name: string, host: string, port: nat): Tree {
    Remove(t, Under(ServicePath(name), Endpoint(host, port, 0).Address()))
  }

  datatype Child = Skipped | Throws | Parsed(ep: Endpoint)

  /** One turn of the refresh loop: split at the last colon, parse port and weight. */
  function ParseChild(t: Tree, name: string, child: string): Child {
    var colon := RFind(child, ':');
    if colon < 0 then Skipped
    else
      var weight := t.Get(Under(ServicePath(name), child));
      match (Stoi(child[colon + 1..]), if weight == "" then Some(1) else Stoi(weight))
      case (Some(port), Some(w)) => Parsed(Endpoint(child[..colon], port % 0x1_0000, w))
      case _ => Throws
  }

  function Parser(t: Tree, name: string): string -> Child {
    child => ParseChild(t, name, child)
  }

  /** The endpoints of some children; the first child that throws ends the loop. */
  function Collect(parse: string -> Child, kids: seq<string>): Result<seq<Endpoint>> {
    if kids == [] then Ok([])
    else
      match Collect(parse, kids[..|kids| - 1])
      case Err(e) => Err(e)
      case Ok(eps) =>
        match parse(kids[|kids| - 1])
        case Skipped => Ok(eps)
        case Throws => Err("stoi")
        case Parsed(ep) => Ok(eps + [ep])
  }

  function Refresh(t: Tree, name: string): Result<seq<Endpoint>> {
    Collect(Parser(t, name), t.Kids(ServicePath(name)))
  }

  // ---------- What a refresh should return ----------

  datatype Op =
    | RegisterOp(name: string, ep: Endpoint)
    | UnregisterOp(name: string, host: string, port: nat)

  /** A 16-bit port and a 32-bit weight, as the calls' parameter types have them. */
  predicate Typed(op: Op) {
    match op
    case RegisterOp(_, ep) => ep.port < 0x1_0000 && INT_MIN <= ep.weight <= INT_MAX
    case UnregisterOp(_, _, port) => port < 0x1_0000
  }

  predicate Has(eps: seq<Endpoint>, host: string, port: nat) {
    exists i :: 0 <= i < |eps| && Same(eps[i], host, port)
  }

  function Reweigh(eps: seq<Endpoint>, ep: Endpoint): (eps': seq<Endpoint>)
    ensures |eps'| == |eps|
    ensures forall i :: 0 <= i < |eps| ==> eps'[i] == if Same(eps[i], ep.host, ep.port) then ep else eps[i]
  {
    seq(|eps|, i requires 0 <= i < |eps| => if Same(eps[i], ep.host, ep.port) then ep else eps[i])
  }

  /** The live registrations in order of first registration, the latest weight winning. */
  function Put(eps: seq<Endpoint>, ep: Endpoint): seq<Endpoint> {
    if Has(eps, ep.host, ep.port) then Reweigh(eps, ep) else eps + [ep]
  }

  function Cut(eps: seq<Endpoint>, host: string, port: nat): seq<Endpoint> {
    if eps == [] then []
    else if Same(eps[|eps| - 1], host, port) then Cut(eps[..|eps| - 1], host, port)
    else Cut(eps[..|eps| - 1], host, port) + [eps[|eps| - 1]]
  }

  function LiveStep(live: seq<Endpoint>, op: Op, name: string): seq<Endpoint> {
    if op.name != name then live
    else match op
      case RegisterOp(_, ep) => Put(live, ep)
      case UnregisterOp(_, host, port) => Cut(live, host, port)
  }

  function TreeStep(t: Tree, op: Op): Tree {
    match op
    case RegisterOp(name, ep) => Register(t, name, ep)
    case UnregisterOp(name, host, port) => Unregister(t, name, host, port)
  }

  /** The tree that holds the root node alone. */
  const FRESH: Tree := Tree(map[ROOT := ""], map[])

  ghost predicate Lives(live: seq<Endpoint>, op: Op, name: string, live': seq<Endpoint>) {
    live' == LiveStep(live, op, name)
  }

  /** What is live for a service before and after each call. */
  ghost predicate IsHistory(lives: seq<seq<Endpoint>>, ops: seq<Op>, name: string) {
    && |lives| == |ops| + 1 && lives[0] == []
    && forall i :: 0 <= i < |ops| ==> Lives(lives[i], ops[i], name, lives[i + 1])
  }

  /** Every run has one. */
  ghost function History(ops: seq<Op>, name: string): (lives: seq<seq<Endpoint>>)
    ensures IsHistory(lives, ops, name)
  {
    if ops == [] then [[]]
    else
      var n := |ops| - 1;
      var before := History(ops[..n], name);
      var lives := before + [LiveStep(before[n], ops[n], name)];
      assert forall i :: 0 <= i < n ==> Lives(before[i], ops[..n][i], name, before[i + 1]);
      assert Lives(lives[n], ops[n], name, lives[n + 1]);
      lives
  }

  ghost predicate Step(t: Tree, op: Op, t': Tree) {
    t' == TreeStep(t, op)
  }

  /** A run of calls, with the trees between them; ports and weights are what the parameter types hold. */
  ghost predicate IsRun(trees: seq<Tree>, ops: seq<Op>) {
    && |trees| == |ops| + 1 && trees[0] == FRESH
    && forall i :: 0 <= i < |ops| ==> Typed(ops[i]) && Step(trees[i], ops[i], trees[i + 1])
  }

  /** Where a host with slashes belongs: all but its last part continues the service name. */
  function HomeName(name: string, host: string): string {
    var slash := RFind(host, '/');
    if slash < 0 then name else name + "/" + host[..slash]
  }

  function HomeHost(host: string): (low: string)
    ensures Free(low, '/') && (Free(host, '/') ==> low == host)
  {
    host[RFind(host, '/') + 1..]
  }

  function Home(op: Op): Op {
    match op
    case RegisterOp(name, ep) => RegisterOp(HomeName(name, ep.host), ep.(host := HomeHost(ep.host)))
    case UnregisterOp(name, host, port) => UnregisterOp(HomeName(name, host), HomeHost(host), port)
  }

  function Homed(ops: seq<Op>): (homed: seq<Op>)
    ensures |homed| == |ops| && forall i :: 0 <= i < |ops| ==> homed[i] == Home(ops[i])
  {
    seq(|ops|, i requires 0 <= i < |ops| => Home(ops[i]))
  }

  /** The child of `svc` that the service node of `name` is. */
  function ChildOf(name: string, svc: string): (x: Option<string>)
    ensures x.Some? ==> Free(x.value, '/') && name == svc + "/" + x.value
  {
    var slash := RFind(name, '/');
    if slash >= 0 && name[..slash] == svc then
      assert name == name[..slash] + [name[slash]] + name[slash + 1..];
      Some(name[slash + 1..])
    else None
  }

  /** `x` is the address of a live endpoint of the default weight. */
  predicate DefaultWeighted(eps: seq<Endpoint>, x: string) {
    exists i :: 0 <= i < |eps| && eps[i].Address() == x && eps[i].weight == 1
  }

  /** A call that leaves the refresh of `svc` exact: the service node it creates is no child of `svc`,
      or one without a colon, or a live endpoint of the default weight. */
  predicate Harmless(op: Op, svc: string, live: seq<Endpoint>) {
    op.RegisterOp? ==>
      match ChildOf(op.name, svc)
      case None => true
      case Some(x) => Free(x, ':') || DefaultWeighted(live, x)
  }

  // ---------- Endpoints and their addresses ----------

  function Names(eps: seq<Endpoint>): (names: seq<string>)
    ensures |names| == |eps| && forall i :: 0 <= i < |eps| ==> names[i] == eps[i].Address()
  {
    seq(|eps|, i requires 0 <= i < |eps| => eps[i].Address())
  }

  lemma AddressPlain(ep: Endpoint)
    requires Free(ep.host, '/')
    ensures Free(ep.Address(), '/') && !Free(ep.Address(), ':')
  {
    DigitsFree(ep.port, '/');
    assert ep.Address()[|ep.host|] == ':';
  }

  lemma PutNames(eps: seq<Endpoint>, ep: Endpoint)
    ensures Names(Put(eps, ep)) == AddOnce(Names(eps), ep.Address())
  {
    forall i | 0 <= i < |eps|
      ensures Names(eps)[i] == ep.Address() <==> Same(eps[i], ep.host, ep.port)
    {
      AddressInjective(eps[i], ep);
    }
    if Has(eps, ep.host, ep.port) {
      var i :| 0 <= i < |eps| && Same(eps[i], ep.host, ep.port);
      assert Names(eps)[i] == ep.Address();
      assert Names(Reweigh(eps, ep)) == Names(eps);
    } else {
      assert ep.Address() !in Names(eps);
      assert Names(eps + [ep]) == Names(eps) + [ep.Address()];
    }
  }

  lemma NamesSnoc(eps: seq<Endpoint>, ep: Endpoint)
    ensures Names(eps + [ep]) == Names(eps) + [ep.Address()]
  {
  }

  lemma DropSnoc(s: seq<string>, last: string, x: string)
    ensures Drop(s + [last], x) == if last == x then Drop(s, x) else Drop(s, x) + [last]
  {
    assert (s + [last])[..|s|] == s;
  }

  lemma {:induction false} CutNames(eps: seq<Endpoint>, ep: Endpoint)
    ensures Names(Cut(eps, ep.host, ep.port)) == Drop(Names(eps), ep.Address())
    ensures forall e :: e in Cut(eps, ep.host, ep.port) ==> e in eps && !Same(e, ep.host, ep.port)
  {
    if eps != [] {
      var init, last := eps[..|eps| - 1], eps[|eps| - 1];
      assert eps == init + [last];
      CutNames(init, ep);
      AddressInjective(last, ep);
      NamesSnoc(init, last);
      DropSnoc(Names(init), last.Address(), ep.Address());
      NamesSnoc(Cut(init, ep.host, ep.port), last);
    }
  }

  /** After Put, an entry is the new endpoint or an old one with another address. */
  lemma PutEntries(eps: seq<Endpoint>, ep: Endpoint, e: Endpoint)
    requires e in Put(eps, ep) && e != ep
    ensures e in eps && e.Address() != ep.Address()
  {
    var k :| 0 <= k < |Put(eps, ep)| && Put(eps, ep)[k] == e;
    assert k < |eps| && eps[k] == e && !Same(e, ep.host, ep.port);
    AddressInjective(e, ep);
  }

  // ---------- The children of one service ----------

  /** The children a refresh does not skip. */
  function Colons(kids: seq<string>): seq<string> {
    if kids == [] then []
    else
      var init, last := Colons(kids[..|kids| - 1]), kids[|kids| - 1];
      if Free(last, ':') then init else init + [last]
  }

  lemma {:induction false} ColonsAre(kids: seq<string>)
    ensures forall x :: x in Colons(kids) <==> x in kids && !Free(x, ':')
  {
    if kids != [] {
      ColonsAre(kids[..|kids| - 1]);
      assert kids == kids[..|kids| - 1] + [kids[|kids| - 1]];
    }
  }

  lemma ColonsAdd(kids: seq<string>, x: string)
    ensures Colons(AddOnce(kids, x)) == if Free(x, ':') then Colons(kids) else AddOnce(Colons(kids), x)
  {
    ColonsAre(kids);
    assert (kids + [x])[..|kids|] == kids;
  }

  lemma {:induction false} ColonsDrop(kids: seq<string>, x: string)
    ensures Colons(Drop(kids, x)) == Drop(Colons(kids), x)
  {
    if kids != [] {
      var init, last := kids[..|kids| - 1], kids[|kids| - 1];
      ColonsDrop(init, x);
      DropSnoc(Colons(init), last, x);
      assert (Drop(init, x) + [last])[..|Drop(init, x)|] == Drop(init, x);
    }
  }

  lemma {:induction false} CollectColons(parse: string -> Child, kids: seq<string>)
    requires forall i :: 0 <= i < |kids| && Free(kids[i], ':') ==> parse(kids[i]) == Skipped
    ensures Collect(parse, kids) == Collect(parse, Colons(kids))
  {
    if kids != [] {
      var init, last := kids[..|kids| - 1], kids[|kids| - 1];
      CollectColons(parse, init);
      assert (Colons(init) + [last])[..|Colons(init)|] == Colons(init);
    }
  }

  /** Children that are not skipped are collected exactly when each parses to its endpoint. */
  lemma {:induction false} CollectParsed(parse: string -> Child, kids: seq<string>, eps: seq<Endpoint>)
    requires forall i :: 0 <= i < |kids| ==> parse(kids[i]) != Skipped
    ensures Collect(parse, kids) == Ok(eps) <==>
              |eps| == |kids| && forall i :: 0 <= i < |kids| ==> parse(kids[i]) == Parsed(eps[i])
  {
    if kids != [] {
      var n := |kids| - 1;
      if eps != [] {
        CollectParsed(parse, kids[..n], eps[..|eps| - 1]);
        assert eps == eps[..|eps| - 1] + [eps[|eps| - 1]];
      }
      var before := Collect(parse, kids[..n]);
      if before.Ok? && parse(kids[n]).Parsed? {
        assert (before.value + [parse(kids[n]).ep])[..|before.value|] == before.value;
      }
    }
  }

  lemma ParserSkips(t: Tree, name: string, kids: seq<string>)
    ensures forall i :: 0 <= i < |kids| ==> (Parser(t, name)(kids[i]) == Skipped <==> Free(kids[i], ':'))
  {
    forall i | 0 <= i < |kids|
      ensures Parser(t, name)(kids[i]) == Skipped <==> Free(kids[i], ':')
    {
      assert RFind(kids[i], ':') < 0 <==> Free(kids[i], ':');
    }
  }

  /** A refresh gives `eps` exactly when the children with a colon parse to them, one by one. */
  lemma RefreshIs(t: Tree, name: string, eps: seq<Endpoint>)
    ensures var kids := Colons(t.Kids(ServicePath(name)));
            Refresh(t, name) == Ok(eps) <==>
              |eps| == |kids| && forall i :: 0 <= i < |kids| ==> Parser(t, name)(kids[i]) == Parsed(eps[i])
  {
    var kids := t.Kids(ServicePath(name));
    ParserSkips(t, name, kids);
    ParserSkips(t, name, Colons(kids));
    ColonsAre(kids);
    CollectColons(Parser(t, name), kids);
    CollectParsed(Parser(t, name), Colons(kids), eps);
  }

  predicate PlainEndpoint(ep: Endpoint) {
    Free(ep.host, '/') && ep.port < 0x1_0000 && INT_MIN <= ep.weight <= INT_MAX
  }

  /** Node data that stands for a weight; none stands for the default. */
  predicate Weighs(data: string, weight: int) {
    data == Print(weight) || (data == "" && weight == 1)
  }

  ghost predicate Recorded(t: Tree, name: string, ep: Endpoint) {
    PlainEndpoint(ep) && Weighs(t.Get(Under(ServicePath(name), ep.Address())), ep.weight)
  }

  /** The tree holds exactly the registrations `eps` of a service. */
  ghost predicate Mirrors(t: Tree, name: string, eps: seq<Endpoint>) {
    && Colons(t.Kids(ServicePath(name))) == Names(eps)
    && Distinct(Names(eps))
    && forall ep :: ep in eps ==> Recorded(t, name, ep)
  }

  /** What creating or removing one node changes of the children of any path and of their data. */
  lemma CreateSeen(t: Tree, parent: string, child: string, data: string, p: string)
    requires parent != "" && Free(child, '/')
    ensures var t' := Create(t, Under(parent, child), data);
            && t'.Kids(p) == (if p == parent then AddOnce(t.Kids(p), child) else t.Kids(p))
            && forall y :: Free(y, '/') ==>
                 t'.Get(Under(p, y)) == if p == parent && y == child then data else t.Get(Under(p, y))
  {
    CreateAt(t, parent, child, data);
    forall y | Free(y, '/') && Under(p, y) == Under(parent, child)
      ensures p == parent && y == child
    {
      SplitUnique(p, y, '/', parent, child);
    }
  }

  lemma RemoveSeen(t: Tree, parent: string, child: string, p: string)
    requires parent != "" && Free(child, '/')
    ensures var t' := Remove(t, Under(parent, child));
            && t'.Kids(p) == (if p == parent then Drop(t.Kids(p), child) else t.Kids(p))
            && forall y :: Free(y, '/') && (p != parent || y != child) ==>
                 t'.Get(Under(p, y)) == t.Get(Under(p, y))
  {
    RemoveAt(t, parent, child);
    forall y | Free(y, '/') && Under(p, y) == Under(parent, child)
      ensures p == parent && y == child
    {
      SplitUnique(p, y, '/', parent, child);
    }
  }

  lemma ServicePathInjective(a: string, b: string)
    ensures ServicePath(a) == ServicePath(b) <==> a == b
    ensures ServicePath(a) != ROOT
  {
    assert |ServicePath(a)| > |ROOT|;
    assert ServicePath(a)[|ROOT| + 1..] == a && ServicePath(b)[|ROOT| + 1..] == b;
  }

  /** `t'` shows of a service what `t` does, after one child was written. */
  ghost predicate Wrote(t: Tree, t': Tree, svc: string, write: Option<(string, string)>) {
    match write
    case None => Kept(t, t', svc)
    case Some((x, data)) =>
      && t'.Kids(ServicePath(svc)) == AddOnce(t.Kids(ServicePath(svc)), x)
      && t'.Get(Under(ServicePath(svc), x)) == data
      && forall y :: Free(y, '/') && y != x ==> t'.Get(Under(ServicePath(svc), y)) == t.Get(Under(ServicePath(svc), y))
  }

  ghost predicate Kept(t: Tree, t': Tree, svc: string) {
    && t'.Kids(ServicePath(svc)) == t.Kids(ServicePath(svc))
    && forall y :: Free(y, '/') ==> t'.Get(Under(ServicePath(svc), y)) == t.Get(Under(ServicePath(svc), y))
  }

  /** The node of a service is a child of the service its name continues, if any. */
  lemma ServiceNodeSeen(t: Tree, name: string, svc: string)
    ensures var t' := Create(t, ServicePath(name), "");
            match ChildOf(name, svc)
            case None => Kept(t, t', svc)
            case Some(x) => Wrote(t, t', svc, Some((x, "")))
  {
    var slash := RFind(name, '/');
    ServicePathInjective(svc, svc);
    if slash < 0 {
      CreateSeen(t, ROOT, name, "", ServicePath(svc));
    } else {
      var up, x := name[..slash], name[slash + 1..];
      assert name == up + "/" + x;
      assert ServicePath(name) == Under(ServicePath(up), x);
      ServicePathInjective(up, svc);
      CreateSeen(t, ServicePath(up), x, "", ServicePath(svc));
    }
  }

  /** The node of an endpoint is where its home says. */
  lemma HomePath(name: string, ep: Endpoint)
    ensures Under(ServicePath(name), ep.Address()) ==
              Under(ServicePath(HomeName(name, ep.host)), ep.(host := HomeHost(ep.host)).Address())
  {
    var slash := RFind(ep.host, '/');
    if slash >= 0 {
      assert ep.host == ep.host[..slash] + "/" + ep.host[slash + 1..];
    }
  }

  /** The child of `svc` that registering writes, and its data. */
  function Written(name: string, ep: Endpoint, svc: string): Option<(string, string)> {
    if HomeName(name, ep.host) == svc then Some((ep.(host := HomeHost(ep.host)).Address(), Print(ep.weight)))
    else match ChildOf(name, svc)
      case Some(x) => Some((x, ""))
      case None => None
  }

  lemma EndpointNodeSeen(t: Tree, name: string, ep: Endpoint, svc: string)
    ensures var t' := Create(t, Under(ServicePath(name), ep.Address()), Print(ep.weight));
            if HomeName(name, ep.host) == svc
            then Wrote(t, t', svc, Some((ep.(host := HomeHost(ep.host)).Address(), Print(ep.weight))))
            else Kept(t, t', svc)
  {
    var home, at := HomeName(name, ep.host), ep.(host := HomeHost(ep.host));
    HomePath(name, ep);
    AddressPlain(at);
    ServicePathInjective(home, svc);
    CreateSeen(t, ServicePath(home), at.Address(), Print(ep.weight), ServicePath(svc));
  }

  lemma SeenTwice(t: Tree, mid: Tree, t': Tree, svc: string, write: Option<(string, string)>)
    ensures Kept(t, mid, svc) && Wrote(mid, t', svc, write) ==> Wrote(t, t', svc, write)
    ensures Wrote(t, mid, svc, write) && Kept(mid, t', svc) && (write.Some? ==> Free(write.value.0, '/')) ==>
              Wrote(t, t', svc, write)
  {
  }

  lemma HomeOfChild(name: string, host: string, svc: string)
    ensures HomeName(name, host) == svc ==> ChildOf(name, svc) == None
  {
    assert |HomeName(name, host)| >= |name|;
  }

  /** For every name and host: registering writes at most one child of any service, adds it once, and
      leaves the rest of that service alone. */
  lemma RegisterTree(t: Tree, name: string, ep: Endpoint, svc: string)
    ensures Wrote(t, Register(t, name, ep), svc, Written(name, ep, svc))
  {
    var mid := Create(t, ServicePath(name), "");
    HomeOfChild(name, ep.host, svc);
    ServiceNodeSeen(t, name, svc);
    EndpointNodeSeen(mid, name, ep, svc);
    SeenTwice(t, mid, Register(t, name, ep), svc, Written(name, ep, svc));
  }

  lemma UnregisterTree(t: Tree, name: string, ep: Endpoint, svc: string)
    ensures var t', at := Unregister(t, name, ep.host, ep.port), ep.(host := HomeHost(ep.host)).Address();
            if HomeName(name, ep.host) != svc then Kept(t, t', svc)
            else
              && t'.Kids(ServicePath(svc)) == Drop(t.Kids(ServicePath(svc)), at)
              && forall y :: Free(y, '/') && y != at ==>
                   t'.Get(Under(ServicePath(svc), y)) == t.Get(Under(ServicePath(svc), y))
  {
    var home, at := HomeName(name, ep.host), ep.(host := HomeHost(ep.host));
    HomePath(name, ep);
    AddressPlain(at);
    ServicePathInjective(home, svc);
    RemoveSeen(t, ServicePath(home), at.Address(), ServicePath(svc));
  }

  // ---------- Refreshing a mirrored service ----------

  /** A recorded child parses back to its endpoint. */
  lemma ParseMirrored(t: Tree, name: string, ep: Endpoint)
    requires Recorded(t, name, ep)
    ensures ParseChild(t, name, ep.Address()) == Parsed(ep)
  {
    DigitsFree(ep.port, ':');
    RFindSplits(ep.host, ':', Print(ep.port));
    var data := t.Get(Under(ServicePath(name), ep.Address()));
    assert Stoi(Print(ep.port)) == Some(ep.port) by {
      StoiPrint(ep.port);
    }
    assert (if data == "" then Some(1) else Stoi(data)) == Some(ep.weight) by {
      StoiPrint(ep.weight);
    }
  }

  /** What any child stands for: none without a colon; otherwise what precedes the last colon, the number
      behind it cut to 16 bits, and the weight in its data, or 1 without data. A port or a weight that is
      no number makes the refresh throw. */
  lemma ParseAnyChild(t: Tree, name: string, host: string, n: int, rest: string)
    requires Free(rest, ':') && INT_MIN <= n <= INT_MAX
    ensures ParseChild(t, name, rest) == Skipped
    ensures var child := host + ":" + Print(n);
            var data := t.Get(Under(ServicePath(name), child));
            ParseChild(t, name, child) ==
              if data == "" then Parsed(Endpoint(host, n % 0x1_0000, 1))
              else match Stoi(data)
                case Some(weight) => Parsed(Endpoint(host, n % 0x1_0000, weight))
                case None => Throws
    ensures Stoi(rest) == None ==> ParseChild(t, name, host + ":" + rest) == Throws
  {
    PrintFree(n);
    RFindSplits(host, ':', Print(n));
    RFindSplits(host, ':', rest);
    StoiPrint(n);
    assert RFind(rest, ':') < 0;
  }

  lemma PrintFree(n: int)
    ensures Free(Print(n), ':')
  {
    DigitsFree(if n < 0 then -n else n, ':');
  }

  lemma RefreshMirrored(t: Tree, name: string, eps: seq<Endpoint>)
    requires Mirrors(t, name, eps)
    ensures Refresh(t, name) == Ok(eps)
  {
    forall i | 0 <= i < |eps|
      ensures Parser(t, name)(Names(eps)[i]) == Parsed(eps[i])
    {
      assert eps[i] in eps;
      ParseMirrored(t, name, eps[i]);
    }
    RefreshIs(t, name, eps);
  }

  lemma KeptMirrors(t: Tree, t': Tree, svc: string, eps: seq<Endpoint>)
    requires Mirrors(t, svc, eps) && Kept(t, t', svc)
    ensures Mirrors(t', svc, eps)
  {
    forall e | e in eps
      ensures Recorded(t', svc, e)
    {
      AddressPlain(e);
    }
  }

  lemma PutMirrors(t: Tree, t': Tree, svc: string, eps: seq<Endpoint>, ep: Endpoint)
    requires Mirrors(t, svc, eps) && PlainEndpoint(ep)
    requires Wrote(t, t', svc, Some((ep.Address(), Print(ep.weight))))
    ensures Mirrors(t', svc, Put(eps, ep))
  {
    AddressPlain(ep);
    PutNames(eps, ep);
    ColonsAdd(t.Kids(ServicePath(svc)), ep.Address());
    forall e | e in Put(eps, ep)
      ensures Recorded(t', svc, e)
    {
      if e != ep {
        PutEntries(eps, ep, e);
        AddressPlain(e);
      }
    }
  }

  lemma CutMirrors(t: Tree, t': Tree, svc: string, eps: seq<Endpoint>, ep: Endpoint)
    requires Mirrors(t, svc, eps)
    requires t'.Kids(ServicePath(svc)) == Drop(t.Kids(ServicePath(svc)), ep.Address())
    requires forall y :: Free(y, '/') && y != ep.Address() ==>
                           t'.Get(Under(ServicePath(svc), y)) == t.Get(Under(ServicePath(svc), y))
    ensures Mirrors(t', svc, Cut(eps, ep.host, ep.port))
  {
    CutNames(eps, ep);
    DropFacts(Names(eps), ep.Address());
    ColonsDrop(t.Kids(ServicePath(svc)), ep.Address());
    forall e | e in Cut(eps, ep.host, ep.port)
      ensures Recorded(t', svc, e)
    {
      AddressPlain(e);
      AddressInjective(e, ep);
    }
  }

  lemma AddressOnce(eps: seq<Endpoint>, a: Endpoint, b: Endpoint)
    requires Distinct(Names(eps)) && a in eps && b in eps && a.Address() == b.Address()
    ensures a == b
  {
    var i :| 0 <= i < |eps| && eps[i] == a;
    var j :| 0 <= j < |eps| && eps[j] == b;
    assert Names(eps)[i] == Names(eps)[j];
  }

  /** Writing child `x` without data keeps the refresh exact, or breaks it, by what `x` is. */
  lemma BlankRecorded(t: Tree, t': Tree, svc: string, eps: seq<Endpoint>, x: string, e: Endpoint)
    requires Mirrors(t, svc, eps) && Wrote(t, t', svc, Some((x, ""))) && e in eps
    requires Free(x, ':') || DefaultWeighted(eps, x)
    ensures Recorded(t', svc, e)
  {
    assert Recorded(t, svc, e);
    AddressPlain(e);
    if e.Address() == x {
      var i :| 0 <= i < |eps| && eps[i].Address() == x && eps[i].weight == 1;
      AddressOnce(eps, eps[i], e);
    }
  }

  lemma BlankListed(kids: seq<string>, eps: seq<Endpoint>, x: string)
    requires Colons(kids) == Names(eps) && (Free(x, ':') || DefaultWeighted(eps, x))
    ensures Colons(AddOnce(kids, x)) == Names(eps)
  {
    ColonsAdd(kids, x);
    if !Free(x, ':') {
      var i :| 0 <= i < |eps| && eps[i].Address() == x && eps[i].weight == 1;
      assert Names(eps)[i] == x;
    }
  }

  lemma BlankMirrors(t: Tree, t': Tree, svc: string, eps: seq<Endpoint>, x: string)
    requires Mirrors(t, svc, eps) && Wrote(t, t', svc, Some((x, "")))
    requires Free(x, ':') || DefaultWeighted(eps, x)
    ensures Mirrors(t', svc, eps)
  {
    BlankListed(t.Kids(ServicePath(svc)), eps, x);
    forall e | e in eps
      ensures Recorded(t', svc, e)
    {
      BlankRecorded(t, t', svc, eps, x, e);
    }
  }

  lemma BlankWeight(t: Tree, svc: string, x: string, ep: Endpoint)
    requires t.Get(Under(ServicePath(svc), x)) == "" && ParseChild(t, svc, x) == Parsed(ep)
    ensures ep.weight == 1
  {
  }

  lemma BlankBreaks(t: Tree, t': Tree, svc: string, eps: seq<Endpoint>, x: string)
    requires Mirrors(t, svc, eps) && Wrote(t, t', svc, Some((x, "")))
    requires !Free(x, ':') && !DefaultWeighted(eps, x)
    ensures Refresh(t', svc) != Ok(eps)
  {
    var kids := Colons(t'.Kids(ServicePath(svc)));
    ColonsAdd(t.Kids(ServicePath(svc)), x);
    RefreshIs(t', svc, eps);
    if Refresh(t', svc) == Ok(eps) {
      assert |kids| == |Names(eps)|;
      var i :| 0 <= i < |eps| && Names(eps)[i] == x;
      assert Parser(t', svc)(kids[i]) == Parsed(eps[i]);
      BlankWeight(t', svc, x, eps[i]);
      assert false;
    }
  }

  // ---------- Runs ----------

  lemma StepMirrors(t: Tree, live: seq<Endpoint>, op: Op, svc: string, t': Tree, live': seq<Endpoint>)
    requires Mirrors(t, svc, live) && Typed(op) && Harmless(op, svc, live)
    requires Step(t, op, t') && Lives(live, Home(op), svc, live')
    ensures Mirrors(t', svc, live')
  {
    match op
    case RegisterOp(name, ep) =>
      RegisterTree(t, name, ep, svc);
      match Written(name, ep, svc) {
        case None => KeptMirrors(t, t', svc, live);
        case Some((x, data)) =>
          if HomeName(name, ep.host) == svc {
            PutMirrors(t, t', svc, live, ep.(host := HomeHost(ep.host)));
          } else {
            BlankMirrors(t, t', svc, live, x);
          }
      }
    case UnregisterOp(name, host, port) =>
      UnregisterTree(t, name, Endpoint(host, port, 0), svc);
      if HomeName(name, host) == svc {
        CutMirrors(t, t', svc, live, Endpoint(HomeHost(host), port, 0));
      } else {
        KeptMirrors(t, t', svc, live);
      }
  }

  /** From a tree that mirrors a service, any other call makes its refresh wrong. */
  lemma StepBreaks(t: Tree, live: seq<Endpoint>, op: Op, svc: string, t': Tree, live': seq<Endpoint>)
    requires Mirrors(t, svc, live) && !Harmless(op, svc, live)
    requires Step(t, op, t') && Lives(live, Home(op), svc, live')
    ensures Refresh(t', svc) != Ok(live')
  {
    RegisterTree(t, op.name, op.ep, svc);
    assert |HomeName(op.name, op.ep.host)| >= |op.name| > |svc|;
    BlankBreaks(t, t', svc, live, ChildOf(op.name, svc).value);
  }

  lemma StepConsistent(t: Tree, op: Op, t': Tree)
    requires Consistent(t) && Step(t, op, t')
    ensures Consistent(t')
  {
    match op
    case RegisterOp(name, ep) =>
      CreateConsistent(t, ServicePath(name), "");
      CreateConsistent(Create(t, ServicePath(name), ""), Under(ServicePath(name), ep.Address()), Print(ep.weight));
    case UnregisterOp(name, host, port) =>
      RemoveConsistent(t, Under(ServicePath(name), Endpoint(host, port, 0).Address()));
  }

  lemma FreshIsCreated()
    ensures Create(Tree(map[], map[]), ROOT, "") == FRESH
  {
    RFindIs(ROOT, '/', 0);
  }

  lemma ChildlessMirrors(t: Tree, name: string, none: seq<Endpoint>)
    requires t.Kids(ServicePath(name)) == [] && none == []
    ensures Mirrors(t, name, none)
  {
    assert Names(none) == [] && Colons(t.Kids(ServicePath(name))) == [];
  }

  lemma FreshMirrors(name: string)
    ensures Mirrors(FRESH, name, [])
  {
    ChildlessMirrors(FRESH, name, []);
  }

  lemma FreshConsistent()
    ensures Consistent(FRESH)
  {
    forall parent: string, child: string
      ensures Agree(FRESH, parent, child)
    {
      if parent != "" && Under(parent, child) == ROOT {
        assert ROOT[|parent|] == '/';
      }
    }
  }

  /** The tree is consistent at every point of every run. */
  lemma {:induction false} TreeConsistent(trees: seq<Tree>, ops: seq<Op>, k: nat)
    requires IsRun(trees, ops) && k <= |ops|
    ensures Consistent(trees[k])
  {
    if k == 0 {
      FreshConsistent();
    } else {
      TreeConsistent(trees, ops, k - 1);
      assert Step(trees[k - 1], ops[k - 1], trees[k - 1 + 1]);
      StepConsistent(trees[k - 1], ops[k - 1], trees[k]);
    }
  }

  ghost predicate HarmlessAt(ops: seq<Op>, lives: seq<seq<Endpoint>>, i: nat, svc: string)
    requires i < |ops| < |lives|
  {
    Harmless(ops[i], svc, lives[i])
  }

  /** The first `k` calls are harmless to `svc`, each where it is made. */
  ghost predicate AllHarmless(ops: seq<Op>, lives: seq<seq<Endpoint>>, k: nat, svc: string)
    requires k <= |ops| < |lives|
  {
    forall i :: 0 <= i < k ==> HarmlessAt(ops, lives, i, svc)
  }

  lemma {:induction false} TreeMirrors(trees: seq<Tree>, ops: seq<Op>, lives: seq<seq<Endpoint>>, k: nat, svc: string)
    requires IsRun(trees, ops) && IsHistory(lives, Homed(ops), svc) && k <= |ops| && AllHarmless(ops, lives, k, svc)
    ensures Mirrors(trees[k], svc, lives[k])
  {
    if k == 0 {
      FreshMirrors(svc);
    } else {
      TreeMirrors(trees, ops, lives, k - 1, svc);
      assert Step(trees[k - 1], ops[k - 1], trees[k - 1 + 1]) && HarmlessAt(ops, lives, k - 1, svc);
      assert Lives(lives[k - 1], Homed(ops)[k - 1], svc, lives[k - 1 + 1]);
      StepMirrors(trees[k - 1], lives[k - 1], ops[k - 1], svc, trees[k], lives[k]);
    }
  }

  lemma FirstHarm(ops: seq<Op>, lives: seq<seq<Endpoint>>, k: nat, svc: string) returns (i: nat)
    requires k <= |ops| < |lives|
    ensures i <= k && AllHarmless(ops, lives, i, svc) && (i < k ==> !HarmlessAt(ops, lives, i, svc))
  {
    i := 0;
    while i < k && HarmlessAt(ops, lives, i, svc)
      invariant i <= k && AllHarmless(ops, lives, i, svc)
    {
      i := i + 1;
    }
  }

  /** The first call that is not harmless makes the refresh wrong. */
  lemma HarmBreaks(trees: seq<Tree>, ops: seq<Op>, lives: seq<seq<Endpoint>>, i: nat, svc: string)
    requires IsRun(trees, ops) && IsHistory(lives, Homed(ops), svc) && i < |ops|
    requires AllHarmless(ops, lives, i, svc) && !HarmlessAt(ops, lives, i, svc)
    ensures Refresh(trees[i + 1], svc) != Ok(lives[i + 1])
  {
    TreeMirrors(trees, ops, lives, i, svc);
    assert Step(trees[i], ops[i], trees[i + 1]);
    assert Lives(lives[i], Homed(ops)[i], svc, lives[i + 1]);
    StepBreaks(trees[i], lives[i], ops[i], svc, trees[i + 1], lives[i + 1]);
  }

  /** In terms of where the code puts endpoints: a refresh gives, at every point of a run, exactly the
      registrations at home in `svc` if and only if no call registers a service whose name continues
      that of `svc` by a child with a colon, except where that child is then a live endpoint of the
      default weight. */
  lemma HomeExactIff(trees: seq<Tree>, ops: seq<Op>, lives: seq<seq<Endpoint>>, k: nat, svc: string)
    requires IsRun(trees, ops) && IsHistory(lives, Homed(ops), svc) && k <= |ops|
    ensures (forall i :: 0 <= i <= k ==> Refresh(trees[i], svc) == Ok(lives[i])) <==> AllHarmless(ops, lives, k, svc)
  {
    var first := FirstHarm(ops, lives, k, svc);
    if first < k {
      HarmBreaks(trees, ops, lives, first, svc);
    } else {
      forall i | 0 <= i <= k
        ensures Refresh(trees[i], svc) == Ok(lives[i])
      {
        TreeMirrors(trees, ops, lives, i, svc);
        RefreshMirrored(trees[i], svc, lives[i]);
      }
    }
  }

  // ---------- Service names without slashes ----------

  /** The registrations whose host has no slash. */
  function Visible(eps: seq<Endpoint>): (visible: seq<Endpoint>)
    ensures forall e :: e in visible <==> e in eps && Free(e.host, '/')
  {
    if eps == [] then []
    else
      var init, last := Visible(eps[..|eps| - 1]), eps[|eps| - 1];
      assert eps == eps[..|eps| - 1] + [last];
      if Free(last.host, '/') then init + [last] else init
  }

  lemma {:induction false} VisibleShorter(eps: seq<Endpoint>)
    ensures |Visible(eps)| <= |eps|
    ensures Visible(eps) == eps <==> forall i :: 0 <= i < |eps| ==> Free(eps[i].host, '/')
  {
    if eps != [] {
      var init, last := eps[..|eps| - 1], eps[|eps| - 1];
      assert eps == init + [last];
      VisibleShorter(init);
      if Visible(eps) == eps {
        assert forall i :: 0 <= i < |eps| ==> eps[i] in Visible(eps);
      }
    }
  }

  lemma VisibleSnoc(eps: seq<Endpoint>, e: Endpoint)
    ensures Visible(eps + [e]) == if Free(e.host, '/') then Visible(eps) + [e] else Visible(eps)
  {
    assert (eps + [e])[..|eps|] == eps;
  }

  lemma ReweighSnoc(eps: seq<Endpoint>, e: Endpoint, ep: Endpoint)
    ensures Reweigh(eps + [e], ep) == Reweigh(eps, ep) + [if Same(e, ep.host, ep.port) then ep else e]
  {
  }

  lemma {:induction false} VisibleReweigh(eps: seq<Endpoint>, ep: Endpoint)
    ensures Visible(Reweigh(eps, ep)) == if Free(ep.host, '/') then Reweigh(Visible(eps), ep) else Visible(eps)
  {
    if eps == [] {
      assert Reweigh(eps, ep) == eps && Visible(eps) == eps;
    } else {
      var init, last := eps[..|eps| - 1], eps[|eps| - 1];
      assert eps == init + [last];
      VisibleReweigh(init, ep);
      ReweighSnoc(init, last, ep);
      VisibleSnoc(init, last);
      VisibleSnoc(Reweigh(init, ep), if Same(last, ep.host, ep.port) then ep else last);
      ReweighSnoc(Visible(init), last, ep);
    }
  }

  lemma VisibleHas(eps: seq<Endpoint>, ep: Endpoint)
    requires Free(ep.host, '/')
    ensures Has(Visible(eps), ep.host, ep.port) <==> Has(eps, ep.host, ep.port)
  {
    if Has(eps, ep.host, ep.port) {
      var i :| 0 <= i < |eps| && Same(eps[i], ep.host, ep.port);
      assert eps[i] in Visible(eps);
    }
    if Has(Visible(eps), ep.host, ep.port) {
      var i :| 0 <= i < |Visible(eps)| && Same(Visible(eps)[i], ep.host, ep.port);
      assert Visible(eps)[i] in eps;
    }
  }

  lemma VisiblePut(eps: seq<Endpoint>, ep: Endpoint)
    ensures Visible(Put(eps, ep)) == if Free(ep.host, '/') then Put(Visible(eps), ep) else Visible(eps)
  {
    VisibleReweigh(eps, ep);
    VisibleSnoc(eps, ep);
    if Free(ep.host, '/') {
      VisibleHas(eps, ep);
    }
  }

  lemma CutSnoc(eps: seq<Endpoint>, e: Endpoint, host: string, port: nat)
    ensures Cut(eps + [e], host, port) == Cut(eps, host, port) + if Same(e, host, port) then [] else [e]
  {
    assert (eps + [e])[..|eps|] == eps;
  }

  lemma {:induction false} VisibleCut(eps: seq<Endpoint>, host: string, port: nat)
    ensures Visible(Cut(eps, host, port)) == if Free(host, '/') then Cut(Visible(eps), host, port) else Visible(eps)
  {
    if eps != [] {
      var init, last := eps[..|eps| - 1], eps[|eps| - 1];
      assert eps == init + [last];
      VisibleCut(init, host, port);
      CutSnoc(init, last, host, port);
      CutSnoc(Visible(init), last, host, port);
      VisibleSnoc(init, last);
      VisibleSnoc(Cut(init, host, port), last);
      if Same(last, host, port) {
        assert Cut(init, host, port) + [] == Cut(init, host, port);
        assert Cut(Visible(init), host, port) + [] == Cut(Visible(init), host, port);
      }
    }
  }

  /** A host with slashes is at home under a name with slashes. */
  lemma SlashedHome(name: string, host: string)
    ensures !Free(host, '/') ==> HomeName(name, host)[|name|..] != [] && !Free(HomeName(name, host), '/')
    ensures Free(host, '/') ==> HomeName(name, host) == name && HomeHost(host) == host
  {
    if RFind(host, '/') >= 0 {
      assert HomeName(name, host)[|name|] == '/';
    }
  }

  lemma VisibleStep(live: seq<Endpoint>, op: Op, svc: string)
    requires Free(svc, '/') && Free(op.name, '/')
    ensures LiveStep(Visible(live), Home(op), svc) == Visible(LiveStep(live, op, svc))
  {
    match op
    case RegisterOp(name, ep) =>
      SlashedHome(name, ep.host);
      VisiblePut(live, ep);
    case UnregisterOp(name, host, port) =>
      SlashedHome(name, host);
      VisibleCut(live, host, port);
  }

  function VisibleAll(lives: seq<seq<Endpoint>>): (visible: seq<seq<Endpoint>>)
    ensures |visible| == |lives| && forall i :: 0 <= i < |lives| ==> visible[i] == Visible(lives[i])
  {
    seq(|lives|, i requires 0 <= i < |lives| => Visible(lives[i]))
  }

  /** With slash-free service names, what is at home in a service is what is visible of it. */
  lemma HomedIsVisible(ops: seq<Op>, lives: seq<seq<Endpoint>>, svc: string)
    requires IsHistory(lives, ops, svc) && Free(svc, '/') && forall i :: 0 <= i < |ops| ==> Free(ops[i].name, '/')
    ensures IsHistory(VisibleAll(lives), Homed(ops), svc)
  {
    var visible := VisibleAll(lives);
    forall i | 0 <= i < |ops|
      ensures Lives(visible[i], Homed(ops)[i], svc, visible[i + 1])
    {
      assert Lives(lives[i], ops[i], svc, lives[i + 1]);
      VisibleStep(lives[i], ops[i], svc);
    }
  }

  /** After every run with slash-free service names and any hosts, a refresh parses back exactly the live
      registrations of slash-free host, hosts with colons included; so it returns all of them if and
      only if every live host is slash-free. */
  lemma RefreshIsExact(trees: seq<Tree>, ops: seq<Op>, lives: seq<seq<Endpoint>>, k: nat, svc: string)
    requires IsRun(trees, ops) && IsHistory(lives, ops, svc) && k <= |ops| && Free(svc, '/')
    requires forall i :: 0 <= i < |ops| ==> Free(ops[i].name, '/')
    ensures Refresh(trees[k], svc) == Ok(Visible(lives[k]))
    ensures Refresh(trees[k], svc) == Ok(lives[k]) <==>
              forall i :: 0 <= i < |lives[k]| ==> Free(lives[k][i].host, '/')
  {
    var visible := VisibleAll(lives);
    HomedIsVisible(ops, lives, svc);
    forall i | 0 <= i < k
      ensures HarmlessAt(ops, visible, i, svc)
    {
      assert Free(ops[i].name, '/');
    }
    TreeMirrors(trees, ops, visible, k, svc);
    RefreshMirrored(trees[k], svc, visible[k]);
    VisibleShorter(lives[k]);
  }

  // ---------- What callers expect of a refresh ----------

  /** A call that leaves the refresh of `svc` with what was registered under `svc`: it is harmless; a host
      registered under `svc` has no slash; and a call under another name whose endpoint is at home in
      `svc` registers only what is live there or unregisters only what is not. */
  predicate Proper(op: Op, svc: string, live: seq<Endpoint>) {
    && Harmless(op, svc, live)
    && match op
       case RegisterOp(name, ep) =>
         if name == svc then Free(ep.host, '/')
         else HomeName(name, ep.host) == svc ==> ep.(host := HomeHost(ep.host)) in live
       case UnregisterOp(name, host, port) =>
         name != svc && HomeName(name, host) == svc ==> !Has(live, HomeHost(host), port)
  }

  lemma PutChanges(eps: seq<Endpoint>, ep: Endpoint)
    requires Distinct(Names(eps))
    ensures Put(eps, ep) == eps <==> ep in eps
  {
    if ep in eps {
      forall j | 0 <= j < |eps| && Same(eps[j], ep.host, ep.port)
        ensures eps[j] == ep
      {
        AddressInjective(eps[j], ep);
        AddressOnce(eps, eps[j], ep);
      }
      var i :| 0 <= i < |eps| && eps[i] == ep;
      assert Same(eps[i], ep.host, ep.port);
      assert Reweigh(eps, ep) == eps;
    } else if Has(eps, ep.host, ep.port) {
      var i :| 0 <= i < |eps| && Same(eps[i], ep.host, ep.port);
      assert Reweigh(eps, ep)[i] == ep;
    }
  }

  lemma {:induction false} CutChanges(eps: seq<Endpoint>, host: string, port: nat)
    ensures |Cut(eps, host, port)| <= |eps|
    ensures Cut(eps, host, port) == eps <==> !Has(eps, host, port)
  {
    if eps != [] {
      var init, last := eps[..|eps| - 1], eps[|eps| - 1];
      assert eps == init + [last];
      CutChanges(init, host, port);
      CutSnoc(init, last, host, port);
      assert Has(eps, host, port) <==> Has(init, host, port) || Same(last, host, port);
    }
  }

  lemma NoSlashLive(t: Tree, svc: string, live: seq<Endpoint>, host: string, port: nat)
    requires Mirrors(t, svc, live) && !Free(host, '/')
    ensures !Has(live, host, port)
  {
    forall i | 0 <= i < |live|
      ensures !Same(live[i], host, port)
    {
      assert live[i] in live;
    }
  }

  /** Where a harmless call is at home and under which name it was made give the same live registrations
      exactly when the call is proper. */
  lemma ProperIffSameLive(t: Tree, svc: string, live: seq<Endpoint>, op: Op)
    requires Mirrors(t, svc, live) && Harmless(op, svc, live)
    ensures LiveStep(live, Home(op), svc) == LiveStep(live, op, svc) <==> Proper(op, svc, live)
  {
    match op
    case RegisterOp(name, ep) =>
      SlashedHome(name, ep.host);
      PutChanges(live, ep.(host := HomeHost(ep.host)));
      if name == svc && !Free(ep.host, '/') {
        NoSlashLive(t, svc, live, ep.host, ep.port);
        assert |Put(live, ep)| == |live| + 1;
        assert HomeName(name, ep.host) != svc;
      }
    case UnregisterOp(name, host, port) =>
      SlashedHome(name, host);
      CutChanges(live, HomeHost(host), port);
      if name == svc && !Free(host, '/') {
        NoSlashLive(t, svc, live, host, port);
        CutChanges(live, host, port);
        assert HomeName(name, host) != svc;
      }
  }

  lemma ProperMirrors(t: Tree, live: seq<Endpoint>, op: Op, svc: string, t': Tree, live': seq<Endpoint>)
    requires Mirrors(t, svc, live) && Typed(op) && Proper(op, svc, live)
    requires Step(t, op, t') && Lives(live, op, svc, live')
    ensures Mirrors(t', svc, live')
  {
    ProperIffSameLive(t, svc, live, op);
    StepMirrors(t, live, op, svc, t', live');
  }

  lemma ImproperBreaks(t: Tree, live: seq<Endpoint>, op: Op, svc: string, t': Tree, live': seq<Endpoint>)
    requires Mirrors(t, svc, live) && Typed(op) && !Proper(op, svc, live)
    requires Step(t, op, t') && Lives(live, op, svc, live')
    ensures Refresh(t', svc) != Ok(live')
  {
    var home := LiveStep(live, Home(op), svc);
    if Harmless(op, svc, live) {
      ProperIffSameLive(t, svc, live, op);
      StepMirrors(t, live, op, svc, t', home);
      RefreshMirrored(t', svc, home);
    } else {
      HomeOfChild(op.name, op.ep.host, svc);
      assert home == live == live';
      StepBreaks(t, live, op, svc, t', live');
    }
  }

  ghost predicate ProperAt(ops: seq<Op>, lives: seq<seq<Endpoint>>, i: nat, svc: string)
    requires i < |ops| < |lives|
  {
    Proper(ops[i], svc, lives[i])
  }

  /** The first `k` calls are proper for `svc`, each where it is made. */
  ghost predicate AllProper(ops: seq<Op>, lives: seq<seq<Endpoint>>, k: nat, svc: string)
    requires k <= |ops| < |lives|
  {
    forall i :: 0 <= i < k ==> ProperAt(ops, lives, i, svc)
  }

  lemma {:induction false} TreeHoldsLive(trees: seq<Tree>, ops: seq<Op>, lives: seq<seq<Endpoint>>, k: nat, svc: string)
    requires IsRun(trees, ops) && IsHistory(lives, ops, svc) && k <= |ops| && AllProper(ops, lives, k, svc)
    ensures Mirrors(trees[k], svc, lives[k])
  {
    if k == 0 {
      FreshMirrors(svc);
    } else {
      var i := k - 1;
      TreeHoldsLive(trees, ops, lives, i, svc);
      assert Step(trees[i], ops[i], trees[i + 1]) && ProperAt(ops, lives, i, svc);
      assert Lives(lives[i], ops[i], svc, lives[i + 1]);
      ProperMirrors(trees[i], lives[i], ops[i], svc, trees[k], lives[k]);
    }
  }

  lemma FirstImproper(ops: seq<Op>, lives: seq<seq<Endpoint>>, k: nat, svc: string) returns (i: nat)
    requires k <= |ops| < |lives|
    ensures i <= k && AllProper(ops, lives, i, svc) && (i < k ==> !ProperAt(ops, lives, i, svc))
  {
    i := 0;
    while i < k && ProperAt(ops, lives, i, svc)
      invariant i <= k && AllProper(ops, lives, i, svc)
    {
      i := i + 1;
    }
  }

  lemma FirstImproperBreaks(trees: seq<Tree>, ops: seq<Op>, lives: seq<seq<Endpoint>>, i: nat, svc: string)
    requires IsRun(trees, ops) && IsHistory(lives, ops, svc) && i < |ops|
    requires AllProper(ops, lives, i, svc) && !ProperAt(ops, lives, i, svc)
    ensures Refresh(trees[i + 1], svc) != Ok(lives[i + 1])
  {
    TreeHoldsLive(trees, ops, lives, i, svc);
    assert Step(trees[i], ops[i], trees[i + 1]);
    assert Lives(lives[i], ops[i], svc, lives[i + 1]);
    ImproperBreaks(trees[i], lives[i], ops[i], svc, trees[i + 1], lives[i + 1]);
  }

  /** For every run of register and unregister calls, whatever their names and hosts, and every service:
      its refresh gives, at every point of the run, exactly what is then registered under its name, in
      order of first registration and with the latest weights, if and only if every call is proper
      where it is made. */
  lemma RefreshExactIff(trees: seq<Tree>, ops: seq<Op>, lives: seq<seq<Endpoint>>, k: nat, svc: string)
    requires IsRun(trees, ops) && IsHistory(lives, ops, svc) && k <= |ops|
    ensures (forall i :: 0 <= i <= k ==> Refresh(trees[i], svc) == Ok(lives[i])) <==> AllProper(ops, lives, k, svc)
  {
    var first := FirstImproper(ops, lives, k, svc);
    if first < k {
      FirstImproperBreaks(trees, ops, lives, first, svc);
    } else {
      forall i | 0 <= i <= k
        ensures Refresh(trees[i], svc) == Ok(lives[i])
      {
        TreeHoldsLive(trees, ops, lives, i, svc);
        RefreshMirrored(trees[i], svc, lives[i]);
      }
    }
  }

  // ---------- The failing cases ----------

  lemma FirstRegistration(name: string, ep: Endpoint, svc: string)
    requires Typed(RegisterOp(name, ep)) && ChildOf(name, svc) == None
    ensures Refresh(Register(FRESH, name, ep), svc) ==
              Ok(if HomeName(name, ep.host) == svc then [ep.(host := HomeHost(ep.host))] else [])
  {
    var op, t := RegisterOp(name, ep), Register(FRESH, name, ep);
    FreshMirrors(svc);
    var live := if Home(op).name == svc then [Home(op).ep] else [];
    assert Put([], Home(op).ep) == [Home(op).ep];
    StepMirrors(FRESH, [], op, svc, t, live);
    RefreshMirrored(t, svc, live);
  }

  /** A first registration of a host with slashes is not found under its own name but under another. */
  lemma SlashedHostFoundElsewhere(name: string, up: string, low: string, ep: Endpoint)
    requires Free(name, '/') && Free(low, '/') && ep.host == up + "/" + low && Typed(RegisterOp(name, ep))
    ensures Refresh(Register(FRESH, name, ep), name) == Ok([])
    ensures Refresh(Register(FRESH, name, ep), name + "/" + up) == Ok([ep.(host := low)])
  {
    RFindSplits(up, '/', low);
    SlashedHome(name, ep.host);
    FirstRegistration(name, ep, name);
    FirstRegistration(name, ep, name + "/" + up);
  }

  /** Registering anything under a name that continues `svc` by an address makes a refresh of `svc`
      return an endpoint nobody registered. */
  lemma SlashedNameMakesPhantom(svc: string, phantom: Endpoint, ep: Endpoint)
    requires PlainEndpoint(phantom) && phantom.weight == 1
    ensures Refresh(Register(FRESH, svc + "/" + phantom.Address(), ep), svc) == Ok([phantom])
  {
    var x, t := phantom.Address(), Register(FRESH, svc + "/" + phantom.Address(), ep);
    AddressPlain(phantom);
    RFindSplits(svc, '/', x);
    RegisterTree(FRESH, svc + "/" + x, ep, svc);
    assert |HomeName(svc + "/" + x, ep.host)| >= |svc + "/" + x| > |svc|;
    FreshMirrors(svc);
    assert t.Kids(ServicePath(svc)) == [x];
    assert Colons([x]) == [x] && Names([phantom]) == [x];
    RefreshMirrored(t, svc, [phantom]);
  }

  // ---------- The objects ----------

  class ZooKeeperStub {
    var nodes: map<string, string>
    var children: map<string, seq<string>>

    function View(): Tree
      reads this
    {
      Tree(nodes, children)
    }

    constructor ()
      ensures View() == Tree(map[], map[])
    {
      nodes, children := map[], map[];
    }

    method CreateNode(path: string, data: string)
      modifies this
      ensures View() == Create(old(View()), path, data)
    {
      nodes := nodes[path := data];
      var slash := RFind(path, '/');
      if slash > 0 {
        var parent, child := path[..slash], path[slash + 1..];
        var kids := View().Kids(parent);
        if child !in kids {
          kids := kids + [child];
        }
        children := children[parent := kids];
      }
    }

    method RemoveNode(path: string)
      modifies this
      ensures View() == Remove(old(View()), path)
    {
      nodes := nodes - {path};
      var slash := RFind(path, '/');
      if slash > 0 {
        var parent, child := path[..slash], path[slash + 1..];
        children := children[parent := Drop(View().Kids(parent), child)];
      }
    }
  }

  class ServiceRegistry {
    const zk: ZooKeeperStub
    var cache: map<string, seq<Endpoint>>

    constructor ()
      ensures fresh(zk) && zk.View() == FRESH && cache == map[]
    {
      zk := new ZooKeeperStub();
      cache := map[];
      new;
      zk.CreateNode(ROOT, "");
      FreshIsCreated();
    }

    method RegisterService(name: string, ep: Endpoint)
      modifies zk
      ensures zk.View() == Register(old(zk.View()), name, ep)
    {
      zk.CreateNode(ServicePath(name), "");
      zk.CreateNode(Under(ServicePath(name), ep.host + ":" + Print(ep.port)), Print(ep.weight));
    }

    method UnregisterService(name: string, host: string, port: nat)
      modifies zk
      ensures zk.View() == Unregister(old(zk.View()), name, host, port)
    {
      zk.RemoveNode(Under(ServicePath(name), host + ":" + Print(port)));
    }

    /** A child that `stoi` rejects makes the call throw and leaves the cache alone. */
    method RefreshCache(name: string) returns (thrown: bool)
      modifies this
      ensures thrown <==> Refresh(zk.View(), name).Err?
      ensures cache == if thrown then old(cache) else old(cache)[name := Refresh(zk.View(), name).value]
    {
      var kids := zk.View().Kids(ServicePath(name));
      var eps := [];
      for n := 0 to |kids|
        invariant Collect(Parser(zk.View(), name), kids[..n]) == Ok(eps)
      {
        assert kids[..n + 1][..n] == kids[..n];
        match ParseChild(zk.View(), name, kids[n]) {
          case Skipped =>
          case Throws =>
            CollectStuck(Parser(zk.View(), name), kids, n + 1);
            return true;
          case Parsed(ep) => eps := eps + [ep];
        }
      }
      assert kids[..|kids|] == kids;
      cache := cache[name := eps];
      return false;
    }
  }

  lemma {:induction false} CollectStuck(parse: string -> Child, kids: seq<string>, m: nat)
    requires m <= |kids| && Collect(parse, kids[..m]).Err?
    ensures Collect(parse, kids).Err?
  {
    if m < |kids| {
      assert kids[..|kids| - 1][..m] == kids[..m];
      CollectStuck(parse, kids[..|kids| - 1], m);
    } else {
      assert kids[..m] == kids;
    }
  }
}
