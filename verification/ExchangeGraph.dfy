/** Exchange-to-exchange bindings and the guard that keeps the exchange graph acyclic. */
module ExchangeGraph {
  import opened Paths

  datatype E2EBinding = E2EBinding(source: string, destination: string, routingKey: string)

  type Bindings = map<string, seq<E2EBinding>>

  function List(g: Bindings, source: string): seq<E2EBinding> {
    if source in g then g[source] else []
  }

  function Destinations(list: seq<E2EBinding>): set<string> {
    set b | b in list :: b.destination
  }

  function Graph(g: Bindings): Adjacency {
    map x | x in g :: Destinations(g[x])
  }

  predicate Same(b: E2EBinding, destination: string, routingKey: string) {
    b.destination == destination && b.routingKey == routingKey
  }

  predicate Holds(list: seq<E2EBinding>, destination: string, routingKey: string) {
    exists b | b in list :: Same(b, destination, routingKey)
  }

  function Bound(g: Bindings, source: string, destination: string, routingKey: string): Bindings {
    if Holds(List(g, source), destination, routingKey) then g
    else g[source := List(g, source) + [E2EBinding(source, destination, routingKey)]]
  }

  /** The list without its first binding to that destination and key. */
  function Without(list: seq<E2EBinding>, destination: string, routingKey: string): seq<E2EBinding> {
    if list == [] then []
    else if Same(list[0], destination, routingKey) then list[1..]
    else [list[0]] + Without(list[1..], destination, routingKey)
  }

  function Unbound(g: Bindings, source: string, destination: string, routingKey: string): Bindings {
    if Holds(List(g, source), destination, routingKey)
    then g[source := Without(List(g, source), destination, routingKey)] else g
  }

  function Keep(list: seq<E2EBinding>, exchange: string): seq<E2EBinding> {
    if list == [] then []
    else (if list[0].destination != exchange then [list[0]] else []) + Keep(list[1..], exchange)
  }

  function Purged(g: Bindings, exchange: string): Bindings {
    map x | x in g && x != exchange :: Keep(g[x], exchange)
  }

  // ---------------------------------------------------------------- What the operations do to the graph

  /** A bind adds the edge and nothing else, whether or not the binding existed. */
  lemma BoundEdges(g: Bindings, s: string, d: string, key: string)
    ensures forall x :: Succ(Graph(Bound(g, s, d, key)), x) == Succ(WithEdge(Graph(g), s, d), x)
  {
    var list := List(g, s);
    if Holds(list, d, key) {
      assert d in Destinations(list);
    } else {
      var more := list + [E2EBinding(s, d, key)];
      assert Destinations(more) == Destinations(list) + {d} by {
        assert more[|list|].destination == d;
        assert forall b | b in list :: b in more;
      }
    }
  }

  lemma {:induction false} WithoutContents(list: seq<E2EBinding>, d: string, key: string)
    requires Holds(list, d, key)
    ensures exists b :: Same(b, d, key) && b in list &&
                        multiset(list) == multiset(Without(list, d, key)) + multiset{b}
  {
    if Same(list[0], d, key) {
      assert list == [list[0]] + list[1..];
    } else {
      WithoutContents(list[1..], d, key);
      assert list == [list[0]] + list[1..];
    }
  }

  lemma {:induction false} WithoutSubset(list: seq<E2EBinding>, d: string, key: string)
    ensures forall b | b in Without(list, d, key) :: b in list
  {
    if list != [] { WithoutSubset(list[1..], d, key); }
  }

  lemma UnboundEdges(g: Bindings, s: string, d: string, key: string)
    ensures Subgraph(Graph(Unbound(g, s, d, key)), Graph(g))
  {
    WithoutSubset(List(g, s), d, key);
  }

  lemma {:induction false} KeepContents(list: seq<E2EBinding>, exchange: string)
    ensures forall b :: b in Keep(list, exchange) <==> b in list && b.destination != exchange
  {
    if list != [] { KeepContents(list[1..], exchange); }
  }

  /** Deleting an exchange removes exactly the edges at it. */
  lemma PurgedEdges(g: Bindings, exchange: string)
    ensures forall x :: Succ(Graph(Purged(g, exchange)), x) ==
                        if x == exchange then {} else Succ(Graph(g), x) - {exchange}
  {
    forall x ensures Succ(Graph(Purged(g, exchange)), x) ==
                     if x == exchange then {} else Succ(Graph(g), x) - {exchange}
    {
      KeepContents(List(g, x), exchange);
    }
  }

  // ---------------------------------------------------------------- Runs

  datatype Op =
    | GuardedBind(source: string, destination: string, routingKey: string)
    | Unbind(source: string, destination: string, routingKey: string)
    | DeleteExchange(exchange: string)

  ghost function Apply(g: Bindings, op: Op): Bindings {
    match op
    case GuardedBind(s, d, key) => if Reach(Graph(g), d, s) then g else Bound(g, s, d, key)
    case Unbind(s, d, key) => Unbound(g, s, d, key)
    case DeleteExchange(e) => Purged(g, e)
  }

  ghost function ApplyAll(g: Bindings, ops: seq<Op>): Bindings
    decreases |ops|
  {
    if ops == [] then g else ApplyAll(Apply(g, ops[0]), ops[1..])
  }

  /** The guard refuses exactly the bindings that would close a cycle. */
  lemma GuardIsExact(g: Bindings, s: string, d: string, key: string)
    requires Acyclic(Graph(g))
    ensures Acyclic(Graph(Bound(g, s, d, key))) <==> !Reach(Graph(g), d, s)
  {
    BoundEdges(g, s, d, key);
    AcyclicWithEdge(Graph(g), s, d);
    var h, w := Graph(Bound(g, s, d, key)), WithEdge(Graph(g), s, d);
    if Acyclic(w) { SubgraphAcyclic(h, w); }
    if Acyclic(h) { SubgraphAcyclic(w, h); }
  }

  lemma ApplyKeepsAcyclic(g: Bindings, op: Op)
    requires Acyclic(Graph(g))
    ensures Acyclic(Graph(Apply(g, op)))
  {
    match op
    case GuardedBind(s, d, key) => GuardIsExact(g, s, d, key);
    case Unbind(s, d, key) =>
      UnboundEdges(g, s, d, key);
      SubgraphAcyclic(Graph(Unbound(g, s, d, key)), Graph(g));
    case DeleteExchange(e) =>
      PurgedEdges(g, e);
      SubgraphAcyclic(Graph(Purged(g, e)), Graph(g));
  }

  /** Every run of guarded binds, unbinds and deletions, one after the other, keeps the graph acyclic. */
  lemma {:induction false} RunsKeepAcyclic(g: Bindings, ops: seq<Op>)
    requires Acyclic(Graph(g))
    ensures Acyclic(Graph(ApplyAll(g, ops)))
    decreases |ops|
  {
    if ops != [] {
      ApplyKeepsAcyclic(g, ops[0]);
      RunsKeepAcyclic(Apply(g, ops[0]), ops[1..]);
    }
  }

  // ---------------------------------------------------------------- Handlers at the same time

  /** The bind handler takes the lock once for the check and again for the bind. */
  datatype Part =
    | Check(request: E2EBinding)
    | Finish(request: E2EBinding)
    | Unbinding(request: E2EBinding)
    | Deleting(exchange: string)

  /** The bindings, and the requests that have passed the check and are yet to bind. */
  datatype Handling = Handling(bindings: Bindings, passed: multiset<E2EBinding>)

  ghost predicate Closes(g: Bindings, r: E2EBinding) {
    Reach(Graph(g), r.destination, r.source)
  }

  ghost function Handle(h: Handling, part: Part): Handling {
    match part
    case Check(r) => if Closes(h.bindings, r) then h else h.(passed := h.passed + multiset{r})
    case Finish(r) =>
      if r !in h.passed then h
      else Handling(Bound(h.bindings, r.source, r.destination, r.routingKey), h.passed - multiset{r})
    case Unbinding(r) => h.(bindings := Unbound(h.bindings, r.source, r.destination, r.routingKey))
    case Deleting(e) => h.(bindings := Purged(h.bindings, e))
  }

  ghost function HandleAll(h: Handling, parts: seq<Part>): Handling
    decreases |parts|
  {
    if parts == [] then h else HandleAll(Handle(h, parts[0]), parts[1..])
  }

  /** The graph is acyclic now and after every part. */
  ghost predicate StaysAcyclic(h: Handling, parts: seq<Part>)
    decreases |parts|
  {
    Acyclic(Graph(h.bindings)) && (parts == [] || StaysAcyclic(Handle(h, parts[0]), parts[1..]))
  }

  /** Every request still closes no cycle when it binds. */
  ghost predicate StillOpen(h: Handling, parts: seq<Part>)
    decreases |parts|
  {
    parts == [] || (OpenAt(h, parts[0]) && StillOpen(Handle(h, parts[0]), parts[1..]))
  }

  ghost predicate OpenAt(h: Handling, part: Part) {
    part.Finish? && part.request in h.passed ==> !Closes(h.bindings, part.request)
  }

  lemma HandleAcyclicIff(h: Handling, part: Part)
    requires Acyclic(Graph(h.bindings))
    ensures Acyclic(Graph(Handle(h, part).bindings)) <==> OpenAt(h, part)
  {
    match part
    case Check(r) =>
    case Finish(r) => GuardIsExact(h.bindings, r.source, r.destination, r.routingKey);
    case Unbinding(r) => ApplyKeepsAcyclic(h.bindings, Unbind(r.source, r.destination, r.routingKey));
    case Deleting(e) => ApplyKeepsAcyclic(h.bindings, DeleteExchange(e));
  }

  /** However the handlers interleave, the graph stays acyclic all along if and only if every request
      still closes no cycle when it binds. */
  lemma {:induction false} InterleavedAcyclicIff(h: Handling, parts: seq<Part>)
    requires Acyclic(Graph(h.bindings))
    ensures StaysAcyclic(h, parts) <==> StillOpen(h, parts)
    decreases |parts|
  {
    if parts != [] {
      HandleAcyclicIff(h, parts[0]);
      if OpenAt(h, parts[0]) { InterleavedAcyclicIff(Handle(h, parts[0]), parts[1..]); }
    }
  }

  lemma EmptyReach(a: string, b: string)
    requires a != b
    ensures !Reach(Graph(map[]), a, b)
  {
    if Reach(Graph(map[]), a, b) { ClosedUnderReach(Graph(map[]), {a}, a, b); }
  }

  lemma BoundTwice(a: string, b: string, k: string, l: string)
    requires a != b
    ensures !Acyclic(Graph(Bound(Bound(map[], a, b, k), b, a, l)))
  {
    var g := Bound(map[], a, b, k);
    EmptyAcyclic();
    EmptyReach(b, a);
    GuardIsExact(map[], a, b, k);
    BoundEdges(map[], a, b, k);
    ReachEdge(Graph(g), a, b);
    GuardIsExact(g, b, a, l);
  }

  lemma HandleTwo(h: Handling, x: Part, y: Part, rest: seq<Part>)
    ensures HandleAll(h, [x, y] + rest) == HandleAll(Handle(Handle(h, x), y), rest)
  {
    assert ([x, y] + rest)[1..] == [y] + rest && ([y] + rest)[1..] == rest;
  }

  /** Two handlers that both check before either binds close a cycle. */
  lemma HandlersMayClose(a: string, b: string, k: string, l: string)
    requires a != b
    ensures var r, s := E2EBinding(a, b, k), E2EBinding(b, a, l);
            var h := HandleAll(Handling(map[], multiset{}), [Check(r), Check(s), Finish(r), Finish(s)]);
            !Acyclic(Graph(h.bindings))
  {
    var r, s := E2EBinding(a, b, k), E2EBinding(b, a, l);
    var h := Handling(map[], multiset{});
    EmptyReach(b, a);
    EmptyReach(a, b);
    BoundTwice(a, b, k, l);
    var one := Handle(h, Check(r));
    var two := Handle(one, Check(s));
    var three := Handle(two, Finish(r));
    assert two == Handling(map[], multiset{r, s}) && three == Handling(Bound(map[], a, b, k), multiset{s});
    assert [Check(r), Check(s), Finish(r), Finish(s)] == [Check(r), Check(s)] + [Finish(r), Finish(s)];
    HandleTwo(h, Check(r), Check(s), [Finish(r), Finish(s)]);
    assert [Finish(r), Finish(s)] == [Finish(r), Finish(s)] + [];
    HandleTwo(two, Finish(r), Finish(s), []);
  }

  // ---------------------------------------------------------------- The manager

  ghost function Names(g: Bindings): set<string> {
    set x, b | x in g && b in g[x] :: b.destination
  }

  /** A map of marks shared by all activations of one search. */
  class Marks {
    var seen: set<string>

    constructor ()
      ensures seen == {}
    {
      seen := {};
    }
  }

  lemma EmptyAcyclic()
    ensures Acyclic(Graph(map[]))
  {
    forall p ensures !IsCycle(Graph(map[]), p) {
      assert IsCycle(Graph(map[]), p) ==> p[0 + 1] in Succ(Graph(map[]), p[0]);
    }
  }

  lemma {:induction false} WithoutAt(list: seq<E2EBinding>, d: string, key: string, i: nat)
    requires i < |list| && Same(list[i], d, key) && forall j | 0 <= j < i :: !Same(list[j], d, key)
    ensures Without(list, d, key) == list[..i] + list[i + 1..]
  {
    if i > 0 {
      assert !Same(list[0], d, key);
      WithoutAt(list[1..], d, key, i - 1);
      assert list[..i] == [list[0]] + list[1..][..i - 1];
      assert list[1..][i..] == list[i + 1..];
    }
  }

  /** The position of the first binding to that destination and key, or the length. */
  method Find(list: seq<E2EBinding>, destination: string, routingKey: string) returns (i: nat)
    ensures i <= |list| && forall j | 0 <= j < i :: !Same(list[j], destination, routingKey)
    ensures i < |list| ==> Same(list[i], destination, routingKey)
  {
    i := 0;
    while i < |list|
      invariant i <= |list|
      invariant forall j | 0 <= j < i :: !Same(list[j], destination, routingKey)
    {
      if Same(list[i], destination, routingKey) { return; }
      i := i + 1;
    }
  }

  lemma KeepNext(keep: seq<E2EBinding>, list: seq<E2EBinding>, i: nat, exchange: string)
    requires i < |list|
    ensures keep + Keep(list[i..], exchange) ==
            (if list[i].destination != exchange then keep + [list[i]] else keep) + Keep(list[i + 1..], exchange)
  {
    var rest := list[i..];
    assert rest[0] == list[i] && rest[1..] == list[i + 1..];
    if list[i].destination == exchange {
      assert Keep(rest, exchange) == [] + Keep(list[i + 1..], exchange);
    } else {
      Spliced(keep, list[i], Keep(list[i + 1..], exchange));
    }
  }

  lemma Spliced(a: seq<E2EBinding>, b: E2EBinding, c: seq<E2EBinding>)
    ensures a + ([b] + c) == a + [b] + c
  {
  }

  method KeepLoop(list: seq<E2EBinding>, exchange: string) returns (keep: seq<E2EBinding>)
    ensures keep == Keep(list, exchange)
  {
    keep := [];
    var i := 0;
    while i < |list|
      invariant 0 <= i <= |list|
      invariant keep + Keep(list[i..], exchange) == Keep(list, exchange)
    {
      KeepNext(keep, list, i, exchange);
      if list[i].destination != exchange { keep := keep + [list[i]]; }
      i := i + 1;
    }
  }

  class Manager {
    var bySource: Bindings

    constructor ()
      ensures bySource == map[] && Acyclic(Graph(bySource))
    {
      bySource := map[];
      new;
      EmptyAcyclic();
    }

    method Bind(source: string, destination: string, routingKey: string)
      modifies this
      ensures bySource == Bound(old(bySource), source, destination, routingKey)
    {
      var list := if source in bySource then bySource[source] else [];
      var i := Find(list, destination, routingKey);
      if i < |list| { return; }
      bySource := bySource[source := list + [E2EBinding(source, destination, routingKey)]];
    }

    method Unbind(source: string, destination: string, routingKey: string) returns (found: bool)
      modifies this
      ensures found == Holds(List(old(bySource), source), destination, routingKey)
      ensures bySource == Unbound(old(bySource), source, destination, routingKey)
    {
      var list := if source in bySource then bySource[source] else [];
      var i := Find(list, destination, routingKey);
      found := i < |list|;
      if found {
        WithoutAt(list, destination, routingKey, i);
        bySource := bySource[source := list[..i] + list[i + 1..]];
      }
    }

    method UnbindAllForExchange(exchange: string)
      modifies this
      ensures bySource == Purged(old(bySource), exchange)
    {
      bySource := bySource - {exchange};
      var sources := bySource.Keys;
      while sources != {}
        invariant sources <= bySource.Keys == old(bySource).Keys - {exchange}
        invariant forall x | x in sources :: bySource[x] == old(bySource)[x]
        invariant forall x | x in bySource.Keys - sources :: bySource[x] == Keep(old(bySource)[x], exchange)
        decreases sources
      {
        var src :| src in sources;
        var keep := KeepLoop(bySource[src], exchange);
        bySource := bySource[src := keep];
        sources := sources - {src};
      }
    }

    /** The search stops at the source; what it marks without finding it is closed under edges. */
    method Search(node: string, source: string, marks: Marks) returns (found: bool)
      requires source !in marks.seen
      modifies marks
      ensures old(marks.seen) <= marks.seen
      ensures found ==> Reach(Graph(bySource), node, source)
      ensures !found ==> node in marks.seen && source !in marks.seen
      ensures !found ==> forall x | x in marks.seen - old(marks.seen) :: Succ(Graph(bySource), x) <= marks.seen
      decreases Names(bySource) + {node} - marks.seen
    {
      if node == source {
        ReachSelf(Graph(bySource), node);
        return true;
      }
      if node in marks.seen { return false; }
      marks.seen := marks.seen + {node};
      var list := if node in bySource then bySource[node] else [];
      var i := 0;
      while i < |list|
        invariant 0 <= i <= |list|
        invariant old(marks.seen) + {node} <= marks.seen && source !in marks.seen
        invariant forall j | 0 <= j < i :: list[j].destination in marks.seen
        invariant forall x | x in marks.seen - old(marks.seen) - {node} :: Succ(Graph(bySource), x) <= marks.seen
      {
        assert list[i].destination in Succ(Graph(bySource), node);
        assert list[i].destination in Names(bySource);
        found := Search(list[i].destination, source, marks);
        if found {
          ReachEdge(Graph(bySource), node, list[i].destination);
          ReachJoin(Graph(bySource), node, list[i].destination, source);
          return true;
        }
        i := i + 1;
      }
      assert Succ(Graph(bySource), node) == Destinations(list);
      return false;
    }

    /** True exactly when the source is reachable from the destination. */
    method HasCycle(source: string, destination: string) returns (cycle: bool)
      ensures cycle <==> Reach(Graph(bySource), destination, source)
    {
      var marks := new Marks();
      cycle := Search(destination, source, marks);
      if !cycle && Reach(Graph(bySource), destination, source) {
        ClosedUnderReach(Graph(bySource), marks.seen, destination, source);
      }
    }

    /** The guarded bind of the Exchange.Bind handler. */
    method HandleBind(source: string, destination: string, routingKey: string) returns (ok: bool)
      modifies this
      ensures ok <==> !Reach(Graph(old(bySource)), destination, source)
      ensures bySource == Apply(old(bySource), GuardedBind(source, destination, routingKey))
    {
      var cycle := HasCycle(source, destination);
      if cycle { return false; }
      Bind(source, destination, routingKey);
      return true;
    }
  }
}
