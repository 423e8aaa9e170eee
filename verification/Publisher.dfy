/**
 Publishing over the exchange graph: routing at each exchange, forwarding along
 exchange-to-exchange bindings with a shared set of visited exchanges, and dead-lettering the
 oldest message of a full queue, which publishes again.
 */
module Publisher {
  import opened Messages
  import opened MessageStore
  import opened PriorityQueue
  import opened Routing
  import opened Paths
  import G = ExchangeGraph

  /** What publishing reads and never changes. */
  datatype Topology = Topology(
    exchanges: map<string, Kind>,
    bindings: map<string, seq<Binding>>,
    e2e: G.Bindings,
    queues: map<string, Table>,
    hm: HeaderMatch)

  /** Forwarding starts at declared exchanges only. */
  function Forwards(t: Topology): Adjacency {
    map x | x in t.e2e && x in t.exchanges :: G.Destinations(t.e2e[x])
  }

  function BindingsOf(t: Topology, exchange: string): seq<Binding> {
    if exchange in t.bindings then t.bindings[exchange] else []
  }

  /** One routing of the message at one exchange. */
  datatype Visit = Visit(exchange: string, key: string, headers: Table, queues: seq<string>)

  type Place = (string, Message)

  const NO_NAMES: set<string> := {}

  // ---------------------------------------------------------------- What a search of the graph means

  ghost predicate Visited(visits: seq<Visit>, x: string) {
    exists i :: 0 <= i < |visits| && visits[i].exchange == x
  }

  ghost predicate OncePerExchange(visits: seq<Visit>) {
    forall i, j | 0 <= i < j < |visits| :: visits[i].exchange != visits[j].exchange
  }

  ghost predicate Headed(visits: seq<Visit>, start: string, key: string) {
    visits != [] ==> visits[0].exchange == start && visits[0].key == key
  }

  /** Every later visit was forwarded from an earlier one, with the key of the binding used. */
  ghost predicate ForwardedFrom(t: Topology, from: Visit, to: Visit) {
    G.Holds(G.List(t.e2e, from.exchange), to.exchange, to.key)
  }

  ghost predicate Linked(t: Topology, visits: seq<Visit>) {
    forall i | 0 < i < |visits| :: HasSource(t, visits, i)
  }

  ghost predicate HasSource(t: Topology, visits: seq<Visit>, i: nat)
    requires i < |visits|
  {
    exists j :: 0 <= j < i && ForwardedFrom(t, visits[j], visits[i])
  }

  ghost predicate RouteOk(t: Topology, v: Visit) {
    v.exchange in t.exchanges &&
    v.queues == Route(t.exchanges[v.exchange], v.key, v.headers, t.hm, BindingsOf(t, v.exchange))
  }

  ghost predicate VisitsOk(t: Topology, start: string, key: string, visits: seq<Visit>) {
    && OncePerExchange(visits) && Headed(visits, start, key) && Linked(t, visits)
    && forall v | v in visits :: RouteOk(t, v)
  }

  /** From `start`, everything newly marked is reachable, the newly marked declared exchanges
      were visited, and the marks are closed under forwarding. */
  ghost predicate Searched(t: Topology, start: string, key: string, before: set<string>, after: set<string>,
                           visits: seq<Visit>) {
    && before <= after && start in after
    && (forall x {:trigger Succ(Forwards(t), x)} | x in after && x !in before :: Succ(Forwards(t), x) <= after)
    && (forall x {:trigger Reach(Forwards(t), start, x)} | x in after && x !in before :: Reach(Forwards(t), start, x))
    && (forall x {:trigger Visited(visits, x)} ::
          Visited(visits, x) <==> x in t.exchanges && x in after && x !in before)
    && VisitsOk(t, start, key, visits)
  }

  /** The same while the first `i` bindings of `start` have been followed. */
  ghost predicate Searching(t: Topology, start: string, key: string, before: set<string>, marks: set<string>,
                            visits: seq<Visit>, i: nat) {
    && start in t.exchanges && start !in before && before <= marks && start in marks
    && i <= |G.List(t.e2e, start)|
    && (forall j | 0 <= j < i :: G.List(t.e2e, start)[j].destination in marks)
    && (forall x {:trigger Succ(Forwards(t), x)} | x in marks && x !in before && x != start ::
          Succ(Forwards(t), x) <= marks)
    && (forall x {:trigger Reach(Forwards(t), start, x)} | x in marks && x !in before :: Reach(Forwards(t), start, x))
    && (forall x {:trigger Visited(visits, x)} ::
          Visited(visits, x) <==> x in t.exchanges && x in marks && x !in before)
    && visits != [] && VisitsOk(t, start, key, visits)
  }

  /** The whole of what one publish visits: exactly the declared exchanges reachable from the
      start through declared exchanges, each once. */
  ghost predicate Explores(t: Topology, start: string, key: string, visits: seq<Visit>) {
    && (forall x {:trigger Visited(visits, x)} ::
          Visited(visits, x) <==> x in t.exchanges && Reach(Forwards(t), start, x))
    && VisitsOk(t, start, key, visits)
  }

  lemma VisitedAppend(a: seq<Visit>, b: seq<Visit>, x: string)
    ensures Visited(a + b, x) <==> Visited(a, x) || Visited(b, x)
  {
    if Visited(a, x) {
      var i :| 0 <= i < |a| && a[i].exchange == x;
      assert (a + b)[i].exchange == x;
    }
    if Visited(b, x) {
      var i :| 0 <= i < |b| && b[i].exchange == x;
      assert (a + b)[|a| + i].exchange == x;
    }
  }

  lemma OnceAppend(a: seq<Visit>, b: seq<Visit>)
    requires OncePerExchange(a) && OncePerExchange(b) && forall x | Visited(a, x) :: !Visited(b, x)
    ensures OncePerExchange(a + b)
  {
    var c := a + b;
    forall i, j | 0 <= i < j < |c| ensures c[i].exchange != c[j].exchange {
      if i < |a| <= j {
        assert a[i].exchange == c[i].exchange && b[j - |a|].exchange == c[j].exchange;
        assert Visited(a, c[i].exchange) && Visited(b, c[j].exchange);
      }
    }
  }

  lemma LinkedAppend(t: Topology, a: seq<Visit>, b: seq<Visit>)
    requires a != [] && Linked(t, a) && Linked(t, b) && (b != [] ==> ForwardedFrom(t, a[0], b[0]))
    ensures Linked(t, a + b)
  {
    var c := a + b;
    forall i | 0 < i < |c| ensures HasSource(t, c, i) {
      if i < |a| {
        assert HasSource(t, a, i);
        var j :| 0 <= j < i && ForwardedFrom(t, a[j], a[i]);
        assert ForwardedFrom(t, c[j], c[i]);
      } else if i == |a| {
        assert c[0] == a[0] && c[i] == b[0];
        assert ForwardedFrom(t, c[0], c[i]);
      } else {
        assert HasSource(t, b, i - |a|);
        var j :| 0 <= j < i - |a| && ForwardedFrom(t, b[j], b[i - |a|]);
        assert ForwardedFrom(t, c[|a| + j], c[i]);
      }
    }
  }

  lemma VisitsAppend(t: Topology, start: string, key: string, visits: seq<Visit>, i: nat, sub: seq<Visit>)
    requires visits != [] && VisitsOk(t, start, key, visits) && i < |G.List(t.e2e, start)|
    requires var b := G.List(t.e2e, start)[i]; VisitsOk(t, b.destination, b.routingKey, sub)
    requires forall x | Visited(visits, x) :: !Visited(sub, x)
    ensures VisitsOk(t, start, key, visits + sub)
  {
    var b := G.List(t.e2e, start)[i];
    if sub != [] {
      assert b in G.List(t.e2e, start) && G.Same(b, sub[0].exchange, sub[0].key);
    }
    OnceAppend(visits, sub);
    LinkedAppend(t, visits, sub);
    forall v | v in visits + sub ensures RouteOk(t, v) {
      assert v in visits || v in sub;
    }
  }

  /** Following one more binding. */
  lemma SearchExtends(t: Topology, start: string, key: string, before: set<string>, marks: set<string>,
                      visits: seq<Visit>, i: nat, after: set<string>, sub: seq<Visit>)
    requires Searching(t, start, key, before, marks, visits, i) && i < |G.List(t.e2e, start)|
    requires var b := G.List(t.e2e, start)[i]; Searched(t, b.destination, b.routingKey, marks, after, sub)
    ensures Searching(t, start, key, before, after, visits + sub, i + 1)
  {
    var b := G.List(t.e2e, start)[i];
    var f := Forwards(t);
    assert b.destination in Succ(f, start);
    forall x | x in after && x !in before ensures Reach(f, start, x) {
      if x in marks {
        assert Reach(f, start, x);
      } else {
        ReachEdge(f, start, b.destination);
        ReachJoin(f, start, b.destination, x);
      }
    }
    forall x | x in after && x !in before && x != start ensures Succ(f, x) <= after {
    }
    VisitsAppend(t, start, key, visits, i, sub);
    forall x ensures Visited(visits + sub, x) <==> x in t.exchanges && x in after && x !in before {
      VisitedAppend(visits, sub, x);
    }
  }

  lemma SearchStarts(t: Topology, start: string, key: string, before: set<string>, v: Visit)
    requires start in t.exchanges && start !in before && v.exchange == start && v.key == key && RouteOk(t, v)
    ensures Searching(t, start, key, before, before + {start}, [v], 0)
  {
    ReachSelf(Forwards(t), start);
    forall x ensures Visited([v], x) <==> x in t.exchanges && x in before + {start} && x !in before {
      if x == start { assert [v][0].exchange == x; }
    }
  }

  lemma SearchEnds(t: Topology, start: string, key: string, before: set<string>, marks: set<string>, visits: seq<Visit>)
    requires Searching(t, start, key, before, marks, visits, |G.List(t.e2e, start)|)
    ensures Searched(t, start, key, before, marks, visits)
  {
    var f := Forwards(t);
    assert Succ(f, start) <= marks by {
      forall y | y in Succ(f, start) ensures y in marks {
        var b :| b in G.List(t.e2e, start) && b.destination == y;
        var j :| 0 <= j < |G.List(t.e2e, start)| && G.List(t.e2e, start)[j] == b;
      }
    }
  }

  /** A search from no marks visits exactly what is reachable. */
  lemma SearchIsExact(t: Topology, start: string, key: string, after: set<string>, visits: seq<Visit>)
    requires Searched(t, start, key, {}, after, visits)
    ensures Explores(t, start, key, visits)
  {
    forall x ensures Visited(visits, x) <==> x in t.exchanges && Reach(Forwards(t), start, x) {
      if Reach(Forwards(t), start, x) {
        assert forall y | y in after :: Succ(Forwards(t), y) <= after;
        ClosedUnderReach(Forwards(t), after, start, x);
      }
    }
  }

  // ---------------------------------------------------------------- Counting routes and copies

  function Total(visits: seq<Visit>): nat {
    if visits == [] then 0 else |visits[0].queues| + Total(visits[1..])
  }

  lemma {:induction false} TotalAppend(a: seq<Visit>, b: seq<Visit>)
    ensures Total(a + b) == Total(a) + Total(b)
  {
    if a == [] {
      assert a + b == b;
    } else {
      assert (a + b)[1..] == a[1..] + b;
      TotalAppend(a[1..], b);
    }
  }

  ghost function CopyAt(t: Topology, q: string, m: Message): multiset<Place> {
    if q in t.queues then multiset{(q, m)} else multiset{}
  }

  /** A copy of the message in every declared queue of the list. */
  ghost function Copies(t: Topology, queues: seq<string>, m: Message): multiset<Place> {
    if queues == [] then multiset{}
    else CopyAt(t, queues[0], m) + Copies(t, queues[1..], m)
  }

  ghost function Placed(t: Topology, visits: seq<Visit>, m: Message): multiset<Place> {
    if visits == [] then multiset{} else Copies(t, visits[0].queues, m) + Placed(t, visits[1..], m)
  }

  lemma {:induction false} CopiesAppend(t: Topology, a: seq<string>, q: string, m: Message)
    ensures Copies(t, a + [q], m) == Copies(t, a, m) + CopyAt(t, q, m)
  {
    if a == [] {
      assert a + [q] == [q];
    } else {
      assert (a + [q])[1..] == a[1..] + [q];
      CopiesAppend(t, a[1..], q, m);
    }
  }

  lemma {:induction false} PlacedAppend(t: Topology, a: seq<Visit>, b: seq<Visit>, m: Message)
    ensures Placed(t, a + b, m) == Placed(t, a, m) + Placed(t, b, m)
  {
    if a == [] {
      assert a + b == b;
    } else {
      assert (a + b)[1..] == a[1..] + b;
      PlacedAppend(t, a[1..], b, m);
    }
  }

  // ---------------------------------------------------------------- The ledger of copies

  /** Each queue holds what entered it and has not left it. */
  ghost predicate Balanced(qs: Queues, entered: multiset<Place>, left: multiset<Place>) {
    forall q, m :: BalancedAt(qs, entered, left, q, m)
  }

  ghost predicate BalancedAt(qs: Queues, entered: multiset<Place>, left: multiset<Place>, q: string, m: Message) {
    multiset(Queue(qs, q))[m] + left[(q, m)] == entered[(q, m)]
  }

  lemma PopBalanced(qs: Queues, q: string, entered: multiset<Place>, left: multiset<Place>)
    requires Balanced(qs, entered, left) && Queue(qs, q) != []
    ensures Balanced(Popped(qs, q), entered, left + multiset{(q, Queue(qs, q)[0])})
  {
    var list := Queue(qs, q);
    assert list == [list[0]] + list[1..];
    assert multiset(list) == multiset{list[0]} + multiset(list[1..]);
    var popped, out := Popped(qs, q), left + multiset{(q, list[0])};
    forall r, m ensures BalancedAt(popped, entered, out, r, m) {
      assert BalancedAt(qs, entered, left, r, m);
    }
  }

  lemma AddBalanced(qs: Queues, q: string, list: seq<Message>, m: Message, entered: multiset<Place>,
                    left: multiset<Place>)
    requires Balanced(qs, entered, left) && multiset(list) == multiset(Queue(qs, q)) + multiset{m}
    ensures Balanced(qs[q := list], entered + multiset{(q, m)}, left)
  {
    var grown, total := qs[q := list], entered + multiset{(q, m)};
    forall r, k ensures BalancedAt(grown, total, left, r, k) {
      assert BalancedAt(qs, entered, left, r, k);
    }
  }

  const ORIGINAL_KEY := "x-original-routing-key"

  function HeadersOf(h: map<Message, Table>, m: Message): Table {
    if m in h then h[m] else map[]
  }

  /** Dead-lettering records the message's own routing key in its headers. */
  function Stamp(h: Table, m: Message): Table {
    h[ORIGINAL_KEY := Text(m.routingKey)]
  }

  ghost predicate StampedOr(h: Table, r: Table, m: Message) {
    r == h || r == Stamp(h, m)
  }

  /** The oldest message of a full queue, and where dead-lettering sent it. */
  datatype Eviction = Eviction(queue: string, message: Message, visits: seq<Visit>)

  function DeadLetterKey(cfg: (string, string), m: Message): string {
    if cfg.1 == "" then m.routingKey else cfg.1
  }

  ghost predicate DeadLettered(t: Topology, args: Table, m: Message, visits: seq<Visit>) {
    match DeadLetterConfig(args)
    case None => visits == []
    case Some(cfg) => Explores(t, cfg.0, DeadLetterKey(cfg, m), visits)
  }

  /** Only queues with a length limit evict, and what they evict goes to their dead-letter exchange;
      `Fills` below tells when they do and what they evict. */
  ghost predicate EvictionOk(t: Topology, e: Eviction) {
    e.queue in t.queues && MaxLength(t.queues[e.queue]) > 0 && DeadLettered(t, t.queues[e.queue], e.message, e.visits)
  }

  /** Copies that entered and left queues so far, and the headers messages carry. */
  datatype Books = Books(entered: multiset<Place>, left: multiset<Place>, headers: map<Message, Table>)

  ghost function AfterDeadLetter(t: Topology, b: Books, args: Table, m: Message, visits: seq<Visit>): Books {
    if DeadLetterConfig(args).None? then b
    else Books(b.entered + Placed(t, visits, m), b.left, b.headers[m := Stamp(HeadersOf(b.headers, m), m)])
  }

  function ArgsOf(t: Topology, q: string): Table {
    if q in t.queues then t.queues[q] else map[]
  }

  ghost function AfterEviction(t: Topology, b: Books, e: Eviction): Books {
    AfterDeadLetter(t, b.(left := b.left + multiset{(e.queue, e.message)}), ArgsOf(t, e.queue), e.message, e.visits)
  }

  ghost predicate EvictionsOk(t: Topology, evs: seq<Eviction>) {
    forall e | e in evs :: EvictionOk(t, e)
  }

  /** The books after a run that added `placed` and evicted `evs`. */
  ghost function After(t: Topology, b: Books, placed: multiset<Place>, evs: seq<Eviction>): Books
    decreases |evs|
  {
    if evs == [] then b.(entered := b.entered + placed)
    else After(t, AfterEviction(t, b, evs[0]), placed, evs[1..])
  }

  lemma {:induction false} AfterPlaced(t: Topology, b: Books, p1: multiset<Place>, p2: multiset<Place>,
                                       evs: seq<Eviction>)
    ensures After(t, b.(entered := b.entered + p1), p2, evs) == After(t, b, p1 + p2, evs)
    decreases |evs|
  {
    if evs == [] {
      assert b.entered + p1 + p2 == b.entered + (p1 + p2);
    } else {
      var c := AfterEviction(t, b, evs[0]);
      var p := if DeadLetterConfig(ArgsOf(t, evs[0].queue)).None? then multiset{}
               else Placed(t, evs[0].visits, evs[0].message);
      assert c.entered == b.entered + p;
      assert b.entered + p1 + p == b.entered + p + p1;
      AfterPlaced(t, c, p1, p2, evs[1..]);
    }
  }

  lemma {:induction false} AfterJoin(t: Topology, b: Books, p1: multiset<Place>, e1: seq<Eviction>,
                                     p2: multiset<Place>, e2: seq<Eviction>)
    ensures After(t, After(t, b, p1, e1), p2, e2) == After(t, b, p1 + p2, e1 + e2)
    decreases |e1|
  {
    if e1 == [] {
      assert e1 + e2 == e2;
      AfterPlaced(t, b, p1, p2, e2);
    } else {
      assert (e1 + e2)[1..] == e1[1..] + e2;
      AfterJoin(t, AfterEviction(t, b, e1[0]), p1, e1[1..], p2, e2);
    }
  }

  /** Along a run a message's headers change at most by the dead-letter stamp. */
  lemma {:induction false} AfterStamps(t: Topology, b: Books, placed: multiset<Place>, evs: seq<Eviction>, m: Message)
    ensures StampedOr(HeadersOf(b.headers, m), HeadersOf(After(t, b, placed, evs).headers, m), m)
    decreases |evs|
  {
    if evs != [] {
      AfterStamps(t, AfterEviction(t, b, evs[0]), placed, evs[1..], m);
    }
  }

  ghost predicate HeadersOk(visits: seq<Visit>, h: Table, m: Message) {
    forall v | v in visits :: StampedOr(h, v.headers, m)
  }

  lemma HeadersJoin(a: seq<Visit>, b: seq<Visit>, h: Table, later: Table, m: Message)
    requires HeadersOk(a, h, m) && HeadersOk(b, later, m) && StampedOr(h, later, m)
    ensures HeadersOk(a + b, h, m)
  {
  }

  lemma AfterNothing(t: Topology, b: Books)
    ensures After(t, b, multiset{}, []) == b
  {
    assert b.entered + multiset{} == b.entered;
  }

  lemma EvictionsAppend(t: Topology, a: seq<Eviction>, b: seq<Eviction>)
    requires EvictionsOk(t, a) && EvictionsOk(t, b)
    ensures EvictionsOk(t, a + b)
  {
  }

  lemma TakeNext(s: seq<string>, i: nat)
    requires i < |s|
    ensures s[..i + 1] == s[..i] + [s[i]]
  {
  }

  lemma OfferStep(t: Topology, b: Books, done: seq<string>, q: string, m: Message, evs: seq<Eviction>,
                  more: seq<Eviction>)
    ensures After(t, After(t, b, Copies(t, done, m), evs), CopyAt(t, q, m), more) ==
            After(t, b, Copies(t, done + [q], m), evs + more)
  {
    CopiesAppend(t, done, q, m);
    AfterJoin(t, b, Copies(t, done, m), evs, CopyAt(t, q, m), more);
  }

  // ---------------------------------------------------------------- What happens to the queues

  /** The queues routed to, in the order they are offered the message. */
  ghost function Offers(visits: seq<Visit>): seq<string> {
    if visits == [] then [] else visits[0].queues + Offers(visits[1..])
  }

  lemma {:induction false} OffersAppend(a: seq<Visit>, b: seq<Visit>)
    ensures Offers(a + b) == Offers(a) + Offers(b)
  {
    if a == [] {
      assert a + b == b;
    } else {
      assert (a + b)[1..] == a[1..] + b;
      OffersAppend(a[1..], b);
      Regroup(a[0].queues, Offers(a[1..]), Offers(b));
    }
  }

  lemma Regroup<T>(a: seq<T>, b: seq<T>, c: seq<T>)
    ensures a + b + c == a + (b + c)
  {
  }

  function WithMessage(t: Topology, qs: Queues, q: string, m: Message): Queues {
    if MaxPriority(ArgsOf(t, q)) > 0 then Inserted(qs, q, m) else Appended(qs, q, m)
  }

  predicate Full(t: Topology, qs: Queues, q: string) {
    MaxLength(ArgsOf(t, q)) > 0 && |Queue(qs, q)| >= MaxLength(ArgsOf(t, q))
  }

  /** The message enters every declared queue of the list, whether full or not. */
  function Filled(t: Topology, qs: Queues, list: seq<string>, m: Message): Queues
    decreases |list|
  {
    if list == [] then qs
    else Filled(t, if list[0] in t.queues then WithMessage(t, qs, list[0], m) else qs, list[1..], m)
  }

  /** The queue after its first message left and was dead-lettered. */
  ghost function Relieved(t: Topology, qs: Queues, e: Eviction): Queues {
    Filled(t, Popped(qs, e.queue), Offers(e.visits), e.message)
  }

  /** Offering the message to the list of queues leads from `qs` to `after`: each declared queue that
      is full at its turn, and no other, first loses its first message to dead-lettering, as the next
      eviction tells; without the check none does. */
  ghost predicate Fills(t: Topology, checked: bool, qs: Queues, list: seq<string>, m: Message, evs: seq<Eviction>,
                        after: Queues)
    decreases |list|
  {
    if list == [] then evs == [] && after == qs
    else if list[0] !in t.queues then Fills(t, checked, qs, list[1..], m, evs, after)
    else if checked && Full(t, qs, list[0]) then
      && evs != [] && evs[0].queue == list[0] && evs[0].message == Queue(qs, list[0])[0]
      && Fills(t, checked, WithMessage(t, Relieved(t, qs, evs[0]), list[0], m), list[1..], m, evs[1..], after)
    else Fills(t, checked, WithMessage(t, qs, list[0], m), list[1..], m, evs, after)
  }

  lemma {:induction false} FillsJoin(t: Topology, checked: bool, qs: Queues, a: seq<string>, m: Message,
                                     e1: seq<Eviction>, mid: Queues, b: seq<string>, e2: seq<Eviction>, after: Queues)
    requires Fills(t, checked, qs, a, m, e1, mid) && Fills(t, checked, mid, b, m, e2, after)
    ensures Fills(t, checked, qs, a + b, m, e1 + e2, after)
    decreases |a|
  {
    if a == [] {
      assert a + b == b && e1 + e2 == e2;
    } else {
      assert (a + b)[1..] == a[1..] + b;
      if a[0] !in t.queues {
        FillsJoin(t, checked, qs, a[1..], m, e1, mid, b, e2, after);
      } else if checked && Full(t, qs, a[0]) {
        assert (e1 + e2)[1..] == e1[1..] + e2;
        FillsJoin(t, checked, WithMessage(t, Relieved(t, qs, e1[0]), a[0], m), a[1..], m, e1[1..], mid, b, e2, after);
      } else {
        FillsJoin(t, checked, WithMessage(t, qs, a[0], m), a[1..], m, e1, mid, b, e2, after);
      }
    }
  }

  /** Without the check, offering is filling. */
  lemma {:induction false} FillsUnchecked(t: Topology, qs: Queues, list: seq<string>, m: Message, evs: seq<Eviction>,
                                          after: Queues)
    requires Fills(t, false, qs, list, m, evs, after)
    ensures evs == [] && after == Filled(t, qs, list, m)
    decreases |list|
  {
    if list != [] {
      FillsUnchecked(t, if list[0] in t.queues then WithMessage(t, qs, list[0], m) else qs, list[1..], m, evs, after);
    }
  }

  lemma FillsOne(t: Topology, checked: bool, qs: Queues, q: string, m: Message, evs: seq<Eviction>, after: Queues)
    requires q in t.queues
    requires if checked && Full(t, qs, q)
             then && |evs| == 1 && evs[0].queue == q && evs[0].message == Queue(qs, q)[0]
                  && after == WithMessage(t, Relieved(t, qs, evs[0]), q, m)
             else evs == [] && after == WithMessage(t, qs, q, m)
    ensures Fills(t, checked, qs, [q], m, evs, after)
  {
    assert [q][1..] == [];
  }

  lemma FillsNone(t: Topology, checked: bool, qs: Queues, q: string, m: Message)
    requires q !in t.queues
    ensures Fills(t, checked, qs, [q], m, [], qs)
  {
    assert [q][1..] == [];
  }

  /** Offering the message to a list of queues, in the books and in the queues. */
  ghost predicate Offered(t: Topology, checked: bool, books: Books, qs: Queues, list: seq<string>, m: Message,
                          evs: seq<Eviction>, now: Books, after: Queues) {
    && EvictionsOk(t, evs) && now == After(t, books, Copies(t, list, m), evs)
    && Fills(t, checked, qs, list, m, evs, after)
  }

  lemma OfferedNext(t: Topology, checked: bool, books: Books, qs: Queues, done: seq<string>, m: Message,
                    evs: seq<Eviction>, mid: Books, was: Queues, q: string, more: seq<Eviction>, now: Books,
                    after: Queues)
    requires Offered(t, checked, books, qs, done, m, evs, mid, was)
    requires Offered(t, checked, mid, was, [q], m, more, now, after)
    ensures Offered(t, checked, books, qs, done + [q], m, evs + more, now, after)
  {
    OneCopy(t, q, m);
    EvictionsAppend(t, evs, more);
    OfferStep(t, books, done, q, m, evs, more);
    FillsJoin(t, checked, qs, done, m, evs, was, [q], more, after);
  }

  lemma OneCopy(t: Topology, q: string, m: Message)
    ensures Copies(t, [q], m) == CopyAt(t, q, m)
  {
    assert [q][1..] == [];
    assert CopyAt(t, q, m) + multiset{} == CopyAt(t, q, m);
  }

  lemma OfferedNothing(t: Topology, checked: bool, books: Books, qs: Queues, m: Message)
    ensures Offered(t, checked, books, qs, [], m, [], books, qs)
  {
    AfterNothing(t, books);
  }

  lemma OfferedNowhere(t: Topology, checked: bool, books: Books, qs: Queues, q: string, m: Message)
    requires q !in t.queues
    ensures Offered(t, checked, books, qs, [q], m, [], books, qs)
  {
    OneCopy(t, q, m);
    AfterNothing(t, books);
    FillsNone(t, checked, qs, q, m);
  }

  /** Room first, if it has to be made, then the message. */
  lemma OfferedOne(t: Topology, checked: bool, books: Books, qs: Queues, q: string, m: Message, evs: seq<Eviction>,
                   mid: Books, now: Books, after: Queues)
    requires q in t.queues && EvictionsOk(t, evs) && mid == After(t, books, multiset{}, evs)
    requires now == mid.(entered := mid.entered + multiset{(q, m)})
    requires if checked && Full(t, qs, q)
             then && |evs| == 1 && evs[0].queue == q && evs[0].message == Queue(qs, q)[0]
                  && after == WithMessage(t, Relieved(t, qs, evs[0]), q, m)
             else evs == [] && after == WithMessage(t, qs, q, m)
    ensures Offered(t, checked, books, qs, [q], m, evs, now, after)
  {
    OneCopy(t, q, m);
    AfterJoin(t, books, multiset{}, evs, multiset{(q, m)}, []);
    assert evs + [] == evs && multiset{} + multiset{(q, m)} == multiset{(q, m)};
    FillsOne(t, checked, qs, q, m, evs, after);
  }

  /** What one activation of the recursive publish has done when it returns. */
  ghost predicate Outcome(t: Topology, exchange: string, key: string, msg: Message, before: set<string>, books: Books,
                          after: set<string>, now: Books, visits: seq<Visit>, evs: seq<Eviction>) {
    && Searched(t, exchange, key, before, after, visits)
    && HeadersOk(visits, HeadersOf(books.headers, msg), msg)
    && EvictionsOk(t, evs) && now == After(t, books, Placed(t, visits, msg), evs)
  }

  /** The same while its first `i` bindings have been followed. */
  ghost predicate Progress(t: Topology, exchange: string, key: string, msg: Message, before: set<string>, books: Books,
                           marks: set<string>, now: Books, visits: seq<Visit>, evs: seq<Eviction>, i: nat) {
    && Searching(t, exchange, key, before, marks, visits, i)
    && HeadersOk(visits, HeadersOf(books.headers, msg), msg)
    && EvictionsOk(t, evs) && now == After(t, books, Placed(t, visits, msg), evs)
  }

  lemma ProgressStarts(t: Topology, v: Visit, msg: Message, before: set<string>, books: Books, now: Books,
                       evs: seq<Eviction>)
    requires v.exchange in t.exchanges && v.exchange !in before && RouteOk(t, v)
    requires v.headers == HeadersOf(books.headers, msg)
    requires EvictionsOk(t, evs) && now == After(t, books, Copies(t, v.queues, msg), evs)
    ensures Progress(t, v.exchange, v.key, msg, before, books, before + {v.exchange}, now, [v], evs, 0)
    ensures Offers([v]) == v.queues && Total([v]) == |v.queues|
  {
    SearchStarts(t, v.exchange, v.key, before, v);
    assert Placed(t, [v], msg) == Copies(t, v.queues, msg);
  }

  lemma ProgressStep(t: Topology, exchange: string, key: string, msg: Message, before: set<string>, books: Books,
                     marks: set<string>, mid: Books, visits: seq<Visit>, evs: seq<Eviction>, i: nat,
                     after: set<string>, now: Books, sub: seq<Visit>, more: seq<Eviction>)
    requires Progress(t, exchange, key, msg, before, books, marks, mid, visits, evs, i) && i < |G.List(t.e2e, exchange)|
    requires var b := G.List(t.e2e, exchange)[i];
             Outcome(t, b.destination, b.routingKey, msg, marks, mid, after, now, sub, more)
    ensures Progress(t, exchange, key, msg, before, books, after, now, visits + sub, evs + more, i + 1)
    ensures Total(visits + sub) == Total(visits) + Total(sub)
  {
    SearchExtends(t, exchange, key, before, marks, visits, i, after, sub);
    AfterStamps(t, books, Placed(t, visits, msg), evs, msg);
    HeadersJoin(visits, sub, HeadersOf(books.headers, msg), HeadersOf(mid.headers, msg), msg);
    AfterJoin(t, books, Placed(t, visits, msg), evs, Placed(t, sub, msg), more);
    EvictionsAppend(t, evs, more);
    PlacedAppend(t, visits, sub, msg);
    TotalAppend(visits, sub);
  }

  lemma ProgressEnds(t: Topology, exchange: string, key: string, msg: Message, before: set<string>, books: Books,
                     marks: set<string>, now: Books, visits: seq<Visit>, evs: seq<Eviction>)
    requires Progress(t, exchange, key, msg, before, books, marks, now, visits, evs, |G.List(t.e2e, exchange)|)
    ensures Outcome(t, exchange, key, msg, before, books, marks, now, visits, evs)
  {
    SearchEnds(t, exchange, key, before, marks, visits);
  }

  lemma NoOutcome(t: Topology, exchange: string, key: string, msg: Message, before: set<string>, books: Books)
    requires exchange in before || exchange !in t.exchanges
    ensures Outcome(t, exchange, key, msg, before, books, before + {exchange}, books, [], [])
  {
    ReachSelf(Forwards(t), exchange);
    assert books.entered + multiset{} == books.entered;
  }

  lemma OneEviction(t: Topology, b: Books, e: Eviction, now: Books)
    requires EvictionOk(t, e) && now == AfterEviction(t, b, e)
    ensures EvictionsOk(t, [e]) && now == After(t, b, multiset{}, [e])
  {
    assert now.entered + multiset{} == now.entered;
    assert [e][1..] == [];
  }

  // ---------------------------------------------------------------- The publisher

  /** One more message in at the exchange and `routed` more out; the rest as before. */
  function Counted(stats: map<string, (nat, nat)>, exchange: string, routed: nat): map<string, (nat, nat)> {
    stats[exchange := if exchange in stats then (stats[exchange].0 + 1, stats[exchange].1 + routed) else (1, routed)]
  }

  class Publisher {
    const topo: Topology
    const store: Store
    var headers: map<Message, Table>
    var stats: map<string, (nat, nat)>
    ghost var entered: multiset<Place>
    ghost var left: multiset<Place>

    ghost predicate Valid()
      reads this, store
    {
      Balanced(store.queues, entered, left)
    }

    ghost function Now(): Books
      reads this
    {
      Books(entered, left, headers)
    }

    constructor (topo: Topology, store: Store)
      requires store.queues == map[]
      ensures Valid() && this.topo == topo && this.store == store
      ensures entered == multiset{} && left == multiset{} && headers == map[] && stats == map[]
    {
      this.topo, this.store := topo, store;
      headers, stats, entered, left := map[], map[], multiset{}, multiset{};
    }

    /** Visits exactly the reachable declared exchanges, each once; the result is the sum of the
        route sizes; each declared queue of each route received one copy. */
    method Publish(exchange: string, key: string, msg: Message)
      returns (n: nat, ok: bool, ghost visits: seq<Visit>, ghost evs: seq<Eviction>)
      requires Valid()
      modifies this, store
      ensures Valid()
      ensures ok <==> exchange in topo.exchanges
      ensures Explores(topo, exchange, key, visits) && n == Total(visits)
      ensures HeadersOk(visits, HeadersOf(old(headers), msg), msg)
      ensures EvictionsOk(topo, evs) && Now() == After(topo, old(Now()), Placed(topo, visits, msg), evs)
      ensures Fills(topo, true, old(store.queues), Offers(visits), msg, evs, store.queues)
      ensures stats == if ok then Counted(old(stats), exchange, n) else old(stats)
    {
      var visited := new G.Marks();
      n, ok, visits, evs := PublishInternal(exchange, key, msg, true, visited);
      SearchIsExact(topo, exchange, key, visited.seen, visits);
      if ok {
        RecordStats(exchange, n);
      }
    }

    method RecordStats(exchange: string, routed: nat)
      modifies this`stats
      ensures stats == Counted(old(stats), exchange, routed)
    {
      var s := if exchange in stats then stats[exchange] else (0, 0);
      stats := stats[exchange := (s.0 + 1, s.1 + routed)];
    }

    method PublishInternal(exchange: string, key: string, msg: Message, checkDLX: bool, visited: G.Marks)
      returns (n: nat, ok: bool, ghost visits: seq<Visit>, ghost evs: seq<Eviction>)
      requires Valid()
      modifies this`headers, this`entered, this`left, store, visited
      ensures Valid()
      ensures ok <==> exchange !in old(visited.seen) && exchange in topo.exchanges
      ensures Outcome(topo, exchange, key, msg, old(visited.seen), old(Now()), visited.seen, Now(), visits, evs)
      ensures n == Total(visits) && (!ok ==> n == 0)
      ensures Fills(topo, checkDLX, old(store.queues), Offers(visits), msg, evs, store.queues)
      decreases if checkDLX then 2 else 0, G.Names(topo.e2e) + {exchange} - visited.seen, 0
    {
      n, ok, visits, evs := 0, false, [], [];
      ghost var before, books := visited.seen, Now();
      if exchange in visited.seen {
        NoOutcome(topo, exchange, key, msg, before, books);
        assert before + {exchange} == before;
        return;
      }
      assert exchange in G.Names(topo.e2e) + {exchange} - visited.seen;
      visited.seen := visited.seen + {exchange};
      if exchange !in topo.exchanges {
        NoOutcome(topo, exchange, key, msg, before, books);
        return;
      }
      n, visits, evs := RouteHere(exchange, key, msg, checkDLX, before);
      n, visits, evs := Forward(exchange, key, msg, checkDLX, visited, n, before, books, old(store.queues),
                                visits, evs);
      ProgressEnds(topo, exchange, key, msg, before, books, visited.seen, Now(), visits, evs);
      ok := true;
    }

    /** At a declared exchange just marked: route, then offer to the queues of the route. */
    method RouteHere(exchange: string, key: string, msg: Message, checkDLX: bool, ghost before: set<string>)
      returns (n: nat, ghost visits: seq<Visit>, ghost evs: seq<Eviction>)
      requires Valid() && exchange in topo.exchanges && exchange !in before
      modifies this`headers, this`entered, this`left, store
      ensures Valid()
      ensures Progress(topo, exchange, key, msg, before, old(Now()), before + {exchange}, Now(), visits, evs, 0)
      ensures n == Total(visits)
      ensures Fills(topo, checkDLX, old(store.queues), Offers(visits), msg, evs, store.queues)
      decreases if checkDLX then 2 else 0, NO_NAMES, 2
    {
      var h := if msg in headers then headers[msg] else map[];
      var queues := RouteQueues(topo.exchanges[exchange], key, h, topo.hm,
                                if exchange in topo.bindings then topo.bindings[exchange] else []);
      evs := OfferAll(queues, msg, checkDLX);
      n := |queues|;
      visits := [Visit(exchange, key, h, queues)];
      ProgressStarts(topo, visits[0], msg, before, old(Now()), Now(), evs);
    }

    /** The loop over the bindings to other exchanges; `count` queues were routed to before it. */
    method Forward(exchange: string, key: string, msg: Message, checkDLX: bool, visited: G.Marks, count: nat,
                   ghost before: set<string>, ghost books: Books, ghost queues: Queues,
                   ghost visits0: seq<Visit>, ghost evs0: seq<Eviction>)
      returns (n: nat, ghost visits: seq<Visit>, ghost evs: seq<Eviction>)
      requires Valid() && Progress(topo, exchange, key, msg, before, books, visited.seen, Now(), visits0, evs0, 0)
      requires count == Total(visits0)
      requires Fills(topo, checkDLX, queues, Offers(visits0), msg, evs0, store.queues)
      modifies this`headers, this`entered, this`left, store, visited
      ensures Valid()
      ensures Progress(topo, exchange, key, msg, before, books, visited.seen, Now(), visits, evs,
                       |G.List(topo.e2e, exchange)|)
      ensures n == Total(visits)
      ensures Fills(topo, checkDLX, queues, Offers(visits), msg, evs, store.queues)
      decreases if checkDLX then 2 else 0, G.Names(topo.e2e) - visited.seen, 1
    {
      n, visits, evs := count, visits0, evs0;
      var list := if exchange in topo.e2e then topo.e2e[exchange] else [];
      var i := 0;
      while i < |list|
        invariant 0 <= i <= |list| && Valid()
        invariant old(visited.seen) <= visited.seen
        invariant Progress(topo, exchange, key, msg, before, books, visited.seen, Now(), visits, evs, i)
        invariant n == Total(visits)
        invariant Fills(topo, checkDLX, queues, Offers(visits), msg, evs, store.queues)
      {
        assert list[i].destination in G.Names(topo.e2e);
        assert G.Names(topo.e2e) + {list[i].destination} == G.Names(topo.e2e);
        ghost var marks, mid, was := visited.seen, Now(), store.queues;
        ghost var sub, more;
        var n2, ok2;
        n2, ok2, sub, more := PublishInternal(list[i].destination, list[i].routingKey, msg, checkDLX, visited);
        ProgressStep(topo, exchange, key, msg, before, books, marks, mid, visits, evs, i, visited.seen, Now(),
                     sub, more);
        OffersAppend(visits, sub);
        FillsJoin(topo, checkDLX, queues, Offers(visits), msg, evs, was, Offers(sub), more, store.queues);
        if ok2 { n := n + n2; }
        visits, evs := visits + sub, evs + more;
        i := i + 1;
      }
    }

    /** Offer the message to each declared queue of the route. */
    method OfferAll(queues: seq<string>, msg: Message, checkDLX: bool) returns (ghost evs: seq<Eviction>)
      requires Valid()
      modifies this`headers, this`entered, this`left, store
      ensures Valid()
      ensures Offered(topo, checkDLX, old(Now()), old(store.queues), queues, msg, evs, Now(), store.queues)
      decreases if checkDLX then 2 else 0, NO_NAMES, 1
    {
      evs := [];
      OfferedNothing(topo, checkDLX, Now(), store.queues, msg);
      var i := 0;
      while i < |queues|
        invariant 0 <= i <= |queues| && Valid()
        invariant Offered(topo, checkDLX, old(Now()), old(store.queues), queues[..i], msg, evs, Now(), store.queues)
      {
        ghost var mid, was := Now(), store.queues;
        ghost var more: seq<Eviction> := [];
        if queues[i] in topo.queues {
          more := Offer(queues[i], msg, checkDLX);
        } else {
          OfferedNowhere(topo, checkDLX, mid, was, queues[i], msg);
        }
        OfferedNext(topo, checkDLX, old(Now()), old(store.queues), queues[..i], msg, evs, mid, was, queues[i], more,
                    Now(), store.queues);
        TakeNext(queues, i);
        evs := evs + more;
        i := i + 1;
      }
      assert queues[..i] == queues;
    }

    /** Make room if the queue is full, then enqueue. */
    method Offer(q: string, msg: Message, checkDLX: bool) returns (ghost evs: seq<Eviction>)
      requires Valid() && q in topo.queues
      modifies this`headers, this`entered, this`left, store
      ensures Valid()
      ensures Offered(topo, checkDLX, old(Now()), old(store.queues), [q], msg, evs, Now(), store.queues)
      decreases if checkDLX then 2 else 0, NO_NAMES, 0
    {
      evs := [];
      AfterNothing(topo, Now());
      if checkDLX { evs := MakeRoom(q); }
      ghost var mid := Now();
      Put(q, msg);
      OfferedOne(topo, checkDLX, old(Now()), old(store.queues), q, msg, evs, mid, Now(), store.queues);
    }

    method Put(q: string, msg: Message)
      requires Valid() && q in topo.queues
      modifies this`entered, store
      ensures Valid() && entered == old(entered) + multiset{(q, msg)}
      ensures store.queues == WithMessage(topo, old(store.queues), q, msg)
    {
      ghost var list := Queue(store.queues, q);
      if MaxPriority(topo.queues[q]) > 0 {
        InsertContents(list, msg);
        AddBalanced(store.queues, q, Insert(list, msg), msg, entered, left);
        store.EnqueuePriority(q, msg);
      } else {
        AddBalanced(store.queues, q, list + [msg], msg, entered, left);
        store.Enqueue(q, msg);
      }
      entered := entered + multiset{(q, msg)};
    }

    /** Evict and dead-letter the oldest message of a full queue. */
    method MakeRoom(q: string) returns (ghost evs: seq<Eviction>)
      requires Valid() && q in topo.queues
      modifies this`headers, this`entered, this`left, store
      ensures Valid()
      ensures EvictionsOk(topo, evs) && Now() == After(topo, old(Now()), multiset{}, evs)
      ensures var was := old(store.queues);
              if Full(topo, was, q)
              then && |evs| == 1 && evs[0].queue == q && evs[0].message == Queue(was, q)[0]
                   && store.queues == Relieved(topo, was, evs[0])
              else evs == [] && store.queues == was
      decreases 1, NO_NAMES, 1
    {
      evs := [];
      var args := topo.queues[q];
      var maxLen := MaxLength(args);
      var len := store.Len(q);
      ghost var books := Now();
      if maxLen > 0 && len >= maxLen {
        PopBalanced(store.queues, q, entered, left);
        var found, oldest := store.Dequeue(q);
        left := left + multiset{(q, oldest)};
        ghost var visits := DeadLetter(oldest, args);
        ghost var e := Eviction(q, oldest, visits);
        evs := [e];
        OneEviction(topo, books, e, Now());
      } else {
        assert books.entered + multiset{} == books.entered;
      }
    }

    /** Publish to the configured dead-letter exchange, without the overflow check. */
    method DeadLetter(msg: Message, args: Table) returns (ghost visits: seq<Visit>)
      requires Valid()
      modifies this`headers, this`entered, this`left, store
      ensures Valid()
      ensures DeadLettered(topo, args, msg, visits)
      ensures Now() == AfterDeadLetter(topo, old(Now()), args, msg, visits)
      ensures store.queues == Filled(topo, old(store.queues), Offers(visits), msg)
      decreases 1, NO_NAMES, 0
    {
      visits := [];
      match DeadLetterConfig(args)
      case None =>
      case Some(cfg) =>
        var h := if msg in headers then headers[msg] else map[];
        headers := headers[msg := h[ORIGINAL_KEY := Text(msg.routingKey)]];
        var rk := if cfg.1 == "" then msg.routingKey else cfg.1;
        var visited := new G.Marks();
        var n, ok;
        ghost var evs;
        n, ok, visits, evs := PublishInternal(cfg.0, rk, msg, false, visited);
        SearchIsExact(topo, cfg.0, rk, visited.seen, visits);
        FillsUnchecked(topo, old(store.queues), Offers(visits), msg, evs, store.queues);
    }
  }
}
