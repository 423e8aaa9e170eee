/** The consumer indexes: by tag, by queue and by group, each a view of one list of consumers. */
module Consumers {
  import opened Routing

  /** Channels are told apart by identity, here a number. */
  datatype Consumer = Consumer(tag: string, queue: string, channel: nat, autoAck: bool, exclusive: bool, args: Table)

  /** The text of an argument that is present, a string and not empty. */
  function TextArg(args: Table, key: string, otherwise: string): string {
    if key in args && args[key].Text? && args[key].s != "" then args[key].s else otherwise
  }

  /** The group a consumer asks to join, empty for none. */
  function GroupOf(c: Consumer): string {
    TextArg(c.args, "x-group-id", "")
  }

  function StrategyOf(c: Consumer): string {
    TextArg(c.args, "x-group-strategy", "round-robin")
  }

  /** A consumer outlives its channel only if the flag is given and false. */
  predicate Cancels(c: Consumer, ch: nat) {
    c.channel == ch && !("x-cancel-on-ha-failover" in c.args && c.args["x-cancel-on-ha-failover"] == Flag(false))
  }

  // ---------------------------------------------------------------- Lists of consumers

  function Select(l: seq<Consumer>, f: Consumer -> bool): seq<Consumer> {
    if l == [] then [] else (if f(l[0]) then [l[0]] else []) + Select(l[1..], f)
  }

  predicate HasTag(l: seq<Consumer>, t: string) {
    l != [] && (l[0].tag == t || HasTag(l[1..], t))
  }

  predicate Distinct(l: seq<Consumer>) {
    l == [] || (!HasTag(l[1..], l[0].tag) && Distinct(l[1..]))
  }

  /** The list without its first consumer of that tag. */
  function Without(l: seq<Consumer>, t: string): seq<Consumer> {
    if l == [] then [] else if l[0].tag == t then l[1..] else [l[0]] + Without(l[1..], t)
  }

  function InQueue(q: string): Consumer -> bool {
    (c: Consumer) => c.queue == q
  }

  function InGroup(id: string): Consumer -> bool {
    (c: Consumer) => id != "" && GroupOf(c) == id
  }

  function NotTagged(t: string): Consumer -> bool {
    (c: Consumer) => c.tag != t
  }

  function Survives(ch: nat): Consumer -> bool {
    (c: Consumer) => !Cancels(c, ch)
  }

  lemma Regroup(a: seq<Consumer>, b: seq<Consumer>, c: seq<Consumer>)
    ensures a + b + c == a + (b + c)
  {
  }

  lemma {:induction false} SelectAdded(l: seq<Consumer>, c: Consumer, f: Consumer -> bool)
    ensures Select(l + [c], f) == Select(l, f) + if f(c) then [c] else []
  {
    if l == [] {
      assert l + [c] == [c];
    } else {
      assert (l + [c])[1..] == l[1..] + [c];
      SelectAdded(l[1..], c, f);
      Regroup(if f(l[0]) then [l[0]] else [], Select(l[1..], f), if f(c) then [c] else []);
    }
  }

  lemma {:induction false} SelectCommutes(l: seq<Consumer>, f: Consumer -> bool, g: Consumer -> bool)
    ensures Select(Select(l, f), g) == Select(Select(l, g), f)
  {
    if l != [] {
      SelectCommutes(l[1..], f, g);
      SelectHead(l, f, g);
      SelectHead(l, g, f);
    }
  }

  lemma SelectHead(l: seq<Consumer>, f: Consumer -> bool, g: Consumer -> bool)
    requires l != []
    ensures Select(Select(l, f), g) == (if f(l[0]) && g(l[0]) then [l[0]] else []) + Select(Select(l[1..], f), g)
  {
    var rest := Select(l[1..], f);
    if f(l[0]) {
      assert ([l[0]] + rest)[1..] == rest;
    } else {
      assert [] + rest == rest;
    }
  }

  lemma {:induction false} SelectIn(l: seq<Consumer>, f: Consumer -> bool, c: Consumer)
    ensures c in Select(l, f) <==> c in l && f(c)
  {
    if l != [] { SelectIn(l[1..], f, c); }
  }

  lemma {:induction false} SelectAll(l: seq<Consumer>, f: Consumer -> bool)
    requires forall c | c in l :: f(c)
    ensures Select(l, f) == l
  {
    if l != [] { SelectAll(l[1..], f); }
  }

  lemma {:induction false} SelectAlike(l: seq<Consumer>, f: Consumer -> bool, g: Consumer -> bool)
    requires forall c | c in l :: f(c) == g(c)
    ensures Select(l, f) == Select(l, g)
  {
    if l != [] {
      assert l[0] in l;
      SelectAlike(l[1..], f, g);
    }
  }

  lemma {:induction false} TagIn(l: seq<Consumer>, c: Consumer)
    requires c in l
    ensures HasTag(l, c.tag)
  {
    if l[0] != c { TagIn(l[1..], c); }
  }

  lemma {:induction false} TagOf(l: seq<Consumer>, t: string) returns (c: Consumer)
    requires HasTag(l, t)
    ensures c in l && c.tag == t
  {
    if l[0].tag == t { c := l[0]; } else { c := TagOf(l[1..], t); }
  }

  lemma {:induction false} TagAdded(l: seq<Consumer>, c: Consumer, t: string)
    ensures HasTag(l + [c], t) <==> HasTag(l, t) || c.tag == t
  {
    if l == [] {
      assert l + [c] == [c];
    } else {
      assert (l + [c])[1..] == l[1..] + [c];
      TagAdded(l[1..], c, t);
    }
  }

  lemma {:induction false} DistinctAdded(l: seq<Consumer>, c: Consumer)
    requires Distinct(l) && !HasTag(l, c.tag)
    ensures Distinct(l + [c])
  {
    if l == [] {
      assert l + [c] == [c];
    } else {
      assert (l + [c])[1..] == l[1..] + [c];
      TagAdded(l[1..], c, l[0].tag);
      DistinctAdded(l[1..], c);
    }
  }

  lemma {:induction false} TagSelected(l: seq<Consumer>, f: Consumer -> bool, t: string)
    requires HasTag(Select(l, f), t)
    ensures HasTag(l, t)
  {
    var c := TagOf(Select(l, f), t);
    SelectIn(l, f, c);
    TagIn(l, c);
  }

  lemma {:induction false} DistinctSelected(l: seq<Consumer>, f: Consumer -> bool)
    requires Distinct(l)
    ensures Distinct(Select(l, f))
  {
    if l != [] {
      DistinctSelected(l[1..], f);
      if f(l[0]) {
        assert ([l[0]] + Select(l[1..], f))[1..] == Select(l[1..], f);
        if HasTag(Select(l[1..], f), l[0].tag) { TagSelected(l[1..], f, l[0].tag); }
      } else {
        assert Select(l, f) == Select(l[1..], f);
      }
    }
  }

  lemma {:induction false} TagUnique(l: seq<Consumer>, c: Consumer, d: Consumer)
    requires Distinct(l) && c in l && d in l && c.tag == d.tag
    ensures c == d
  {
    if c == l[0] || d == l[0] {
      if c in l[1..] { TagIn(l[1..], c); }
      if d in l[1..] { TagIn(l[1..], d); }
    } else {
      TagUnique(l[1..], c, d);
    }
  }

  lemma Untagged(l: seq<Consumer>, t: string)
    requires !HasTag(l, t)
    ensures Select(l, NotTagged(t)) == l
  {
    forall c | c in l ensures NotTagged(t)(c) { TagIn(l, c); }
    SelectAll(l, NotTagged(t));
  }

  /** Removing the first consumer of a tag removes every one, tags being distinct. */
  lemma {:induction false} WithoutIsSelect(l: seq<Consumer>, t: string)
    requires Distinct(l)
    ensures Without(l, t) == Select(l, NotTagged(t))
  {
    if l != [] {
      if l[0].tag == t { Untagged(l[1..], t); } else { WithoutIsSelect(l[1..], t); }
    }
  }

  /** A view of the list loses a consumer when the list does. */
  lemma ViewLoses(l: seq<Consumer>, f: Consumer -> bool, t: string)
    requires Distinct(l)
    ensures Select(Select(l, NotTagged(t)), f) == Without(Select(l, f), t)
  {
    SelectCommutes(l, NotTagged(t), f);
    DistinctSelected(l, f);
    WithoutIsSelect(Select(l, f), t);
  }

  lemma {:induction false} WithoutAbsent(l: seq<Consumer>, t: string)
    requires !HasTag(l, t)
    ensures Without(l, t) == l
  {
    if l != [] { WithoutAbsent(l[1..], t); }
  }

  // ---------------------------------------------------------------- The indexes

  /** A group remembers the queue it was created for; its members may consume from others. */
  datatype Group = Group(queue: string, strategy: string, members: seq<Consumer>)

  /** Consumers by tag and by queue; groups by identifier, and their identifiers by queue. */
  datatype Index = Index(
    byTag: map<string, Consumer>,
    byQueue: map<string, seq<Consumer>>,
    byID: map<string, Group>,
    homes: map<string, seq<string>>)

  function At<T>(m: map<string, seq<T>>, q: string): seq<T> {
    if q in m then m[q] else []
  }

  function WithoutId(ids: seq<string>, id: string): seq<string> {
    if ids == [] then [] else if ids[0] == id then ids[1..] else [ids[0]] + WithoutId(ids[1..], id)
  }

  function GroupFor(ix: Index, c: Consumer): Group {
    if GroupOf(c) in ix.byID then ix.byID[GroupOf(c)] else Group(c.queue, StrategyOf(c), [])
  }

  /** Join: the group is created if it is not there. */
  function Joined(ix: Index, c: Consumer): Index {
    var g := GroupFor(ix, c);
    ix.(byID := ix.byID[GroupOf(c) := g.(members := g.members + [c])],
        homes := if GroupOf(c) in ix.byID then ix.homes else ix.homes[c.queue := At(ix.homes, c.queue) + [GroupOf(c)]])
  }

  /** Leave: the group goes with its last member. */
  function LeftIDs(byID: map<string, Group>, id: string, t: string): map<string, Group>
    requires id in byID
  {
    var members := Without(byID[id].members, t);
    if members == [] then byID - {id} else byID[id := byID[id].(members := members)]
  }

  function LeftHomes(byID: map<string, Group>, homes: map<string, seq<string>>, id: string, t: string)
    : map<string, seq<string>>
    requires id in byID
  {
    var q := byID[id].queue;
    if Without(byID[id].members, t) == [] then homes[q := WithoutId(At(homes, q), id)] else homes
  }

  function Left(ix: Index, id: string, t: string): Index
    requires id in ix.byID
  {
    ix.(byID := LeftIDs(ix.byID, id, t), homes := LeftHomes(ix.byID, ix.homes, id, t))
  }

  function Listed(ix: Index, c: Consumer): Index {
    ix.(byTag := ix.byTag[c.tag := c], byQueue := ix.byQueue[c.queue := At(ix.byQueue, c.queue) + [c]])
  }

  function Added(ix: Index, c: Consumer): Index {
    if GroupOf(c) == "" then Listed(ix, c) else Joined(Listed(ix, c), c)
  }

  function Unlisted(ix: Index, c: Consumer): Index {
    ix.(byTag := ix.byTag - {c.tag}, byQueue := ix.byQueue[c.queue := Without(At(ix.byQueue, c.queue), c.tag)])
  }

  function Removed(ix: Index, c: Consumer): Index {
    if GroupOf(c) !in ix.byID then Unlisted(ix, c) else Left(Unlisted(ix, c), GroupOf(c), c.tag)
  }

  // ---------------------------------------------------------------- Views

  ghost predicate TagView(ix: Index, live: seq<Consumer>, t: string) {
    (t in ix.byTag <==> HasTag(live, t)) && (t in ix.byTag ==> ix.byTag[t] in live && ix.byTag[t].tag == t)
  }

  ghost predicate QueueView(ix: Index, live: seq<Consumer>, q: string) {
    At(ix.byQueue, q) == Select(live, InQueue(q))
  }

  ghost predicate GroupView(ix: Index, live: seq<Consumer>, id: string) {
    var members := Select(live, InGroup(id));
    (id in ix.byID <==> members != []) && (id in ix.byID ==> ix.byID[id].members == members)
  }

  predicate Once(ids: seq<string>) {
    ids == [] || (ids[0] !in ids[1..] && Once(ids[1..]))
  }

  ghost predicate HomeView(ix: Index, q: string, id: string) {
    id in At(ix.homes, q) <==> id in ix.byID && ix.byID[id].queue == q
  }

  /** The four indexes show the same consumers, each in the order they subscribed. */
  ghost predicate Views(ix: Index, live: seq<Consumer>) {
    && (forall t :: TagView(ix, live, t))
    && (forall q :: QueueView(ix, live, q))
    && (forall id :: GroupView(ix, live, id))
    && (forall q, id :: HomeView(ix, q, id))
    && (forall q :: Once(At(ix.homes, q)))
  }

  lemma AddedTag(ix: Index, live: seq<Consumer>, c: Consumer, t: string)
    requires TagView(ix, live, t) && !HasTag(live, c.tag)
    ensures TagView(Added(ix, c), live + [c], t)
  {
    TagAdded(live, c, t);
  }

  lemma AddedQueue(ix: Index, live: seq<Consumer>, c: Consumer, q: string)
    requires QueueView(ix, live, q)
    ensures QueueView(Added(ix, c), live + [c], q)
  {
    SelectAdded(live, c, InQueue(q));
  }

  lemma AddedGroup(ix: Index, live: seq<Consumer>, c: Consumer, id: string)
    requires GroupView(ix, live, id)
    ensures GroupView(Added(ix, c), live + [c], id)
  {
    SelectAdded(live, c, InGroup(id));
  }

  lemma AddedHome(ix: Index, c: Consumer, q: string, id: string)
    requires HomeView(ix, q, id)
    ensures HomeView(Added(ix, c), q, id)
  {
  }

  lemma {:induction false} OnceAdded(ids: seq<string>, id: string)
    requires Once(ids) && id !in ids
    ensures Once(ids + [id])
  {
    if ids == [] {
      assert ids + [id] == [id];
    } else {
      assert (ids + [id])[1..] == ids[1..] + [id];
      OnceAdded(ids[1..], id);
    }
  }

  lemma AddedOnce(ix: Index, c: Consumer, q: string)
    requires Once(At(ix.homes, q)) && HomeView(ix, q, GroupOf(c))
    ensures Once(At(Added(ix, c).homes, q))
  {
    if GroupOf(c) !in ix.byID { OnceAdded(At(ix.homes, q), GroupOf(c)); }
  }

  lemma AddedViews(ix: Index, live: seq<Consumer>, c: Consumer)
    requires Views(ix, live) && !HasTag(live, c.tag)
    ensures Views(Added(ix, c), live + [c])
  {
    forall t ensures TagView(Added(ix, c), live + [c], t) { AddedTag(ix, live, c, t); }
    forall q ensures QueueView(Added(ix, c), live + [c], q) { AddedQueue(ix, live, c, q); }
    forall id ensures GroupView(Added(ix, c), live + [c], id) { AddedGroup(ix, live, c, id); }
    forall q, id ensures HomeView(Added(ix, c), q, id) { AddedHome(ix, c, q, id); }
    forall q ensures Once(At(Added(ix, c).homes, q)) {
      assert HomeView(ix, q, GroupOf(c));
      AddedOnce(ix, c, q);
    }
  }

  lemma RemovedTag(ix: Index, live: seq<Consumer>, c: Consumer, t: string)
    requires TagView(ix, live, t) && Distinct(live) && c in live
    ensures TagView(Removed(ix, c), Select(live, NotTagged(c.tag)), t)
  {
    var rest := Select(live, NotTagged(c.tag));
    if HasTag(rest, t) {
      var d := TagOf(rest, t);
      SelectIn(live, NotTagged(c.tag), d);
      TagIn(live, d);
    }
    if t in ix.byTag && t != c.tag {
      SelectIn(live, NotTagged(c.tag), ix.byTag[t]);
      TagIn(rest, ix.byTag[t]);
    }
  }

  lemma RemovedQueue(ix: Index, live: seq<Consumer>, c: Consumer, q: string)
    requires QueueView(ix, live, q) && Distinct(live) && c in live
    ensures QueueView(Removed(ix, c), Select(live, NotTagged(c.tag)), q)
  {
    UnlistedQueue(ix, live, c, q);
  }

  lemma UnlistedQueue(ix: Index, live: seq<Consumer>, c: Consumer, q: string)
    requires QueueView(ix, live, q) && Distinct(live) && c in live
    ensures QueueView(Unlisted(ix, c), Select(live, NotTagged(c.tag)), q)
  {
    ViewLoses(live, InQueue(q), c.tag);
    if q != c.queue { NotInView(live, InQueue(q), c); }
  }

  lemma NotInView(live: seq<Consumer>, f: Consumer -> bool, c: Consumer)
    requires Distinct(live) && c in live && !f(c)
    ensures Without(Select(live, f), c.tag) == Select(live, f)
  {
    if HasTag(Select(live, f), c.tag) {
      var d := TagOf(Select(live, f), c.tag);
      SelectIn(live, f, d);
      TagUnique(live, c, d);
    }
    WithoutAbsent(Select(live, f), c.tag);
  }

  lemma RemovedGroup(ix: Index, live: seq<Consumer>, c: Consumer, id: string)
    requires GroupView(ix, live, id) && GroupView(ix, live, GroupOf(c)) && Distinct(live) && c in live
    ensures GroupView(Removed(ix, c), Select(live, NotTagged(c.tag)), id)
  {
    ViewLoses(live, InGroup(id), c.tag);
    if id == "" || id != GroupOf(c) { NotInView(live, InGroup(id), c); }
  }

  lemma {:induction false} WithoutIdHas(ids: seq<string>, id: string, j: string)
    requires Once(ids)
    ensures j in WithoutId(ids, id) <==> j in ids && j != id
    ensures Once(WithoutId(ids, id))
  {
    if ids != [] && ids[0] != id {
      WithoutIdHas(ids[1..], id, j);
      WithoutIdHas(ids[1..], id, ids[0]);
      assert WithoutId(ids, id)[1..] == WithoutId(ids[1..], id);
    }
  }

  lemma RemovedHome(ix: Index, c: Consumer, q: string, id: string)
    requires HomeView(ix, q, id) && HomeView(ix, q, GroupOf(c)) && Once(At(ix.homes, q))
    ensures HomeView(Removed(ix, c), q, id)
    ensures Once(At(Removed(ix, c).homes, q))
  {
    WithoutIdHas(At(ix.homes, q), GroupOf(c), id);
  }

  lemma RemovedViews(ix: Index, live: seq<Consumer>, c: Consumer)
    requires Views(ix, live) && Distinct(live) && c in live
    ensures Views(Removed(ix, c), Select(live, NotTagged(c.tag)))
  {
    var r, l := Removed(ix, c), Select(live, NotTagged(c.tag));
    assert GroupView(ix, live, GroupOf(c));
    forall t ensures TagView(r, l, t) { RemovedTag(ix, live, c, t); }
    forall q ensures QueueView(r, l, q) { RemovedQueue(ix, live, c, q); }
    forall id ensures GroupView(r, l, id) { RemovedGroup(ix, live, c, id); }
    forall q, id ensures HomeView(r, q, id) && Once(At(r.homes, q)) {
      assert HomeView(ix, q, GroupOf(c));
      RemovedHome(ix, c, q, id);
    }
    forall q ensures Once(At(r.homes, q)) { assert HomeView(r, q, ""); }
  }

  // ---------------------------------------------------------------- Runs

  datatype Op = Subscribe(c: Consumer) | Unsubscribe(tag: string) | Cancel(ch: nat, order: seq<string>)

  predicate HasExclusive(l: seq<Consumer>) {
    exists c | c in l :: c.exclusive
  }

  predicate Refused(ix: Index, c: Consumer) {
    c.tag in ix.byTag || (c.exclusive && HasExclusive(At(ix.byQueue, c.queue)))
  }

  /** Channel cancellation visits the tags in the order the map yields them. */
  function AfterCancel(ix: Index, ch: nat, order: seq<string>): Index
    decreases |order|
  {
    if order == [] then ix else AfterCancel(CancelOne(ix, ch, order[0]), ch, order[1..])
  }

  function CancelOne(ix: Index, ch: nat, t: string): Index {
    if t in ix.byTag && Cancels(ix.byTag[t], ch) then Removed(ix, ix.byTag[t]) else ix
  }

  ghost predicate Enumerates(ix: Index, order: seq<string>) {
    forall t :: t in order <==> t in ix.byTag
  }

  ghost function Apply(ix: Index, op: Op): Index {
    match op
    case Subscribe(c) => if Refused(ix, c) then ix else Added(ix, c)
    case Unsubscribe(t) => if t in ix.byTag then Removed(ix, ix.byTag[t]) else ix
    case Cancel(ch, order) => if Enumerates(ix, order) then AfterCancel(ix, ch, order) else ix
  }

  ghost function ApplyAll(ix: Index, ops: seq<Op>): Index
    decreases |ops|
  {
    if ops == [] then ix else ApplyAll(Apply(ix, ops[0]), ops[1..])
  }

  ghost predicate Covers(live: seq<Consumer>, order: seq<string>) {
    forall t :: t in order <==> HasTag(live, t)
  }

  /** The same operations on one list of consumers. */
  ghost function Live(live: seq<Consumer>, op: Op): seq<Consumer> {
    match op
    case Subscribe(c) =>
      if HasTag(live, c.tag) || (c.exclusive && HasExclusive(Select(live, InQueue(c.queue)))) then live else live + [c]
    case Unsubscribe(t) => Select(live, NotTagged(t))
    case Cancel(ch, order) =>
      if Covers(live, order) then Select(live, Survives(ch)) else live
  }

  ghost function LiveAll(live: seq<Consumer>, ops: seq<Op>): seq<Consumer>
    decreases |ops|
  {
    if ops == [] then live else LiveAll(Live(live, ops[0]), ops[1..])
  }

  ghost predicate OneExclusive(l: seq<Consumer>) {
    forall c, d | c in l && d in l && c.exclusive && d.exclusive && c.queue == d.queue :: c == d
  }

  /** Those that the tags listed so far leave. */
  function Spared(ch: nat, order: seq<string>): Consumer -> bool {
    (c: Consumer) => !(c.tag in order && Cancels(c, ch))
  }

  lemma SparedStep(live: seq<Consumer>, ch: nat, order: seq<string>)
    requires order != []
    ensures Select(Select(live, Spared(ch, order[..1])), Spared(ch, order[1..])) == Select(live, Spared(ch, order))
  {
    SelectBoth(live, Spared(ch, order[..1]), Spared(ch, order[1..]));
    assert order == order[..1] + order[1..];
    SelectAlike(live, Both(Spared(ch, order[..1]), Spared(ch, order[1..])), Spared(ch, order));
  }

  function Both(f: Consumer -> bool, g: Consumer -> bool): Consumer -> bool {
    (c: Consumer) => f(c) && g(c)
  }

  lemma {:induction false} SelectBoth(l: seq<Consumer>, f: Consumer -> bool, g: Consumer -> bool)
    ensures Select(Select(l, f), g) == Select(l, Both(f, g))
  {
    if l != [] {
      SelectBoth(l[1..], f, g);
      SelectHead(l, f, g);
    }
  }

  lemma SparedOne(live: seq<Consumer>, ch: nat, c: Consumer)
    requires Distinct(live) && c in live
    ensures Select(live, Spared(ch, [c.tag])) == if Cancels(c, ch) then Select(live, NotTagged(c.tag)) else live
  {
    forall d | d in live && d.tag == c.tag ensures d == c { TagUnique(live, c, d); }
    if Cancels(c, ch) {
      SelectAlike(live, Spared(ch, [c.tag]), NotTagged(c.tag));
    } else {
      SelectAll(live, Spared(ch, [c.tag]));
    }
  }

  lemma SparedNone(live: seq<Consumer>, ch: nat, t: string)
    requires !HasTag(live, t)
    ensures Select(live, Spared(ch, [t])) == live
  {
    forall d | d in live ensures d.tag != t { TagIn(live, d); }
    SelectAll(live, Spared(ch, [t]));
  }

  lemma {:induction false} CancelViews(ix: Index, live: seq<Consumer>, ch: nat, order: seq<string>)
    requires Views(ix, live) && Distinct(live)
    ensures Views(AfterCancel(ix, ch, order), Select(live, Spared(ch, order)))
    decreases |order|
  {
    if order == [] {
      SelectAll(live, Spared(ch, order));
    } else {
      var t := order[0];
      assert TagView(ix, live, t) && order[..1] == [t];
      var one := Select(live, Spared(ch, [t]));
      if t in ix.byTag { SparedOne(live, ch, ix.byTag[t]); } else { SparedNone(live, ch, t); }
      var next := CancelOne(ix, ch, t);
      if t in ix.byTag { RemovedViews(ix, live, ix.byTag[t]); }
      DistinctSelected(live, Spared(ch, [t]));
      CancelViews(next, one, ch, order[1..]);
      SparedStep(live, ch, order);
    }
  }

  lemma CancelAll(ix: Index, live: seq<Consumer>, ch: nat, order: seq<string>)
    requires Views(ix, live) && Distinct(live) && Enumerates(ix, order)
    ensures Views(AfterCancel(ix, ch, order), Select(live, Survives(ch)))
    ensures Select(live, Spared(ch, order)) == Select(live, Survives(ch))
  {
    CancelViews(ix, live, ch, order);
    forall c | c in live ensures c.tag in order {
      TagIn(live, c);
      assert TagView(ix, live, c.tag);
    }
    SelectAlike(live, Spared(ch, order), Survives(ch));
  }

  lemma SameTags(ix: Index, live: seq<Consumer>, order: seq<string>)
    requires Views(ix, live)
    ensures Enumerates(ix, order) <==> Covers(live, order)
  {
    forall t ensures t in ix.byTag <==> HasTag(live, t) { assert TagView(ix, live, t); }
  }

  lemma ApplyViews(ix: Index, live: seq<Consumer>, op: Op)
    requires Views(ix, live) && Distinct(live)
    ensures Views(Apply(ix, op), Live(live, op))
  {
    match op
    case Subscribe(c) =>
      assert TagView(ix, live, c.tag) && QueueView(ix, live, c.queue);
      if !Refused(ix, c) { AddedViews(ix, live, c); }
    case Unsubscribe(t) =>
      assert TagView(ix, live, t);
      if t in ix.byTag { RemovedViews(ix, live, ix.byTag[t]); } else { Untagged(live, t); }
    case Cancel(ch, order) =>
      SameTags(ix, live, order);
      if Enumerates(ix, order) { CancelAll(ix, live, ch, order); }
  }

  lemma SelectedKeeps(live: seq<Consumer>, f: Consumer -> bool)
    requires Distinct(live) && OneExclusive(live)
    ensures Distinct(Select(live, f)) && OneExclusive(Select(live, f))
  {
    DistinctSelected(live, f);
    forall c | c in Select(live, f) ensures c in live { SelectIn(live, f, c); }
  }

  lemma LiveKeeps(live: seq<Consumer>, op: Op)
    requires Distinct(live) && OneExclusive(live)
    ensures Distinct(Live(live, op)) && OneExclusive(Live(live, op))
  {
    match op
    case Subscribe(c) =>
      if !HasTag(live, c.tag) { DistinctAdded(live, c); }
      forall d | d in live && d.queue == c.queue ensures d in Select(live, InQueue(c.queue)) {
        SelectIn(live, InQueue(c.queue), d);
      }
    case Unsubscribe(t) => SelectedKeeps(live, NotTagged(t));
    case Cancel(ch, order) => SelectedKeeps(live, Survives(ch));
  }

  lemma {:induction false} RunKeepsViews(ix: Index, live: seq<Consumer>, ops: seq<Op>)
    requires Views(ix, live) && Distinct(live) && OneExclusive(live)
    ensures Views(ApplyAll(ix, ops), LiveAll(live, ops)) && Distinct(LiveAll(live, ops))
            && OneExclusive(LiveAll(live, ops))
    decreases |ops|
  {
    if ops != [] {
      ApplyViews(ix, live, ops[0]);
      LiveKeeps(live, ops[0]);
      RunKeepsViews(Apply(ix, ops[0]), Live(live, ops[0]), ops[1..]);
    }
  }

  const NO_CONSUMERS := Index(map[], map[], map[], map[])

  /** Over every run the indexes are views of the one list of live consumers. */
  lemma IndexesAgree(ops: seq<Op>)
    ensures Views(ApplyAll(NO_CONSUMERS, ops), LiveAll([], ops)) && Distinct(LiveAll([], ops))
            && OneExclusive(LiveAll([], ops))
  {
    RunKeepsViews(NO_CONSUMERS, [], ops);
  }

  /** What that means for a caller: no group is empty, a queue has at most one exclusive consumer,
      and each consumer is listed under its tag, under its queue, and in its group if it has one. */
  lemma IndexMeaning(ops: seq<Op>, c: Consumer, d: Consumer, id: string)
    ensures var ix := ApplyAll(NO_CONSUMERS, ops);
            && (id in ix.byID ==> ix.byID[id].members != [])
            && (c in At(ix.byQueue, c.queue) && d in At(ix.byQueue, c.queue) && c.exclusive && d.exclusive ==> c == d)
            && (c.tag in ix.byTag && ix.byTag[c.tag] == c <==> c in At(ix.byQueue, c.queue))
            && (id in ix.byID && c in ix.byID[id].members <==>
                id != "" && GroupOf(c) == id && c in At(ix.byQueue, c.queue))
  {
    IndexesAgree(ops);
    var ix, live := ApplyAll(NO_CONSUMERS, ops), LiveAll([], ops);
    assert GroupView(ix, live, id) && QueueView(ix, live, c.queue) && TagView(ix, live, c.tag);
    SelectIn(live, InQueue(c.queue), c);
    SelectIn(live, InQueue(c.queue), d);
    SelectIn(live, InGroup(id), c);
    if c in live {
      TagIn(live, c);
      TagUnique(live, c, ix.byTag[c.tag]);
    }
  }

  // ---------------------------------------------------------------- The managers

  lemma {:induction false} WithoutAt(l: seq<Consumer>, t: string, i: nat)
    requires i < |l| && l[i].tag == t && forall j | 0 <= j < i :: l[j].tag != t
    ensures HasTag(l, t) && Without(l, t) == l[..i] + l[i + 1..]
  {
    if i == 0 {
      assert l[..0] + l[1..] == l[1..];
    } else {
      var rest := l[1..];
      WithoutAt(rest, t, i - 1);
      assert rest[i..] == l[i + 1..] && l[..i] == [l[0]] + rest[..i - 1];
      Regroup([l[0]], rest[..i - 1], rest[i..]);
    }
  }

  lemma {:induction false} NowhereTagged(l: seq<Consumer>, t: string)
    requires forall j | 0 <= j < |l| :: l[j].tag != t
    ensures !HasTag(l, t)
  {
    if l != [] { NowhereTagged(l[1..], t); }
  }

  /** Splices out the first consumer of a tag. */
  method RemoveTag(l: seq<Consumer>, t: string) returns (found: bool, rest: seq<Consumer>)
    ensures found <==> HasTag(l, t)
    ensures rest == Without(l, t)
  {
    var i := 0;
    while i < |l|
      invariant 0 <= i <= |l| && forall j | 0 <= j < i :: l[j].tag != t
    {
      if l[i].tag == t {
        WithoutAt(l, t, i);
        return true, l[..i] + l[i + 1..];
      }
      i := i + 1;
    }
    NowhereTagged(l, t);
    WithoutAbsent(l, t);
    return false, l;
  }

  lemma {:induction false} WithoutIdAt(ids: seq<string>, id: string, i: nat)
    requires i < |ids| && ids[i] == id && forall j | 0 <= j < i :: ids[j] != id
    ensures WithoutId(ids, id) == ids[..i] + ids[i + 1..]
  {
    if i > 0 {
      WithoutIdAt(ids[1..], id, i - 1);
      assert ids[..i] == [ids[0]] + ids[1..][..i - 1];
    }
  }

  lemma {:induction false} WithoutIdAbsent(ids: seq<string>, id: string)
    requires forall j | 0 <= j < |ids| :: ids[j] != id
    ensures WithoutId(ids, id) == ids
  {
    if ids != [] { WithoutIdAbsent(ids[1..], id); }
  }

  method RemoveId(ids: seq<string>, id: string) returns (rest: seq<string>)
    ensures rest == WithoutId(ids, id)
  {
    var i := 0;
    while i < |ids|
      invariant 0 <= i <= |ids| && forall j | 0 <= j < i :: ids[j] != id
    {
      if ids[i] == id {
        WithoutIdAt(ids, id, i);
        return ids[..i] + ids[i + 1..];
      }
      i := i + 1;
    }
    WithoutIdAbsent(ids, id);
    return ids;
  }

  class GroupManager {
    var byID: map<string, Group>
    var homes: map<string, seq<string>>

    constructor ()
      ensures byID == map[] && homes == map[]
    {
      byID, homes := map[], map[];
    }

    method Join(id: string, queue: string, c: Consumer, strategy: string)
      modifies this
      ensures var g := if id in old(byID) then old(byID)[id] else Group(queue, strategy, []);
              byID == old(byID)[id := g.(members := g.members + [c])]
      ensures homes == if id in old(byID) then old(homes) else old(homes)[queue := At(old(homes), queue) + [id]]
    {
      if id !in byID {
        byID := byID[id := Group(queue, strategy, [])];
        homes := homes[queue := At(homes, queue) + [id]];
      }
      byID := byID[id := byID[id].(members := byID[id].members + [c])];
    }

    /** Takes the tag out of the first group found to have it, in whatever order the map is visited. */
    method Leave(t: string) returns (found: bool, ghost id: string)
      modifies this
      ensures found <==> exists i | i in old(byID) :: HasTag(old(byID)[i].members, t)
      ensures found ==> id in old(byID) && HasTag(old(byID)[id].members, t)
                        && byID == LeftIDs(old(byID), id, t) && homes == LeftHomes(old(byID), old(homes), id, t)
      ensures !found ==> byID == old(byID) && homes == old(homes)
    {
      id := "";
      var left := byID.Keys;
      while left != {}
        invariant left <= byID.Keys && byID == old(byID) && homes == old(homes)
        invariant forall i | i in byID && i !in left :: !HasTag(byID[i].members, t)
        decreases left
      {
        var i :| i in left;
        left := left - {i};
        var has, rest := RemoveTag(byID[i].members, t);
        if has {
          var g := byID[i];
          if |rest| == 0 {
            byID := byID - {i};
            var ids := RemoveId(At(homes, g.queue), i);
            homes := homes[g.queue := ids];
          } else {
            byID := byID[i := g.(members := rest)];
          }
          return true, i;
        }
      }
      return false, "";
    }
  }

  class ConsumerManager {
    var byTag: map<string, Consumer>
    var byQueue: map<string, seq<Consumer>>
    const groups: GroupManager

    ghost function Now(): Index
      reads this, groups
    {
      Index(byTag, byQueue, groups.byID, groups.homes)
    }

    constructor (groups: GroupManager)
      ensures this.groups == groups && byTag == map[] && byQueue == map[]
    {
      byTag, byQueue, this.groups := map[], map[], groups;
    }

    method Subscribe(c: Consumer) returns (ok: bool)
      modifies this, groups
      ensures ok <==> !Refused(old(Now()), c)
      ensures Now() == Apply(old(Now()), Op.Subscribe(c))
    {
      if c.tag in byTag { return false; }
      if c.exclusive {
        var taken := AnyExclusive(At(byQueue, c.queue));
        if taken { return false; }
      }
      byQueue := byQueue[c.queue := At(byQueue, c.queue) + [c]];
      byTag := byTag[c.tag := c];
      if GroupOf(c) != "" { groups.Join(GroupOf(c), c.queue, c, StrategyOf(c)); }
      return true;
    }

    /** What Unsubscribe and CancelByChannel do to a consumer that is there. */
    method Drop(c: Consumer, ghost live: seq<Consumer>)
      requires Views(Now(), live) && Distinct(live) && c in live
      modifies this, groups
      ensures Now() == Removed(old(Now()), c)
    {
      ghost var ix := Now();
      byTag := byTag - {c.tag};
      var _, rest := RemoveTag(At(byQueue, c.queue), c.tag);
      byQueue := byQueue[c.queue := rest];
      GroupOfTag(ix, live, c);
      if GroupOf(c) != "" {
        var _, id := groups.Leave(c.tag);
      }
    }

    method Unsubscribe(t: string, ghost live: seq<Consumer>) returns (ok: bool)
      requires Views(Now(), live) && Distinct(live)
      modifies this, groups
      ensures ok <==> t in old(byTag)
      ensures Now() == Apply(old(Now()), Op.Unsubscribe(t))
    {
      if t !in byTag { return false; }
      assert TagView(Now(), live, t);
      Drop(byTag[t], live);
      return true;
    }

    /** One turn of CancelByChannel's loop. */
    method CancelTag(t: string, ch: nat, ghost live: seq<Consumer>) returns (gone: bool)
      requires Views(Now(), live) && Distinct(live)
      modifies this, groups
      ensures Now() == CancelOne(old(Now()), ch, t)
      ensures gone <==> t in old(byTag) && Cancels(old(byTag)[t], ch)
    {
      if t !in byTag || !Cancels(byTag[t], ch) { return false; }
      assert TagView(Now(), live, t);
      Drop(byTag[t], live);
      return true;
    }

    method CancelByChannel(ch: nat, ghost live: seq<Consumer>) returns (cancelled: nat, ghost order: seq<string>)
      requires Views(Now(), live) && Distinct(live)
      modifies this, groups
      ensures Enumerates(old(Now()), order)
      ensures Now() == Apply(old(Now()), Cancel(ch, order))
      ensures cancelled == |live| - |Select(live, Survives(ch))|
    {
      cancelled, order := 0, [];
      ghost var rest := live;
      SelectAll(live, Spared(ch, []));
      var left := byTag.Keys;
      while left != {}
        invariant left <= old(byTag).Keys
        invariant forall t :: t in order <==> t in old(byTag) && t !in left
        invariant Now() == AfterCancel(old(Now()), ch, order)
        invariant rest == Select(live, Spared(ch, order)) && cancelled == |live| - |rest|
        decreases left
      {
        var t :| t in left;
        left := left - {t};
        CancelTurn(old(Now()), live, ch, order, t);
        var gone := CancelTag(t, ch, rest);
        if gone { cancelled := cancelled + 1; }
        order := order + [t];
        rest := Select(live, Spared(ch, order));
      }
      CancelAll(old(Now()), live, ch, order);
    }
  }

  lemma SparedLast(live: seq<Consumer>, ch: nat, order: seq<string>, t: string)
    ensures Select(Select(live, Spared(ch, order)), Spared(ch, [t])) == Select(live, Spared(ch, order + [t]))
  {
    SelectBoth(live, Spared(ch, order), Spared(ch, [t]));
    SelectAlike(live, Both(Spared(ch, order), Spared(ch, [t])), Spared(ch, order + [t]));
  }

  /** What a turn of the loop has to know and to establish. */
  lemma CancelTurn(ix: Index, live: seq<Consumer>, ch: nat, order: seq<string>, t: string)
    requires Views(ix, live) && Distinct(live)
    ensures var now, rest := AfterCancel(ix, ch, order), Select(live, Spared(ch, order));
            && Views(now, rest) && Distinct(rest)
            && AfterCancel(ix, ch, order + [t]) == CancelOne(now, ch, t)
            && |Select(live, Spared(ch, order + [t]))| ==
                 |rest| - if t in now.byTag && Cancels(now.byTag[t], ch) then 1 else 0
  {
    var now, rest := AfterCancel(ix, ch, order), Select(live, Spared(ch, order));
    CancelViews(ix, live, ch, order);
    DistinctSelected(live, Spared(ch, order));
    assert TagView(now, rest, t);
    CancelCount(now, rest, ch, t);
    CancelAppend(ix, ch, order, t);
    SparedLast(live, ch, order, t);
  }

  lemma CancelCount(ix: Index, live: seq<Consumer>, ch: nat, t: string)
    requires TagView(ix, live, t) && Distinct(live)
    ensures |Select(live, Spared(ch, [t]))| == |live| - if t in ix.byTag && Cancels(ix.byTag[t], ch) then 1 else 0
  {
    if t in ix.byTag {
      SparedOne(live, ch, ix.byTag[t]);
      WithoutIsSelect(live, t);
      WithoutLength(live, t);
    } else {
      SparedNone(live, ch, t);
    }
  }

  lemma {:induction false} CancelAppend(ix: Index, ch: nat, order: seq<string>, t: string)
    ensures AfterCancel(ix, ch, order + [t]) == CancelOne(AfterCancel(ix, ch, order), ch, t)
    decreases |order|
  {
    if order == [] {
      assert order + [t] == [t];
    } else {
      assert (order + [t])[1..] == order[1..] + [t];
      CancelAppend(CancelOne(ix, ch, order[0]), ch, order[1..], t);
    }
  }

  lemma {:induction false} WithoutLength(l: seq<Consumer>, t: string)
    ensures |Without(l, t)| == |l| - if HasTag(l, t) then 1 else 0
  {
    if l != [] { WithoutLength(l[1..], t); }
  }

  method AnyExclusive(l: seq<Consumer>) returns (any: bool)
    ensures any <==> HasExclusive(l)
  {
    var i := 0;
    while i < |l|
      invariant 0 <= i <= |l|
      invariant forall j | 0 <= j < i :: !l[j].exclusive
    {
      if l[i].exclusive { return true; }
      i := i + 1;
    }
    return false;
  }

  lemma {:induction false} NoNameless(live: seq<Consumer>)
    ensures Select(live, InGroup("")) == []
  {
    if live != [] { NoNameless(live[1..]); }
  }

  /** A tag is a member of its consumer's group and of no other. */
  lemma GroupOfTag(ix: Index, live: seq<Consumer>, c: Consumer)
    requires Views(ix, live) && Distinct(live) && c in live
    ensures GroupOf(c) != "" <==> GroupOf(c) in ix.byID
    ensures forall id | id in ix.byID :: HasTag(ix.byID[id].members, c.tag) <==> id == GroupOf(c)
  {
    NoNameless(live);
    assert GroupView(ix, live, "");
    forall id | id in ix.byID ensures HasTag(ix.byID[id].members, c.tag) <==> id == GroupOf(c) {
      assert GroupView(ix, live, id);
      SelectIn(live, InGroup(id), c);
      if id == GroupOf(c) {
        TagIn(ix.byID[id].members, c);
      } else if HasTag(ix.byID[id].members, c.tag) {
        var d := TagOf(ix.byID[id].members, c.tag);
        SelectIn(live, InGroup(id), d);
        TagUnique(live, c, d);
      }
    }
    assert GroupView(ix, live, GroupOf(c));
    SelectIn(live, InGroup(GroupOf(c)), c);
  }
}
