/** Pull delivery with acknowledgements: where every message enqueued ends up. */
module Delivery {
  import opened Messages
  import opened MessageStore
  import opened Sums

  // ---------------------------------------------------------------- State

  datatype Tracked = Tracked(msg: Message, queue: string)

  type Tags = map<nat, Tracked>
  type Channels = map<nat, Tags>

  /** Queues, unacknowledged deliveries by channel and tag, and the pull consumer's last tag; then
      the history of each message's fate. */
  datatype System = System(
    queues: Queues,
    channels: Channels,
    tagSeq: nat,
    enqueued: multiset<Message>,
    acked: multiset<Message>,
    discarded: multiset<Message>,
    autoAcked: multiset<Message>,
    expired: multiset<Message>)

  function TagsOf(cs: Channels, ch: nat): Tags {
    if ch in cs then cs[ch] else map[]
  }

  function Hit(d: Tracked, x: Message): nat {
    if d.msg == x then 1 else 0
  }

  /** How often a message is in flight on a channel, in flight at all, queued at all. */
  ghost function OnChannel(tags: Tags, x: Message): nat {
    Total(tags, (t: nat, d: Tracked) => Hit(d, x))
  }

  ghost function InFlight(cs: Channels, x: Message): nat {
    Total(cs, (ch: nat, tags: Tags) => OnChannel(tags, x))
  }

  ghost function Queued(qs: Queues, x: Message): nat {
    Total(qs, (q: string, list: seq<Message>) => multiset(list)[x])
  }

  lemma QueuedUpdate(qs: Queues, q: string, list: seq<Message>, x: Message)
    ensures Queued(qs[q := list], x) + multiset(Queue(qs, q))[x] == Queued(qs, x) + multiset(list)[x]
  {
    TotalUpdate(qs, (n: string, l: seq<Message>) => multiset(l)[x], q, list);
  }

  lemma InFlightUpdate(cs: Channels, ch: nat, tags: Tags, x: Message)
    ensures InFlight(cs[ch := tags], x) + OnChannel(TagsOf(cs, ch), x) == InFlight(cs, x) + OnChannel(tags, x)
  {
    TotalUpdate(cs, (c: nat, ts: Tags) => OnChannel(ts, x), ch, tags);
  }

  lemma InFlightRemove(cs: Channels, ch: nat, x: Message)
    requires ch in cs
    ensures InFlight(cs, x) == OnChannel(cs[ch], x) + InFlight(cs - {ch}, x)
  {
    TotalRemove(cs, (c: nat, tags: Tags) => OnChannel(tags, x), ch);
  }

  lemma OnChannelUpdate(tags: Tags, t: nat, d: Tracked, x: Message)
    ensures OnChannel(tags[t := d], x) + (if t in tags then Hit(tags[t], x) else 0) == OnChannel(tags, x) + Hit(d, x)
  {
    TotalUpdate(tags, (u: nat, e: Tracked) => Hit(e, x), t, d);
  }

  lemma OnChannelRemove(tags: Tags, t: nat, x: Message)
    requires t in tags
    ensures OnChannel(tags, x) == Hit(tags[t], x) + OnChannel(tags - {t}, x)
  {
    TotalRemove(tags, (u: nat, d: Tracked) => Hit(d, x), t);
  }

  // ---------------------------------------------------------------- Operations

  /** How many messages at the front are found expired; `expired(i)` answers for the i-th removed. */
  function Skipped(list: seq<Message>, expired: nat -> bool, i: nat): (k: nat)
    ensures k <= |list|
    decreases |list|
  {
    if list == [] || !expired(i) then 0 else 1 + Skipped(list[1..], expired, i + 1)
  }

  function AfterEnqueue(s: System, q: string, m: Message): System {
    s.(queues := Appended(s.queues, q, m), enqueued := s.enqueued + multiset{m})
  }

  /** A fetch that finds nothing drops the whole queue, every message of it being expired. */
  function AfterMiss(s: System, q: string): System {
    var list := Queue(s.queues, q);
    s.(queues := if list == [] then s.queues else s.queues[q := []], expired := s.expired + multiset(list))
  }

  /** The queue `q` without its first `k` messages. */
  function Beyond(qs: Queues, q: string, k: nat): Queues
    requires k <= |Queue(qs, q)|
  {
    qs[q := Queue(qs, q)[k..]]
  }

  function Recorded(cs: Channels, ch: nat, tag: nat, d: Tracked): Channels {
    cs[ch := TagsOf(cs, ch)[tag := d]]
  }

  /** A fetch that drops `k` expired messages and hands out the next, without tracking it. */
  function AfterAuto(s: System, q: string, k: nat): System
    requires k < |Queue(s.queues, q)|
  {
    var list := Queue(s.queues, q);
    s.(queues := Beyond(s.queues, q, k + 1),
       expired := s.expired + multiset(list[..k]),
       autoAcked := s.autoAcked + multiset{list[k]})
  }

  /** The same, with the delivery recorded under the next tag. */
  function AfterTracked(s: System, q: string, k: nat, ch: nat): System
    requires k < |Queue(s.queues, q)|
  {
    var list := Queue(s.queues, q);
    s.(queues := Beyond(s.queues, q, k + 1),
       expired := s.expired + multiset(list[..k]),
       tagSeq := s.tagSeq + 1,
       channels := Recorded(s.channels, ch, s.tagSeq + 1, Tracked(list[k], q)))
  }

  function AfterGet(s: System, q: string, autoAck: bool, ch: nat, expired: nat -> bool): System {
    var k := Skipped(Queue(s.queues, q), expired, 0);
    if k == |Queue(s.queues, q)| then AfterMiss(s, q)
    else if autoAck then AfterAuto(s, q, k)
    else AfterTracked(s, q, k, ch)
  }

  function AfterAck(s: System, tag: nat, ch: nat): System {
    if tag !in TagsOf(s.channels, ch) then s
    else s.(channels := s.channels[ch := s.channels[ch] - {tag}],
            acked := s.acked + multiset{s.channels[ch][tag].msg})
  }

  function AfterNack(s: System, tag: nat, ch: nat, requeue: bool): System {
    if tag !in TagsOf(s.channels, ch) then s
    else
      var d := s.channels[ch][tag];
      var s1 := s.(channels := s.channels[ch := s.channels[ch] - {tag}]);
      if requeue then s1.(queues := Appended(s.queues, d.queue, d.msg))
      else s1.(discarded := s.discarded + multiset{d.msg})
  }

  /** Appends the deliveries to their queues in the given order of tags. */
  function Requeued(qs: Queues, tags: Tags, order: seq<nat>): Queues
    requires forall t | t in order :: t in tags
    decreases |order|
  {
    if order == [] then qs
    else Requeued(Appended(qs, tags[order[0]].queue, tags[order[0]].msg), tags, order[1..])
  }

  ghost predicate Enumerates(tags: Tags, order: seq<nat>) {
    (forall t :: t in order <==> t in tags) && forall i, j | 0 <= i < j < |order| :: order[i] != order[j]
  }

  function Contents(tags: Tags, order: seq<nat>): multiset<Message>
    requires forall t | t in order :: t in tags
  {
    if order == [] then multiset{} else multiset{tags[order[0]].msg} + Contents(tags, order[1..])
  }

  /** Every delivery of a channel is requeued or discarded, in the order the map yields them. */
  ghost function AfterRecover(s: System, ch: nat, requeue: bool, order: seq<nat>): System
    requires Enumerates(TagsOf(s.channels, ch), order)
  {
    if ch !in s.channels then s
    else
      var s1 := s.(channels := s.channels - {ch});
      if requeue then s1.(queues := Requeued(s.queues, s.channels[ch], order))
      else s1.(discarded := s.discarded + Contents(s.channels[ch], order))
  }

  // ---------------------------------------------------------------- Conservation

  /** Where the copies of a message are. */
  ghost function Accounted(s: System, x: Message): nat {
    Queued(s.queues, x) + InFlight(s.channels, x) + s.acked[x] + s.discarded[x] + s.autoAcked[x] + s.expired[x]
  }

  ghost predicate ConservedAt(s: System, x: Message) {
    s.enqueued[x] == Accounted(s, x)
  }

  ghost predicate Conserved(s: System) {
    forall x :: ConservedAt(s, x)
  }

  /** Tags in use were handed out by this consumer. */
  ghost predicate TagsBelow(s: System) {
    forall ch, t | ch in s.channels && t in s.channels[ch] :: t <= s.tagSeq
  }

  lemma EnqueueAt(s: System, q: string, m: Message, x: Message)
    requires ConservedAt(s, x)
    ensures ConservedAt(AfterEnqueue(s, q, m), x)
  {
    QueuedUpdate(s.queues, q, Queue(s.queues, q) + [m], x);
  }

  lemma ListAt(list: seq<Message>, k: nat, x: Message)
    requires k < |list|
    ensures multiset(list)[x] == multiset(list[..k])[x] + (if list[k] == x then 1 else 0) + multiset(list[k + 1..])[x]
  {
    assert list == list[..k] + [list[k]] + list[k + 1..];
  }

  /** One if the delivery recorded under this tag carries the message. */
  function Replaced(cs: Channels, ch: nat, tag: nat, x: Message): nat {
    if tag in TagsOf(cs, ch) then Hit(TagsOf(cs, ch)[tag], x) else 0
  }

  /** Recording a delivery replaces the one already recorded under its tag. */
  lemma RecordAt(cs: Channels, ch: nat, tag: nat, d: Tracked, x: Message)
    ensures InFlight(Recorded(cs, ch, tag, d), x) + Replaced(cs, ch, tag, x) == InFlight(cs, x) + Hit(d, x)
  {
    var tags := TagsOf(cs, ch);
    OnChannelUpdate(tags, tag, d, x);
    InFlightUpdate(cs, ch, tags[tag := d], x);
  }

  lemma BeyondAt(qs: Queues, q: string, k: nat, x: Message)
    requires k < |Queue(qs, q)|
    ensures var list := Queue(qs, q);
            Queued(Beyond(qs, q, k + 1), x) + multiset(list[..k])[x] + (if list[k] == x then 1 else 0) == Queued(qs, x)
  {
    ListAt(Queue(qs, q), k, x);
    QueuedUpdate(qs, q, Queue(qs, q)[k + 1..], x);
  }

  lemma MissAt(s: System, q: string, x: Message)
    ensures Accounted(AfterMiss(s, q), x) == Accounted(s, x)
  {
    QueuedUpdate(s.queues, q, [], x);
  }

  lemma AutoAt(s: System, q: string, k: nat, x: Message)
    requires k < |Queue(s.queues, q)|
    ensures Accounted(AfterAuto(s, q, k), x) == Accounted(s, x)
  {
    BeyondAt(s.queues, q, k, x);
  }

  lemma TrackedAt(s: System, q: string, k: nat, ch: nat, x: Message)
    requires k < |Queue(s.queues, q)|
    ensures Accounted(AfterTracked(s, q, k, ch), x) + Replaced(s.channels, ch, s.tagSeq + 1, x) == Accounted(s, x)
  {
    BeyondAt(s.queues, q, k, x);
    RecordAt(s.channels, ch, s.tagSeq + 1, Tracked(Queue(s.queues, q)[k], q), x);
  }

  /** What a fetch does to the count: it loses the delivery already recorded under the new tag,
      if there is one, and nothing else. */
  lemma GetAt(s: System, q: string, autoAck: bool, ch: nat, expired: nat -> bool, x: Message)
    ensures var list := Queue(s.queues, q);
            var found := Skipped(list, expired, 0) < |list|;
            Accounted(AfterGet(s, q, autoAck, ch, expired), x)
              + (if found && !autoAck then Replaced(s.channels, ch, s.tagSeq + 1, x) else 0) == Accounted(s, x)
  {
    var k := Skipped(Queue(s.queues, q), expired, 0);
    if k == |Queue(s.queues, q)| {
      MissAt(s, q, x);
    } else if autoAck {
      AutoAt(s, q, k, x);
    } else {
      TrackedAt(s, q, k, ch, x);
    }
  }

  /** A fetch conserves messages exactly when it finds none to track or its tag is free. */
  lemma GetConservesIff(s: System, q: string, autoAck: bool, ch: nat, expired: nat -> bool)
    requires Conserved(s)
    ensures Conserved(AfterGet(s, q, autoAck, ch, expired)) <==>
              || autoAck || s.tagSeq + 1 !in TagsOf(s.channels, ch)
              || Skipped(Queue(s.queues, q), expired, 0) == |Queue(s.queues, q)|
  {
    var r := AfterGet(s, q, autoAck, ch, expired);
    var tags := TagsOf(s.channels, ch);
    if autoAck || s.tagSeq + 1 !in tags || Skipped(Queue(s.queues, q), expired, 0) == |Queue(s.queues, q)| {
      forall x ensures ConservedAt(r, x) {
        assert ConservedAt(s, x);
        GetAt(s, q, autoAck, ch, expired, x);
      }
    } else {
      var x := tags[s.tagSeq + 1].msg;
      GetAt(s, q, autoAck, ch, expired, x);
      assert ConservedAt(s, x) && !ConservedAt(r, x);
    }
  }

  lemma AckAt(s: System, tag: nat, ch: nat, x: Message)
    requires ConservedAt(s, x)
    ensures ConservedAt(AfterAck(s, tag, ch), x)
  {
    if tag in TagsOf(s.channels, ch) {
      OnChannelRemove(s.channels[ch], tag, x);
      InFlightUpdate(s.channels, ch, s.channels[ch] - {tag}, x);
    }
  }

  lemma NackAt(s: System, tag: nat, ch: nat, requeue: bool, x: Message)
    requires ConservedAt(s, x)
    ensures ConservedAt(AfterNack(s, tag, ch, requeue), x)
  {
    if tag in TagsOf(s.channels, ch) {
      var d := s.channels[ch][tag];
      OnChannelRemove(s.channels[ch], tag, x);
      InFlightUpdate(s.channels, ch, s.channels[ch] - {tag}, x);
      QueuedUpdate(s.queues, d.queue, Queue(s.queues, d.queue) + [d.msg], x);
    }
  }

  lemma {:induction false} RequeuedAt(qs: Queues, tags: Tags, order: seq<nat>, x: Message)
    requires forall t | t in order :: t in tags
    ensures Queued(Requeued(qs, tags, order), x) == Queued(qs, x) + Contents(tags, order)[x]
    decreases |order|
  {
    if order != [] {
      var d := tags[order[0]];
      QueuedUpdate(qs, d.queue, Queue(qs, d.queue) + [d.msg], x);
      RequeuedAt(Appended(qs, d.queue, d.msg), tags, order[1..], x);
    }
  }

  lemma {:induction false} ContentsAt(tags: Tags, order: seq<nat>, x: Message)
    requires Enumerates(tags, order)
    ensures Contents(tags, order)[x] == OnChannel(tags, x)
    decreases |order|
  {
    if order == [] {
      assert tags == map[];
    } else {
      var rest := tags - {order[0]};
      assert order == [order[0]] + order[1..];
      assert Enumerates(rest, order[1..]);
      ContentsAt(rest, order[1..], x);
      ContentsFrame(tags, rest, order[1..]);
      OnChannelRemove(tags, order[0], x);
    }
  }

  lemma {:induction false} ContentsFrame(tags: Tags, rest: Tags, order: seq<nat>)
    requires forall t | t in order :: t in tags && t in rest && tags[t] == rest[t]
    ensures Contents(tags, order) == Contents(rest, order)
  {
    if order != [] { ContentsFrame(tags, rest, order[1..]); }
  }

  lemma RecoverAt(s: System, ch: nat, requeue: bool, order: seq<nat>, x: Message)
    requires ConservedAt(s, x) && Enumerates(TagsOf(s.channels, ch), order)
    ensures ConservedAt(AfterRecover(s, ch, requeue, order), x)
  {
    if ch in s.channels {
      ContentsAt(s.channels[ch], order, x);
      RequeuedAt(s.queues, s.channels[ch], order, x);
      InFlightRemove(s.channels, ch, x);
    }
  }

  // ---------------------------------------------------------------- Runs

  datatype Op =
    | Enqueue(q: string, m: Message)
    | Get(q: string, autoAck: bool, ch: nat, expired: nat -> bool)
    | Ack(tag: nat, ch: nat)
    | Nack(tag: nat, ch: nat, requeue: bool)
    | Recover(ch: nat, requeue: bool, order: seq<nat>)

  ghost function Apply(s: System, op: Op): System {
    match op
    case Enqueue(q, m) => AfterEnqueue(s, q, m)
    case Get(q, autoAck, ch, expired) => AfterGet(s, q, autoAck, ch, expired)
    case Ack(tag, ch) => AfterAck(s, tag, ch)
    case Nack(tag, ch, requeue) => AfterNack(s, tag, ch, requeue)
    case Recover(ch, requeue, order) =>
      if Enumerates(TagsOf(s.channels, ch), order) then AfterRecover(s, ch, requeue, order) else s
  }

  ghost function ApplyAll(s: System, ops: seq<Op>): System
    decreases |ops|
  {
    if ops == [] then s else ApplyAll(Apply(s, ops[0]), ops[1..])
  }

  const EMPTY := System(map[], map[], 0, multiset{}, multiset{}, multiset{}, multiset{}, multiset{})

  lemma GetKeepsTags(s: System, q: string, autoAck: bool, ch: nat, expired: nat -> bool)
    requires TagsBelow(s)
    ensures TagsBelow(AfterGet(s, q, autoAck, ch, expired))
  {
  }

  lemma ApplyKeepsTags(s: System, op: Op)
    requires TagsBelow(s)
    ensures TagsBelow(Apply(s, op))
  {
    match op
    case Get(q, autoAck, ch, expired) => GetKeepsTags(s, q, autoAck, ch, expired);
    case Enqueue(_, _) =>
    case Ack(_, _) =>
    case Nack(_, _, _) =>
    case Recover(_, _, _) =>
  }

  lemma ApplyAt(s: System, op: Op, x: Message)
    requires ConservedAt(s, x) && TagsBelow(s)
    ensures ConservedAt(Apply(s, op), x)
  {
    match op
    case Enqueue(q, m) => EnqueueAt(s, q, m, x);
    case Get(q, autoAck, ch, expired) => GetAt(s, q, autoAck, ch, expired, x);
    case Ack(tag, ch) => AckAt(s, tag, ch, x);
    case Nack(tag, ch, requeue) => NackAt(s, tag, ch, requeue, x);
    case Recover(ch, requeue, order) =>
      if Enumerates(TagsOf(s.channels, ch), order) { RecoverAt(s, ch, requeue, order, x); }
  }

  lemma {:induction false} RunConserves(s: System, ops: seq<Op>)
    requires Conserved(s) && TagsBelow(s)
    ensures Conserved(ApplyAll(s, ops))
    decreases |ops|
  {
    if ops != [] {
      ApplyKeepsTags(s, ops[0]);
      forall x ensures ConservedAt(Apply(s, ops[0]), x) {
        assert ConservedAt(s, x);
        ApplyAt(s, ops[0], x);
      }
      RunConserves(Apply(s, ops[0]), ops[1..]);
    }
  }

  /** Over every run, each message enqueued is queued, in flight, acknowledged, discarded,
      auto-acknowledged or expired, as often as it was enqueued. */
  lemma MessagesConserved(ops: seq<Op>, x: Message)
    ensures var s := ApplyAll(EMPTY, ops);
            s.enqueued[x] == Queued(s.queues, x) + InFlight(s.channels, x) + s.acked[x] + s.discarded[x]
                             + s.autoAcked[x] + s.expired[x]
  {
    assert forall y :: ConservedAt(EMPTY, y);
    RunConserves(EMPTY, ops);
    assert ConservedAt(ApplyAll(EMPTY, ops), x);
  }

  /** Refusing what was just fetched moves the message to the back of the queue it came from and
      leaves the channels as they were. */
  lemma GetThenNack(s: System, q: string, ch: nat, expired: nat -> bool)
    requires Skipped(Queue(s.queues, q), expired, 0) < |Queue(s.queues, q)|
    requires s.tagSeq + 1 !in TagsOf(s.channels, ch)
    ensures var list := Queue(s.queues, q);
            var k := Skipped(list, expired, 0);
            var got := AfterGet(s, q, false, ch, expired);
            var back := AfterNack(got, got.tagSeq, ch, true);
            && back.queues == s.queues[q := list[k + 1..] + [list[k]]]
            && (forall c :: TagsOf(back.channels, c) == TagsOf(s.channels, c))
  {
    var got := AfterGet(s, q, false, ch, expired);
    var tags := TagsOf(s.channels, ch);
    var list := Queue(s.queues, q);
    assert tags[got.tagSeq := Tracked(list[Skipped(list, expired, 0)], q)] - {got.tagSeq} == tags;
  }

  function Never(): nat -> bool {
    (i: nat) => false
  }

  /** Two messages enqueued and the first fetched, unacknowledged. */
  ghost function OneFetched(q: string, first: Message, second: Message, ch: nat): System {
    AfterGet(AfterEnqueue(AfterEnqueue(EMPTY, q, first), q, second), q, false, ch, Never())
  }

  lemma ApplyThree(s: System, a: Op, b: Op, c: Op)
    ensures ApplyAll(s, [a, b, c]) == Apply(Apply(Apply(s, a), b), c)
  {
    ApplyFirst(s, a, [b, c]);
    ApplyFirst(Apply(s, a), b, [c]);
    ApplyFirst(Apply(Apply(s, a), b), c, []);
    assert [a] + [b, c] == [a, b, c] && [b] + [c] == [b, c] && [c] + [] == [c];
  }

  lemma OneFetchedIs(q: string, first: Message, second: Message, ch: nat)
    ensures var s := OneFetched(q, first, second, ch);
            && s == ApplyAll(EMPTY, [Enqueue(q, first), Enqueue(q, second), Get(q, false, ch, Never())])
            && Queue(s.queues, q) == [second] && 1 in TagsOf(s.channels, ch)
  {
    ApplyThree(EMPTY, Enqueue(q, first), Enqueue(q, second), Get(q, false, ch, Never()));
    FirstFetched(AfterEnqueue(AfterEnqueue(EMPTY, q, first), q, second), q, first, second, ch);
  }

  lemma FirstFetched(s: System, q: string, first: Message, second: Message, ch: nat)
    requires Queue(s.queues, q) == [first, second] && s.tagSeq == 0
    ensures var t := AfterGet(s, q, false, ch, Never()); Queue(t.queues, q) == [second] && 1 in TagsOf(t.channels, ch)
  {
  }

  lemma ApplyFirst(s: System, op: Op, rest: seq<Op>)
    ensures ApplyAll(s, [op] + rest) == ApplyAll(Apply(s, op), rest)
  {
    assert ([op] + rest)[1..] == rest;
  }

  /** A consumer made anew counts its tags from one again. After one unacknowledged fetch its first
      fetch on the same channel loses a message. */
  lemma NewConsumerLoses(q: string, first: Message, second: Message, ch: nat)
    ensures var s := ApplyAll(EMPTY, [Enqueue(q, first), Enqueue(q, second), Get(q, false, ch, Never())]);
            && Conserved(s) && Conserved(s.(tagSeq := 0))
            && !Conserved(AfterGet(s.(tagSeq := 0), q, false, ch, Never()))
  {
    var ops := [Enqueue(q, first), Enqueue(q, second), Get(q, false, ch, Never())];
    var s := ApplyAll(EMPTY, ops);
    OneFetchedIs(q, first, second, ch);
    forall x ensures ConservedAt(s, x) && ConservedAt(s.(tagSeq := 0), x) { MessagesConserved(ops, x); }
    GetConservesIff(s.(tagSeq := 0), q, false, ch, Never());
  }

  // ---------------------------------------------------------------- The tracker and the consumer

  lemma SkippedNext(list: seq<Message>, expired: nat -> bool, i: nat)
    requires i < |list|
    ensures Skipped(list[i..], expired, i) == if expired(i) then 1 + Skipped(list[i + 1..], expired, i + 1) else 0
  {
    assert list[i..][1..] == list[i + 1..];
  }

  class Tracker {
    var byChannel: Channels
    const store: Store

    constructor (store: Store)
      ensures byChannel == map[] && this.store == store
    {
      byChannel, this.store := map[], store;
    }

    method Record(tag: nat, msg: Message, queue: string, ch: nat)
      modifies this
      ensures byChannel == Recorded(old(byChannel), ch, tag, Tracked(msg, queue))
    {
      if ch !in byChannel { byChannel := byChannel[ch := map[]]; }
      var tags: Tags := byChannel[ch];
      tags := tags[tag := Tracked(msg, queue)];
      byChannel := byChannel[ch := tags];
    }

    /** `s` is the system this tracker and its store are part of. */
    method Ack(tag: nat, ch: nat, ghost s: System) returns (ok: bool)
      requires s.channels == byChannel
      modifies this
      ensures ok <==> tag in TagsOf(old(byChannel), ch)
      ensures byChannel == AfterAck(s, tag, ch).channels
    {
      if ch !in byChannel { return false; }
      if tag !in byChannel[ch] { return false; }
      byChannel := byChannel[ch := byChannel[ch] - {tag}];
      return true;
    }

    method Nack(tag: nat, ch: nat, requeue: bool, ghost s: System) returns (ok: bool)
      requires s.channels == byChannel && s.queues == store.queues
      modifies this, store
      ensures ok <==> tag in TagsOf(old(byChannel), ch)
      ensures byChannel == AfterNack(s, tag, ch, requeue).channels
      ensures store.queues == AfterNack(s, tag, ch, requeue).queues
    {
      if ch !in byChannel { return false; }
      if tag !in byChannel[ch] { return false; }
      var d := byChannel[ch][tag];
      byChannel := byChannel[ch := byChannel[ch] - {tag}];
      if requeue { store.Enqueue(d.queue, d.msg); }
      return true;
    }

    method Reject(tag: nat, ch: nat, requeue: bool, ghost s: System) returns (ok: bool)
      requires s.channels == byChannel && s.queues == store.queues
      modifies this, store
      ensures ok <==> tag in TagsOf(old(byChannel), ch)
      ensures byChannel == AfterNack(s, tag, ch, requeue).channels
      ensures store.queues == AfterNack(s, tag, ch, requeue).queues
    {
      ok := Nack(tag, ch, requeue, s);
    }

    /** The requeueing loop, over a channel's deliveries in whatever order the map yields them. */
    method RequeueEach(tags: Tags) returns (count: nat, ghost order: seq<nat>)
      modifies store
      ensures Enumerates(tags, order) && count == |tags|
      ensures store.queues == Requeued(old(store.queues), tags, order)
    {
      order, count := [], 0;
      var left := tags.Keys;
      while left != {}
        invariant left <= tags.Keys && count + |left| == |tags|
        invariant forall t :: t in order <==> t in tags && t !in left
        invariant forall i, j | 0 <= i < j < |order| :: order[i] != order[j]
        invariant store.queues == Requeued(old(store.queues), tags, order)
        decreases left
      {
        var t :| t in left;
        RequeuedAppend(old(store.queues), tags, order, t);
        store.Enqueue(tags[t].queue, tags[t].msg);
        order := order + [t];
        count := count + 1;
        left := left - {t};
      }
    }

    method RecoverAll(ch: nat, requeue: bool, ghost s: System) returns (count: nat, ghost order: seq<nat>)
      requires s.channels == byChannel && s.queues == store.queues
      modifies this, store
      ensures Enumerates(TagsOf(old(byChannel), ch), order) && count == |TagsOf(old(byChannel), ch)|
      ensures byChannel == AfterRecover(s, ch, requeue, order).channels
      ensures store.queues == AfterRecover(s, ch, requeue, order).queues
    {
      if ch !in byChannel { return 0, []; }
      if requeue {
        count, order := RequeueEach(byChannel[ch]);
      } else {
        count := |byChannel[ch]|;
        order := SomeOrder(byChannel[ch]);
      }
      byChannel := byChannel - {ch};
    }

    method NackAll(ch: nat, requeue: bool, ghost s: System) returns (ghost order: seq<nat>)
      requires s.channels == byChannel && s.queues == store.queues
      modifies this, store
      ensures Enumerates(TagsOf(old(byChannel), ch), order)
      ensures byChannel == AfterRecover(s, ch, requeue, order).channels
      ensures store.queues == AfterRecover(s, ch, requeue, order).queues
    {
      if ch !in byChannel { return []; }
      if requeue {
        var _, tags := RequeueEach(byChannel[ch]);
        order := tags;
      } else {
        order := SomeOrder(byChannel[ch]);
      }
      byChannel := byChannel - {ch};
    }
  }

  lemma {:induction false} SomeOrder(tags: Tags) returns (order: seq<nat>)
    ensures Enumerates(tags, order)
    decreases |tags|
  {
    if tags == map[] {
      order := [];
    } else {
      var t :| t in tags;
      var rest := SomeOrder(tags - {t});
      order := rest + [t];
    }
  }

  lemma {:induction false} RequeuedAppend(qs: Queues, tags: Tags, order: seq<nat>, t: nat)
    requires t in tags && forall u | u in order :: u in tags
    ensures forall u | u in order + [t] :: u in tags
    ensures Requeued(qs, tags, order + [t]) == Appended(Requeued(qs, tags, order), tags[t].queue, tags[t].msg)
    decreases |order|
  {
    if order == [] {
      assert order + [t] == [t];
    } else {
      assert (order + [t])[1..] == order[1..] + [t];
      RequeuedAppend(Appended(qs, tags[order[0]].queue, tags[order[0]].msg), tags, order[1..], t);
    }
  }

  class PullConsumer {
    const store: Store
    const tracker: Tracker
    var tagSeq: nat

    constructor (store: Store, tracker: Tracker)
      ensures tagSeq == 0 && this.store == store && this.tracker == tracker
    {
      tagSeq, this.store, this.tracker := 0, store, tracker;
    }

    /** Dequeues until a message is not expired. */
    method NextLive(queue: string, expired: nat -> bool) returns (found: bool, msg: Message, ghost k: nat)
      modifies store
      ensures k == Skipped(Queue(old(store.queues), queue), expired, 0)
      ensures found <==> k < |Queue(old(store.queues), queue)|
      ensures found ==> msg == Queue(old(store.queues), queue)[k]
                        && store.queues == Beyond(old(store.queues), queue, k + 1)
      ensures !found ==> store.queues == if k == 0 then old(store.queues) else old(store.queues)[queue := []]
    {
      ghost var list := Queue(store.queues, queue);
      k := 0;
      var i := 0;
      while true
        invariant 0 <= i <= |list| && k == i
        invariant store.queues == if i == 0 then old(store.queues) else Beyond(old(store.queues), queue, i)
        invariant Skipped(list, expired, 0) == i + Skipped(list[i..], expired, i)
        decreases |list| - i
      {
        assert Queue(store.queues, queue) == list[i..];
        found, msg := store.Dequeue(queue);
        if !found { return; }
        assert list[i..][1..] == list[i + 1..];
        SkippedNext(list, expired, i);
        if !expired(i) { return; }
        i := i + 1;
        k := i;
      }
    }

    method Get(queue: string, autoAck: bool, ch: nat, expired: nat -> bool, ghost s: System)
      returns (found: bool, msg: Message)
      requires s.queues == store.queues && s.channels == tracker.byChannel && s.tagSeq == tagSeq
      modifies this, store, tracker
      ensures var list := Queue(old(store.queues), queue); var k := Skipped(list, expired, 0);
              (found <==> k < |list|) && (found ==> msg == list[k])
      ensures var r := AfterGet(s, queue, autoAck, ch, expired);
              store.queues == r.queues && tracker.byChannel == r.channels && tagSeq == r.tagSeq
    {
      ghost var k;
      found, msg, k := NextLive(queue, expired);
      if found && !autoAck {
        tagSeq := tagSeq + 1;
        tracker.Record(tagSeq, msg, queue, ch);
      }
    }
  }
}
