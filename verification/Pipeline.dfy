/**
 The publish pipeline: submitters, a buffered channel, workers that gather batches, Flush and Stop.
 Each atomic operation on the counter, the channel or the cancellation is one action; any number of
 goroutines interleave.
 */
module Pipeline {

  /** A submitted message, by identity, with the exchange it is grouped by. */
  datatype Item = Item(id: nat, exchange: string)

  // ---------------------------------------------------------------- Grouping a batch by exchange

  function Of(s: seq<Item>, ex: string): seq<Item> {
    if s == [] then []
    else if s[0].exchange == ex then [s[0]] + Of(s[1..], ex) else Of(s[1..], ex)
  }

  lemma {:induction false} OfAppend(a: seq<Item>, b: seq<Item>, ex: string)
    ensures Of(a + b, ex) == Of(a, ex) + Of(b, ex)
  {
    if a == [] {
      assert a + b == b;
    } else {
      OfAppend(a[1..], b, ex);
      assert (a + b)[0] == a[0] && (a + b)[1..] == a[1..] + b;
      Regroup([a[0]], Of(a[1..], ex), Of(b, ex));
    }
  }

  lemma {:induction false} OfOf(s: seq<Item>, ex: string, other: string)
    ensures Of(Of(s, ex), other) == if ex == other then Of(s, ex) else []
  {
    if s != [] {
      OfOf(s[1..], ex, other);
      assert s[0].exchange == ex ==> Of(s, ex)[1..] == Of(s[1..], ex);
    }
  }

  /** The batch group by group, in the order in which the groups are visited. */
  function Grouped(batch: seq<Item>, groups: seq<string>): seq<Item> {
    if groups == [] then [] else Of(batch, groups[0]) + Grouped(batch, groups[1..])
  }

  predicate NoRepeats(groups: seq<string>) {
    forall i, j | 0 <= i < j < |groups| :: groups[i] != groups[j]
  }

  /** The groups are the exchanges of the batch, in some order. */
  predicate GroupsOf(batch: seq<Item>, groups: seq<string>) {
    NoRepeats(groups) && forall x | x in batch :: x.exchange in groups
  }

  lemma {:induction false} OfNone(s: seq<Item>, ex: string)
    requires forall x | x in s :: x.exchange != ex
    ensures Of(s, ex) == []
  {
    if s != [] { OfNone(s[1..], ex); }
  }

  lemma {:induction false} GroupedOf(batch: seq<Item>, groups: seq<string>, ex: string)
    requires NoRepeats(groups)
    ensures Of(Grouped(batch, groups), ex) == if ex in groups then Of(batch, ex) else []
  {
    if groups != [] {
      OfAppend(Of(batch, groups[0]), Grouped(batch, groups[1..]), ex);
      OfOf(batch, groups[0], ex);
      GroupedOf(batch, groups[1..], ex);
      assert groups == [groups[0]] + groups[1..];
    }
  }

  /** Grouping keeps the order within every exchange. */
  lemma GroupingIsStable(batch: seq<Item>, groups: seq<string>, ex: string)
    requires GroupsOf(batch, groups)
    ensures Of(Grouped(batch, groups), ex) == Of(batch, ex)
  {
    GroupedOf(batch, groups, ex);
    if ex !in groups { OfNone(batch, ex); }
  }

  lemma {:induction false} OfCount(s: seq<Item>, x: Item)
    ensures multiset(Of(s, x.exchange))[x] == multiset(s)[x]
  {
    if s != [] {
      OfCount(s[1..], x);
      assert s == [s[0]] + s[1..];
      if s[0].exchange == x.exchange {
        assert multiset(Of(s, x.exchange)) == multiset{s[0]} + multiset(Of(s[1..], x.exchange));
      }
    }
  }

  /** Grouping publishes every item of the batch as often as the batch holds it. */
  lemma GroupingIsComplete(batch: seq<Item>, groups: seq<string>)
    requires GroupsOf(batch, groups)
    ensures multiset(Grouped(batch, groups)) == multiset(batch)
  {
    forall x ensures multiset(Grouped(batch, groups))[x] == multiset(batch)[x] {
      GroupingIsStable(batch, groups, x.exchange);
      OfCount(batch, x);
      OfCount(Grouped(batch, groups), x);
    }
  }

  // ---------------------------------------------------------------- State and actions

  /** Where a worker is. `todo` is what the batch being processed has not published yet; `last`
      batches are followed by the worker's return. */
  datatype Worker =
    | Selecting
    | Filling(batch: seq<Item>)
    | Publishing(batch: seq<Item>, todo: seq<Item>, last: bool)
    | Draining(batch: seq<Item>)
    | Exited

  /** The pipeline, and a history: what was counted, sent, dropped and finished, what had been
      counted when Flush read zero, what Flush returned for, what had been sent when the first Stop began. */
  datatype Pipe = Pipe(
    batchSize: nat,
    capacity: nat,
    inFlight: int,
    input: seq<Item>,
    cancelled: bool,
    workers: seq<Worker>,
    entering: set<Item>,
    published: seq<Item>,
    counted: set<Item>,
    sent: seq<Item>,
    dropped: set<Item>,
    finished: seq<Item>,
    flushing: set<Item>,
    flushed: set<Item>,
    stopping: set<Item>)

  datatype Action =
    | SubmitCount(item: Item)
    | SubmitSend(item: Item)
    | SubmitDrop(item: Item)
    | Receive(w: nat)
    | Fill(w: nat)
    | Process(w: nat, groups: seq<string>)
    | PublishOne(w: nat)
    | Finish(w: nat)
    | NoticeCancel(w: nat)
    | Drain(w: nat)
    | DrainEnd(w: nat, groups: seq<string>)
    | FlushReadsZero
    | FlushReturns
    | StopBegins

  /** Non-positive settings fall back to the defaults. */
  function Init(batchSize: int, workers: int, buffer: int): Pipe {
    Pipe(if batchSize <= 0 then 64 else batchSize, if buffer <= 0 then 256 else buffer, 0, [], false,
         seq(if workers <= 0 then 4 else workers, _ => Selecting),
         {}, [], {}, [], {}, [], {}, {}, {})
  }

  predicate Enabled(p: Pipe, a: Action) {
    match a
    case SubmitCount(x) => x !in p.counted
    case SubmitSend(x) => x in p.entering && |p.input| < p.capacity
    case SubmitDrop(x) => x in p.entering && p.cancelled
    case Receive(w) => w < |p.workers| && p.workers[w].Selecting? && p.input != []
    case Fill(w) => w < |p.workers| && p.workers[w].Filling? && |p.workers[w].batch| < p.batchSize && p.input != []
    case Process(w, groups) =>
      && w < |p.workers| && p.workers[w].Filling? && GroupsOf(p.workers[w].batch, groups)
      && (|p.workers[w].batch| >= p.batchSize || p.input == [])
    case PublishOne(w) => w < |p.workers| && p.workers[w].Publishing? && p.workers[w].todo != []
    case Finish(w) => w < |p.workers| && p.workers[w].Publishing? && p.workers[w].todo == []
    case NoticeCancel(w) => w < |p.workers| && p.workers[w].Selecting? && p.cancelled
    case Drain(w) => w < |p.workers| && p.workers[w].Draining? && p.input != []
    case DrainEnd(w, groups) =>
      w < |p.workers| && p.workers[w].Draining? && p.input == [] && GroupsOf(p.workers[w].batch, groups)
    case FlushReadsZero => p.inFlight <= 0
    case FlushReturns => p.input == []
    case StopBegins => true
  }

  function GroupStep(p: Pipe, w: nat, groups: seq<string>, last: bool): Pipe
    requires w < |p.workers| && (p.workers[w].Filling? || p.workers[w].Draining?)
  {
    var b := p.workers[w].batch;
    p.(workers := p.workers[w := Publishing(b, Grouped(b, groups), last)])
  }

  function PublishStep(p: Pipe, w: nat): Pipe
    requires w < |p.workers| && p.workers[w].Publishing? && p.workers[w].todo != []
  {
    var s := p.workers[w];
    p.(workers := p.workers[w := s.(todo := s.todo[1..])], published := p.published + [s.todo[0]])
  }

  function FinishStep(p: Pipe, w: nat): Pipe
    requires w < |p.workers| && p.workers[w].Publishing?
  {
    var s := p.workers[w];
    p.(workers := p.workers[w := if s.last then Exited else Selecting],
       inFlight := p.inFlight - |s.batch|, finished := p.finished + s.batch)
  }

  /** Cancelling again changes nothing, so what had been sent is recorded at the first Stop. */
  function StopStep(p: Pipe): Pipe {
    if p.cancelled then p else p.(cancelled := true, stopping := set x | x in p.sent)
  }

  function Step(p: Pipe, a: Action): Pipe {
    if !Enabled(p, a) then p else
    match a
    case SubmitCount(x) =>
      p.(inFlight := p.inFlight + 1, entering := p.entering + {x}, counted := p.counted + {x})
    case SubmitSend(x) =>
      p.(input := p.input + [x], entering := p.entering - {x}, sent := p.sent + [x])
    case SubmitDrop(x) =>
      p.(inFlight := p.inFlight - 1, entering := p.entering - {x}, dropped := p.dropped + {x})
    case Receive(w) => p.(workers := p.workers[w := Filling([p.input[0]])], input := p.input[1..])
    case Fill(w) => p.(workers := p.workers[w := Filling(p.workers[w].batch + [p.input[0]])], input := p.input[1..])
    case Process(w, groups) => GroupStep(p, w, groups, false)
    case PublishOne(w) => PublishStep(p, w)
    case Finish(w) => FinishStep(p, w)
    case NoticeCancel(w) => p.(workers := p.workers[w := Draining([])])
    case Drain(w) => p.(workers := p.workers[w := Draining(p.workers[w].batch + [p.input[0]])], input := p.input[1..])
    case DrainEnd(w, groups) =>
      if p.workers[w].batch == [] then p.(workers := p.workers[w := Exited]) else GroupStep(p, w, groups, true)
    case FlushReadsZero => p.(flushing := p.counted - p.dropped)
    case FlushReturns => p.(flushed := p.flushing)
    case StopBegins => StopStep(p)
  }

  function Run(p: Pipe, actions: seq<Action>): Pipe
    decreases |actions|
  {
    if actions == [] then p else Run(Step(p, actions[0]), actions[1..])
  }

  // ---------------------------------------------------------------- What workers hold

  function Batch(w: Worker): seq<Item> {
    if w.Filling? || w.Publishing? || w.Draining? then w.batch else []
  }

  function Todo(w: Worker): seq<Item> {
    match w
    case Filling(b) => b
    case Draining(b) => b
    case Publishing(b, todo, last) => todo
    case _ => []
  }

  /** How often the workers together hold an item, and how much they hold. */
  function Tally(ws: seq<Worker>, f: Worker -> seq<Item>, x: Item): nat {
    if ws == [] then 0 else multiset(f(ws[0]))[x] + Tally(ws[1..], f, x)
  }

  function Load(ws: seq<Worker>): nat {
    if ws == [] then 0 else |Batch(ws[0])| + Load(ws[1..])
  }

  lemma {:induction false} TallyUpdate(ws: seq<Worker>, f: Worker -> seq<Item>, x: Item, i: nat, w: Worker)
    requires i < |ws|
    ensures Tally(ws[i := w], f, x) + multiset(f(ws[i]))[x] == Tally(ws, f, x) + multiset(f(w))[x]
  {
    var v := ws[i := w];
    if i == 0 {
      assert v[1..] == ws[1..];
    } else {
      TallyUpdate(ws[1..], f, x, i - 1, w);
      assert v[1..] == ws[1..][i - 1 := w];
    }
  }

  lemma {:induction false} LoadUpdate(ws: seq<Worker>, i: nat, w: Worker)
    requires i < |ws|
    ensures Load(ws[i := w]) + |Batch(ws[i])| == Load(ws) + |Batch(w)|
  {
    var v := ws[i := w];
    if i == 0 {
      assert v[1..] == ws[1..];
    } else {
      LoadUpdate(ws[1..], i - 1, w);
      assert v[1..] == ws[1..][i - 1 := w];
    }
  }

  lemma {:induction false} NoLoad(ws: seq<Worker>, w: Worker)
    requires Load(ws) == 0 && w in ws
    ensures Batch(w) == []
  {
    if w != ws[0] { NoLoad(ws[1..], w); }
  }

  lemma {:induction false} TallyNothing(ws: seq<Worker>, f: Worker -> seq<Item>, x: Item)
    requires forall w | w in ws :: f(w) == []
    ensures Tally(ws, f, x) == 0
  {
    if ws != [] {
      assert ws[0] in ws;
      TallyNothing(ws[1..], f, x);
    }
  }

  lemma {:induction false} LoadNothing(ws: seq<Worker>)
    requires forall w | w in ws :: Batch(w) == []
    ensures Load(ws) == 0
  {
    if ws != [] {
      assert ws[0] in ws;
      LoadNothing(ws[1..]);
    }
  }

  // ---------------------------------------------------------------- Accounting

  function One(b: bool): nat {
    if b then 1 else 0
  }

  /** Every counted item is entering, sent or dropped, and is so once. */
  ghost predicate SubmittedAt(p: Pipe, x: Item) {
    One(x in p.counted) == One(x in p.entering) + multiset(p.sent)[x] + One(x in p.dropped)
  }

  /** Every sent item is in the channel, waiting to be published by a worker, or published. */
  ghost predicate DeliveredAt(p: Pipe, x: Item) {
    multiset(p.sent)[x] == multiset(p.input)[x] + Tally(p.workers, Todo, x) + multiset(p.published)[x]
  }

  /** Every sent item is in the channel, in a worker's batch, or finished. */
  ghost predicate BatchedAt(p: Pipe, x: Item) {
    multiset(p.sent)[x] == multiset(p.input)[x] + Tally(p.workers, Batch, x) + multiset(p.finished)[x]
  }

  ghost predicate ItemAt(p: Pipe, x: Item) {
    SubmittedAt(p, x) && DeliveredAt(p, x) && BatchedAt(p, x)
  }

  ghost predicate Items(p: Pipe) {
    forall x :: ItemAt(p, x)
  }

  /** The same in numbers, and what the counter counts. */
  ghost predicate Numbers(p: Pipe) {
    && |p.counted| == |p.entering| + |p.sent| + |p.dropped|
    && |p.sent| == |p.input| + Load(p.workers) + |p.finished|
    && p.inFlight == |p.counted| - |p.dropped| - |p.finished|
  }

  ghost predicate WorkersOk(p: Pipe) {
    forall w | w in p.workers :: multiset(Todo(w)) <= multiset(Batch(w))
  }

  ghost predicate Accounts(p: Pipe) {
    Items(p) && Numbers(p) && WorkersOk(p)
  }

  lemma ItemReplaced(p: Pipe, w: nat, s: Worker, x: Item)
    requires w < |p.workers|
    ensures Tally(p.workers[w := s], Batch, x) + multiset(Batch(p.workers[w]))[x] ==
            Tally(p.workers, Batch, x) + multiset(Batch(s))[x]
    ensures Tally(p.workers[w := s], Todo, x) + multiset(Todo(p.workers[w]))[x] ==
            Tally(p.workers, Todo, x) + multiset(Todo(s))[x]
  {
    TallyUpdate(p.workers, Batch, x, w, s);
    TallyUpdate(p.workers, Todo, x, w, s);
  }

  lemma AccountsCount(p: Pipe, x: Item)
    requires Accounts(p) && Enabled(p, SubmitCount(x))
    ensures Accounts(Step(p, SubmitCount(x)))
  {
    var q := Step(p, SubmitCount(x));
    assert ItemAt(p, x);
    forall y ensures ItemAt(q, y) { assert ItemAt(p, y); }
  }

  lemma AccountsSend(p: Pipe, x: Item)
    requires Accounts(p) && Enabled(p, SubmitSend(x))
    ensures Accounts(Step(p, SubmitSend(x)))
  {
    var q := Step(p, SubmitSend(x));
    assert ItemAt(p, x);
    forall y ensures ItemAt(q, y) { assert ItemAt(p, y); }
  }

  lemma AccountsDrop(p: Pipe, x: Item)
    requires Accounts(p) && Enabled(p, SubmitDrop(x))
    ensures Accounts(Step(p, SubmitDrop(x)))
  {
    var q := Step(p, SubmitDrop(x));
    assert ItemAt(p, x);
    forall y ensures ItemAt(q, y) { assert ItemAt(p, y); }
  }

  lemma HeadCount(s: seq<Item>, x: Item)
    requires s != []
    ensures multiset(s)[x] == One(s[0] == x) + multiset(s[1..])[x]
  {
    assert s == [s[0]] + s[1..];
  }

  lemma LastCount(s: seq<Item>, y: Item, x: Item)
    ensures multiset(s + [y])[x] == multiset(s)[x] + One(y == x)
  {
  }

  /** A worker takes the first item of the channel into its batch. */
  lemma AccountsTake(p: Pipe, w: nat, s: Worker)
    requires Accounts(p) && w < |p.workers| && p.input != []
    requires Batch(s) == Batch(p.workers[w]) + [p.input[0]]
    requires Todo(s) == Batch(s) && Todo(p.workers[w]) == Batch(p.workers[w])
    ensures Accounts(p.(workers := p.workers[w := s], input := p.input[1..]))
  {
    var q := p.(workers := p.workers[w := s], input := p.input[1..]);
    LoadUpdate(p.workers, w, s);
    forall x ensures ItemAt(q, x) {
      assert ItemAt(p, x);
      ItemReplaced(p, w, s, x);
      HeadCount(p.input, x);
      LastCount(Batch(p.workers[w]), p.input[0], x);
    }
  }

  /** A worker keeps its batch and remaining items, whatever it does next. */
  lemma AccountsMove(p: Pipe, w: nat, s: Worker)
    requires Accounts(p) && w < |p.workers|
    requires Batch(s) == Batch(p.workers[w]) && multiset(Todo(s)) == multiset(Todo(p.workers[w]))
    ensures Accounts(p.(workers := p.workers[w := s]))
  {
    var q := p.(workers := p.workers[w := s]);
    assert p.workers[w] in p.workers;
    LoadUpdate(p.workers, w, s);
    forall x ensures ItemAt(q, x) {
      assert ItemAt(p, x);
      ItemReplaced(p, w, s, x);
    }
  }

  lemma TodoShrinks(s: Worker)
    requires s.Publishing? && s.todo != [] && multiset(s.todo) <= multiset(s.batch)
    ensures multiset(s.todo[1..]) <= multiset(s.batch)
  {
    assert s.todo == [s.todo[0]] + s.todo[1..];
  }

  lemma AccountsPublish(p: Pipe, w: nat)
    requires Accounts(p) && w < |p.workers| && p.workers[w].Publishing? && p.workers[w].todo != []
    ensures Accounts(PublishStep(p, w))
  {
    var s := p.workers[w];
    var r := s.(todo := s.todo[1..]);
    var q := PublishStep(p, w);
    assert s in p.workers;
    TodoShrinks(s);
    LoadUpdate(p.workers, w, r);
    forall x ensures ItemAt(q, x) {
      assert ItemAt(p, x);
      ItemReplaced(p, w, r, x);
      HeadCount(s.todo, x);
      LastCount(p.published, s.todo[0], x);
    }
  }

  lemma AppendCount(a: seq<Item>, b: seq<Item>, x: Item)
    ensures multiset(a + b)[x] == multiset(a)[x] + multiset(b)[x]
  {
  }

  lemma AccountsFinish(p: Pipe, w: nat)
    requires Accounts(p) && w < |p.workers| && p.workers[w].Publishing? && p.workers[w].todo == []
    ensures Accounts(FinishStep(p, w))
  {
    var s := p.workers[w];
    var r := if s.last then Exited else Selecting;
    var q := FinishStep(p, w);
    LoadUpdate(p.workers, w, r);
    forall x ensures ItemAt(q, x) {
      assert ItemAt(p, x);
      ItemReplaced(p, w, r, x);
      AppendCount(p.finished, s.batch, x);
    }
  }

  lemma AccountsGroup(p: Pipe, w: nat, groups: seq<string>, last: bool)
    requires Accounts(p) && w < |p.workers| && (p.workers[w].Filling? || p.workers[w].Draining?)
    requires GroupsOf(p.workers[w].batch, groups)
    ensures Accounts(GroupStep(p, w, groups, last))
  {
    var b := p.workers[w].batch;
    GroupingIsComplete(b, groups);
    AccountsMove(p, w, Publishing(b, Grouped(b, groups), last));
  }

  lemma AccountsQuiet(p: Pipe, q: Pipe)
    requires Accounts(p) && q.workers == p.workers && q.sent == p.sent && q.input == p.input
    requires q.published == p.published
    requires q.counted == p.counted && q.entering == p.entering && q.dropped == p.dropped && q.finished == p.finished
    requires q.inFlight == p.inFlight
    ensures Accounts(q)
  {
    forall x ensures ItemAt(q, x) { assert ItemAt(p, x); }
  }

  lemma AccountsWorker(p: Pipe, a: Action)
    requires Accounts(p) && Enabled(p, a) && (a.Receive? || a.Fill? || a.Drain? || a.NoticeCancel?)
    ensures Accounts(Step(p, a))
  {
    match a
    case Receive(w) => AccountsReceive(p, w);
    case Fill(w) => AccountsFill(p, w);
    case Drain(w) => AccountsDrain(p, w);
    case NoticeCancel(w) => AccountsNotice(p, w);
  }

  lemma AccountsReceive(p: Pipe, w: nat)
    requires Accounts(p) && Enabled(p, Receive(w))
    ensures Accounts(Step(p, Receive(w)))
  {
    AccountsTake(p, w, Filling([p.input[0]]));
  }

  lemma AccountsFill(p: Pipe, w: nat)
    requires Accounts(p) && Enabled(p, Fill(w))
    ensures Accounts(Step(p, Fill(w)))
  {
    AccountsTake(p, w, Filling(p.workers[w].batch + [p.input[0]]));
  }

  lemma AccountsDrain(p: Pipe, w: nat)
    requires Accounts(p) && Enabled(p, Drain(w))
    ensures Accounts(Step(p, Drain(w)))
  {
    AccountsTake(p, w, Draining(p.workers[w].batch + [p.input[0]]));
  }

  lemma AccountsNotice(p: Pipe, w: nat)
    requires Accounts(p) && Enabled(p, NoticeCancel(w))
    ensures Accounts(Step(p, NoticeCancel(w)))
  {
    AccountsMove(p, w, Draining([]));
  }

  lemma AccountsDrained(p: Pipe, w: nat, groups: seq<string>)
    requires Accounts(p) && Enabled(p, DrainEnd(w, groups))
    ensures Accounts(Step(p, DrainEnd(w, groups)))
  {
    if p.workers[w].batch == [] {
      AccountsMove(p, w, Exited);
    } else {
      AccountsGroup(p, w, groups, true);
    }
  }

  lemma AccountsStep(p: Pipe, a: Action)
    requires Accounts(p)
    ensures Accounts(Step(p, a))
  {
    if Enabled(p, a) {
      match a
      case SubmitCount(x) => AccountsCount(p, x);
      case SubmitSend(x) => AccountsSend(p, x);
      case SubmitDrop(x) => AccountsDrop(p, x);
      case Process(w, groups) => AccountsGroup(p, w, groups, false);
      case DrainEnd(w, groups) => AccountsDrained(p, w, groups);
      case PublishOne(w) => AccountsPublish(p, w);
      case Finish(w) => AccountsFinish(p, w);
      case FlushReadsZero => AccountsQuiet(p, Step(p, a));
      case FlushReturns => AccountsQuiet(p, Step(p, a));
      case StopBegins => AccountsQuiet(p, Step(p, a));
      case _ => AccountsWorker(p, a);
    }
  }

  lemma {:induction false} TodoWithinBatch(ws: seq<Worker>, x: Item)
    requires forall w | w in ws :: multiset(Todo(w)) <= multiset(Batch(w))
    ensures Tally(ws, Todo, x) <= Tally(ws, Batch, x)
  {
    if ws != [] {
      assert ws[0] in ws;
      TodoWithinBatch(ws[1..], x);
    }
  }

  /** When the counter is zero, every counted item that was not dropped has been published
      exactly once. */
  lemma ZeroMeansPublished(p: Pipe)
    requires Accounts(p) && p.inFlight <= 0
    ensures forall x | x in p.counted && x !in p.dropped :: multiset(p.published)[x] == 1
  {
    assert p.entering == {} && p.input == [] && Load(p.workers) == 0;
    forall w | w in p.workers ensures Todo(w) == [] {
      NoLoad(p.workers, w);
      assert |multiset(Todo(w))| <= |multiset(Batch(w))| == 0;
    }
    forall x | x in p.counted && x !in p.dropped ensures multiset(p.published)[x] == 1 {
      assert ItemAt(p, x);
      TallyNothing(p.workers, Todo, x);
    }
  }

  // ---------------------------------------------------------------- Flush and Stop

  /** Published items stay published, and once. */
  lemma PublishedOnce(p: Pipe, x: Item)
    requires Accounts(p)
    ensures multiset(p.published)[x] <= 1
  {
    assert ItemAt(p, x);
  }

  ghost predicate FlushOk(p: Pipe) {
    forall x | x in p.flushing + p.flushed :: x in p.published
  }

  lemma FlushStep(p: Pipe, a: Action)
    requires Accounts(p) && FlushOk(p)
    ensures FlushOk(Step(p, a))
  {
    if Enabled(p, a) && a.FlushReadsZero? {
      ZeroMeansPublished(p);
      var q := Step(p, a);
      forall x | x in q.flushing + q.flushed ensures x in q.published {
        if x in q.flushing { assert multiset(p.published)[x] == 1; }
      }
    }
  }

  /** A worker that saw the cancelled pipeline's channel empty. */
  predicate Left(w: Worker) {
    w.Exited? || (w.Publishing? && w.last)
  }

  /** Workers wind down only after cancellation, items are dropped only then, and once a worker
      has seen the channel empty nothing sent before the first Stop is in it. */
  ghost predicate StopOk(p: Pipe) {
    && (!p.cancelled ==> p.dropped == {} && p.stopping == {} && forall w | w in p.workers :: !Left(w) && !w.Draining?)
    && (forall x | x in p.stopping :: x in p.sent)
    && ((exists w :: w in p.workers && Left(w)) ==> forall x | x in p.input :: x !in p.stopping)
  }

  lemma StopSend(p: Pipe, x: Item)
    requires Accounts(p) && StopOk(p) && Enabled(p, SubmitSend(x))
    ensures StopOk(Step(p, SubmitSend(x)))
  {
    assert ItemAt(p, x);
  }

  lemma StopReplaced(p: Pipe, q: Pipe, w: nat, s: Worker)
    requires StopOk(p) && w < |p.workers| && q.workers == p.workers[w := s]
    requires q.cancelled == p.cancelled && q.dropped == p.dropped && q.stopping == p.stopping && q.sent == p.sent
    requires forall x | x in q.input :: x in p.input
    requires Left(s) ==> Left(p.workers[w]) || q.input == []
    requires Left(s) || s.Draining? ==> p.cancelled
    ensures StopOk(q)
  {
    if k :| k in q.workers && Left(k) {
      if q.input != [] {
        assert exists v :: v in p.workers && Left(v) by {
          if k == s {
            assert p.workers[w] in p.workers;
          } else {
            assert k in p.workers;
          }
        }
      }
    }
  }

  lemma StopTake(p: Pipe, a: Action)
    requires StopOk(p) && Enabled(p, a) && (a.Receive? || a.Fill? || a.Drain? || a.NoticeCancel?)
    ensures StopOk(Step(p, a))
  {
    assert p.workers[a.w] in p.workers;
    StopReplaced(p, Step(p, a), a.w, Step(p, a).workers[a.w]);
  }

  lemma StopPublish(p: Pipe, a: Action)
    requires StopOk(p) && Enabled(p, a) && (a.Process? || a.PublishOne? || a.Finish? || a.DrainEnd?)
    ensures StopOk(Step(p, a))
  {
    assert p.workers[a.w] in p.workers;
    StopReplaced(p, Step(p, a), a.w, Step(p, a).workers[a.w]);
  }

  lemma StopOkStep(p: Pipe, a: Action)
    requires Accounts(p) && StopOk(p)
    ensures StopOk(Step(p, a))
  {
    if Enabled(p, a) {
      match a
      case SubmitSend(x) => StopSend(p, x);
      case SubmitCount(x) =>
      case SubmitDrop(x) =>
      case FlushReadsZero =>
      case FlushReturns =>
      case StopBegins =>
      case Receive(w) => StopTake(p, a);
      case Fill(w) => StopTake(p, a);
      case Drain(w) => StopTake(p, a);
      case NoticeCancel(w) => StopTake(p, a);
      case _ => StopPublish(p, a);
    }
  }

  // ---------------------------------------------------------------- Order with one worker

  ghost predicate InOrder(p: Pipe, ex: string) {
    |p.workers| == 1 && Of(p.sent, ex) == Of(p.published, ex) + Of(Todo(p.workers[0]), ex) + Of(p.input, ex)
  }

  lemma OrderMoves(done: seq<Item>, todo: seq<Item>, x: Item, rest: seq<Item>, ex: string)
    ensures Of(done, ex) + Of(todo, ex) + Of([x] + rest, ex) == Of(done, ex) + Of(todo + [x], ex) + Of(rest, ex)
  {
    OfAppend(todo, [x], ex);
    OfAppend([x], rest, ex);
    var d, t, y, r := Of(done, ex), Of(todo, ex), Of([x], ex), Of(rest, ex);
    Shift(d, t, y, r);
  }

  lemma Shift(d: seq<Item>, t: seq<Item>, y: seq<Item>, r: seq<Item>)
    ensures d + t + (y + r) == d + (t + y) + r
  {
  }

  lemma OrderTake(p: Pipe, q: Pipe, ex: string)
    requires InOrder(p, ex) && p.input != [] && |q.workers| == 1
    requires Todo(q.workers[0]) == Todo(p.workers[0]) + [p.input[0]] && q.input == p.input[1..]
    requires q.sent == p.sent && q.published == p.published
    ensures InOrder(q, ex)
  {
    assert p.input == [p.input[0]] + p.input[1..];
    OrderMoves(p.published, Todo(p.workers[0]), p.input[0], p.input[1..], ex);
  }

  lemma OrderSend(p: Pipe, x: Item, ex: string)
    requires InOrder(p, ex)
    ensures InOrder(p.(input := p.input + [x], sent := p.sent + [x]), ex)
  {
    OfAppend(p.sent, [x], ex);
    OfAppend(p.input, [x], ex);
  }

  lemma OrderPublish(p: Pipe, ex: string)
    requires InOrder(p, ex) && p.workers[0].Publishing? && p.workers[0].todo != []
    ensures InOrder(PublishStep(p, 0), ex)
  {
    var todo := p.workers[0].todo;
    OfAppend(p.published, [todo[0]], ex);
    OfAppend([todo[0]], todo[1..], ex);
    assert todo == [todo[0]] + todo[1..];
    Regroup(Of(p.published, ex), Of([todo[0]], ex), Of(todo[1..], ex));
  }

  lemma Regroup(a: seq<Item>, b: seq<Item>, c: seq<Item>)
    ensures a + b + c == a + (b + c)
  {
  }

  /** Everything else leaves the remaining items of each exchange in order. */
  lemma OrderSame(p: Pipe, q: Pipe, ex: string)
    requires InOrder(p, ex) && |q.workers| == 1 && Of(Todo(q.workers[0]), ex) == Of(Todo(p.workers[0]), ex)
    requires q.sent == p.sent && q.published == p.published && q.input == p.input
    ensures InOrder(q, ex)
  {
  }

  lemma OrderGroup(p: Pipe, a: Action, ex: string)
    requires InOrder(p, ex) && Enabled(p, a) && (a.Process? || a.DrainEnd?)
    ensures InOrder(Step(p, a), ex)
  {
    if a.DrainEnd? && p.workers[0].batch == [] {
      OrderSame(p, p.(workers := p.workers[0 := Exited]), ex);
    } else {
      OrderGrouped(p, a.groups, a.DrainEnd?, ex);
    }
  }

  lemma OrderGrouped(p: Pipe, groups: seq<string>, last: bool, ex: string)
    requires InOrder(p, ex) && (p.workers[0].Filling? || p.workers[0].Draining?) && GroupsOf(p.workers[0].batch, groups)
    ensures InOrder(GroupStep(p, 0, groups, last), ex)
  {
    GroupingIsStable(p.workers[0].batch, groups, ex);
    OrderSame(p, GroupStep(p, 0, groups, last), ex);
  }

  lemma OrderWorker(p: Pipe, a: Action, ex: string)
    requires InOrder(p, ex) && Enabled(p, a) && (a.Receive? || a.Fill? || a.Drain?)
    ensures InOrder(Step(p, a), ex)
  {
    assert a.w == 0;
    OrderTake(p, Step(p, a), ex);
  }

  lemma OrderStep(p: Pipe, a: Action, ex: string)
    requires InOrder(p, ex)
    ensures InOrder(Step(p, a), ex)
  {
    if Enabled(p, a) {
      match a
      case SubmitSend(x) => OrderSend(p.(entering := p.entering - {x}), x, ex);
      case Receive(w) => OrderWorker(p, a, ex);
      case Fill(w) => OrderWorker(p, a, ex);
      case Drain(w) => OrderWorker(p, a, ex);
      case Process(w, groups) => OrderGroup(p, a, ex);
      case DrainEnd(w, groups) => OrderGroup(p, a, ex);
      case PublishOne(w) => OrderPublish(p, ex);
      case _ => OrderSame(p, Step(p, a), ex);
    }
  }

  // ---------------------------------------------------------------- Theorems over every interleaving

  ghost predicate Inv(p: Pipe) {
    Accounts(p) && FlushOk(p) && StopOk(p) && |p.workers| >= 1
  }

  lemma StepInv(p: Pipe, a: Action)
    requires Inv(p)
    ensures Inv(Step(p, a)) && |Step(p, a).workers| == |p.workers|
  {
    AccountsStep(p, a);
    FlushStep(p, a);
    StopOkStep(p, a);
    StepWorkers(p, a);
  }

  lemma StepWorkers(p: Pipe, a: Action)
    ensures |Step(p, a).workers| == |p.workers|
  {
  }

  lemma {:induction false} RunInv(p: Pipe, actions: seq<Action>)
    requires Inv(p)
    ensures Inv(Run(p, actions))
    decreases |actions|
  {
    if actions != [] {
      StepInv(p, actions[0]);
      RunInv(Step(p, actions[0]), actions[1..]);
    }
  }

  lemma InitInv(batchSize: int, workers: int, buffer: int)
    ensures Inv(Init(batchSize, workers, buffer))
  {
    var p := Init(batchSize, workers, buffer);
    LoadNothing(p.workers);
    forall x ensures ItemAt(p, x) {
      TallyNothing(p.workers, Batch, x);
      TallyNothing(p.workers, Todo, x);
    }
  }

  /** In every interleaving the counter equals the number of items submitted and not finished. */
  lemma CounterIsExact(batchSize: int, workers: int, buffer: int, actions: seq<Action>)
    ensures var p := Run(Init(batchSize, workers, buffer), actions);
            p.inFlight == |p.counted| - |p.dropped| - |p.finished| && p.inFlight >= 0
            && forall x :: multiset(p.finished)[x] <= multiset(p.published)[x]
  {
    InitInv(batchSize, workers, buffer);
    RunInv(Init(batchSize, workers, buffer), actions);
    var p := Run(Init(batchSize, workers, buffer), actions);
    forall x ensures multiset(p.finished)[x] <= multiset(p.published)[x] {
      assert ItemAt(p, x);
      TodoWithinBatch(p.workers, x);
    }
  }

  /** Whatever had been counted when a Flush that returned read the counter has been published
      exactly once, or dropped by a cancelled pipeline; nothing is dropped before Stop. */
  lemma FlushedIsPublished(batchSize: int, workers: int, buffer: int, actions: seq<Action>)
    ensures var p := Run(Init(batchSize, workers, buffer), actions);
            && (forall x | x in p.flushed :: multiset(p.published)[x] == 1)
            && (!p.cancelled ==> p.dropped == {})
  {
    InitInv(batchSize, workers, buffer);
    RunInv(Init(batchSize, workers, buffer), actions);
    var p := Run(Init(batchSize, workers, buffer), actions);
    forall x | x in p.flushed ensures multiset(p.published)[x] == 1 {
      assert x in p.flushing + p.flushed;
      PublishedOnce(p, x);
    }
  }

  ghost predicate AllExited(p: Pipe) {
    forall w | w in p.workers :: w.Exited?
  }

  lemma ExitedHoldNothing(p: Pipe, x: Item)
    requires Inv(p) && AllExited(p) && x in p.sent
    ensures multiset(p.published)[x] == if x in p.input then 0 else 1
    ensures x in p.input ==> x !in p.stopping
  {
    assert p.workers[0] in p.workers && Left(p.workers[0]);
    assert ItemAt(p, x);
    TallyNothing(p.workers, Todo, x);
  }

  /** When all workers have returned, an item that was sent has been published, exactly once, if and
      only if it is not in the channel; what is in the channel was sent after the first Stop began. */
  lemma StoppedIff(batchSize: int, workers: int, buffer: int, actions: seq<Action>, x: Item)
    ensures var p := Run(Init(batchSize, workers, buffer), actions);
            AllExited(p) && x in p.sent ==>
              && (multiset(p.published)[x] == 1 <==> x !in p.input)
              && (x in p.input ==> x !in p.stopping && multiset(p.published)[x] == 0)
  {
    InitInv(batchSize, workers, buffer);
    RunInv(Init(batchSize, workers, buffer), actions);
    var p := Run(Init(batchSize, workers, buffer), actions);
    if AllExited(p) && x in p.sent { ExitedHoldNothing(p, x); }
  }

  /** When all workers have returned, everything sent before the first Stop began has been published
      exactly once. */
  lemma StopDrains(batchSize: int, workers: int, buffer: int, actions: seq<Action>)
    ensures var p := Run(Init(batchSize, workers, buffer), actions);
            AllExited(p) ==> forall x | x in p.stopping :: multiset(p.published)[x] == 1
  {
    InitInv(batchSize, workers, buffer);
    RunInv(Init(batchSize, workers, buffer), actions);
    var p := Run(Init(batchSize, workers, buffer), actions);
    if AllExited(p) {
      forall x | x in p.stopping ensures multiset(p.published)[x] == 1 { ExitedHoldNothing(p, x); }
    }
  }

  lemma RunFive(p: Pipe, a: Action, b: Action, c: Action, d: Action, e: Action)
    ensures Run(p, [a, b, c, d, e]) == Step(Step(Step(Step(Step(p, a), b), c), d), e)
  {
    RunFirst(p, a, [b, c, d, e]);
    RunFirst(Step(p, a), b, [c, d, e]);
    RunFirst(Step(Step(p, a), b), c, [d, e]);
    RunFirst(Step(Step(Step(p, a), b), c), d, [e]);
    RunFirst(Step(Step(Step(Step(p, a), b), c), d), e, []);
    assert [a] + [b, c, d, e] == [a, b, c, d, e] && [b] + [c, d, e] == [b, c, d, e] && [c] + [d, e] == [c, d, e];
    assert [d] + [e] == [d, e] && [e] + [] == [e];
  }

  lemma RunFirst(p: Pipe, a: Action, rest: seq<Action>)
    ensures Run(p, [a] + rest) == Run(Step(p, a), rest)
  {
    assert ([a] + rest)[1..] == rest;
  }

  /** An item sent after the only worker has returned stays in the channel: a second Stop returns at
      once, and the item is neither published nor dropped but still counted. */
  lemma Stranded(batchSize: int, buffer: int, x: Item)
    ensures var p := Run(Init(batchSize, 1, buffer),
                         [StopBegins, NoticeCancel(0), DrainEnd(0, []), SubmitCount(x), SubmitSend(x)]);
            && AllExited(p) && p.sent == [x] && p.input == [x] && p.published == [] && p.dropped == {}
            && p.inFlight == 1 && Step(p, StopBegins) == p
  {
    RunFive(Init(batchSize, 1, buffer), StopBegins, NoticeCancel(0), DrainEnd(0, []), SubmitCount(x), SubmitSend(x));
    StoppedIdle(batchSize, buffer);
    LateSubmit(Init(batchSize, 1, buffer).(cancelled := true, workers := [Exited]), x);
  }

  lemma StoppedIdle(batchSize: int, buffer: int)
    ensures var p := Init(batchSize, 1, buffer);
            Step(Step(Step(p, StopBegins), NoticeCancel(0)), DrainEnd(0, [])) ==
            p.(cancelled := true, workers := [Exited])
  {
    var p := Init(batchSize, 1, buffer);
    var p1 := p.(cancelled := true);
    assert Step(p, StopBegins) == p1;
    assert Step(p1, NoticeCancel(0)) == p1.(workers := [Draining([])]);
    assert Step(p1.(workers := [Draining([])]), DrainEnd(0, [])) == p1.(workers := [Exited]);
  }

  lemma LateSubmit(p: Pipe, x: Item)
    requires x !in p.counted && p.entering == {} && |p.input| < p.capacity
    ensures Step(Step(p, SubmitCount(x)), SubmitSend(x)) ==
            p.(inFlight := p.inFlight + 1, counted := p.counted + {x}, input := p.input + [x], sent := p.sent + [x])
  {
    assert Step(p, SubmitCount(x)).entering == {x};
  }

  lemma {:induction false} RunOrder(p: Pipe, actions: seq<Action>, ex: string)
    requires InOrder(p, ex)
    ensures InOrder(Run(p, actions), ex)
    decreases |actions|
  {
    if actions != [] {
      OrderStep(p, actions[0], ex);
      RunOrder(Step(p, actions[0]), actions[1..], ex);
    }
  }

  /** With one worker, the items of each exchange are published in the order they were sent. */
  lemma OneWorkerKeepsOrder(batchSize: int, buffer: int, actions: seq<Action>, ex: string)
    ensures var p := Run(Init(batchSize, 1, buffer), actions);
            Of(p.published, ex) <= Of(p.sent, ex)
  {
    RunOrder(Init(batchSize, 1, buffer), actions, ex);
  }

  // ---------------------------------------------------------------- The loops of processBatch

  function GroupIn(byEx: map<string, seq<Item>>, ex: string): seq<Item> {
    if ex in byEx then byEx[ex] else []
  }

  ghost predicate GroupAt(byEx: map<string, seq<Item>>, s: seq<Item>, ex: string) {
    GroupIn(byEx, ex) == Of(s, ex)
  }

  ghost predicate GroupedInto(byEx: map<string, seq<Item>>, s: seq<Item>) {
    forall ex :: GroupAt(byEx, s, ex)
  }

  lemma GroupNext(byEx: map<string, seq<Item>>, s: seq<Item>, x: Item)
    requires GroupedInto(byEx, s)
    ensures GroupedInto(byEx[x.exchange := GroupIn(byEx, x.exchange) + [x]], s + [x])
  {
    var next, more := byEx[x.exchange := GroupIn(byEx, x.exchange) + [x]], s + [x];
    forall ex ensures GroupAt(next, more, ex) {
      assert GroupAt(byEx, s, ex);
      OfAppend(s, [x], ex);
    }
  }

  lemma GroupsDone(byEx: map<string, seq<Item>>, s: seq<Item>)
    requires GroupedInto(byEx, s)
    ensures forall x | x in s :: x.exchange in byEx
    ensures forall ex | ex in byEx :: byEx[ex] == Of(s, ex)
  {
    forall ex | ex in byEx ensures byEx[ex] == Of(s, ex) { assert GroupAt(byEx, s, ex); }
    forall x | x in s ensures x.exchange in byEx {
      OfSome(s, x);
      assert GroupAt(byEx, s, x.exchange);
    }
  }

  lemma {:induction false} OfSome(s: seq<Item>, x: Item)
    requires x in s
    ensures Of(s, x.exchange) != []
  {
    if s[0].exchange != x.exchange { OfSome(s[1..], x); }
  }

  method GroupByExchange(batch: seq<Item>) returns (byEx: map<string, seq<Item>>)
    ensures forall x | x in batch :: x.exchange in byEx
    ensures forall ex | ex in byEx :: byEx[ex] == Of(batch, ex)
  {
    byEx := map[];
    var i := 0;
    while i < |batch|
      invariant 0 <= i <= |batch| && GroupedInto(byEx, batch[..i])
    {
      var x := batch[i];
      GroupNext(byEx, batch[..i], x);
      assert batch[..i + 1] == batch[..i] + [x];
      byEx := byEx[x.exchange := GroupIn(byEx, x.exchange) + [x]];
      i := i + 1;
    }
    assert batch[..i] == batch;
    GroupsDone(byEx, batch);
  }

  /** Publishing a batch: the groups in the order in which the map yields them. */
  method ProcessBatch(batch: seq<Item>) returns (published: seq<Item>, ghost groups: seq<string>)
    ensures GroupsOf(batch, groups) && published == Grouped(batch, groups)
  {
    var byEx := GroupByExchange(batch);
    published, groups := [], [];
    var left := byEx.Keys;
    while left != {}
      invariant left <= byEx.Keys && NoRepeats(groups)
      invariant forall ex :: ex in groups <==> ex in byEx && ex !in left
      invariant published == Grouped(batch, groups)
      decreases left
    {
      var ex :| ex in left;
      GroupedAppend(batch, groups, ex);
      published := PublishAll(published, byEx[ex]);
      groups := groups + [ex];
      left := left - {ex};
    }
  }

  method PublishAll(before: seq<Item>, items: seq<Item>) returns (published: seq<Item>)
    ensures published == before + items
  {
    published := before;
    var k := 0;
    while k < |items|
      invariant 0 <= k <= |items| && published == before + items[..k]
    {
      published := published + [items[k]];
      k := k + 1;
    }
    assert items[..k] == items;
  }

  lemma {:induction false} GroupedAppend(batch: seq<Item>, groups: seq<string>, ex: string)
    ensures Grouped(batch, groups + [ex]) == Grouped(batch, groups) + Of(batch, ex)
  {
    if groups == [] {
      assert groups + [ex] == [ex];
      assert [ex][1..] == [];
    } else {
      assert (groups + [ex])[1..] == groups[1..] + [ex];
      GroupedAppend(batch, groups[1..], ex);
    }
  }
}
