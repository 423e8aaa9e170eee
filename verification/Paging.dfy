/** Queue overflow to page files: the in-memory limit, and loading pages back. */
module Paging {
  import opened PageFormat
  import opened Sums
  import opened Wire

  type Lists = map<string, seq<Msg>>

  function At(m: Lists, q: string): seq<Msg> {
    if q in m then m[q] else []
  }

  function With(m: Lists, q: string, more: seq<Msg>): Lists {
    if more == [] then m else m[q := At(m, q) + more]
  }

  /** A page file is named by its queue and a number that counts the pages of the manager. */
  datatype PageId = PageId(queue: string, number: nat)

  type Pages = map<PageId, seq<Msg>>

  /** Memory, the contents of the page files and the last page number; then, per queue, what arrived,
      what was handed out, what was in pages that could not be written, what came from pages of other
      queues and went to other queues from its own, and which queues saw a failed write. */
  datatype State = State(
    memory: Lists,
    pages: Pages,
    number: nat,
    arrived: Lists,
    delivered: Lists,
    lost: Lists,
    received: Lists,
    given: Lists,
    failed: set<string>)

  const EMPTY := State(map[], map[], 0, map[], map[], map[], map[], map[], {})

  /** The older half leaves memory before its page is written. */
  function AfterPaging(s: State, q: string, written: bool): State {
    var list := At(s.memory, q);
    var half := |list| / 2;
    var s1 := s.(memory := s.memory[q := list[half..]], number := s.number + 1);
    if written then s1.(pages := s.pages[PageId(q, s.number + 1) := KeptAll(list[..half])])
    else s1.(lost := With(s.lost, q, list[..half]), failed := s.failed + {q})
  }

  /** `limit` is the number of messages kept in memory, zero if paging is off. */
  function AfterEnqueue(s: State, limit: nat, q: string, m: Msg, written: bool): State {
    var s1 := s.(memory := With(s.memory, q, [m]), arrived := With(s.arrived, q, [m]));
    if limit > 0 && |At(s1.memory, q)| > limit then AfterPaging(s1, q, written) else s1
  }

  function AfterLoad(s: State, limit: nat, q: string, id: PageId): State {
    if limit == 0 || id !in s.pages then s
    else
      var moved := if q == id.queue then [] else s.pages[id];
      s.(memory := With(s.memory, q, s.pages[id]), pages := s.pages - {id},
         received := With(s.received, q, moved), given := With(s.given, id.queue, moved))
  }

  function AfterDequeue(s: State, q: string): State {
    var list := At(s.memory, q);
    if list == [] then s
    else s.(memory := s.memory[q := list[1..]], delivered := With(s.delivered, q, [list[0]]))
  }

  datatype Op =
    | Enqueue(q: string, m: Msg, written: bool)
    | Load(q: string, id: PageId)
    | Dequeue(q: string)

  function Apply(s: State, limit: nat, op: Op): State {
    match op
    case Enqueue(q, m, written) => AfterEnqueue(s, limit, q, m, written)
    case Load(q, id) => AfterLoad(s, limit, q, id)
    case Dequeue(q) => AfterDequeue(s, q)
  }

  function ApplyAll(s: State, limit: nat, ops: seq<Op>): State
    decreases |ops|
  {
    if ops == [] then s else ApplyAll(Apply(s, limit, ops[0]), limit, ops[1..])
  }

  // ---------------------------------------------------------------- Order

  /** The messages in the pages of a queue, in the order the pages were written. */
  function Paged(pages: Pages, q: string, number: nat): seq<Msg> {
    if number == 0 then []
    else Paged(pages, q, number - 1) + if PageId(q, number) in pages then pages[PageId(q, number)] else []
  }

  ghost predicate ListOk(s: State, limit: nat, q: string) {
    limit > 0 ==> |At(s.memory, q)| <= limit
  }

  ghost predicate PagesBelow(s: State) {
    forall id | id in s.pages :: id.number <= s.number
  }

  /** The pages of a queue in the order they were written, then its list in memory. */
  function Stored(pages: Pages, number: nat, q: string, list: seq<Msg>): seq<Msg> {
    Paged(pages, q, number) + KeptAll(list)
  }

  /** Nothing is missing and nothing moved, or a page of the queue was not written and something is. */
  ghost predicate QueueOk(s: State, q: string) {
    var stored := Stored(s.pages, s.number, q, At(s.memory, q));
    if q in s.failed then |stored| < |At(s.arrived, q)| else stored == KeptAll(At(s.arrived, q))
  }

  ghost predicate Ok(s: State, limit: nat, q: string) {
    QueueOk(s, q) && ListOk(s, limit, q)
  }

  lemma {:induction false} PagedFrame(pages: Pages, id: PageId, b: seq<Msg>, q: string, number: nat)
    requires id.number > number
    ensures Paged(pages[id := b], q, number) == Paged(pages, q, number)
  {
    if number > 0 { PagedFrame(pages, id, b, q, number - 1); }
  }

  lemma PagedNext(pages: Pages, id: PageId, b: seq<Msg>, q: string)
    requires id.number > 0 && PageId(q, id.number) !in pages
    ensures Paged(pages[id := b], q, id.number) ==
            Paged(pages, q, id.number - 1) + if id.queue == q then b else []
  {
    PagedFrame(pages, id, b, q, id.number - 1);
  }

  lemma ArrivalKeeps(s: State, q: string, m: Msg, r: string)
    requires QueueOk(s, r)
    ensures QueueOk(s.(memory := With(s.memory, q, [m]), arrived := With(s.arrived, q, [m])), r)
  {
    if r == q {
      KeptAppend(At(s.memory, q), [m]);
      KeptAppend(At(s.arrived, q), [m]);
      Assoc(Paged(s.pages, q, s.number), KeptAll(At(s.memory, q)), KeptAll([m]));
    }
  }

  lemma PageMoves(pages: Pages, id: PageId, list: seq<Msg>, half: nat)
    requires id.number > 0 && id !in pages && half <= |list|
    ensures Stored(pages[id := KeptAll(list[..half])], id.number, id.queue, list[half..]) ==
            Stored(pages, id.number - 1, id.queue, list)
  {
    PagedNext(pages, id, KeptAll(list[..half]), id.queue);
    KeptSplit(list, half);
    Assoc(Paged(pages, id.queue, id.number - 1), KeptAll(list[..half]), KeptAll(list[half..]));
  }

  lemma WrittenStoresOwn(s: State, q: string)
    requires PagesBelow(s)
    ensures var t := AfterPaging(s, q, true);
            Stored(t.pages, t.number, q, At(t.memory, q)) == Stored(s.pages, s.number, q, At(s.memory, q))
  {
    PageMoves(s.pages, PageId(q, s.number + 1), At(s.memory, q), |At(s.memory, q)| / 2);
  }

  lemma WrittenStoresOther(s: State, q: string, r: string)
    requires PagesBelow(s) && r != q
    ensures var t := AfterPaging(s, q, true);
            Stored(t.pages, t.number, r, At(t.memory, r)) == Stored(s.pages, s.number, r, At(s.memory, r))
  {
    PagedNext(s.pages, PageId(q, s.number + 1), KeptAll(At(s.memory, q)[..|At(s.memory, q)| / 2]), r);
  }

  lemma WrittenKeeps(s: State, q: string, r: string)
    requires QueueOk(s, r) && PagesBelow(s)
    ensures QueueOk(AfterPaging(s, q, true), r)
  {
    if r == q { WrittenStoresOwn(s, q); } else { WrittenStoresOther(s, q, r); }
  }

  lemma PagedSkips(pages: Pages, q: string, number: nat)
    requires PageId(q, number + 1) !in pages
    ensures Paged(pages, q, number + 1) == Paged(pages, q, number)
  {
  }

  lemma UnwrittenStores(s: State, q: string, r: string)
    requires PagesBelow(s)
    ensures var t := AfterPaging(s, q, false);
            Stored(t.pages, t.number, r, At(t.memory, r)) == Stored(s.pages, s.number, r, At(t.memory, r))
  {
    assert PageId(r, s.number + 1) !in s.pages;
    PagedSkips(s.pages, r, s.number);
  }

  lemma UnwrittenKeeps(s: State, q: string, r: string)
    requires QueueOk(s, r) && PagesBelow(s) && |At(s.memory, q)| > 1
    ensures QueueOk(AfterPaging(s, q, false), r)
  {
    UnwrittenStores(s, q, r);
  }

  lemma EnqueueKeeps(s: State, limit: nat, q: string, m: Msg, written: bool, r: string)
    requires QueueOk(s, r) && PagesBelow(s) && ListOk(s, limit, q)
    ensures QueueOk(AfterEnqueue(s, limit, q, m, written), r)
  {
    var s1 := s.(memory := With(s.memory, q, [m]), arrived := With(s.arrived, q, [m]));
    ArrivalKeeps(s, q, m, r);
    if limit > 0 && |At(s1.memory, q)| > limit {
      if written { WrittenKeeps(s1, q, r); } else { UnwrittenKeeps(s1, q, r); }
    }
  }

  lemma EnqueueKeepsList(s: State, limit: nat, q: string, m: Msg, written: bool, r: string)
    requires ListOk(s, limit, q) && ListOk(s, limit, r)
    ensures ListOk(AfterEnqueue(s, limit, q, m, written), limit, r)
  {
  }

  lemma EnqueueKeepsAll(s: State, limit: nat, q: string, m: Msg, written: bool)
    requires PagesBelow(s) && forall r :: Ok(s, limit, r)
    ensures var t := AfterEnqueue(s, limit, q, m, written); PagesBelow(t) && forall r :: Ok(t, limit, r)
  {
    assert Ok(s, limit, q);
    forall r ensures Ok(AfterEnqueue(s, limit, q, m, written), limit, r) {
      assert Ok(s, limit, r);
      EnqueueKeeps(s, limit, q, m, written, r);
      EnqueueKeepsList(s, limit, q, m, written, r);
    }
  }

  lemma {:induction false} EnqueuesKeep(s: State, limit: nat, ops: seq<Op>)
    requires PagesBelow(s) && forall q :: Ok(s, limit, q)
    requires forall op | op in ops :: op.Enqueue?
    ensures forall q :: Ok(ApplyAll(s, limit, ops), limit, q)
    decreases |ops|
  {
    if ops != [] {
      EnqueueKeepsAll(s, limit, ops[0].q, ops[0].m, ops[0].written);
      EnqueuesKeep(Apply(s, limit, ops[0]), limit, ops[1..]);
    }
  }

  /** In enqueue-only runs memory ends within its limit, and the pages in the order they were
      written followed by memory hold the arrivals of a queue, in order, exactly when no page of
      that queue failed to be written. */
  lemma ArrivalsKeptInOrder(limit: nat, ops: seq<Op>, q: string)
    requires forall op | op in ops :: op.Enqueue?
    ensures var s := ApplyAll(EMPTY, limit, ops);
            && (limit > 0 ==> |At(s.memory, q)| <= limit)
            && (Stored(s.pages, s.number, q, At(s.memory, q)) == KeptAll(At(s.arrived, q)) <==> q !in s.failed)
  {
    EnqueuesKeep(EMPTY, limit, ops);
    assert Ok(ApplyAll(EMPTY, limit, ops), limit, q);
  }

  // ---------------------------------------------------------------- Conservation

  /** How often a list holds a message, up to what a page keeps of it. */
  function Copies(list: seq<Msg>, x: Msg): nat {
    if list == [] then 0 else (if Kept(list[0]) == x then 1 else 0) + Copies(list[1..], x)
  }

  function PageCopies(id: PageId, list: seq<Msg>, q: string, x: Msg): nat {
    if id.queue == q then Copies(list, x) else 0
  }

  ghost function PagedCopies(pages: Pages, q: string, x: Msg): nat {
    Total(pages, (id: PageId, list: seq<Msg>) => PageCopies(id, list, q, x))
  }

  lemma {:induction false} CopiesAppend(a: seq<Msg>, b: seq<Msg>, x: Msg)
    ensures Copies(a + b, x) == Copies(a, x) + Copies(b, x)
  {
    if a == [] {
      assert a + b == b;
    } else {
      assert (a + b)[1..] == a[1..] + b;
      CopiesAppend(a[1..], b, x);
    }
  }

  lemma CopiesSplit(list: seq<Msg>, k: nat, x: Msg)
    requires k <= |list|
    ensures Copies(list, x) == Copies(list[..k], x) + Copies(list[k..], x)
  {
    assert list == list[..k] + list[k..];
    CopiesAppend(list[..k], list[k..], x);
  }

  lemma {:induction false} CopiesKept(list: seq<Msg>, x: Msg)
    ensures Copies(KeptAll(list), x) == Copies(list, x)
  {
    if list != [] {
      KeptIff(Kept(list[0]));
      assert KeptAll(list)[1..] == KeptAll(list[1..]);
      CopiesKept(list[1..], x);
    }
  }

  lemma {:induction false} CopiesCount(list: seq<Msg>, x: Msg)
    ensures Copies(list, x) == multiset(KeptAll(list))[x]
  {
    if list != [] { CopiesCount(list[1..], x); }
  }

  lemma CopiesAdded(pages: Pages, id: PageId, list: seq<Msg>, q: string, x: Msg)
    requires id !in pages
    ensures PagedCopies(pages[id := list], q, x) == PagedCopies(pages, q, x) + PageCopies(id, list, q, x)
  {
    TotalUpdate(pages, (i: PageId, l: seq<Msg>) => PageCopies(i, l, q, x), id, list);
  }

  lemma CopiesRemoved(pages: Pages, id: PageId, q: string, x: Msg)
    requires id in pages
    ensures PagedCopies(pages, q, x) == PagedCopies(pages - {id}, q, x) + PageCopies(id, pages[id], q, x)
  {
    TotalRemove(pages, (i: PageId, l: seq<Msg>) => PageCopies(i, l, q, x), id);
  }

  /** How often the list of a queue holds the message. */
  function In(m: Lists, q: string, x: Msg): nat {
    Copies(At(m, q), x)
  }

  lemma InWith(m: Lists, q: string, more: seq<Msg>, r: string, x: Msg)
    ensures In(With(m, q, more), r, x) == In(m, r, x) + if r == q then Copies(more, x) else 0
  {
    CopiesAppend(At(m, q), more, x);
  }

  lemma InSet(m: Lists, q: string, list: seq<Msg>, r: string, x: Msg)
    ensures In(m[q := list], r, x) == if r == q then Copies(list, x) else In(m, r, x)
  {
  }

  /** What came to the queue is where it can be. */
  ghost predicate Balanced(s: State, q: string, x: Msg) {
    In(s.arrived, q, x) + In(s.received, q, x) ==
      In(s.delivered, q, x) + In(s.lost, q, x) + In(s.given, q, x) + PagedCopies(s.pages, q, x) + In(s.memory, q, x)
  }

  lemma ArrivalBalances(s: State, q: string, m: Msg, r: string, x: Msg)
    requires Balanced(s, r, x)
    ensures Balanced(s.(memory := With(s.memory, q, [m]), arrived := With(s.arrived, q, [m])), r, x)
  {
    InWith(s.memory, q, [m], r, x);
    InWith(s.arrived, q, [m], r, x);
  }

  /** The older half and the rest of a queue make up the queue. */
  lemma HalfIn(m: Lists, q: string, r: string, x: Msg)
    ensures var list := At(m, q); var half := |list| / 2;
            In(m[q := list[half..]], r, x) + (if r == q then Copies(list[..half], x) else 0) == In(m, r, x)
  {
    var list := At(m, q);
    CopiesSplit(list, |list| / 2, x);
    InSet(m, q, list[|list| / 2..], r, x);
  }

  lemma WrittenBalances(s: State, q: string, r: string, x: Msg)
    requires Balanced(s, r, x) && PagesBelow(s)
    ensures Balanced(AfterPaging(s, q, true), r, x)
  {
    var list := At(s.memory, q);
    HalfIn(s.memory, q, r, x);
    CopiesKept(list[..|list| / 2], x);
    CopiesAdded(s.pages, PageId(q, s.number + 1), KeptAll(list[..|list| / 2]), r, x);
  }

  lemma UnwrittenBalances(s: State, q: string, r: string, x: Msg)
    requires Balanced(s, r, x)
    ensures Balanced(AfterPaging(s, q, false), r, x)
  {
    var list := At(s.memory, q);
    HalfIn(s.memory, q, r, x);
    InWith(s.lost, q, list[..|list| / 2], r, x);
  }

  lemma LoadOwnBalances(s: State, id: PageId, r: string, x: Msg)
    requires Balanced(s, r, x) && id in s.pages
    ensures Balanced(s.(memory := With(s.memory, id.queue, s.pages[id]), pages := s.pages - {id}), r, x)
  {
    CopiesRemoved(s.pages, id, r, x);
    InWith(s.memory, id.queue, s.pages[id], r, x);
  }

  lemma LoadOtherBalances(s: State, q: string, id: PageId, r: string, x: Msg)
    requires Balanced(s, r, x) && id in s.pages && q != id.queue
    ensures Balanced(s.(memory := With(s.memory, q, s.pages[id]), pages := s.pages - {id},
                        received := With(s.received, q, s.pages[id]), given := With(s.given, id.queue, s.pages[id])),
                     r, x)
  {
    CopiesRemoved(s.pages, id, r, x);
    InWith(s.memory, q, s.pages[id], r, x);
    InWith(s.received, q, s.pages[id], r, x);
    InWith(s.given, id.queue, s.pages[id], r, x);
  }

  lemma LoadBalances(s: State, limit: nat, q: string, id: PageId, r: string, x: Msg)
    requires Balanced(s, r, x)
    ensures Balanced(AfterLoad(s, limit, q, id), r, x)
  {
    if limit > 0 && id in s.pages {
      if q == id.queue { LoadOwnBalances(s, id, r, x); } else { LoadOtherBalances(s, q, id, r, x); }
    }
  }

  lemma DequeueBalances(s: State, q: string, r: string, x: Msg)
    requires Balanced(s, r, x)
    ensures Balanced(AfterDequeue(s, q), r, x)
  {
    var list := At(s.memory, q);
    if list != [] {
      CopiesSplit(list, 1, x);
      assert list[..1] == [list[0]];
      InSet(s.memory, q, list[1..], r, x);
      InWith(s.delivered, q, [list[0]], r, x);
    }
  }

  ghost predicate LostOk(s: State, q: string) {
    q !in s.failed ==> At(s.lost, q) == []
  }

  lemma ApplyBalances(s: State, limit: nat, op: Op, r: string, x: Msg)
    requires Balanced(s, r, x) && PagesBelow(s)
    ensures Balanced(Apply(s, limit, op), r, x)
  {
    match op
    case Enqueue(q, m, written) =>
      ArrivalBalances(s, q, m, r, x);
      var s1 := s.(memory := With(s.memory, q, [m]), arrived := With(s.arrived, q, [m]));
      if written { WrittenBalances(s1, q, r, x); } else { UnwrittenBalances(s1, q, r, x); }
    case Load(q, id) =>
      LoadBalances(s, limit, q, id, r, x);
    case Dequeue(q) =>
      DequeueBalances(s, q, r, x);
  }

  lemma ApplyFrame(s: State, limit: nat, op: Op, r: string)
    requires PagesBelow(s) && LostOk(s, r)
    ensures PagesBelow(Apply(s, limit, op)) && LostOk(Apply(s, limit, op), r)
  {
  }

  lemma {:induction false} RunBalances(s: State, limit: nat, ops: seq<Op>, r: string, x: Msg)
    requires Balanced(s, r, x) && PagesBelow(s) && LostOk(s, r)
    ensures Balanced(ApplyAll(s, limit, ops), r, x) && LostOk(ApplyAll(s, limit, ops), r)
    decreases |ops|
  {
    if ops != [] {
      ApplyBalances(s, limit, ops[0], r, x);
      ApplyFrame(s, limit, ops[0], r);
      RunBalances(Apply(s, limit, ops[0]), limit, ops[1..], r, x);
    }
  }

  /** Over every run of enqueues, dequeues and loads of any page into any queue, a message that came
      to a queue was handed out, or is in memory, or in a page, or was in a page that could not be
      written, or was loaded into another queue, as often as it came. */
  lemma PagingConserves(limit: nat, ops: seq<Op>, q: string, x: Msg)
    ensures var s := ApplyAll(EMPTY, limit, ops);
            In(s.arrived, q, x) + In(s.received, q, x) ==
              In(s.delivered, q, x) + In(s.lost, q, x) + In(s.given, q, x)
              + PagedCopies(s.pages, q, x) + In(s.memory, q, x)
  {
    RunBalances(EMPTY, limit, ops, q, x);
  }

  ghost function Bag(list: seq<Msg>): multiset<Msg> {
    multiset(KeptAll(list))
  }

  lemma LoadingRestoresAt(limit: nat, ops: seq<Op>, q: string, x: Msg)
    requires var s := ApplyAll(EMPTY, limit, ops); q !in s.failed && forall id | id in s.pages :: id.queue != q
    ensures var s := ApplyAll(EMPTY, limit, ops);
            In(s.arrived, q, x) + In(s.received, q, x) == In(s.delivered, q, x) + In(s.given, q, x) + In(s.memory, q, x)
  {
    var s := ApplyAll(EMPTY, limit, ops);
    RunBalances(EMPTY, limit, ops, q, x);
    TotalZero(s.pages, (id: PageId, list: seq<Msg>) => PageCopies(id, list, q, x));
  }

  lemma BagAt(a: seq<Msg>, r: seq<Msg>, d: seq<Msg>, g: seq<Msg>, m: seq<Msg>, x: Msg)
    requires Copies(a, x) + Copies(r, x) == Copies(d, x) + Copies(g, x) + Copies(m, x)
    ensures Bag(a)[x] + Bag(r)[x] == Bag(d)[x] + Bag(g)[x] + Bag(m)[x]
  {
    CopiesCount(a, x);
    CopiesCount(r, x);
    CopiesCount(d, x);
    CopiesCount(g, x);
    CopiesCount(m, x);
  }

  lemma SameSum(a: multiset<Msg>, r: multiset<Msg>, d: multiset<Msg>, g: multiset<Msg>, m: multiset<Msg>)
    requires forall x :: a[x] + r[x] == d[x] + g[x] + m[x]
    ensures a + r == d + g + m
  {
  }

  /** Once every page of a queue is loaded, and none failed to be written, memory holds what came to
      the queue and was neither handed out nor loaded elsewhere. */
  lemma LoadingRestores(limit: nat, ops: seq<Op>, q: string)
    requires var s := ApplyAll(EMPTY, limit, ops); q !in s.failed && forall id | id in s.pages :: id.queue != q
    ensures var s := ApplyAll(EMPTY, limit, ops);
            Bag(At(s.arrived, q)) + Bag(At(s.received, q)) ==
            Bag(At(s.delivered, q)) + Bag(At(s.given, q)) + Bag(At(s.memory, q))
  {
    var s := ApplyAll(EMPTY, limit, ops);
    var a, r := At(s.arrived, q), At(s.received, q);
    var d, g, m := At(s.delivered, q), At(s.given, q), At(s.memory, q);
    var ba, br, bd, bg, bm := Bag(a), Bag(r), Bag(d), Bag(g), Bag(m);
    forall x ensures ba[x] + br[x] == bd[x] + bg[x] + bm[x] {
      LoadingRestoresAt(limit, ops, q, x);
      BagAt(a, r, d, g, m, x);
    }
    SameSum(ba, br, bd, bg, bm);
  }

  lemma OwnStep(s: State, limit: nat, op: Op)
    requires op.Load? ==> op.id.queue == op.q
    ensures Apply(s, limit, op).received == s.received && Apply(s, limit, op).given == s.given
  {
    match op
    case Enqueue(q, m, written) => EnqueueMovesNothing(s, limit, q, m, written);
    case Load(q, id) => assert With(s.received, q, []) == s.received && With(s.given, q, []) == s.given;
    case Dequeue(q) =>
  }

  lemma EnqueueMovesNothing(s: State, limit: nat, q: string, m: Msg, written: bool)
    ensures var t := AfterEnqueue(s, limit, q, m, written); t.received == s.received && t.given == s.given
  {
  }

  /** If each page is loaded back into its own queue, nothing moves between queues. */
  lemma {:induction false} OwnLoadsMoveNothing(s: State, limit: nat, ops: seq<Op>)
    requires forall op | op in ops :: op.Load? ==> op.id.queue == op.q
    ensures ApplyAll(s, limit, ops).received == s.received && ApplyAll(s, limit, ops).given == s.given
    decreases |ops|
  {
    if ops != [] {
      assert ops[0] in ops;
      OwnStep(s, limit, ops[0]);
      OwnLoadsMoveNothing(Apply(s, limit, ops[0]), limit, ops[1..]);
    }
  }

  // ---------------------------------------------------------------- The page manager and the store

  ghost predicate Readable(files: map<PageId, Bytes>, pages: Pages) {
    files.Keys == pages.Keys && forall id | id in files :: ReadAll(files[id]) == Messages(pages[id])
  }

  ghost predicate AllWritable(list: seq<Msg>) {
    forall m | m in list :: Writable(m)
  }

  /** Every message in memory or in a page fits the page format. */
  ghost predicate Sound(s: State) {
    SoundMap(s.memory) && SoundMap(s.pages)
  }

  ghost predicate SoundMap<K>(m: map<K, seq<Msg>>) {
    forall k | k in m :: AllWritable(m[k])
  }

  lemma {:induction false} KeptWritable(ms: seq<Msg>)
    requires AllWritable(ms)
    ensures AllWritable(KeptAll(ms))
  {
    if ms != [] {
      KeptWritable(ms[1..]);
      assert ms[0] in ms;
      forall m | m in KeptAll(ms) ensures Writable(m) {
        assert m == Kept(ms[0]) || m in KeptAll(ms[1..]);
      }
    }
  }

  lemma FlushReads(files: map<PageId, Bytes>, pages: Pages, id: PageId, list: seq<Msg>)
    requires Readable(files, pages) && AllWritable(list)
    ensures Readable(files[id := EncodeAll(list)], pages[id := KeptAll(list)])
  {
    PageRoundTrip(list);
  }

  lemma PagingSound(s: State, q: string, written: bool)
    requires Sound(s)
    ensures Sound(AfterPaging(s, q, written))
  {
    var list := At(s.memory, q);
    HalvesWritable(list);
    SetSound(s.memory, q, list[|list| / 2..]);
    SetSound(s.pages, PageId(q, s.number + 1), KeptAll(list[..|list| / 2]));
  }

  lemma SetSound<K>(m: map<K, seq<Msg>>, k: K, list: seq<Msg>)
    requires SoundMap(m) && AllWritable(list)
    ensures SoundMap(m[k := list])
  {
  }

  lemma HalvesWritable(list: seq<Msg>)
    requires AllWritable(list)
    ensures AllWritable(list[|list| / 2..]) && AllWritable(KeptAll(list[..|list| / 2]))
  {
    KeptWritable(list[..|list| / 2]);
  }

  /** Runs whose arrivals fit the page format stay within it. */
  lemma ApplySound(s: State, limit: nat, op: Op)
    requires Sound(s) && (op.Enqueue? ==> Writable(op.m))
    ensures Sound(Apply(s, limit, op))
  {
    match op
    case Enqueue(q, m, written) =>
      var s1 := s.(memory := With(s.memory, q, [m]), arrived := With(s.arrived, q, [m]));
      SetSound(s.memory, q, At(s.memory, q) + [m]);
      PagingSound(s1, q, written);
    case Load(q, id) =>
    case Dequeue(q) =>
  }

  lemma WithMore(m: Lists, q: string, list: seq<Msg>, i: nat)
    requires i < |list|
    ensures With(m, q, list[..i + 1]) == With(m, q, list[..i])[q := At(With(m, q, list[..i]), q) + [list[i]]]
  {
    var before := With(m, q, list[..i]);
    assert At(before, q) == At(m, q) + list[..i];
    assert At(m, q) + list[..i + 1] == At(m, q) + list[..i] + [list[i]];
    assert before[q := At(m, q) + list[..i + 1]] == m[q := At(m, q) + list[..i + 1]];
  }

  /** Whatever the run, as long as what arrives fits the page format, the next enqueue may rely on it. */
  lemma {:induction false} RunSound(s: State, limit: nat, ops: seq<Op>)
    requires Sound(s) && forall op | op in ops :: op.Enqueue? ==> Writable(op.m)
    ensures Sound(ApplyAll(s, limit, ops))
    decreases |ops|
  {
    if ops != [] {
      assert ops[0] in ops;
      ApplySound(s, limit, ops[0]);
      RunSound(Apply(s, limit, ops[0]), limit, ops[1..]);
    }
  }

  class PageManager {
    var number: nat
    var files: map<PageId, Bytes>

    constructor ()
      ensures number == 0 && files == map[]
    {
      number, files := 0, map[];
    }

    /** `written` is whether the file system accepts the page. */
    method Flush(q: string, ms: seq<Msg>, written: bool) returns (ok: bool)
      modifies this
      ensures ok == written && number == old(number) + 1
      ensures files == if ok then old(files)[PageId(q, number) := EncodeAll(ms)] else old(files)
    {
      number := number + 1;
      if !written { return false; }
      var b := WriteAll(ms);
      files := files[PageId(q, number) := b];
      return true;
    }

    method Load(id: PageId) returns (p: Page)
      modifies this`files
      ensures p == if id in old(files) then ReadAll(old(files)[id]) else Broken
      ensures files == if p.Messages? then old(files) - {id} else old(files)
    {
      if id !in files { return Broken; }
      p := LoadAll(files[id]);
      if p.Messages? { files := files - {id}; }
    }
  }

  class ExtendedStore {
    var queues: Lists
    const limit: nat
    const pager: PageManager

    ghost predicate Shows(s: State)
      reads this, pager
    {
      queues == s.memory && pager.number == s.number && Readable(pager.files, s.pages)
    }

    constructor (limit: nat)
      ensures this.limit == limit && fresh(pager) && Shows(EMPTY)
    {
      var p := new PageManager();
      queues, this.limit, pager := map[], limit, p;
    }

    method PageOldest(q: string, written: bool, ghost s: State) returns (ok: bool)
      requires Shows(s) && AllWritable(At(s.memory, q))
      modifies this, pager
      ensures ok == (written || |At(s.memory, q)| <= limit)
      ensures Shows(if |At(s.memory, q)| <= limit then s else AfterPaging(s, q, written))
    {
      var list := if q in queues then queues[q] else [];
      var n := |list|;
      if n <= limit { return true; }
      var split := n / 2;
      queues := queues[q := list[split..]];
      ok := pager.Flush(q, list[..split], written);
      FlushReads(old(pager.files), s.pages, PageId(q, s.number + 1), list[..split]);
    }

    method EnqueueExt(q: string, m: Msg, written: bool, ghost s: State) returns (ok: bool)
      requires Shows(s) && Sound(s) && Writable(m)
      modifies this, pager
      ensures ok == (written || limit == 0 || |At(s.memory, q)| < limit)
      ensures Shows(AfterEnqueue(s, limit, q, m, written))
    {
      queues := queues[q := (if q in queues then queues[q] else []) + [m]];
      if limit > 0 && |queues[q]| > limit {
        ok := PageOldest(q, written, s.(memory := With(s.memory, q, [m]), arrived := With(s.arrived, q, [m])));
      } else {
        ok := true;
      }
    }

    method EnqueueEach(q: string, list: seq<Msg>)
      modifies this
      ensures queues == With(old(queues), q, list)
    {
      var i := 0;
      while i < |list|
        invariant 0 <= i <= |list| && queues == With(old(queues), q, list[..i])
      {
        queues := queues[q := (if q in queues then queues[q] else []) + [list[i]]];
        WithMore(old(queues), q, list, i);
        i := i + 1;
      }
      assert list[..i] == list;
    }

    method LoadPage(q: string, id: PageId, ghost s: State) returns (ok: bool)
      requires Shows(s)
      modifies this, pager
      ensures ok <==> limit > 0 && id in s.pages
      ensures Shows(AfterLoad(s, limit, q, id))
    {
      if limit == 0 { return false; }
      var p := pager.Load(id);
      if p.Broken? { return false; }
      EnqueueEach(q, p.list);
      return true;
    }
  }
}
