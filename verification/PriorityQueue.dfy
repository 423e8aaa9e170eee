/** Priority insertion against the stable sort of what is queued. */
module PriorityQueue {
  import opened Messages

  function Filter(s: seq<Message>, keep: Message -> bool): seq<Message> {
    if s == [] then []
    else if keep(s[0]) then [s[0]] + Filter(s[1..], keep)
    else Filter(s[1..], keep)
  }

  /** Where insertion puts the message: before the first message of lower priority. */
  function Insert(q: seq<Message>, m: Message): seq<Message> {
    if q == [] then [m]
    else if q[0].priority < m.priority then [m] + q
    else [q[0]] + Insert(q[1..], m)
  }

  function At(p: Priority): Message -> bool {
    (m: Message) => m.priority == p
  }

  function Unless(expired: Message -> bool): Message -> bool {
    (m: Message) => !expired(m)
  }

  function Bucket(s: seq<Message>, p: Priority): seq<Message> {
    Filter(s, At(p))
  }

  function SortBelow(s: seq<Message>, n: nat): seq<Message>
    requires n <= 256
  {
    if n == 0 then [] else Bucket(s, n - 1) + SortBelow(s, n - 1)
  }

  const LEVELS: nat := 256

  /** Messages of descending priority, those of one priority in the order given. */
  function StableSort(s: seq<Message>): seq<Message> {
    SortBelow(s, LEVELS)
  }

  // ---------------------------------------------------------------- Filter

  lemma Regroup(a: seq<Message>, b: seq<Message>, c: seq<Message>)
    ensures a + b + c == a + (b + c)
  {
  }

  lemma {:induction false} FilterAppend(a: seq<Message>, b: seq<Message>, keep: Message -> bool)
    ensures Filter(a + b, keep) == Filter(a, keep) + Filter(b, keep)
  {
    if a == [] {
      assert a + b == b;
    } else {
      FilterAppend(a[1..], b, keep);
      assert (a + b)[0] == a[0] && (a + b)[1..] == a[1..] + b;
      Regroup([a[0]], Filter(a[1..], keep), Filter(b, keep));
    }
  }

  lemma {:induction false} FilterContents(s: seq<Message>, keep: Message -> bool)
    ensures forall m :: multiset(Filter(s, keep))[m] == if keep(m) then multiset(s)[m] else 0
  {
    if s != [] {
      FilterContents(s[1..], keep);
      assert s == [s[0]] + s[1..];
    }
  }

  lemma {:induction false} FilterAll(s: seq<Message>, keep: Message -> bool)
    requires forall m | m in s :: keep(m)
    ensures Filter(s, keep) == s
  {
    if s != [] { FilterAll(s[1..], keep); }
  }

  lemma {:induction false} FilterNone(s: seq<Message>, keep: Message -> bool)
    requires forall m | m in s :: !keep(m)
    ensures Filter(s, keep) == []
  {
    if s != [] { FilterNone(s[1..], keep); }
  }

  lemma {:induction false} FilterSwap(s: seq<Message>, f: Message -> bool, g: Message -> bool)
    ensures Filter(Filter(s, f), g) == Filter(Filter(s, g), f)
  {
    if s != [] {
      FilterSwap(s[1..], f, g);
      assert f(s[0]) ==> Filter(s, f)[1..] == Filter(s[1..], f);
      assert g(s[0]) ==> Filter(s, g)[1..] == Filter(s[1..], g);
    }
  }

  lemma {:induction false} BucketHas(s: seq<Message>, p: Priority, m: Message)
    ensures m in Bucket(s, p) <==> m in s && m.priority == p
  {
    if s != [] {
      BucketHas(s[1..], p, m);
      assert s == [s[0]] + s[1..];
    }
  }

  // ---------------------------------------------------------------- The sort is a stable sort

  lemma {:induction false} SortHas(s: seq<Message>, n: nat, m: Message)
    requires n <= 256 && m in SortBelow(s, n)
    ensures m in s && m.priority < n
  {
    BucketHas(s, n - 1, m);
    if m !in Bucket(s, n - 1) { SortHas(s, n - 1, m); }
  }

  lemma {:induction false} SortDescends(s: seq<Message>, n: nat, i: nat, j: nat)
    requires n <= 256 && i < j < |SortBelow(s, n)|
    ensures SortBelow(s, n)[i].priority >= SortBelow(s, n)[j].priority
  {
    var b, q := Bucket(s, n - 1), SortBelow(s, n);
    if i < |b| {
      assert q[i] in b;
      BucketHas(s, n - 1, q[i]);
      assert q[j] in q;
      SortHas(s, n, q[j]);
    } else {
      SortDescends(s, n - 1, i - |b|, j - |b|);
    }
  }

  lemma BucketOfBucket(s: seq<Message>, p: Priority, k: Priority)
    ensures Bucket(Bucket(s, p), k) == if k == p then Bucket(s, p) else []
  {
    forall m | m in Bucket(s, p) ensures m.priority == p { BucketHas(s, p, m); }
    if k == p { FilterAll(Bucket(s, p), At(k)); } else { FilterNone(Bucket(s, p), At(k)); }
  }

  lemma {:induction false} SortKeepsBuckets(s: seq<Message>, n: nat, k: Priority)
    requires n <= 256
    ensures Bucket(SortBelow(s, n), k) == if k < n then Bucket(s, k) else []
  {
    if n > 0 {
      FilterAppend(Bucket(s, n - 1), SortBelow(s, n - 1), At(k));
      BucketOfBucket(s, n - 1, k);
      SortKeepsBuckets(s, n - 1, k);
    }
  }

  /** Descending priority, the same messages, and the given order within each priority. */
  lemma StableSortMeaning(s: seq<Message>)
    ensures forall i, j | 0 <= i < j < |StableSort(s)| :: StableSort(s)[i].priority >= StableSort(s)[j].priority
    ensures multiset(StableSort(s)) == multiset(s)
    ensures forall p: Priority :: Bucket(StableSort(s), p) == Bucket(s, p)
  {
    forall i, j | 0 <= i < j < |StableSort(s)| ensures StableSort(s)[i].priority >= StableSort(s)[j].priority {
      SortDescends(s, LEVELS, i, j);
    }
    forall p: Priority ensures Bucket(StableSort(s), p) == Bucket(s, p) { SortKeepsBuckets(s, LEVELS, p); }
    forall m ensures multiset(StableSort(s))[m] == multiset(s)[m] {
      FilterContents(s, At(m.priority));
      FilterContents(StableSort(s), At(m.priority));
      SortKeepsBuckets(s, LEVELS, m.priority);
      assert multiset(Bucket(s, m.priority))[m] == multiset(s)[m];
    }
  }

  // ---------------------------------------------------------------- Operations on the sorted queue

  lemma {:induction false} InsertSkips(a: seq<Message>, b: seq<Message>, m: Message)
    requires forall x | x in a :: x.priority >= m.priority
    ensures Insert(a + b, m) == a + Insert(b, m)
  {
    if a == [] {
      assert a + b == b;
    } else {
      assert (a + b)[1..] == a[1..] + b;
      InsertSkips(a[1..], b, m);
    }
  }

  lemma {:induction false} InsertContents(q: seq<Message>, m: Message)
    ensures multiset(Insert(q, m)) == multiset(q) + multiset{m}
  {
    if q != [] {
      assert q == [q[0]] + q[1..];
      InsertContents(q[1..], m);
    }
  }

  lemma BucketAppend(s: seq<Message>, m: Message, p: Priority)
    ensures Bucket(s + [m], p) == if m.priority == p then Bucket(s, p) + [m] else Bucket(s, p)
  {
    FilterAppend(s, [m], At(p));
  }

  lemma InsertPast(s: seq<Message>, m: Message, n: nat)
    requires n < 256 && m.priority <= n
    ensures Insert(SortBelow(s, n + 1), m) == Bucket(s, n) + Insert(SortBelow(s, n), m)
    ensures m.priority == n ==> Insert(SortBelow(s, n), m) == [m] + SortBelow(s, n)
  {
    forall x | x in Bucket(s, n) ensures x.priority >= m.priority { BucketHas(s, n, x); }
    InsertSkips(Bucket(s, n), SortBelow(s, n), m);
    if m.priority == n && SortBelow(s, n) != [] {
      SortHas(s, n, SortBelow(s, n)[0]);
    }
  }

  /** One level of the sort: below the message's level nothing changes, at its level it comes last. */
  lemma InsertAtLevel(s: seq<Message>, m: Message, n: nat)
    requires n < 256 && m.priority == n && SortBelow(s + [m], n) == SortBelow(s, n)
    ensures SortBelow(s + [m], n + 1) == Insert(SortBelow(s, n + 1), m)
  {
    BucketAppend(s, m, n);
    InsertPast(s, m, n);
    Regroup(Bucket(s, n), [m], SortBelow(s, n));
  }

  lemma InsertBelowLevel(s: seq<Message>, m: Message, n: nat)
    requires n < 256 && m.priority < n && SortBelow(s + [m], n) == Insert(SortBelow(s, n), m)
    ensures SortBelow(s + [m], n + 1) == Insert(SortBelow(s, n + 1), m)
  {
    BucketAppend(s, m, n);
    InsertPast(s, m, n);
  }

  lemma InsertAboveLevel(s: seq<Message>, m: Message, n: nat)
    requires n < m.priority && SortBelow(s + [m], n) == SortBelow(s, n)
    ensures SortBelow(s + [m], n + 1) == SortBelow(s, n + 1)
  {
    BucketAppend(s, m, n);
  }

  lemma InsertLevel(s: seq<Message>, m: Message, n: nat)
    requires n < 256
    requires SortBelow(s + [m], n) == if m.priority < n then Insert(SortBelow(s, n), m) else SortBelow(s, n)
    ensures SortBelow(s + [m], n + 1) ==
            if m.priority < n + 1 then Insert(SortBelow(s, n + 1), m) else SortBelow(s, n + 1)
  {
    if m.priority < n {
      InsertBelowLevel(s, m, n);
    } else if m.priority == n {
      InsertAtLevel(s, m, n);
    } else {
      InsertAboveLevel(s, m, n);
    }
  }

  lemma {:induction false} InsertSorts(s: seq<Message>, m: Message, n: nat)
    requires n <= 256
    ensures SortBelow(s + [m], n) == if m.priority < n then Insert(SortBelow(s, n), m) else SortBelow(s, n)
  {
    if n > 0 {
      InsertSorts(s, m, n - 1);
      InsertLevel(s, m, n - 1);
    }
  }

  lemma {:induction false} FilterSorts(s: seq<Message>, keep: Message -> bool, n: nat)
    requires n <= 256
    ensures Filter(SortBelow(s, n), keep) == SortBelow(Filter(s, keep), n)
  {
    if n > 0 {
      FilterAppend(Bucket(s, n - 1), SortBelow(s, n - 1), keep);
      FilterSwap(s, At(n - 1), keep);
      FilterSorts(s, keep, n - 1);
    }
  }

  /** `s[i]` has the highest priority in `s` and arrived first among those that have it. */
  ghost predicate Foremost(s: seq<Message>, i: nat) {
    && i < |s|
    && (forall j | 0 <= j < |s| :: s[j].priority <= s[i].priority)
    && (forall j | 0 <= j < i :: s[j].priority < s[i].priority)
  }

  function RemoveAt(s: seq<Message>, i: nat): seq<Message>
    requires i < |s|
  {
    s[..i] + s[i + 1..]
  }

  lemma {:induction false} FindForemost(s: seq<Message>) returns (i: nat)
    requires s != []
    ensures Foremost(s, i)
  {
    var n := |s| - 1;
    if n == 0 {
      i := 0;
    } else {
      i := FindForemost(s[..n]);
      assert forall j | 0 <= j < n :: s[..n][j] == s[j];
      if s[i].priority < s[n].priority { i := n; }
    }
  }

  lemma BucketWithout(s: seq<Message>, i: nat, p: Priority)
    requires Foremost(s, i)
    ensures Bucket(s, p) == (if s[i].priority == p then [s[i]] else []) + Bucket(RemoveAt(s, i), p)
  {
    assert s == s[..i] + ([s[i]] + s[i + 1..]);
    FilterAppend(s[..i], [s[i]] + s[i + 1..], At(p));
    FilterAppend([s[i]], s[i + 1..], At(p));
    FilterAppend(s[..i], s[i + 1..], At(p));
    if s[i].priority == p { FilterNone(s[..i], At(p)); }
  }

  lemma NothingAbove(s: seq<Message>, i: nat, p: Priority)
    requires Foremost(s, i) && s[i].priority < p
    ensures Bucket(s, p) == []
  {
    FilterNone(s, At(p));
  }

  lemma {:induction false} ForemostSorts(s: seq<Message>, i: nat, n: nat)
    requires Foremost(s, i) && n <= 256
    ensures SortBelow(s, n) == (if s[i].priority < n then [s[i]] else []) + SortBelow(RemoveAt(s, i), n)
  {
    if n > 0 {
      BucketWithout(s, i, n - 1);
      ForemostSorts(s, i, n - 1);
      if s[i].priority < n - 1 { NothingAbove(s, i, n - 1); }
    }
  }

  /** Taking from the front takes the earliest arrival of the highest priority. */
  lemma FrontIsForemost(s: seq<Message>) returns (i: nat)
    requires s != []
    ensures Foremost(s, i)
    ensures StableSort(s) == [s[i]] + StableSort(RemoveAt(s, i))
  {
    i := FindForemost(s);
    ForemostSorts(s, i, LEVELS);
  }

  // ---------------------------------------------------------------- Runs

  datatype Op = Arrive(m: Message) | Take | Expire(expired: Message -> bool)

  function Step(q: seq<Message>, op: Op): seq<Message> {
    match op
    case Arrive(m) => Insert(q, m)
    case Take => if q == [] then q else q[1..]
    case Expire(expired) => Filter(q, Unless(expired))
  }

  function RunAll(q: seq<Message>, ops: seq<Op>): seq<Message>
    decreases |ops|
  {
    if ops == [] then q else RunAll(Step(q, ops[0]), ops[1..])
  }

  /** The arrivals still waiting, in order of arrival: taking removes the earliest of the highest
      priority. */
  ghost predicate Waits(live: seq<Message>, op: Op, rest: seq<Message>) {
    match op
    case Arrive(m) => rest == live + [m]
    case Take => if live == [] then rest == [] else exists i :: Foremost(live, i) && rest == RemoveAt(live, i)
    case Expire(expired) => rest == Filter(live, Unless(expired))
  }

  ghost predicate Waiting(live: seq<Message>, ops: seq<Op>, rest: seq<Message>)
    decreases |ops|
  {
    if ops == [] then rest == live
    else exists mid :: Waits(live, ops[0], mid) && Waiting(mid, ops[1..], rest)
  }

  lemma StepRefines(live: seq<Message>, op: Op) returns (rest: seq<Message>)
    ensures Waits(live, op, rest) && Step(StableSort(live), op) == StableSort(rest)
  {
    match op
    case Arrive(m) =>
      rest := live + [m];
      InsertSorts(live, m, LEVELS);
    case Take =>
      StableSortMeaning(live);
      if live == [] {
        rest := [];
        assert multiset(StableSort(live)) == multiset([]);
        assert |StableSort(live)| == 0;
      } else {
        var i := FrontIsForemost(live);
        rest := RemoveAt(live, i);
      }
    case Expire(expired) =>
      var keep := Unless(expired);
      rest := Filter(live, keep);
      FilterSorts(live, keep, LEVELS);
  }

  /** However arrivals, removals and expiry interleave, the queue is the stable sort of the
      arrivals still waiting. */
  lemma {:induction false} QueueIsStableSort(live: seq<Message>, ops: seq<Op>) returns (rest: seq<Message>)
    ensures Waiting(live, ops, rest)
    ensures RunAll(StableSort(live), ops) == StableSort(rest)
    decreases |ops|
  {
    if ops == [] {
      rest := live;
    } else {
      var mid := StepRefines(live, ops[0]);
      rest := QueueIsStableSort(mid, ops[1..]);
    }
  }

  // ---------------------------------------------------------------- The source's loops

  lemma InsertNext(queue: seq<Message>, msg: Message, i: nat)
    requires i < |queue| && queue[i].priority >= msg.priority
    ensures queue[..i] + Insert(queue[i..], msg) == queue[..i + 1] + Insert(queue[i + 1..], msg)
  {
    var rest := queue[i..];
    assert rest[0] == queue[i] && rest[1..] == queue[i + 1..];
    assert queue[..i] + [queue[i]] == queue[..i + 1];
    Regroup(queue[..i], [queue[i]], Insert(queue[i + 1..], msg));
  }

  method InsertByPriority(queue: seq<Message>, msg: Message) returns (out: seq<Message>)
    ensures out == Insert(queue, msg)
  {
    var i := 0;
    while i < |queue|
      invariant 0 <= i <= |queue|
      invariant Insert(queue, msg) == queue[..i] + Insert(queue[i..], msg)
    {
      if queue[i].priority < msg.priority {
        Regroup(queue[..i], [msg], queue[i..]);
        return queue[..i] + [msg] + queue[i..];
      }
      InsertNext(queue, msg, i);
      i := i + 1;
    }
    assert queue[..i] == queue;
    return queue + [msg];
  }

  lemma FilterFrom(queue: seq<Message>, keep: Message -> bool, i: nat)
    requires i < |queue|
    ensures Filter(queue[i..], keep) ==
            if keep(queue[i]) then [queue[i]] + Filter(queue[i + 1..], keep) else Filter(queue[i + 1..], keep)
  {
    assert queue[i..][1..] == queue[i + 1..];
  }

  method Partition(queue: seq<Message>, isExpired: Message -> bool)
    returns (alive: seq<Message>, expired: seq<Message>)
    ensures alive == Filter(queue, Unless(isExpired)) && expired == Filter(queue, isExpired)
  {
    alive, expired := [], [];
    ghost var keep := Unless(isExpired);
    var i := 0;
    while i < |queue|
      invariant 0 <= i <= |queue|
      invariant alive + Filter(queue[i..], keep) == Filter(queue, keep)
      invariant expired + Filter(queue[i..], isExpired) == Filter(queue, isExpired)
    {
      FilterFrom(queue, keep, i);
      FilterFrom(queue, isExpired, i);
      Regroup(alive, [queue[i]], Filter(queue[i + 1..], keep));
      Regroup(expired, [queue[i]], Filter(queue[i + 1..], isExpired));
      if isExpired(queue[i]) {
        expired := expired + [queue[i]];
      } else {
        alive := alive + [queue[i]];
      }
      i := i + 1;
    }
  }
}
