/** Round-robin selection within a consumer group. */
module RoundRobin {

  /** The counter is an unsigned 64-bit number. */
  const WRAP: nat := 0x1_0000_0000_0000_0000

  datatype Option<T> = None | Some(value: T)

  function Next(idx: nat): nat {
    if idx + 1 == WRAP then 0 else idx + 1
  }

  /** The members picked by `n` selections in a row. */
  function Picked<T>(members: seq<T>, idx: nat, n: nat): (p: seq<T>)
    requires members != []
    ensures |p| == n
    decreases n
  {
    if n == 0 then [] else [members[idx % |members|]] + Picked(members, Next(idx), n - 1)
  }

  predicate AllDistinct<T(==)>(members: seq<T>) {
    forall i, j | 0 <= i < j < |members| :: members[i] != members[j]
  }

  function Ceiling(n: nat, k: nat): nat
    requires k > 0
  {
    n / k + if n % k == 0 then 0 else 1
  }

  /** The count is n/k, rounded down or up. */
  predicate Fair(count: nat, n: nat, k: nat)
    requires k > 0
  {
    n / k <= count <= Ceiling(n, k)
  }

  // ---------------------------------------------------------------- Quotient and remainder by subtraction

  function Quo(n: nat, k: nat): nat
    requires k > 0
  {
    if n < k then 0 else 1 + Quo(n - k, k)
  }

  function Rem(n: nat, k: nat): (r: nat)
    requires k > 0
    ensures r < k
  {
    if n < k then n else Rem(n - k, k)
  }

  lemma {:induction false} Parts(n: nat, k: nat)
    requires k > 0
    ensures n == k * Quo(n, k) + Rem(n, k)
  {
    if n >= k { Parts(n - k, k); }
  }

  lemma DivModUnique(n: nat, k: nat, q: nat, r: nat)
    requires k > 0 && n == k * q + r && r < k
    ensures n / k == q && n % k == r
  {
    var d := n / k - q;
    assert k * d == r - n % k;
    assert d > 0 ==> k * d >= k;
    assert d < 0 ==> k * d <= 0 - k;
  }

  lemma DivMod(n: nat, k: nat)
    requires k > 0
    ensures n / k == Quo(n, k) && n % k == Rem(n, k)
  {
    Parts(n, k);
    DivModUnique(n, k, Quo(n, k), Rem(n, k));
  }

  function Turn(r: nat, k: nat): nat {
    if r + 1 == k then 0 else r + 1
  }

  lemma {:induction false} NextParts(n: nat, k: nat)
    requires k > 0
    ensures Rem(n + 1, k) == Turn(Rem(n, k), k)
    ensures Quo(n + 1, k) == Quo(n, k) + if Rem(n, k) + 1 == k then 1 else 0
  {
    if n >= k { NextParts(n - k, k); }
  }

  lemma {:induction false} SumParts(x: nat, y: nat, k: nat)
    requires k > 0
    ensures var r := Rem(x, k) + Rem(y, k);
            && Rem(x + y, k) == (if r < k then r else r - k)
            && Quo(x + y, k) == Quo(x, k) + Quo(y, k) + if r < k then 0 else 1
    decreases x
  {
    if x >= k {
      SumParts(x - k, y, k);
    } else {
      SmallSum(x, y, k);
    }
  }

  lemma {:induction false} SmallSum(x: nat, y: nat, k: nat)
    requires k > 0 && x < k
    ensures var r := x + Rem(y, k);
            && Rem(x + y, k) == (if r < k then r else r - k)
            && Quo(x + y, k) == Quo(y, k) + if r < k then 0 else 1
    decreases y
  {
    if y >= k { SmallSum(x, y - k, k); }
  }

  // ---------------------------------------------------------------- Going round

  /** How often `n` turns that start at `r` stop at `i`. */
  function Hits(r: nat, n: nat, k: nat, i: nat): nat
    decreases n
  {
    if n == 0 then 0 else (if r == i then 1 else 0) + Hits(Turn(r, k), n - 1, k, i)
  }

  /** One if the place lies among the `s` places from `a` on. */
  function Among(i: nat, a: nat, s: nat, k: nat): nat {
    if a <= i < a + s || a <= i + k < a + s then 1 else 0
  }

  /** Up to one round: once if the place lies ahead within reach, else not at all. */
  lemma {:induction false} HitsInRound(r: nat, n: nat, k: nat, i: nat)
    requires r < k && i < k && n <= k
    ensures Hits(r, n, k, i) == Among(i, r, n, k)
    decreases n
  {
    if n > 0 { HitsInRound(Turn(r, k), n - 1, k, i); }
  }

  function Ahead(r: nat, m: nat, k: nat): nat
    requires r < k && m <= k
  {
    if r + m < k then r + m else r + m - k
  }

  lemma {:induction false} HitsSplit(r: nat, m: nat, n: nat, k: nat, i: nat)
    requires r < k && m <= k
    ensures Hits(r, m + n, k, i) == Hits(r, m, k, i) + Hits(Ahead(r, m, k), n, k, i)
    decreases m
  {
    if m > 0 { HitsSplit(Turn(r, k), m - 1, n, k, i); }
  }

  /** Whole rounds count one each, and the rest of a round counts the places it covers. */
  lemma {:induction false} HitsAre(r: nat, n: nat, k: nat, i: nat)
    requires r < k && i < k
    ensures Hits(r, n, k, i) == Quo(n, k) + Among(i, r, Rem(n, k), k)
    decreases n
  {
    if n < k {
      HitsInRound(r, n, k, i);
    } else {
      HitsSplit(r, k, n - k, k, i);
      HitsInRound(r, k, k, i);
      HitsAre(r, n - k, k, i);
    }
  }

  // ---------------------------------------------------------------- What is picked

  /** How often `n` selections among `k` members pick place `i`. */
  function Times(k: nat, idx: nat, n: nat, i: nat): nat
    requires k > 0
    decreases n
  {
    if n == 0 then 0 else (if Rem(idx, k) == i then 1 else 0) + Times(k, Next(idx), n - 1, i)
  }

  lemma {:induction false} PickedTimes<T>(members: seq<T>, idx: nat, n: nat, i: nat)
    requires i < |members| && AllDistinct(members)
    ensures multiset(Picked(members, idx, n))[members[i]] == Times(|members|, idx, n, i)
    decreases n
  {
    if n > 0 {
      DivMod(idx, |members|);
      var first, rest := members[idx % |members|], Picked(members, Next(idx), n - 1);
      assert Picked(members, idx, n) == [first] + rest;
      assert first == members[i] <==> Rem(idx, |members|) == i;
      PickedTimes(members, Next(idx), n - 1, i);
    }
  }

  /** The counter does not wrap during the run, or wraps without a jump. */
  predicate Smooth(idx: nat, n: nat, k: nat)
    requires k > 0
  {
    idx + n <= WRAP || Rem(WRAP, k) == 0
  }

  lemma SmoothNext(idx: nat, n: nat, k: nat)
    requires k > 0 && idx < WRAP && n > 1 && Smooth(idx, n, k)
    ensures Next(idx) < WRAP && Smooth(Next(idx), n - 1, k) && Rem(Next(idx), k) == Turn(Rem(idx, k), k)
  {
    NextParts(idx, k);
  }

  lemma {:induction false} TimesHits(k: nat, idx: nat, n: nat, i: nat)
    requires i < k && idx < WRAP && Smooth(idx, n, k)
    ensures Times(k, idx, n, i) == Hits(Rem(idx, k), n, k, i)
    decreases n
  {
    if n > 1 {
      SmoothNext(idx, n, k);
      TimesHits(k, Next(idx), n - 1, i);
    }
  }

  lemma TimesSmooth(k: nat, idx: nat, n: nat, i: nat)
    requires i < k && idx < WRAP && Smooth(idx, n, k)
    ensures Times(k, idx, n, i) == Quo(n, k) + Among(i, Rem(idx, k), Rem(n, k), k)
  {
    TimesHits(k, idx, n, i);
    HitsAre(Rem(idx, k), n, k, i);
  }

  predicate FairParts(count: nat, n: nat, k: nat)
    requires k > 0
  {
    Quo(n, k) <= count <= Quo(n, k) + if Rem(n, k) == 0 then 0 else 1
  }

  lemma FairIs<T>(members: seq<T>, idx: nat, n: nat, i: nat)
    requires i < |members| && AllDistinct(members)
    ensures var k := |members|;
            Fair(multiset(Picked(members, idx, n))[members[i]], n, k) <==> FairParts(Times(k, idx, n, i), n, k)
  {
    PickedTimes(members, idx, n, i);
    DivMod(n, |members|);
  }

  ghost predicate AllFair(k: nat, idx: nat, n: nat)
    requires k > 0
  {
    forall i: nat | i < k :: FairParts(Times(k, idx, n, i), n, k)
  }

  lemma AllFairIs<T>(members: seq<T>, idx: nat, n: nat)
    requires members != [] && AllDistinct(members)
    ensures var k := |members|;
            (forall i: nat | i < k :: Fair(multiset(Picked(members, idx, n))[members[i]], n, k)) <==> AllFair(k, idx, n)
  {
    forall i: nat | i < |members|
      ensures Fair(multiset(Picked(members, idx, n))[members[i]], n, |members|) <==>
              FairParts(Times(|members|, idx, n, i), n, |members|)
    {
      FairIs(members, idx, n, i);
    }
  }

  lemma SmoothFair(k: nat, idx: nat, n: nat)
    requires k > 0 && idx < WRAP && Smooth(idx, n, k)
    ensures AllFair(k, idx, n)
  {
    forall i: nat | i < k ensures FairParts(Times(k, idx, n, i), n, k) { TimesSmooth(k, idx, n, i); }
  }

  // ---------------------------------------------------------------- A counter that wraps

  lemma {:induction false} TimesAcross(k: nat, idx: nat, m: nat, n: nat, all: nat, i: nat)
    requires k > 0 && m > 0 && idx + m == WRAP && all == m + n
    ensures Times(k, idx, all, i) == Times(k, idx, m, i) + Times(k, 0, n, i)
    decreases m
  {
    if m > 1 { TimesAcross(k, idx + 1, m - 1, n, all - 1, i); }
  }

  /** A run that reaches the wrap after `m` selections and goes on for `n`: the places up to the wrap,
      then the places from the first on. */
  lemma TimesWrapped(k: nat, idx: nat, m: nat, n: nat, all: nat, i: nat)
    requires i < k && m > 0 && idx + m == WRAP && all == m + n
    ensures Times(k, idx, all, i) == Quo(m, k) + Among(i, Rem(idx, k), Rem(m, k), k) + Times(k, 0, n, i)
  {
    TimesAcross(k, idx, m, n, all, i);
    TimesSmooth(k, idx, m, i);
  }

  /** When one jump of the counter from its last value to zero does no harm: `a` is the place where
      the run starts, `r` the place that would follow the last value, `t` the place where it ends. */
  predicate HarmlessJump(a: nat, r: nat, t: nat) {
    r == 0 || t == 0 || a == r || (if a < r then t <= a else t >= a)
  }

  predicate EvenAt(i: nat, a: nat, s: nat, t: nat, k: nat) {
    var low := if s + t < k then 0 else 1;
    low <= Among(i, a, s, k) + Among(i, 0, t, k) <= low + if s + t == 0 || s + t == k then 0 else 1
  }

  lemma EvenIff(a: nat, s: nat, t: nat, k: nat)
    requires a < k && s < k && t < k
    ensures (forall i: nat | i < k :: EvenAt(i, a, s, t, k)) <==>
            HarmlessJump(a, if a + s < k then a + s else a + s - k, t)
  {
    var r := if a + s < k then a + s else a + s - k;
    if !HarmlessJump(a, r, t) {
      if a < r {
        assert !EvenAt(a, a, s, t, k) || !EvenAt(k - 1, a, s, t, k);
      } else {
        assert !EvenAt(0, a, s, t, k) || !EvenAt(a - 1, a, s, t, k);
      }
    }
  }

  lemma EvenParts(count: nat, a: nat, m: nat, n: nat, k: nat, i: nat)
    requires k > 0 && count == Quo(m, k) + Among(i, a, Rem(m, k), k) + (Quo(n, k) + Among(i, 0, Rem(n, k), k))
    ensures FairParts(count, m + n, k) <==> EvenAt(i, a, Rem(m, k), Rem(n, k), k)
  {
    SumParts(m, n, k);
  }

  lemma TimesFromZero(k: nat, n: nat, i: nat)
    requires i < k && n <= WRAP
    ensures Times(k, 0, n, i) == Quo(n, k) + Among(i, 0, Rem(n, k), k)
  {
    TimesSmooth(k, 0, n, i);
  }

  lemma TimesOnce(k: nat, idx: nat, m: nat, n: nat, all: nat, i: nat) returns (count: nat)
    requires i < k && m > 0 && idx + m == WRAP && n <= WRAP && all == m + n
    ensures count == Times(k, idx, all, i)
    ensures count == Quo(m, k) + Among(i, Rem(idx, k), Rem(m, k), k) + (Quo(n, k) + Among(i, 0, Rem(n, k), k))
  {
    count := Times(k, idx, all, i);
    TimesWrapped(k, idx, m, n, all, i);
    TimesFromZero(k, n, i);
  }

  lemma JumpFairAt(k: nat, idx: nat, m: nat, n: nat, all: nat, i: nat)
    requires i < k && m > 0 && idx + m == WRAP && n <= WRAP && all == m + n
    ensures FairParts(Times(k, idx, all, i), all, k) <==> EvenAt(i, Rem(idx, k), Rem(m, k), Rem(n, k), k)
  {
    var count := TimesOnce(k, idx, m, n, all, i);
    EvenParts(count, Rem(idx, k), m, n, k, i);
  }

  /** One jump. */
  lemma JumpFairIff(k: nat, idx: nat, m: nat, n: nat, all: nat)
    requires k > 0 && m > 0 && idx + m == WRAP && n <= WRAP && all == m + n
    ensures AllFair(k, idx, all) <==> HarmlessJump(Rem(idx, k), Rem(WRAP, k), Rem(n, k))
  {
    var a, s, t := Rem(idx, k), Rem(m, k), Rem(n, k);
    if AllFair(k, idx, all) {
      forall i: nat | i < k ensures EvenAt(i, a, s, t, k) { JumpFairAt(k, idx, m, n, all, i); }
    }
    if forall i: nat | i < k :: EvenAt(i, a, s, t, k) {
      forall i: nat | i < k ensures FairParts(Times(k, idx, all, i), all, k) { JumpFairAt(k, idx, m, n, all, i); }
    }
    SumParts(idx, m, k);
    EvenIff(a, s, t, k);
  }

  // ---------------------------------------------------------------- A counter that wraps again and again

  /** The selections of `p` laps of the whole counter. */
  function Laps(p: nat): nat {
    if p == 0 then 0 else WRAP + Laps(p - 1)
  }

  lemma {:induction false} LapsOf(x: nat)
    ensures x == Laps(Quo(x, WRAP)) + Rem(x, WRAP)
  {
    if x >= WRAP { LapsOf(x - WRAP); }
  }

  /** How often `p` laps pick the place. */
  function InLaps(p: nat, k: nat, i: nat): nat
    requires k > 0
  {
    if p == 0 then 0 else Quo(WRAP, k) + Among(i, 0, Rem(WRAP, k), k) + InLaps(p - 1, k, i)
  }

  /** Places before the jump gain one in every lap. */
  lemma {:induction false} LapsFavour(p: nat, k: nat, i: nat, j: nat)
    requires i < k && j < k && j >= Rem(WRAP, k)
    ensures InLaps(p, k, i) == InLaps(p, k, j) + if i < Rem(WRAP, k) then p else 0
  {
    if p > 0 { LapsFavour(p - 1, k, i, j); }
  }

  lemma {:induction false} TimesLaps(k: nat, p: nat, n: nat, all: nat, i: nat)
    requires i < k && n <= WRAP && all == Laps(p) + n
    ensures Times(k, 0, all, i) == InLaps(p, k, i) + Quo(n, k) + Among(i, 0, Rem(n, k), k)
    decreases p
  {
    if p == 0 {
      TimesFromZero(k, n, i);
    } else {
      TimesWrapped(k, 0, WRAP, all - WRAP, all, i);
      TimesLaps(k, p - 1, n, all - WRAP, i);
    }
  }

  /** What a run picks that reaches the wrap after `m` selections, then does `p` laps and `n` more. */
  function Load(k: nat, a: nat, m: nat, p: nat, n: nat, i: nat): nat
    requires k > 0
  {
    Quo(m, k) + Among(i, a, Rem(m, k), k) + (InLaps(p, k, i) + Quo(n, k) + Among(i, 0, Rem(n, k), k))
  }

  lemma TimesLong(k: nat, idx: nat, m: nat, p: nat, n: nat, all: nat, i: nat)
    requires i < k && m > 0 && idx + m == WRAP && n <= WRAP && all == m + Laps(p) + n
    ensures Times(k, idx, all, i) == Load(k, Rem(idx, k), m, p, n, i)
  {
    TimesWrapped(k, idx, m, all - m, all, i);
    TimesLaps(k, p, n, all - m, i);
  }

  /** With a whole lap, only a run that starts where the jump leaves off and goes round once is even. */
  predicate HarmlessLaps(a: nat, r: nat, p: nat, t: nat) {
    r == 0 || (p == 1 && t == 0 && a == r)
  }

  lemma LapsUneven(k: nat, a: nat, m: nat, p: nat, n: nat) returns (i: nat, j: nat)
    requires a < k && p > 0 && Rem(WRAP, k) == (if a + Rem(m, k) < k then a + Rem(m, k) else a + Rem(m, k) - k)
    requires !HarmlessLaps(a, Rem(WRAP, k), p, Rem(n, k))
    ensures i < k && j < k && Load(k, a, m, p, n, i) >= Load(k, a, m, p, n, j) + 2
  {
    var r := Rem(WRAP, k);
    i := if a < r then a else 0;
    j := if a <= r then k - 1 else a - 1;
    LapsFavour(p, k, i, j);
  }

  lemma LapsEven(k: nat, a: nat, m: nat, n: nat, i: nat)
    requires i < k && a == Rem(WRAP, k) > 0 && Rem(m, k) == 0 && Rem(n, k) == 0
    ensures FairParts(Load(k, a, m, 1, n, i), m + Laps(1) + n, k)
  {
    assert Laps(1) == WRAP && InLaps(0, k, i) == 0;
    SumParts(WRAP, n, k);
    SumParts(m, WRAP + n, k);
  }

  /** One jump and then whole laps. */
  lemma LapsFairIff(k: nat, idx: nat, m: nat, p: nat, n: nat, all: nat)
    requires k > 0 && m > 0 && idx + m == WRAP && p > 0 && n <= WRAP && all == m + Laps(p) + n
    ensures AllFair(k, idx, all) <==> HarmlessLaps(Rem(idx, k), Rem(WRAP, k), p, Rem(n, k))
  {
    SumParts(idx, m, k);
    if Rem(WRAP, k) == 0 {
      SmoothFair(k, idx, all);
    } else if HarmlessLaps(Rem(idx, k), Rem(WRAP, k), p, Rem(n, k)) {
      forall i: nat | i < k ensures FairParts(Times(k, idx, all, i), all, k) {
        TimesLong(k, idx, m, p, n, all, i);
        LapsEven(k, Rem(idx, k), m, n, i);
      }
    } else {
      var i, j := LapsUneven(k, Rem(idx, k), m, p, n);
      TimesLong(k, idx, m, p, n, all, i);
      TimesLong(k, idx, m, p, n, all, j);
      assert !FairParts(Times(k, idx, all, i), all, k) || !FairParts(Times(k, idx, all, j), all, k);
    }
  }

  /** When the jumps of a run do no harm: it wraps and goes on for `p` whole laps to the place `t`. */
  predicate Harmless(a: nat, r: nat, p: nat, t: nat) {
    if p == 0 then HarmlessJump(a, r, t) else HarmlessLaps(a, r, p, t)
  }

  lemma WrappingFairIff(k: nat, idx: nat, m: nat, x: nat)
    requires k > 0 && m > 0 && idx + m == WRAP
    ensures AllFair(k, idx, m + x) <==>
            Harmless(Rem(idx, k), Rem(WRAP, k), Quo(x, WRAP), Rem(Rem(x, WRAP), k))
  {
    LapsOf(x);
    if x < WRAP {
      JumpFairIff(k, idx, m, x, m + x);
    } else {
      LapsFairIff(k, idx, m, Quo(x, WRAP), Rem(x, WRAP), m + x);
    }
  }

  lemma WrappingIs(k: nat, idx: nat, x: nat)
    requires k > 0
    ensures Harmless(idx % k, WRAP % k, x / WRAP, x % WRAP % k) <==>
            Harmless(Rem(idx, k), Rem(WRAP, k), Quo(x, WRAP), Rem(Rem(x, WRAP), k))
  {
    DivMod(idx, k);
    DivMod(WRAP, k);
    DivMod(x, WRAP);
    DivMod(Rem(x, WRAP), k);
  }

  /** For every run of selections from an unchanged group, however long, every member is picked n/k
      times, rounded down or up, if and only if the counter does not wrap or its jumps do no harm. */
  lemma RoundRobinFairIff<T>(members: seq<T>, idx: nat, n: nat)
    requires members != [] && AllDistinct(members) && idx < WRAP
    ensures var k := |members|;
            (forall i: nat | i < k :: Fair(multiset(Picked(members, idx, n))[members[i]], n, k)) <==>
            idx + n <= WRAP ||
            Harmless(idx % k, WRAP % k, (idx + n - WRAP) / WRAP, (idx + n - WRAP) % WRAP % k)
  {
    var k := |members|;
    AllFairIs(members, idx, n);
    if idx + n <= WRAP {
      SmoothFair(k, idx, n);
    } else {
      WrappingFairIff(k, idx, WRAP - idx, idx + n - WRAP);
      WrappingIs(k, idx, idx + n - WRAP);
    }
  }

  /** Three members, and two selections across the wrap: the first is picked twice. */
  lemma WrapPicksTwice<T>(members: seq<T>)
    requires |members| == 3 && AllDistinct(members)
    ensures var p := Picked(members, WRAP - 1, 2);
            p == [members[0], members[0]] && !Fair(multiset(p)[members[0]], 2, 3)
  {
    assert Picked(members, WRAP - 1, 2) == [members[0]] + Picked(members, 0, 1);
    assert Picked(members, 0, 1) == [members[0]] + [];
  }

  class Strategy {
    var idx: nat

    ghost predicate Valid()
      reads this
    {
      idx < WRAP
    }

    constructor ()
      ensures Valid() && idx == 0
    {
      idx := 0;
    }

    method Select<T>(members: seq<T>) returns (r: Option<T>)
      requires Valid()
      modifies this
      ensures Valid()
      ensures members == [] ==> r == None && idx == old(idx)
      ensures members != [] ==> r == Some(Picked(members, old(idx), 1)[0]) && idx == Next(old(idx))
    {
      if |members| == 0 { return None; }
      var i := idx % |members|;
      idx := (idx + 1) % WRAP;
      return Some(members[i]);
    }
  }
}
