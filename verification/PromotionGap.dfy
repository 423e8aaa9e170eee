/**
 The source releases the lock between checking an election's result and becoming leader. The cluster
 model joins the two; here they are apart, as in the source, and it is shown when that matters.
 */
module PromotionGap {
  import opened RaftNode
  import opened RaftCluster
  import opened ElectionRounds

  /** Becoming leader without a second look at role and term, with its entry in the history. */
  function Promoted(c: Cluster, n: NodeId): Cluster
    requires n in c.nodes
  {
    var s := c.nodes[n];
    c.(nodes := c.nodes[n := s.(role := Leader)], leaders := c.leaders[s.term := n])
  }

  // ---------------------------------------------------------------- What lasts while others act

  /** An attempt that has all its answers never changes. */
  lemma SettledStep(c: Cluster, a: Action, k: nat)
    requires k < |c.attempts| && c.attempts[k].awaiting == {}
    ensures k < |Step(c, a).attempts| && Step(c, a).attempts[k] == c.attempts[k]
  {
    if Enabled(c, a) {
      match a
      case PeerFailed(j, p) => assert Step(c, a) == PeerFailedStep(c, j, p);
      case PeerReplied(r) => assert Step(c, a) == PeerRepliedStep(c, r);
      case Campaign(n) => assert Step(c, a) == CampaignStep(c, n);
      case Timeout(n) =>
      case DeliverVoteRequest(q) =>
      case Conclude(j) =>
      case Propose(n, cmd) =>
      case Replicate(n) =>
      case Heartbeat(n) =>
      case DeliverAppend(m) =>
      case Commit(n, i) =>
    }
  }

  lemma {:induction false} SettledRun(c: Cluster, late: seq<Action>, k: nat)
    requires k < |c.attempts| && c.attempts[k].awaiting == {}
    ensures k < |Run(c, late).attempts| && Run(c, late).attempts[k] == c.attempts[k]
    decreases |late|
  {
    if late != [] {
      SettledStep(c, late[0], k);
      SettledRun(Step(c, late[0]), late[1..], k);
    }
  }

  /** Within its term a candidate or leader does not become a follower. */
  ghost predicate Standfast(s: NodeState, r: NodeState) {
    s.term <= r.term && (r.term == s.term && s.role != Follower ==> r.role != Follower)
  }

  lemma StandfastStep(c: Cluster, a: Action, n: NodeId)
    requires n in c.nodes
    ensures n in Step(c, a).nodes && Standfast(c.nodes[n], Step(c, a).nodes[n])
  {
    if a.Campaign? || a.PeerFailed? || a.PeerReplied? || a.Replicate? || a.Heartbeat? {
      NodesUntouched(c, a);
    } else if Enabled(c, a) {
      match a
      case Timeout(p) => assert Step(c, a) == TimeoutStep(c, p);
      case DeliverVoteRequest(q) => assert Step(c, a) == VoteStep(c, q);
      case Conclude(k) => assert Step(c, a) == ConcludeStep(c, k);
      case Propose(p, cmd) => assert Step(c, a) == ProposeStep(c, p, cmd);
      case DeliverAppend(m) => assert Step(c, a) == AppendStep(c, m);
      case Commit(p, i) => assert Step(c, a) == CommitStep(c, p, i);
    }
  }

  lemma NodesUntouched(c: Cluster, a: Action)
    requires a.Campaign? || a.PeerFailed? || a.PeerReplied? || a.Replicate? || a.Heartbeat?
    ensures Step(c, a).nodes == c.nodes
  {
  }

  lemma {:induction false} StandfastRun(c: Cluster, late: seq<Action>, n: NodeId)
    requires n in c.nodes
    ensures n in Run(c, late).nodes && Standfast(c.nodes[n], Run(c, late).nodes[n])
    decreases |late|
  {
    if late != [] {
      StandfastStep(c, late[0], n);
      StandfastRun(Step(c, late[0]), late[1..], n);
    }
  }

  // ---------------------------------------------------------------- When the gap does not matter

  /** The term is still the one that was won, or the node leads already. */
  predicate Timely(d: Cluster, n: NodeId, term: nat) {
    n in d.nodes && (d.nodes[n].term == term || d.nodes[n].role == Leader)
  }

  lemma SameConclusion(d: Cluster, k: nat, n: NodeId, term: nat)
    requires LeadersInv(d) && k < |d.attempts| && n in d.nodes
    requires d.attempts[k].node == n && d.attempts[k].term == term && d.attempts[k].awaiting == {}
    requires d.attempts[k].votes > (|Peers(d, n)| + 1) / 2
    requires d.nodes[n].term == term ==> d.nodes[n].role != Follower
    ensures Promoted(d, n) == ConcludeStep(d, k) <==> Timely(d, n, term)
  {
    if !Timely(d, n, term) {
      assert Promoted(d, n).nodes[n] != ConcludeStep(d, k).nodes[n];
    } else if d.nodes[n].role == Leader {
      assert d.nodes[n := d.nodes[n].(role := Leader)] == d.nodes;
      assert d.leaders[d.nodes[n].term := n] == d.leaders;
    }
  }

  /** However long the gap, promoting the winner after it is the conclusion of its election as one
      step if and only if its term is still the one it won or it leads already. */
  lemma LatePromotionIff(c: Cluster, late: seq<Action>, k: nat)
    requires Inv(c) && k < |c.attempts| && Wins(c, c.attempts[k])
    ensures var d, n := Run(c, late), c.attempts[k].node;
            && n in d.nodes && k < |d.attempts|
            && (Promoted(d, n) == ConcludeStep(d, k) <==> Timely(d, n, c.attempts[k].term))
  {
    var d, a := Run(c, late), c.attempts[k];
    RunKeepsInv(c, late);
    SettledRun(c, late, k);
    StandfastRun(c, late, a.node);
    SamePeers(c, late, a.node);
    SameConclusion(d, k, a.node, a.term);
  }

  lemma SamePeers(c: Cluster, late: seq<Action>, n: NodeId)
    requires Inv(c)
    ensures Peers(Run(c, late), n) == Peers(c, n)
  {
    RunLater(c, late);
  }

  ghost predicate Concludable(c: Cluster, k: nat, n: NodeId) {
    k < |c.attempts| && Wins(c, c.attempts[k]) && c.attempts[k].node == n
  }

  // ---------------------------------------------------------------- Runs with any number of gaps

  /** An action of the cluster, or one of the two halves of concluding an election. */
  datatype Half = Act(action: Action) | Check(attempt: nat) | Promote(attempt: nat)

  /** A cluster and the attempts that have passed the check and not yet been promoted. */
  datatype Gapped = Gapped(cluster: Cluster, pending: set<nat>)

  ghost predicate Ready(g: Gapped, h: Half) {
    match h
    case Act(a) => !a.Conclude?
    case Check(k) => k < |g.cluster.attempts| && Wins(g.cluster, g.cluster.attempts[k])
    case Promote(k) => k in g.pending && k < |g.cluster.attempts| && g.cluster.attempts[k].node in g.cluster.nodes
  }

  /** A check only remembers; a promotion does not look again; what is not enabled does nothing. */
  ghost function HalfStep(g: Gapped, h: Half): Gapped {
    if !Ready(g, h) then g else
      match h
      case Act(a) => g.(cluster := Step(g.cluster, a))
      case Check(k) => g.(pending := g.pending + {k})
      case Promote(k) => Gapped(Promoted(g.cluster, g.cluster.attempts[k].node), g.pending - {k})
  }

  ghost function HalfRun(g: Gapped, halves: seq<Half>): Gapped
    decreases |halves|
  {
    if halves == [] then g else HalfRun(HalfStep(g, halves[0]), halves[1..])
  }

  /** The action of the joined model that a half step stands for, if any. */
  ghost function Whole(g: Gapped, h: Half): seq<Action> {
    if !Ready(g, h) || h.Check? then [] else if h.Act? then [h.action] else [Conclude(h.attempt)]
  }

  ghost function WholeRun(g: Gapped, halves: seq<Half>): seq<Action>
    decreases |halves|
  {
    if halves == [] then [] else Whole(g, halves[0]) + WholeRun(HalfStep(g, halves[0]), halves[1..])
  }

  ghost predicate TimelyStep(g: Gapped, h: Half) {
    Ready(g, h) && h.Promote? ==>
      Timely(g.cluster, g.cluster.attempts[h.attempt].node, g.cluster.attempts[h.attempt].term)
  }

  /** Every promotion is timely when it happens. */
  ghost predicate AllTimely(g: Gapped, halves: seq<Half>)
    decreases |halves|
  {
    halves == [] || (TimelyStep(g, halves[0]) && AllTimely(HalfStep(g, halves[0]), halves[1..]))
  }

  /** What a passed check leaves true until the promotion. */
  ghost predicate Passed(c: Cluster, k: nat) {
    && k < |c.attempts| && c.attempts[k].awaiting == {} && c.attempts[k].node in c.nodes
    && c.attempts[k].votes > (|Peers(c, c.attempts[k].node)| + 1) / 2
    && c.attempts[k].term <= c.nodes[c.attempts[k].node].term
    && (c.nodes[c.attempts[k].node].term == c.attempts[k].term ==> c.nodes[c.attempts[k].node].role != Follower)
  }

  ghost predicate GapInv(g: Gapped) {
    Inv(g.cluster) && forall k | k in g.pending :: Passed(g.cluster, k)
  }

  lemma WinsPasses(c: Cluster, k: nat)
    requires k < |c.attempts| && Wins(c, c.attempts[k])
    ensures Passed(c, k)
  {
  }

  lemma PassedStep(c: Cluster, a: Action, k: nat)
    requires Inv(c) && Passed(c, k)
    ensures Passed(Step(c, a), k)
  {
    SettledStep(c, a, k);
    StandfastStep(c, a, c.attempts[k].node);
    StepLater(c, a);
  }

  lemma StepKeepsInv(c: Cluster, a: Action)
    requires Inv(c)
    ensures Inv(Step(c, a))
  {
    RunKeepsInv(c, [a]);
    RunOne(c, a);
  }

  lemma PendingStep(c: Cluster, pending: set<nat>, a: Action)
    requires GapInv(Gapped(c, pending))
    ensures GapInv(Gapped(Step(c, a), pending))
  {
    StepKeepsInv(c, a);
    forall k | k in pending ensures Passed(Step(c, a), k) {
      assert Passed(Gapped(c, pending).cluster, k);
      PassedStep(c, a, k);
    }
  }

  lemma CheckJoins(c: Cluster, pending: set<nat>, k: nat)
    requires GapInv(Gapped(c, pending)) && k < |c.attempts| && Wins(c, c.attempts[k])
    ensures GapInv(Gapped(c, pending + {k}))
  {
    WinsPasses(c, k);
    forall j | j in pending + {k} ensures Passed(c, j) {
      assert j in pending ==> Passed(Gapped(c, pending).cluster, j);
    }
  }

  lemma PromoteJoins(c: Cluster, k: nat)
    requires LeadersInv(c) && Passed(c, k) && Timely(c, c.attempts[k].node, c.attempts[k].term)
    ensures Promoted(c, c.attempts[k].node) == Step(c, Conclude(k))
  {
    SameConclusion(c, k, c.attempts[k].node, c.attempts[k].term);
  }

  lemma FewerPending(c: Cluster, pending: set<nat>, k: nat)
    requires GapInv(Gapped(c, pending))
    ensures GapInv(Gapped(c, pending - {k}))
  {
    forall j | j in pending - {k} ensures Passed(c, j) {
      assert Passed(Gapped(c, pending).cluster, j);
    }
  }

  /** A timely half step is a step of the joined model or changes nothing in the cluster. */
  lemma HalfStepJoins(g: Gapped, h: Half)
    requires GapInv(g) && TimelyStep(g, h)
    ensures GapInv(HalfStep(g, h)) && HalfStep(g, h).cluster == Run(g.cluster, Whole(g, h))
  {
    if Ready(g, h) {
      match h
      case Act(a) =>
        RunOne(g.cluster, a);
        PendingStep(g.cluster, g.pending, a);
      case Check(k) => CheckJoins(g.cluster, g.pending, k);
      case Promote(k) =>
        RunOne(g.cluster, Conclude(k));
        PromoteJoins(g.cluster, k);
        PendingStep(g.cluster, g.pending, Conclude(k));
        FewerPending(Step(g.cluster, Conclude(k)), g.pending, k);
    }
  }

  /** However many elections are between check and promotion at once, a run whose promotions are all
      timely ends as a run of the joined model does, so every theorem over runs holds of it. */
  lemma {:induction false} TimelyRunJoins(g: Gapped, halves: seq<Half>)
    requires GapInv(g) && AllTimely(g, halves)
    ensures GapInv(HalfRun(g, halves)) && HalfRun(g, halves).cluster == Run(g.cluster, WholeRun(g, halves))
    decreases |halves|
  {
    if halves != [] {
      var h, d := halves[0], HalfStep(g, halves[0]);
      HalfStepJoins(g, h);
      TimelyRunJoins(d, halves[1..]);
      RunSplits(g.cluster, Whole(g, h), WholeRun(d, halves[1..]));
    }
  }

  /** In such a run no two nodes are ever leader in one term, at the same or at different times. */
  lemma TimelyElectionSafety(members: set<NodeId>, early: seq<Half>, late: seq<Half>, a: NodeId, b: NodeId)
    requires "" !in members && AllTimely(Gapped(Init(members), {}), early)
    requires AllTimely(HalfRun(Gapped(Init(members), {}), early), late)
    ensures var d := HalfRun(Gapped(Init(members), {}), early);
            LeadAlike(d.cluster, a, HalfRun(d, late).cluster, b) ==> a == b
  {
    var g := Gapped(Init(members), {});
    var d := HalfRun(g, early);
    Reachable(members, []);
    TimelyRunJoins(g, early);
    TimelyRunJoins(d, late);
    LeadOnce(g.cluster, WholeRun(g, early), WholeRun(d, late), a, b);
    RunSplits(g.cluster, WholeRun(g, early), WholeRun(d, late));
  }

  /** `a` leads in one state and `b` in another, in the same term. */
  ghost predicate LeadAlike(c: Cluster, a: NodeId, d: Cluster, b: NodeId) {
    && a in c.nodes && c.nodes[a].role == Leader && b in d.nodes && d.nodes[b].role == Leader
    && c.nodes[a].term == d.nodes[b].term
  }

  lemma LeadOnce(c: Cluster, early: seq<Action>, late: seq<Action>, a: NodeId, b: NodeId)
    requires Inv(c)
    ensures LeadAlike(Run(c, early), a, Run(c, early + late), b) ==> a == b
  {
    var d := Run(c, early);
    RunSplits(c, early, late);
    RunKeepsInv(c, early);
    RunKeepsInv(d, late);
    RunLater(d, late);
  }

  // ---------------------------------------------------------------- When it does

  /** Both nodes could win with the votes of all others: nobody has a more recent log than either,
      nor a later term than `x`. */
  ghost predicate Rivals(c: Cluster, x: NodeId, y: NodeId) {
    && x in c.nodes && y in c.nodes && x != y && "" !in c.nodes
    && forall p | p in c.nodes ::
         && c.nodes[p].term <= c.nodes[x].term
         && UpToDate(c.nodes[p].log, |c.nodes[x].log|, LastTerm(c.nodes[x].log))
         && UpToDate(c.nodes[p].log, |c.nodes[y].log|, LastTerm(c.nodes[y].log))
  }

  lemma RivalsInit(members: set<NodeId>, x: NodeId, y: NodeId)
    requires "" !in members && x in members && y in members && x != y
    ensures Rivals(Init(members), x, y)
  {
  }

  lemma Eligible(c: Cluster, n: NodeId, ps: seq<NodeId>)
    requires n in c.nodes && n != "" && Distinct(ps) && Names(ps) == Peers(c, n) && |ps| == |Peers(c, n)| > 0
    requires Willing(c, n, ps)
    ensures Winnable(c, Round(n, ps, []))
  {
    assert Names([]) == {};
  }

  lemma AllWilling(c: Cluster, n: NodeId, ps: seq<NodeId>)
    requires n in c.nodes && Names(ps) == Peers(c, n)
    requires forall p | p in c.nodes :: && c.nodes[p].term <= c.nodes[n].term
                                        && UpToDate(c.nodes[p].log, |c.nodes[n].log|, LastTerm(c.nodes[n].log))
    ensures Willing(c, n, ps)
  {
    forall p | p in ps ensures p in c.nodes { assert p in Names(ps); }
  }

  /** After all others voted for `x`, they are level with it, and `y` could win as well. */
  lemma RivalNext(c: Cluster, x: NodeId, y: NodeId, ps: seq<NodeId>, d: Cluster)
    requires Rivals(c, x, y) && Names(ps) == Peers(c, x) && d.nodes == Outcome(c, Round(x, ps, []))
    ensures y in d.nodes && d.nodes[y].term == c.nodes[x].term + 1
    ensures forall p | p in d.nodes :: && d.nodes[p].term <= d.nodes[y].term
                                       && UpToDate(d.nodes[p].log, |d.nodes[y].log|, LastTerm(d.nodes[y].log))
  {
    OutcomeOf(c, Round(x, ps, []));
    assert y in Names(ps);
  }

  /** In a cluster of any size, `x` wins a term; before `x` is promoted, `y` wins the next term and
      is; then promoting `x` gives that term a second leader. */
  lemma PromotionOutOfTerm(c: Cluster, x: NodeId, y: NodeId) returns (early: seq<Action>, late: seq<Action>, k: nat)
    requires Rivals(c, x, y)
    ensures var d := Run(c, early); var e := Run(d, late);
            && Concludable(d, k, x) && x in e.nodes
            && y != x && LeadAlike(Promoted(e, x), x, Promoted(e, x), y)
  {
    var ps := Listed(Peers(c, x));
    assert y in Peers(c, x);
    AllWilling(c, x, ps);
    Eligible(c, x, ps);
    Won(c, Round(x, ps, []));
    early, k := Ballots(c, Round(x, ps, [])), |c.attempts|;
    var d := Run(c, early);
    RivalNext(c, x, y, ps, d);
    late := SecondTerm(d, x, y);
  }

  lemma SecondTerm(d: Cluster, x: NodeId, y: NodeId) returns (late: seq<Action>)
    requires x in d.nodes && y in d.nodes && x != y && "" !in d.nodes
    requires forall p | p in d.nodes :: && d.nodes[p].term <= d.nodes[y].term
                                        && UpToDate(d.nodes[p].log, |d.nodes[y].log|, LastTerm(d.nodes[y].log))
    ensures var e := Run(d, late);
            && x in e.nodes && y in e.nodes && e.nodes[y].role == Leader && e.nodes[x].term == e.nodes[y].term
  {
    var ps := Listed(Peers(d, y));
    assert x in Peers(d, y);
    AllWilling(d, y, ps);
    Eligible(d, y, ps);
    Concluded(d, Round(y, ps, []));
    late := Term(d, Round(y, ps, []));
    OutcomeOf(d, Round(y, ps, []));
    assert x in Names(ps);
  }
}
