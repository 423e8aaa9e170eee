/**
 The commit index of a node is whatever it is told, so committed entries of two nodes may differ and
 a later leader may lack them. Here is exactly when they agree and when a leader has them.
 */
module CommitGap {
  import opened RaftNode
  import opened RaftCluster
  import opened ElectionRounds

  // ---------------------------------------------------------------- What was proposed stays

  ghost predicate Grown(chain: map<Slot, Log>, later: map<Slot, Log>) {
    forall s | s in chain :: s in later && later[s] == chain[s]
  }

  lemma StepGrows(c: Cluster, a: Action)
    requires Inv(c)
    ensures Grown(c.chain, Step(c, a).chain)
  {
    if a.Propose? {
      if Enabled(c, a) { ProposeGrowsChain(c, a.node, a.command); }
    } else {
      ChainUntouched(c, a);
    }
  }

  lemma ProposeGrowsChain(c: Cluster, n: NodeId, cmd: Command)
    requires LogsInv(c) && LeadersInv(c) && n in c.nodes
    ensures Grown(c.chain, ProposeStep(c, n, cmd).chain)
  {
    if c.nodes[n].role == Leader { ProposalIsNew(c, n); }
  }

  lemma ChainUntouched(c: Cluster, a: Action)
    requires !a.Propose?
    ensures Step(c, a).chain == c.chain
  {
    if TouchesNoLog(a) { StepKeepsLogs(c, a); }
  }

  lemma {:induction false} RunGrows(c: Cluster, actions: seq<Action>)
    requires Inv(c)
    ensures Grown(c.chain, Run(c, actions).chain)
    decreases |actions|
  {
    if actions != [] {
      StepGrows(c, actions[0]);
      RunKeepsInv(c, [actions[0]]);
      RunOne(c, actions[0]);
      RunGrows(Step(c, actions[0]), actions[1..]);
    }
  }

  lemma StillChained(chain: map<Slot, Log>, later: map<Slot, Log>, log: Log)
    requires Chained(chain, log) && Grown(chain, later)
    ensures Chained(later, log)
  {
  }

  // ---------------------------------------------------------------- When a log holds what another held

  lemma PrefixIff(chain: map<Slot, Log>, p: Log, q: Log, i: nat)
    requires Chained(chain, p) && Chained(chain, q) && 0 < i <= |p|
    ensures p[..i] <= q <==> i <= |q| && p[i - 1].term == q[i - 1].term
  {
    if i <= |q| && p[i - 1].term == q[i - 1].term {
      ChainedAgree(chain, p, q, i - 1);
    } else if i <= |q| {
      assert p[..i][i - 1] != q[i - 1];
    }
  }

  /** What one node's log held up to an entry is in the log of any node, then or at any later time,
      if and only if that log reaches the entry's index and has there an entry of the same term. */
  lemma HoldsIff(members: set<NodeId>, early: seq<Action>, late: seq<Action>, a: NodeId, b: NodeId, i: nat)
    requires "" !in members && a in Run(Init(members), early).nodes && b in Run(Init(members), early + late).nodes
    requires 0 < i <= |Run(Init(members), early).nodes[a].log|
    ensures var p, q := Run(Init(members), early).nodes[a].log, Run(Init(members), early + late).nodes[b].log;
            p[..i] <= q <==> i <= |q| && p[i - 1].term == q[i - 1].term
  {
    var c := Run(Init(members), early);
    RunSplits(Init(members), early, late);
    Reachable(members, early);
    Reachable(members, early + late);
    RunGrows(c, late);
    StillChained(c.chain, Run(c, late).chain, c.nodes[a].log);
    PrefixIff(Run(c, late).chain, c.nodes[a].log, Run(c, late).nodes[b].log, i);
  }

  // ---------------------------------------------------------------- What is committed

  /** The entries a node takes as committed, as far as its log goes. */
  function Committed(s: NodeState): (l: Log)
    ensures l <= s.log
  {
    if s.commitIndex < |s.log| then s.log[..s.commitIndex] else s.log
  }

  /** The second log has at the first one's last index an entry of the same term. */
  predicate SameEnd(p: Log, q: Log) {
    p == [] || (|p| <= |q| && p[|p| - 1].term == q[|p| - 1].term)
  }

  /** A leader, as any node, holds all that a node committed then or earlier if and only if its log
      reaches the last committed index and has there an entry of the same term. */
  lemma HoldsCommittedIff(members: set<NodeId>, early: seq<Action>, late: seq<Action>, a: NodeId, b: NodeId)
    requires "" !in members && a in Run(Init(members), early).nodes && b in Run(Init(members), early + late).nodes
    ensures var p, q := Committed(Run(Init(members), early).nodes[a]), Run(Init(members), early + late).nodes[b].log;
            p <= q <==> SameEnd(p, q)
  {
    var s := Run(Init(members), early).nodes[a];
    var i := |Committed(s)|;
    assert s.log[..i] == Committed(s);
    if i > 0 { HoldsIff(members, early, late, a, b, i); }
  }

  /** Two nodes, each at its own time, agree on what is committed, the one having committed a prefix
      of the other, if and only if the shorter ends with the term the longer has there. */
  lemma CommittedAgreeIff(members: set<NodeId>, early: seq<Action>, late: seq<Action>, a: NodeId, b: NodeId)
    requires "" !in members && a in Run(Init(members), early).nodes && b in Run(Init(members), early + late).nodes
    ensures var p := Committed(Run(Init(members), early).nodes[a]);
            var q := Committed(Run(Init(members), early + late).nodes[b]);
            p <= q || q <= p <==> SameEnd(p, q) || SameEnd(q, p)
  {
    var s, t := Run(Init(members), early).nodes[a], Run(Init(members), early + late).nodes[b];
    var p, q := Committed(s), Committed(t);
    var i := if |p| <= |q| then |p| else |q|;
    if i > 0 {
      HoldsIff(members, early, late, a, b, i);
      assert s.log[..i] == p[..i] && t.log[..i] == q[..i];
      assert s.log[..i] <= t.log <==> p[..i] == q[..i];
      assert p[i - 1] == s.log[i - 1] && q[i - 1] == t.log[i - 1];
    }
  }

  // ---------------------------------------------------------------- Without a caller of SetCommitIndex

  ghost predicate NoneCommitted(c: Cluster) {
    && (forall n | n in c.nodes :: c.nodes[n].commitIndex == 0)
    && (forall m | m in c.appends :: m.commit == 0)
  }

  lemma NodeStepCommitsNone(c: Cluster, a: Action)
    requires NoneCommitted(c) && Enabled(c, a)
    requires a.Timeout? || a.DeliverVoteRequest? || a.Conclude? || a.Propose? || a.DeliverAppend?
    ensures NoneCommitted(Step(c, a))
  {
    match a
    case Timeout(n) => assert Step(c, a) == TimeoutStep(c, n);
    case DeliverVoteRequest(q) => assert Step(c, a) == VoteStep(c, q);
    case Conclude(k) => assert Step(c, a) == ConcludeStep(c, k);
    case Propose(n, cmd) => assert Step(c, a) == ProposeStep(c, n, cmd);
    case DeliverAppend(m) => assert Step(c, a) == AppendStep(c, m);
  }

  lemma SendCommitsNone(c: Cluster, a: Action)
    requires NoneCommitted(c) && Enabled(c, a)
    requires a.Campaign? || a.PeerFailed? || a.PeerReplied? || a.Replicate? || a.Heartbeat?
    ensures NoneCommitted(Step(c, a))
  {
    match a
    case Campaign(n) => assert Step(c, a) == CampaignStep(c, n);
    case PeerFailed(k, p) => assert Step(c, a) == PeerFailedStep(c, k, p);
    case PeerReplied(r) => assert Step(c, a) == PeerRepliedStep(c, r);
    case Replicate(n) => assert Step(c, a) == ReplicateStep(c, n);
    case Heartbeat(n) => assert Step(c, a) == HeartbeatStep(c, n);
  }

  lemma {:induction false} RunCommitsNone(c: Cluster, actions: seq<Action>)
    requires NoneCommitted(c) && forall a | a in actions :: !a.Commit?
    ensures NoneCommitted(Run(c, actions))
    decreases |actions|
  {
    if actions != [] {
      var a := actions[0];
      if Enabled(c, a) {
        if a.Timeout? || a.DeliverVoteRequest? || a.Conclude? || a.Propose? || a.DeliverAppend? {
          NodeStepCommitsNone(c, a);
        } else {
          SendCommitsNone(c, a);
        }
      }
      RunCommitsNone(Step(c, a), actions[1..]);
    }
  }

  /** Nothing is ever committed in a run in which nobody sets a commit index from outside. */
  lemma NothingCommitted(members: set<NodeId>, actions: seq<Action>, n: NodeId)
    requires (forall a | a in actions :: !a.Commit?) && n in Run(Init(members), actions).nodes
    ensures Committed(Run(Init(members), actions).nodes[n]) == []
  {
    RunCommitsNone(Init(members), actions);
  }

  // ---------------------------------------------------------------- A run in which they differ

  /** A leader appends a command and is told that everything is committed. */
  function Issue(c: Cluster, n: NodeId, cmd: Command): seq<Action>
    requires n in c.nodes
  {
    [Propose(n, cmd), Commit(n, |c.nodes[n].log| + 1)]
  }

  lemma Issued(c: Cluster, n: NodeId, cmd: Command)
    requires n in c.nodes && c.nodes[n].role == Leader && c.nodes[n].commitIndex <= |c.nodes[n].log|
    ensures var d, s := Run(c, Issue(c, n, cmd)), c.nodes[n]; var i := |s.log| + 1;
            d.nodes == c.nodes[n := s.(log := s.log + [LogEntry(i, s.term, cmd)], commitIndex := i)]
  {
    Proposed(c, n, cmd);
    CommitSet(Step(c, Propose(n, cmd)), n, |c.nodes[n].log| + 1);
    RunTwo(c, Propose(n, cmd), Commit(n, |c.nodes[n].log| + 1));
  }

  lemma Proposed(c: Cluster, n: NodeId, cmd: Command)
    requires n in c.nodes && c.nodes[n].role == Leader
    ensures var s := c.nodes[n];
            Step(c, Propose(n, cmd)).nodes == c.nodes[n := s.(log := s.log + [LogEntry(|s.log| + 1, s.term, cmd)])]
  {
  }

  lemma CommitSet(c: Cluster, n: NodeId, i: nat)
    requires n in c.nodes && c.nodes[n].commitIndex <= i
    ensures Step(c, Commit(n, i)).nodes == c.nodes[n := c.nodes[n].(commitIndex := i)]
  {
  }

  /** The winner of a round once it leads, has appended the command and takes all as committed. */
  function Reigning(s: NodeState, cmd: Command): NodeState {
    s.(role := Leader, log := s.log + [LogEntry(|s.log| + 1, s.term, cmd)], commitIndex := |s.log| + 1)
  }

  lemma ReignStep(c: Cluster, n: NodeId, o: map<NodeId, NodeState>, cmd: Command)
    requires n in o && c.nodes == o[n := o[n].(role := Leader)] && o[n].commitIndex <= |o[n].log|
    ensures Run(c, Issue(c, n, cmd)).nodes == o[n := Reigning(o[n], cmd)]
  {
    Issued(c, n, cmd);
  }

  lemma Reign(c: Cluster, r: Round, cmd: Command) returns (actions: seq<Action>)
    requires Winnable(c, r) && r.node in Outcome(c, r)
    requires Outcome(c, r)[r.node].commitIndex <= |Outcome(c, r)[r.node].log|
    ensures Run(c, actions).nodes == Outcome(c, r)[r.node := Reigning(Outcome(c, r)[r.node], cmd)]
  {
    Concluded(c, r);
    var d := Run(c, Term(c, r));
    ReignStep(d, r.node, Outcome(c, r), cmd);
    RunSplits(c, Term(c, r), Issue(d, r.node, cmd));
    actions := Term(c, r) + Issue(d, r.node, cmd);
  }

  /** A leader lacks what another node has committed, and has committed another command there. */
  ghost predicate Parted(c: Cluster, x: NodeId, y: NodeId, cmd: Command, other: Command) {
    && x in c.nodes && y in c.nodes && c.nodes[y].role == Leader
    && Committed(c.nodes[x]) == [LogEntry(1, 1, cmd)] && c.nodes[y].log == [LogEntry(1, 2, other)]
    && Committed(c.nodes[y]) == c.nodes[y].log
  }

  /** The first leader, with one command that it takes as committed, and everybody else with none. */
  ghost predicate OneCommitted(c: Cluster, x: NodeId, cmd: Command) {
    && x in c.nodes && c.nodes[x].log == [LogEntry(1, 1, cmd)] && c.nodes[x].commitIndex == 1
    && forall p | p in c.nodes && p != x :: c.nodes[p].log == [] && c.nodes[p].commitIndex == 0 && c.nodes[p].term == 1
  }

  lemma FirstElection(members: set<NodeId>, x: NodeId, ps: seq<NodeId>)
    requires "" !in members && x in members && Distinct(ps) && Names(ps) == members - {x} && |ps| == |members - {x}| > 0
    ensures Winnable(Init(members), Round(x, ps, []))
  {
    var c := Init(members);
    assert Peers(c, x) == members - {x} && Names([]) == {};
    forall p | p in ps ensures p in members { assert p in Names(ps); }
  }

  lemma FirstOutcome(members: set<NodeId>, x: NodeId, ps: seq<NodeId>)
    requires x in members && Names(ps) == members - {x}
    ensures var o := Outcome(Init(members), Round(x, ps, []));
            && o.Keys == members && o[x] == AfterTimeout(INITIAL_STATE, x)
            && forall p | p in members && p != x :: o[p] == Voted(INITIAL_STATE, 1, x)
  {
    OutcomeOf(Init(members), Round(x, ps, []));
  }

  /** The first term: `x` wins it, appends a command and takes it as committed. */
  lemma FirstTerm(members: set<NodeId>, x: NodeId, cmd: Command) returns (actions: seq<Action>)
    requires "" !in members && x in members && |members - {x}| > 0
    ensures var c := Run(Init(members), actions); c.nodes.Keys == members && OneCommitted(c, x, cmd)
  {
    var ps := Listed(members - {x});
    FirstElection(members, x, ps);
    FirstOutcome(members, x, ps);
    actions := Reign(Init(members), Round(x, ps, []), cmd);
    FirstDone(Run(Init(members), actions), Outcome(Init(members), Round(x, ps, [])), x, cmd);
  }

  lemma FirstDone(c: Cluster, o: map<NodeId, NodeState>, x: NodeId, cmd: Command)
    requires x in o && o[x] == AfterTimeout(INITIAL_STATE, x)
    requires forall p | p in o && p != x :: o[p] == Voted(INITIAL_STATE, 1, x)
    requires c.nodes == o[x := Reigning(o[x], cmd)]
    ensures c.nodes.Keys == o.Keys && OneCommitted(c, x, cmd)
  {
  }

  lemma SecondElection(c: Cluster, x: NodeId, y: NodeId, ps: seq<NodeId>, cmd: Command)
    requires OneCommitted(c, x, cmd) && "" !in c.nodes && y in c.nodes && x != y
    requires Distinct(ps) && Names(ps) == c.nodes.Keys - {x, y} && |ps| == |c.nodes.Keys - {x, y}| > 0
    ensures Winnable(c, Round(y, ps, [x]))
  {
    assert Names([x]) == {x};
    assert Peers(c, y) == Names(ps) + {x};
    assert |Names(ps) + {x}| == |Names(ps)| + 1;
    forall p | p in ps ensures p in c.nodes && p != x { assert p in Names(ps); }
  }

  lemma SecondOutcome(c: Cluster, x: NodeId, y: NodeId, ps: seq<NodeId>)
    requires x in c.nodes && y in c.nodes && x != y && Names(ps) == c.nodes.Keys - {x, y}
    ensures var o := Outcome(c, Round(y, ps, [x])); o.Keys == c.nodes.Keys && o[x] == c.nodes[x]
    ensures Outcome(c, Round(y, ps, [x]))[y] == AfterTimeout(c.nodes[y], y)
  {
    OutcomeOf(c, Round(y, ps, [x]));
  }

  /** The next term: `y` wins it without `x`, and commits another command at the same index. */
  lemma SecondTerm(c: Cluster, x: NodeId, y: NodeId, cmd: Command, other: Command) returns (actions: seq<Action>)
    requires OneCommitted(c, x, cmd) && "" !in c.nodes && y in c.nodes && x != y && |c.nodes.Keys - {x, y}| > 0
    ensures Parted(Run(c, actions), x, y, cmd, other)
  {
    var ps := Listed(c.nodes.Keys - {x, y});
    SecondElection(c, x, y, ps, cmd);
    SecondOutcome(c, x, y, ps);
    actions := Reign(c, Round(y, ps, [x]), other);
    SecondDone(c, Run(c, actions), Outcome(c, Round(y, ps, [x])), x, y, cmd, other);
  }

  lemma SecondDone(c: Cluster, d: Cluster, o: map<NodeId, NodeState>, x: NodeId, y: NodeId, cmd: Command,
                   other: Command)
    requires OneCommitted(c, x, cmd) && y in c.nodes && x != y && x in o && y in o
    requires o[x] == c.nodes[x] && o[y] == AfterTimeout(c.nodes[y], y) && d.nodes == o[y := Reigning(o[y], other)]
    ensures Parted(d, x, y, cmd, other)
  {
  }

  /** In every cluster of three or more there is a run after which two nodes have committed different
      commands at the same index, and the leader of the later term lacks what the earlier committed. */
  lemma CommitsMayDiffer(members: set<NodeId>, x: NodeId, y: NodeId, cmd: Command, other: Command)
    returns (actions: seq<Action>)
    requires "" !in members && x in members && y in members && x != y && |members - {x, y}| > 0
    ensures Parted(Run(Init(members), actions), x, y, cmd, other)
  {
    assert y in members - {x};
    var first := FirstTerm(members, x, cmd);
    var second := SecondTerm(Run(Init(members), first), x, y, cmd, other);
    RunSplits(Init(members), first, second);
    actions := first + second;
  }
}
