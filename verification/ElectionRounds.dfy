/** Building runs: an election that a chosen group of peers decides, in a cluster of any size. */
module ElectionRounds {
  import opened RaftNode
  import opened RaftCluster

  // ---------------------------------------------------------------- Short runs

  lemma RunOne(c: Cluster, p: Action)
    ensures Run(c, [p]) == Step(c, p)
  {
    assert [p][1..] == [];
    assert Run(Step(c, p), []) == Step(c, p);
  }

  lemma RunTwo(c: Cluster, p: Action, q: Action)
    ensures Run(c, [p, q]) == Step(Step(c, p), q)
  {
    assert [p, q][1..] == [q] && [q][1..] == [];
    assert Run(Step(c, p), [q]) == Step(Step(c, p), q);
  }

  // ---------------------------------------------------------------- Standing for election

  /** One round: `node` stands, `voters` grant it their votes and `silent` are not heard from. */
  datatype Round = Round(node: NodeId, voters: seq<NodeId>, silent: seq<NodeId>)

  function Names(ps: seq<NodeId>): set<NodeId> {
    set p | p in ps
  }

  predicate Distinct(ps: seq<NodeId>) {
    ps == [] || (ps[0] !in ps[1..] && Distinct(ps[1..]))
  }

  /** What the voters must be like: not ahead of the candidate in term or log. */
  ghost predicate Willing(c: Cluster, n: NodeId, ps: seq<NodeId>) {
    n in c.nodes && forall p | p in ps :: p in c.nodes && c.nodes[p].term <= c.nodes[n].term &&
                                           UpToDate(c.nodes[p].log, |c.nodes[n].log|, LastTerm(c.nodes[n].log))
  }

  /** The voters and the silent are the peers, and with itself the node has a majority. */
  ghost predicate Winnable(c: Cluster, r: Round) {
    && r.node in c.nodes && r.node != "" && Willing(c, r.node, r.voters)
    && Distinct(r.voters) && Names(r.voters) !! Names(r.silent)
    && Names(r.voters) + Names(r.silent) == Peers(c, r.node)
    && 1 + |r.voters| > (|Peers(c, r.node)| + 1) / 2
  }

  function Request(k: nat, p: NodeId, n: NodeId, s: NodeState): VoteRequest {
    VoteRequest(k, p, s.term + 1, n, |s.log|, LastTerm(s.log))
  }

  lemma Campaigned(c: Cluster, n: NodeId)
    requires n in c.nodes
    ensures var d, s := CampaignStep(c, n), c.nodes[n];
            && d.nodes == c.nodes && d.attempts == c.attempts + [Attempt(n, s.term, Peers(c, n), 1, {})]
            && forall p | p in Peers(c, n) ::
                 VoteRequest(|c.attempts|, p, s.term, n, |s.log|, LastTerm(s.log)) in d.voteRequests
  {
  }

  lemma StandSteps(c: Cluster, n: NodeId)
    requires n in c.nodes
    ensures Run(c, [Timeout(n), Campaign(n)]) == CampaignStep(TimeoutStep(c, n), n)
  {
    RunTwo(c, Timeout(n), Campaign(n));
    assert Step(c, Timeout(n)) == TimeoutStep(c, n);
  }

  lemma TimedOut(c: Cluster, n: NodeId)
    requires n in c.nodes
    ensures var t := TimeoutStep(c, n);
            t.nodes == c.nodes[n := AfterTimeout(c.nodes[n], n)] && t.attempts == c.attempts
  {
  }

  /** The same nodes, one of them changed, have the same peers. */
  lemma PeersKept(c: Cluster, t: Cluster, n: NodeId, s: NodeState)
    requires n in c.nodes && t.nodes == c.nodes[n := s]
    ensures Peers(t, n) == Peers(c, n)
  {
    assert t.nodes.Keys == c.nodes.Keys;
  }

  lemma Stood(c: Cluster, n: NodeId)
    requires n in c.nodes
    ensures var d, s := Run(c, [Timeout(n), Campaign(n)]), c.nodes[n];
            && d.nodes == c.nodes[n := AfterTimeout(s, n)]
            && d.attempts == c.attempts + [Attempt(n, s.term + 1, Peers(c, n), 1, {})]
            && forall p | p in Peers(c, n) :: Request(|c.attempts|, p, n, s) in d.voteRequests
  {
    var t := TimeoutStep(c, n);
    StandSteps(c, n);
    TimedOut(c, n);
    PeersKept(c, t, n, AfterTimeout(c.nodes[n], n));
    Campaigned(t, n);
  }

  // ---------------------------------------------------------------- Collecting votes

  function Voted(s: NodeState, t: nat, n: NodeId): NodeState {
    s.(role := Follower, term := t, votedFor := n)
  }

  /** The nodes once those in `done` have voted for `n` in term `t`. */
  function Polled(nodes: map<NodeId, NodeState>, done: set<NodeId>, t: nat, n: NodeId): map<NodeId, NodeState> {
    map p | p in nodes :: if p in done then Voted(nodes[p], t, n) else nodes[p]
  }

  /** Attempt `k` of node `n`, which stood as `s`, has the votes of `done` and waits for `left`. */
  ghost predicate Polling(nodes: map<NodeId, NodeState>, d: Cluster, k: nat, n: NodeId, s: NodeState,
                          done: set<NodeId>, left: set<NodeId>) {
    && k < |d.attempts| && d.attempts[k] == Attempt(n, s.term + 1, left, 1 + |done|, done)
    && d.nodes == Polled(nodes, done, s.term + 1, n)
  }

  ghost predicate Asked(nodes: map<NodeId, NodeState>, d: Cluster, k: nat, n: NodeId, s: NodeState, ps: seq<NodeId>) {
    forall p | p in ps :: && p in nodes && nodes[p].term <= s.term && UpToDate(nodes[p].log, |s.log|, LastTerm(s.log))
                          && Request(k, p, n, s) in d.voteRequests
  }

  function Vote(k: nat, p: NodeId, n: NodeId, s: NodeState): seq<Action> {
    [DeliverVoteRequest(Request(k, p, n, s)), PeerReplied(VoteReply(k, p, true))]
  }

  function Votes(k: nat, ps: seq<NodeId>, n: NodeId, s: NodeState): seq<Action> {
    if ps == [] then [] else Vote(k, ps[0], n, s) + Votes(k, ps[1..], n, s)
  }

  lemma VoteDelivered(d: Cluster, k: nat, p: NodeId, n: NodeId, s: NodeState)
    requires p in d.nodes && n != "" && d.nodes[p].term <= s.term
    requires UpToDate(d.nodes[p].log, |s.log|, LastTerm(s.log)) && Request(k, p, n, s) in d.voteRequests
    ensures var e := Step(d, DeliverVoteRequest(Request(k, p, n, s)));
            && e.nodes == d.nodes[p := Voted(d.nodes[p], s.term + 1, n)] && e.attempts == d.attempts
            && e.voteRequests == d.voteRequests && VoteReply(k, p, true) in e.voteReplies
  {
  }

  lemma VoteCounted(d: Cluster, k: nat, p: NodeId)
    requires k < |d.attempts| && p in d.attempts[k].awaiting && VoteReply(k, p, true) in d.voteReplies
    ensures var e, a := Step(d, PeerReplied(VoteReply(k, p, true))), d.attempts[k];
            && e.nodes == d.nodes && e.voteRequests == d.voteRequests && |e.attempts| == |d.attempts|
            && e.attempts[k] ==
                 a.(awaiting := a.awaiting - {p}, votes := a.votes + 1, granters := a.granters + {p})
  {
  }

  lemma PolledMore(nodes: map<NodeId, NodeState>, done: set<NodeId>, t: nat, n: NodeId, p: NodeId)
    requires p in nodes && p !in done
    ensures Polled(nodes, done + {p}, t, n) == Polled(nodes, done, t, n)[p := Voted(nodes[p], t, n)]
    ensures Polled(nodes, done, t, n)[p] == nodes[p]
  {
  }

  lemma PollOne(nodes: map<NodeId, NodeState>, d: Cluster, k: nat, n: NodeId, s: NodeState,
                done: set<NodeId>, left: set<NodeId>, p: NodeId)
    requires Polling(nodes, d, k, n, s, done, left) && Asked(nodes, d, k, n, s, [p]) && n != ""
    requires p in left && p !in done
    ensures var e := Run(d, Vote(k, p, n, s));
            Polling(nodes, e, k, n, s, done + {p}, left - {p}) && e.voteRequests == d.voteRequests
  {
    assert p in [p];
    PolledMore(nodes, done, s.term + 1, n, p);
    VoteDelivered(d, k, p, n, s);
    VoteCounted(Step(d, DeliverVoteRequest(Request(k, p, n, s))), k, p);
    RunTwo(d, DeliverVoteRequest(Request(k, p, n, s)), PeerReplied(VoteReply(k, p, true)));
  }

  lemma {:induction false} PollAll(nodes: map<NodeId, NodeState>, d: Cluster, k: nat, n: NodeId, s: NodeState,
                                   done: set<NodeId>, left: set<NodeId>, ps: seq<NodeId>)
    requires Polling(nodes, d, k, n, s, done, left) && Asked(nodes, d, k, n, s, ps) && n != ""
    requires Distinct(ps) && Names(ps) <= left && Names(ps) !! done
    ensures Polling(nodes, Run(d, Votes(k, ps, n, s)), k, n, s, done + Names(ps), left - Names(ps))
    decreases |ps|
  {
    if ps == [] {
      assert done + Names(ps) == done && left - Names(ps) == left;
    } else {
      PollSets(done, left, ps);
      PollOne(nodes, d, k, n, s, done, left, ps[0]);
      VotesSplit(d, k, ps, n, s);
      PollAll(nodes, Run(d, Vote(k, ps[0], n, s)), k, n, s, done + {ps[0]}, left - {ps[0]}, ps[1..]);
    }
  }

  lemma PollSets(done: set<NodeId>, left: set<NodeId>, ps: seq<NodeId>)
    requires ps != [] && Distinct(ps) && Names(ps) <= left && Names(ps) !! done
    ensures ps[0] in left && ps[0] !in done
    ensures Names(ps[1..]) <= left - {ps[0]} && Names(ps[1..]) !! done + {ps[0]}
    ensures done + {ps[0]} + Names(ps[1..]) == done + Names(ps)
    ensures left - {ps[0]} - Names(ps[1..]) == left - Names(ps)
  {
    NamesFirst(ps);
  }

  lemma VotesSplit(d: Cluster, k: nat, ps: seq<NodeId>, n: NodeId, s: NodeState)
    requires ps != []
    ensures Run(d, Votes(k, ps, n, s)) == Run(Run(d, Vote(k, ps[0], n, s)), Votes(k, ps[1..], n, s))
  {
    RunSplits(d, Vote(k, ps[0], n, s), Votes(k, ps[1..], n, s));
  }

  lemma NamesFirst(ps: seq<NodeId>)
    requires ps != []
    ensures Names(ps) == {ps[0]} + Names(ps[1..]) && (Distinct(ps) ==> ps[0] !in Names(ps[1..]))
  {
    assert ps == [ps[0]] + ps[1..];
  }

  lemma {:induction false} NamesCount(ps: seq<NodeId>)
    requires Distinct(ps)
    ensures |Names(ps)| == |ps|
  {
    if ps != [] {
      NamesFirst(ps);
      NamesCount(ps[1..]);
    }
  }

  // ---------------------------------------------------------------- Peers that are not heard from

  function Silence(k: nat, ps: seq<NodeId>): seq<Action> {
    if ps == [] then [] else [PeerFailed(k, ps[0])] + Silence(k, ps[1..])
  }

  lemma PeerSilent(d: Cluster, k: nat, p: NodeId)
    requires k < |d.attempts|
    ensures var e, a := Run(d, [PeerFailed(k, p)]), d.attempts[k];
            e.nodes == d.nodes && |e.attempts| == |d.attempts| && e.attempts[k] == a.(awaiting := a.awaiting - {p})
  {
    RunOne(d, PeerFailed(k, p));
  }

  lemma {:induction false} AllSilent(d: Cluster, k: nat, ps: seq<NodeId>)
    requires k < |d.attempts|
    ensures var e, a := Run(d, Silence(k, ps)), d.attempts[k];
            && e.nodes == d.nodes && |e.attempts| == |d.attempts|
            && e.attempts[k] == a.(awaiting := a.awaiting - Names(ps))
    decreases |ps|
  {
    var a := d.attempts[k];
    if ps == [] {
      assert a.awaiting - Names(ps) == a.awaiting;
    } else {
      NamesFirst(ps);
      PeerSilent(d, k, ps[0]);
      AllSilent(Run(d, [PeerFailed(k, ps[0])]), k, ps[1..]);
      RunSplits(d, [PeerFailed(k, ps[0])], Silence(k, ps[1..]));
      assert a.awaiting - {ps[0]} - Names(ps[1..]) == a.awaiting - Names(ps);
    }
  }

  // ---------------------------------------------------------------- The round

  /** The nodes after the round, before anybody is promoted. */
  function Outcome(c: Cluster, r: Round): map<NodeId, NodeState>
    requires r.node in c.nodes
  {
    Polled(Standing(c, r.node), Names(r.voters), c.nodes[r.node].term + 1, r.node)
  }

  function Ballots(c: Cluster, r: Round): seq<Action>
    requires r.node in c.nodes
  {
    [Timeout(r.node), Campaign(r.node)] +
    (Votes(|c.attempts|, r.voters, r.node, c.nodes[r.node]) + Silence(|c.attempts|, r.silent))
  }

  function Standing(c: Cluster, n: NodeId): map<NodeId, NodeState>
    requires n in c.nodes
  {
    c.nodes[n := AfterTimeout(c.nodes[n], n)]
  }

  lemma PollStarts(c: Cluster, n: NodeId)
    requires n in c.nodes
    ensures Polling(Standing(c, n), Run(c, [Timeout(n), Campaign(n)]), |c.attempts|, n, c.nodes[n], {}, Peers(c, n))
  {
    Stood(c, n);
    assert Polled(Standing(c, n), {}, c.nodes[n].term + 1, n) == Standing(c, n);
  }

  lemma AskStarts(c: Cluster, r: Round)
    requires Winnable(c, r)
    ensures Asked(Standing(c, r.node), Run(c, [Timeout(r.node), Campaign(r.node)]), |c.attempts|, r.node,
                  c.nodes[r.node], r.voters)
  {
    Stood(c, r.node);
    forall p | p in r.voters ensures p in Peers(c, r.node) { assert p in Names(r.voters); }
  }

  lemma PollEnds(c: Cluster, r: Round)
    requires Winnable(c, r)
    ensures var n := r.node; var s := c.nodes[n];
            var d := Run(Run(c, [Timeout(n), Campaign(n)]), Votes(|c.attempts|, r.voters, n, s));
            Polling(Standing(c, n), d, |c.attempts|, n, s, Names(r.voters), Names(r.silent))
  {
    PollStarts(c, r.node);
    AskStarts(c, r);
    PollAll(Standing(c, r.node), Run(c, [Timeout(r.node), Campaign(r.node)]), |c.attempts|, r.node, c.nodes[r.node],
            {}, Peers(c, r.node), r.voters);
    assert {} + Names(r.voters) == Names(r.voters) && Peers(c, r.node) - Names(r.voters) == Names(r.silent);
  }

  lemma BallotsSplit(c: Cluster, r: Round)
    requires r.node in c.nodes
    ensures var n, k := r.node, |c.attempts|;
            Run(c, Ballots(c, r)) ==
            Run(Run(Run(c, [Timeout(n), Campaign(n)]), Votes(k, r.voters, n, c.nodes[n])), Silence(k, r.silent))
  {
    var n, k := r.node, |c.attempts|;
    RunSplits(c, [Timeout(n), Campaign(n)], Votes(k, r.voters, n, c.nodes[n]) + Silence(k, r.silent));
    RunSplits(Run(c, [Timeout(n), Campaign(n)]), Votes(k, r.voters, n, c.nodes[n]), Silence(k, r.silent));
  }

  lemma SilenceEnds(nodes: map<NodeId, NodeState>, d: Cluster, k: nat, n: NodeId, s: NodeState,
                    done: set<NodeId>, silent: seq<NodeId>)
    requires Polling(nodes, d, k, n, s, done, Names(silent))
    ensures Polling(nodes, Run(d, Silence(k, silent)), k, n, s, done, {})
  {
    AllSilent(d, k, silent);
    assert Names(silent) - Names(silent) == {};
  }

  /** The round leaves an attempt that has all answers, and those votes. */
  lemma Polls(c: Cluster, r: Round)
    requires Winnable(c, r)
    ensures Polling(Standing(c, r.node), Run(c, Ballots(c, r)), |c.attempts|, r.node, c.nodes[r.node],
                    Names(r.voters), {})
  {
    PollEnds(c, r);
    BallotsSplit(c, r);
    SilenceEnds(Standing(c, r.node), Run(Run(c, [Timeout(r.node), Campaign(r.node)]),
                                         Votes(|c.attempts|, r.voters, r.node, c.nodes[r.node])),
                |c.attempts|, r.node, c.nodes[r.node], Names(r.voters), r.silent);
  }

  lemma MajorityWins(c: Cluster, r: Round, d: Cluster)
    requires Winnable(c, r) && r.node !in Names(r.voters)
    requires Polling(Standing(c, r.node), d, |c.attempts|, r.node, c.nodes[r.node], Names(r.voters), {})
    ensures d.nodes == Outcome(c, r) && d.attempts[|c.attempts|].node == r.node && Wins(d, d.attempts[|c.attempts|])
  {
    NamesCount(r.voters);
    OutcomeOf(c, r);
  }

  lemma OutcomeOf(c: Cluster, r: Round)
    requires r.node in c.nodes && r.node !in Names(r.voters)
    ensures Outcome(c, r).Keys == c.nodes.Keys && Outcome(c, r)[r.node] == AfterTimeout(c.nodes[r.node], r.node)
  {
    assert Standing(c, r.node).Keys == c.nodes.Keys;
  }

  lemma NotItsOwnVoter(c: Cluster, r: Round)
    requires Names(r.voters) <= Peers(c, r.node)
    ensures r.node !in Names(r.voters)
  {
  }

  /** A majority wins. */
  lemma Won(c: Cluster, r: Round)
    requires Winnable(c, r)
    ensures var d, k := Run(c, Ballots(c, r)), |c.attempts|;
            d.nodes == Outcome(c, r) && k < |d.attempts| && d.attempts[k].node == r.node && Wins(d, d.attempts[k])
  {
    Polls(c, r);
    NotItsOwnVoter(c, r);
    MajorityWins(c, r, Run(c, Ballots(c, r)));
  }

  /** The round and the promotion of its winner. */
  function Term(c: Cluster, r: Round): seq<Action>
    requires r.node in c.nodes
  {
    Ballots(c, r) + [Conclude(|c.attempts|)]
  }

  lemma ConcludeRun(c: Cluster, k: nat)
    requires k < |c.attempts| && Wins(c, c.attempts[k])
    ensures var n := c.attempts[k].node;
            Run(c, [Conclude(k)]).nodes == c.nodes[n := c.nodes[n].(role := Leader)]
  {
    RunOne(c, Conclude(k));
  }

  lemma Concluded(c: Cluster, r: Round)
    requires Winnable(c, r)
    ensures var o, n := Outcome(c, r), r.node; Run(c, Term(c, r)).nodes == o[n := o[n].(role := Leader)]
  {
    Won(c, r);
    ConcludeRun(Run(c, Ballots(c, r)), |c.attempts|);
    RunSplits(c, Ballots(c, r), [Conclude(|c.attempts|)]);
  }

  // ---------------------------------------------------------------- Who votes

  /** The set as a list. */
  lemma {:induction false} Listed(s: set<NodeId>) returns (ps: seq<NodeId>)
    ensures Distinct(ps) && Names(ps) == s && |ps| == |s|
    decreases |s|
  {
    if s == {} {
      ps := [];
    } else {
      var p :| p in s;
      var rest := Listed(s - {p});
      ps := [p] + rest;
      assert ps[1..] == rest;
      NamesFirst(ps);
    }
  }
}
