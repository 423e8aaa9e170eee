/**
 A cluster of Raft nodes with a fixed membership, no restarts, and requests that may be delayed,
 reordered, repeated or lost. Each lock-held block of the source is one action; checking the
 election result and becoming leader is one action as well.
 */
module RaftCluster {
  import opened RaftNode

  datatype VoteRequest = VoteRequest(
    attempt: nat, to: NodeId, term: nat, candidate: NodeId, lastIndex: nat, lastTerm: nat)

  datatype VoteReply = VoteReply(attempt: nat, from: NodeId, granted: bool)

  /** One run of startElection: `votes` is its counter, `awaiting` the peers not heard from.
      `granters` records who raised the counter. */
  datatype Attempt = Attempt(node: NodeId, term: nat, awaiting: set<NodeId>, votes: nat, granters: set<NodeId>)

  datatype Ballot = Ballot(term: nat, voter: NodeId, candidate: NodeId)

  datatype Slot = Slot(term: nat, index: nat)

  /** Nodes, everything ever sent, and three histories: the votes cast, the leader elected in each
      term, and for each proposed entry the proposer's log up to and including it. */
  datatype Cluster = Cluster(
    nodes: map<NodeId, NodeState>,
    appends: set<AppendRequest>,
    voteRequests: set<VoteRequest>,
    voteReplies: set<VoteReply>,
    attempts: seq<Attempt>,
    ballots: set<Ballot>,
    leaders: map<nat, NodeId>,
    chain: map<Slot, Log>)

  datatype Action =
    | Timeout(node: NodeId)
    | Campaign(node: NodeId)
    | DeliverVoteRequest(request: VoteRequest)
    | PeerFailed(attempt: nat, peer: NodeId)
    | PeerReplied(reply: VoteReply)
    | Conclude(attempt: nat)
    | Propose(node: NodeId, command: Command)
    | Replicate(node: NodeId)
    | Heartbeat(node: NodeId)
    | DeliverAppend(append: AppendRequest)
    | Commit(node: NodeId, index: nat)

  function Init(members: set<NodeId>): Cluster {
    Cluster(map n | n in members :: INITIAL_STATE, {}, {}, {}, [], {}, map[], map[])
  }

  function Peers(c: Cluster, n: NodeId): set<NodeId> {
    c.nodes.Keys - {n}
  }

  function TimeoutStep(c: Cluster, n: NodeId): Cluster
    requires n in c.nodes
  {
    var s := AfterTimeout(c.nodes[n], n);
    c.(nodes := c.nodes[n := s], ballots := c.ballots + {Ballot(s.term, n, n)})
  }

  /** The second lock-held block of startElection: read term and log, then ask every peer. */
  function CampaignStep(c: Cluster, n: NodeId): Cluster
    requires n in c.nodes
  {
    var s := c.nodes[n];
    var k := |c.attempts|;
    var asked := set p | p in Peers(c, n) :: VoteRequest(k, p, s.term, n, |s.log|, LastTerm(s.log));
    c.(attempts := c.attempts + [Attempt(n, s.term, Peers(c, n), 1, {})],
       voteRequests := c.voteRequests + asked)
  }

  function VoteStep(c: Cluster, q: VoteRequest): Cluster
    requires q.to in c.nodes
  {
    var (s, granted) := AfterVote(c.nodes[q.to], q.term, q.candidate, q.lastIndex, q.lastTerm);
    c.(nodes := c.nodes[q.to := s],
       voteReplies := c.voteReplies + {VoteReply(q.attempt, q.to, granted)},
       ballots := if granted then c.ballots + {Ballot(q.term, q.to, q.candidate)} else c.ballots)
  }

  function PeerFailedStep(c: Cluster, k: nat, p: NodeId): Cluster
    requires k < |c.attempts|
  {
    var a := c.attempts[k];
    c.(attempts := c.attempts[k := a.(awaiting := a.awaiting - {p})])
  }

  function PeerRepliedStep(c: Cluster, r: VoteReply): Cluster
    requires r.attempt < |c.attempts|
  {
    var a := c.attempts[r.attempt];
    if r.from !in a.awaiting then c
    else
      var a1 := a.(awaiting := a.awaiting - {r.from});
      var a2 := if r.granted then a1.(votes := a1.votes + 1, granters := a1.granters + {r.from}) else a1;
      c.(attempts := c.attempts[r.attempt := a2])
  }

  predicate Wins(c: Cluster, a: Attempt) {
    a.node in c.nodes && a.awaiting == {} &&
    c.nodes[a.node].role == Candidate && c.nodes[a.node].term == a.term &&
    a.votes > (|Peers(c, a.node)| + 1) / 2
  }

  function ConcludeStep(c: Cluster, k: nat): Cluster
    requires k < |c.attempts|
  {
    var a := c.attempts[k];
    if !Wins(c, a) then c
    else c.(nodes := c.nodes[a.node := c.nodes[a.node].(role := Leader)],
            leaders := c.leaders[a.term := a.node])
  }

  function ProposeStep(c: Cluster, n: NodeId, cmd: Command): Cluster
    requires n in c.nodes
  {
    var (s, index, ok) := AfterPropose(c.nodes[n], cmd);
    if !ok then c
    else c.(nodes := c.nodes[n := s], chain := c.chain[Slot(s.term, index) := s.log])
  }

  function ReplicateStep(c: Cluster, n: NodeId): Cluster
    requires n in c.nodes
  {
    var s := c.nodes[n];
    if s.role != Leader || s.log == [] then c
    else c.(appends := c.appends + set p | p in Peers(c, n) :: ReplicationTo(s, n, p))
  }

  /** The role is looked at in an earlier lock-held block, so nothing is assumed of it here. */
  function HeartbeatStep(c: Cluster, n: NodeId): Cluster
    requires n in c.nodes
  {
    c.(appends := c.appends + set p | p in Peers(c, n) :: HeartbeatTo(c.nodes[n], n, p))
  }

  function AppendStep(c: Cluster, m: AppendRequest): Cluster
    requires m.to in c.nodes && Indexed(m.entries)
  {
    var (s, success) := AfterAppend(c.nodes[m.to], m.term, m.commit, m.prevIndex, m.prevTerm, m.entries);
    c.(nodes := c.nodes[m.to := s])
  }

  function CommitStep(c: Cluster, n: NodeId, index: nat): Cluster
    requires n in c.nodes
  {
    var s := c.nodes[n];
    c.(nodes := c.nodes[n := s.(commitIndex := if index > s.commitIndex then index else s.commitIndex)])
  }

  /** Can the action happen? */
  predicate Enabled(c: Cluster, a: Action) {
    match a
    case Timeout(n) => n in c.nodes
    case Campaign(n) => n in c.nodes
    case DeliverVoteRequest(q) => q in c.voteRequests && q.to in c.nodes
    case PeerFailed(k, p) => k < |c.attempts|
    case PeerReplied(r) => r in c.voteReplies && r.attempt < |c.attempts|
    case Conclude(k) => k < |c.attempts|
    case Propose(n, cmd) => n in c.nodes
    case Replicate(n) => n in c.nodes
    case Heartbeat(n) => n in c.nodes
    case DeliverAppend(m) => m in c.appends && m.to in c.nodes && Indexed(m.entries)
    case Commit(n, i) => n in c.nodes
  }

  function Step(c: Cluster, a: Action): Cluster {
    if !Enabled(c, a) then c else
    match a
    case Timeout(n) => TimeoutStep(c, n)
    case Campaign(n) => CampaignStep(c, n)
    case DeliverVoteRequest(q) => VoteStep(c, q)
    case PeerFailed(k, p) => PeerFailedStep(c, k, p)
    case PeerReplied(r) => PeerRepliedStep(c, r)
    case Conclude(k) => ConcludeStep(c, k)
    case Propose(n, cmd) => ProposeStep(c, n, cmd)
    case Replicate(n) => ReplicateStep(c, n)
    case Heartbeat(n) => HeartbeatStep(c, n)
    case DeliverAppend(m) => AppendStep(c, m)
    case Commit(n, i) => CommitStep(c, n, i)
  }

  function Run(c: Cluster, actions: seq<Action>): Cluster
    decreases |actions|
  {
    if actions == [] then c else Run(Step(c, actions[0]), actions[1..])
  }

  // ---------------------------------------------------------------- Votes

  ghost predicate AttemptOk(c: Cluster, a: Attempt) {
    && a.node in c.nodes
    && a.votes == 1 + |a.granters|
    && a.awaiting !! a.granters
    && a.awaiting + a.granters <= Peers(c, a.node)
    && forall g | g in a.granters :: Ballot(a.term, g, a.node) in c.ballots
  }

  ghost predicate BallotOk(c: Cluster, b: Ballot) {
    && b.voter in c.nodes && b.candidate in c.nodes
    && b.term <= c.nodes[b.voter].term
    && (b.term == c.nodes[b.voter].term ==> c.nodes[b.voter].votedFor == b.candidate)
  }

  ghost predicate RequestOk(c: Cluster, q: VoteRequest) {
    q.attempt < |c.attempts| && q.candidate == c.attempts[q.attempt].node && q.term == c.attempts[q.attempt].term
  }

  ghost predicate ReplyOk(c: Cluster, r: VoteReply) {
    r.attempt < |c.attempts| &&
    (r.granted ==> Ballot(c.attempts[r.attempt].term, r.from, c.attempts[r.attempt].node) in c.ballots)
  }

  /** Each voter votes for at most one candidate per term. */
  ghost predicate OneVotePerTerm(c: Cluster) {
    forall b1, b2 | b1 in c.ballots && b2 in c.ballots && b1.term == b2.term && b1.voter == b2.voter ::
      b1.candidate == b2.candidate
  }

  /** Candidates and leaders voted for themselves in their term. */
  ghost predicate SelfVotes(c: Cluster) {
    forall n | n in c.nodes && c.nodes[n].role != Follower :: Ballot(c.nodes[n].term, n, n) in c.ballots
  }

  ghost predicate BallotsInv(c: Cluster) {
    && "" !in c.nodes
    && (forall b | b in c.ballots :: BallotOk(c, b))
    && OneVotePerTerm(c)
    && SelfVotes(c)
  }

  ghost predicate AttemptsInv(c: Cluster) {
    && (forall q | q in c.voteRequests :: RequestOk(c, q))
    && (forall r | r in c.voteReplies :: ReplyOk(c, r))
    && (forall k | 0 <= k < |c.attempts| :: AttemptOk(c, c.attempts[k]))
  }

  ghost predicate VotesInv(c: Cluster) {
    BallotsInv(c) && AttemptsInv(c)
  }

  /** Nothing but logs, commit indexes and append requests differs. */
  ghost predicate SameElection(c: Cluster, d: Cluster) {
    && d.attempts == c.attempts && d.voteRequests == c.voteRequests && d.voteReplies == c.voteReplies
    && d.ballots == c.ballots && d.nodes.Keys == c.nodes.Keys
    && forall n | n in c.nodes ::
         && d.nodes[n].role == c.nodes[n].role && d.nodes[n].term == c.nodes[n].term
         && d.nodes[n].votedFor == c.nodes[n].votedFor
  }

  lemma VotesFrame(c: Cluster, d: Cluster)
    requires VotesInv(c) && SameElection(c, d)
    ensures VotesInv(d)
  {
    BallotsFrame(c, d);
    AttemptsFrame(c, d);
  }

  lemma BallotsFrame(c: Cluster, d: Cluster)
    requires BallotsInv(c) && SameElection(c, d)
    ensures BallotsInv(d)
  {
    forall b | b in d.ballots ensures BallotOk(d, b) { assert BallotOk(c, b); }
  }

  /** More ballots, the same attempts and members: what was known of attempts still holds. */
  lemma AttemptsFrame(c: Cluster, d: Cluster)
    requires AttemptsInv(c) && d.nodes.Keys == c.nodes.Keys && c.ballots <= d.ballots
    requires d.attempts == c.attempts && d.voteRequests == c.voteRequests
    requires forall r | r in d.voteReplies :: r in c.voteReplies || ReplyOk(d, r)
    ensures AttemptsInv(d)
  {
    forall q | q in d.voteRequests ensures RequestOk(d, q) { assert RequestOk(c, q); }
    forall r | r in d.voteReplies ensures ReplyOk(d, r) { assert r in c.voteReplies ==> ReplyOk(c, r); }
    forall k | 0 <= k < |d.attempts| ensures AttemptOk(d, d.attempts[k]) {
      assert AttemptOk(c, c.attempts[k]);
    }
  }

  lemma VotesTimeout(c: Cluster, n: NodeId)
    requires VotesInv(c) && n in c.nodes
    ensures VotesInv(TimeoutStep(c, n))
  {
    AttemptsFrame(c, TimeoutStep(c, n));
  }

  lemma VotesCampaign(c: Cluster, n: NodeId)
    requires VotesInv(c) && n in c.nodes
    ensures VotesInv(CampaignStep(c, n))
  {
  }

  lemma BallotsVote(c: Cluster, q: VoteRequest)
    requires BallotsInv(c) && q.to in c.nodes && q.candidate in c.nodes
    ensures BallotsInv(VoteStep(c, q))
  {
    var d := VoteStep(c, q);
    forall b | b in d.ballots ensures BallotOk(d, b) {
      if b in c.ballots { assert BallotOk(c, b); }
    }
    forall b1, b2 | b1 in d.ballots && b2 in d.ballots && b1.term == b2.term && b1.voter == b2.voter
      ensures b1.candidate == b2.candidate
    {
      assert BallotOk(d, b1) && BallotOk(d, b2);
      assert b1 in c.ballots ==> BallotOk(c, b1);
      assert b2 in c.ballots ==> BallotOk(c, b2);
    }
  }

  lemma VotesVote(c: Cluster, q: VoteRequest)
    requires VotesInv(c) && q in c.voteRequests && q.to in c.nodes
    ensures VotesInv(VoteStep(c, q))
  {
    assert RequestOk(c, q) && AttemptOk(c, c.attempts[q.attempt]);
    BallotsVote(c, q);
    AttemptsFrame(c, VoteStep(c, q));
  }

  /** Replacing one attempt by another of the same election. */
  lemma AttemptReplaced(c: Cluster, k: nat, a: Attempt)
    requires AttemptsInv(c) && k < |c.attempts|
    requires a.node == c.attempts[k].node && a.term == c.attempts[k].term && AttemptOk(c, a)
    ensures AttemptsInv(c.(attempts := c.attempts[k := a]))
  {
    var d := c.(attempts := c.attempts[k := a]);
    forall q | q in d.voteRequests ensures RequestOk(d, q) { assert RequestOk(c, q); }
    forall r | r in d.voteReplies ensures ReplyOk(d, r) { assert ReplyOk(c, r); }
    forall j | 0 <= j < |d.attempts| ensures AttemptOk(d, d.attempts[j]) {
      assert j != k ==> AttemptOk(c, c.attempts[j]);
    }
  }

  lemma VotesReplied(c: Cluster, r: VoteReply)
    requires VotesInv(c) && r in c.voteReplies
    ensures r.attempt < |c.attempts| && VotesInv(PeerRepliedStep(c, r))
  {
    assert ReplyOk(c, r);
    var a := c.attempts[r.attempt];
    assert AttemptOk(c, a);
    if r.from in a.awaiting {
      AttemptReplaced(c, r.attempt, PeerRepliedStep(c, r).attempts[r.attempt]);
    }
  }

  lemma VotesFailed(c: Cluster, k: nat, p: NodeId)
    requires VotesInv(c) && k < |c.attempts|
    ensures VotesInv(PeerFailedStep(c, k, p))
  {
    assert AttemptOk(c, c.attempts[k]);
    AttemptReplaced(c, k, PeerFailedStep(c, k, p).attempts[k]);
  }

  lemma VotesAppend(c: Cluster, m: AppendRequest)
    requires VotesInv(c) && m.to in c.nodes && Indexed(m.entries)
    ensures VotesInv(AppendStep(c, m))
  {
    var d := AppendStep(c, m);
    forall b | b in d.ballots ensures BallotOk(d, b) { assert BallotOk(c, b); }
    AttemptsFrame(c, d);
  }

  lemma VotesConclude(c: Cluster, k: nat)
    requires VotesInv(c) && k < |c.attempts|
    ensures VotesInv(ConcludeStep(c, k))
  {
    AttemptsFrame(c, ConcludeStep(c, k));
  }

  lemma VotesStep(c: Cluster, a: Action)
    requires VotesInv(c)
    ensures VotesInv(Step(c, a))
  {
    if Enabled(c, a) {
      match a
      case Timeout(n) => VotesTimeout(c, n);
      case Campaign(n) => VotesCampaign(c, n);
      case DeliverVoteRequest(q) => VotesVote(c, q);
      case PeerFailed(k, p) => VotesFailed(c, k, p);
      case PeerReplied(r) => VotesReplied(c, r);
      case Conclude(k) => VotesConclude(c, k);
      case DeliverAppend(m) => VotesAppend(c, m);
      case Propose(n, cmd) => VotesFrame(c, ProposeStep(c, n, cmd));
      case Replicate(n) => VotesFrame(c, ReplicateStep(c, n));
      case Heartbeat(n) => VotesFrame(c, HeartbeatStep(c, n));
      case Commit(n, i) => VotesFrame(c, CommitStep(c, n, i));
    }
  }

  // ---------------------------------------------------------------- Leaders

  ghost function Backers(c: Cluster, term: nat, n: NodeId): set<NodeId> {
    set v | v in c.nodes && Ballot(term, v, n) in c.ballots
  }

  /** A strict majority of the members voted for `n` in `term`. */
  ghost predicate Elected(c: Cluster, term: nat, n: NodeId) {
    2 * |Backers(c, term, n)| > |c.nodes|
  }

  ghost predicate LeaderOk(c: Cluster, term: nat)
    requires term in c.leaders
  {
    var n := c.leaders[term];
    && n in c.nodes && Elected(c, term, n)
    && (c.nodes[n].term > term || (c.nodes[n].term == term && c.nodes[n].role == Leader))
  }

  ghost predicate LeadersInv(c: Cluster) {
    && (forall t | t in c.leaders :: LeaderOk(c, t))
    && (forall n | n in c.nodes && c.nodes[n].role == Leader ::
          c.nodes[n].term in c.leaders && c.leaders[c.nodes[n].term] == n)
  }

  lemma MajoritiesMeet(members: set<NodeId>, a: set<NodeId>, b: set<NodeId>) returns (v: NodeId)
    requires a <= members && b <= members && 2 * |a| > |members| && 2 * |b| > |members|
    ensures v in a && v in b
  {
    SubsetSize(a + b, members);
    assert |a + b| == |a| + |b| - |a * b|;
    v :| v in a * b;
  }

  lemma SubsetSize(a: set<NodeId>, b: set<NodeId>)
    requires a <= b
    ensures |a| <= |b|
  {
    assert b == a + (b - a);
    assert |b| == |a| + |b - a|;
  }

  /** Two nodes that a majority elected in the same term are one node. */
  lemma ElectedUnique(c: Cluster, term: nat, n1: NodeId, n2: NodeId)
    requires BallotsInv(c) && Elected(c, term, n1) && Elected(c, term, n2)
    ensures n1 == n2
  {
    var v := MajoritiesMeet(c.nodes.Keys, Backers(c, term, n1), Backers(c, term, n2));
    assert Ballot(term, v, n1) in c.ballots && Ballot(term, v, n2) in c.ballots;
  }

  lemma ElectedPersists(c: Cluster, d: Cluster, term: nat, n: NodeId)
    requires Elected(c, term, n) && c.ballots <= d.ballots && d.nodes.Keys == c.nodes.Keys
    ensures Elected(d, term, n)
  {
    SubsetSize(Backers(c, term, n), Backers(d, term, n));
    assert |c.nodes| == |c.nodes.Keys| == |d.nodes.Keys| == |d.nodes|;
  }

  /** Terms never decrease, leadership ends only with its term, and nobody becomes leader. */
  ghost predicate Advances(s: NodeState, r: NodeState) {
    && r.term >= s.term
    && (s.role == Leader && r.term == s.term ==> r.role == Leader)
    && (r.role == Leader ==> s.role == Leader && r.term == s.term)
  }

  lemma LeadersFrame(c: Cluster, d: Cluster)
    requires LeadersInv(c) && d.leaders == c.leaders && c.ballots <= d.ballots && d.nodes.Keys == c.nodes.Keys
    requires forall n | n in c.nodes :: Advances(c.nodes[n], d.nodes[n])
    ensures LeadersInv(d)
  {
    forall t | t in d.leaders ensures LeaderOk(d, t) {
      assert LeaderOk(c, t);
      ElectedPersists(c, d, t, c.leaders[t]);
    }
  }

  lemma WinnerElected(c: Cluster, k: nat)
    requires VotesInv(c) && k < |c.attempts| && Wins(c, c.attempts[k])
    ensures Elected(c, c.attempts[k].term, c.attempts[k].node)
  {
    var a := c.attempts[k];
    assert AttemptOk(c, a);
    var q := a.granters + {a.node};
    assert |q| == a.votes;
    SubsetSize(q, Backers(c, a.term, a.node));
    assert |Peers(c, a.node)| + 1 == |c.nodes.Keys|;
  }

  /** Winning a term excludes that the term had a leader before. */
  lemma WinnerIsFirst(c: Cluster, k: nat)
    requires VotesInv(c) && LeadersInv(c) && k < |c.attempts| && Wins(c, c.attempts[k])
    ensures c.attempts[k].term !in c.leaders
  {
    var a := c.attempts[k];
    WinnerElected(c, k);
    if a.term in c.leaders {
      assert LeaderOk(c, a.term);
      ElectedUnique(c, a.term, a.node, c.leaders[a.term]);
    }
  }

  lemma LeadersConclude(c: Cluster, k: nat)
    requires VotesInv(c) && LeadersInv(c) && k < |c.attempts|
    ensures LeadersInv(ConcludeStep(c, k))
  {
    if Wins(c, c.attempts[k]) {
      WinnerElected(c, k);
      WinnerIsFirst(c, k);
      var d := ConcludeStep(c, k);
      forall t | t in d.leaders ensures LeaderOk(d, t) {
        if t in c.leaders { LeaderOkLater(c, d, t); } else { ElectedPersists(c, d, t, d.leaders[t]); }
      }
    }
  }

  lemma LeaderOkLater(c: Cluster, d: Cluster, t: nat)
    requires t in c.leaders && LeaderOk(c, t) && t in d.leaders && d.leaders[t] == c.leaders[t]
    requires c.ballots <= d.ballots && d.nodes.Keys == c.nodes.Keys
    requires d.nodes[c.leaders[t]].term == c.nodes[c.leaders[t]].term
    requires c.nodes[c.leaders[t]].role == Leader ==> d.nodes[c.leaders[t]].role == Leader
    ensures LeaderOk(d, t)
  {
    ElectedPersists(c, d, t, c.leaders[t]);
  }

  /** Everything a step may do to nodes, apart from promoting the winner of an election. */
  lemma StepAdvances(c: Cluster, a: Action)
    requires !a.Conclude?
    ensures Step(c, a).nodes.Keys == c.nodes.Keys
    ensures Step(c, a).leaders == c.leaders && c.ballots <= Step(c, a).ballots
    ensures forall n | n in c.nodes :: Advances(c.nodes[n], Step(c, a).nodes[n])
  {
    if Enabled(c, a) {
      match a
      case Timeout(n) => assert Step(c, a) == TimeoutStep(c, n);
      case Campaign(n) => assert Step(c, a) == CampaignStep(c, n);
      case DeliverVoteRequest(q) => assert Step(c, a) == VoteStep(c, q);
      case PeerFailed(k, p) => assert Step(c, a) == PeerFailedStep(c, k, p);
      case PeerReplied(r) => assert Step(c, a) == PeerRepliedStep(c, r);
      case Propose(n, cmd) => assert Step(c, a) == ProposeStep(c, n, cmd);
      case Replicate(n) => assert Step(c, a) == ReplicateStep(c, n);
      case Heartbeat(n) => assert Step(c, a) == HeartbeatStep(c, n);
      case DeliverAppend(m) => assert Step(c, a) == AppendStep(c, m);
      case Commit(n, i) => assert Step(c, a) == CommitStep(c, n, i);
    }
  }

  lemma LeadersStep(c: Cluster, a: Action)
    requires VotesInv(c) && LeadersInv(c)
    ensures LeadersInv(Step(c, a))
  {
    if a.Conclude? {
      if Enabled(c, a) { LeadersConclude(c, a.attempt); }
    } else {
      StepAdvances(c, a);
      LeadersFrame(c, Step(c, a));
    }
  }

  // ---------------------------------------------------------------- Logs

  /** Each entry of the log carries its position as index, and the log up to it is the log
      its proposer had when proposing it. */
  ghost predicate Chained(chain: map<Slot, Log>, log: Log) {
    forall j | 0 <= j < |log| ::
      log[j].index == j + 1 &&
      Slot(log[j].term, j + 1) in chain && chain[Slot(log[j].term, j + 1)] == log[..j + 1]
  }

  ghost predicate SlotOk(c: Cluster, s: Slot)
    requires s in c.chain
  {
    var log := c.chain[s];
    && s.index == |log| >= 1 && log[s.index - 1].term == s.term && Chained(c.chain, log)
    && s.term in c.leaders && c.leaders[s.term] in c.nodes
    && var l := c.nodes[c.leaders[s.term]]; (l.term == s.term ==> s.index <= |l.log|)
  }

  /** The entries are the end of a proposer's log, and the request says truly what precedes them. */
  ghost predicate AppendOk(c: Cluster, m: AppendRequest) {
    m.entries == [] ||
    var e := m.entries[|m.entries| - 1];
    && m.term in c.leaders && c.leaders[m.term] == m.leader && m.to != m.leader
    && Slot(e.term, e.index) in c.chain
    && var log := c.chain[Slot(e.term, e.index)];
       && |log| == m.prevIndex + |m.entries| && m.entries == log[m.prevIndex..]
       && m.prevTerm == LastTerm(log[..m.prevIndex])
  }

  ghost predicate LogsInv(c: Cluster) {
    && (forall s | s in c.chain :: SlotOk(c, s))
    && (forall n | n in c.nodes :: Chained(c.chain, c.nodes[n].log))
    && (forall m | m in c.appends :: AppendOk(c, m))
  }

  /** Chained logs with the same term at a position agree up to it. */
  lemma ChainedAgree(chain: map<Slot, Log>, a: Log, b: Log, i: nat)
    requires Chained(chain, a) && Chained(chain, b) && i < |a| && i < |b| && a[i].term == b[i].term
    ensures a[..i + 1] == b[..i + 1]
  {
  }

  /** A log that matches what precedes the entries, and has the first `k` of them, agrees with
      the proposer's log that far. */
  lemma PresentAgree(chain: map<Slot, Log>, log: Log, source: Log, prev: nat, k: nat)
    requires Chained(chain, log) && Chained(chain, source)
    requires prev < |source| && Matches(log, prev, LastTerm(source[..prev]))
    requires Present(log, prev, source[prev..], k)
    ensures prev + k <= |log| && log[..prev + k] == source[..prev + k]
  {
    if prev + k > 0 {
      var i := prev + k - 1;
      if k > 0 {
        assert log[prev + (k - 1)].term == source[prev..][k - 1].term;
      } else {
        assert source[..prev][prev - 1] == source[prev - 1];
      }
      ChainedAgree(chain, log, source, i);
    }
  }

  /** Merging the end of a proposer's log into a log that matches at its start yields either the
      log as it was or exactly the proposer's log. */
  lemma MergeChained(chain: map<Slot, Log>, log: Log, source: Log, prev: nat, entries: Log)
    requires Chained(chain, log) && Chained(chain, source)
    requires prev < |source| && entries == source[prev..] && Indexed(entries)
    requires Matches(log, prev, LastTerm(source[..prev]))
    ensures Merge(log, entries) == log || Merge(log, entries) == source
  {
    SuffixContiguous(chain, source, prev);
    var k := MergeMeaning(log, prev, entries);
    if !Present(log, prev, entries, |entries|) {
      PresentAgree(chain, log, source, prev, k);
      SuffixJoins(source, prev, k);
    }
  }

  lemma SuffixContiguous(chain: map<Slot, Log>, source: Log, prev: nat)
    requires Chained(chain, source) && prev <= |source|
    ensures Contiguous(prev, source[prev..])
  {
  }

  lemma SuffixJoins(source: Log, prev: nat, k: nat)
    requires prev + k <= |source|
    ensures source[..prev + k] + source[prev..][k..] == source
  {
    assert source[prev..][k..] == source[prev + k..];
  }

  /** A step that leaves proposals, requests and logs alone keeps the log invariant. */
  lemma LogsFrame(c: Cluster, d: Cluster)
    requires LogsInv(c) && LeadersInv(c)
    requires d.chain == c.chain && d.nodes.Keys == c.nodes.Keys
    requires forall t | t in c.leaders :: t in d.leaders && d.leaders[t] == c.leaders[t]
    requires forall n | n in c.nodes :: d.nodes[n].term >= c.nodes[n].term && d.nodes[n].log == c.nodes[n].log
    requires forall m | m in d.appends :: m in c.appends || AppendOk(d, m)
    ensures LogsInv(d)
  {
    forall s | s in d.chain ensures SlotOk(d, s) {
      assert SlotOk(c, s) && LeaderOk(c, s.term);
    }
    forall m | m in d.appends ensures AppendOk(d, m) {
      assert m in c.appends ==> AppendOk(c, m);
    }
  }

  lemma ReplicationOk(c: Cluster, n: NodeId, p: NodeId)
    requires LogsInv(c) && LeadersInv(c) && n in c.nodes && p in Peers(c, n)
    requires c.nodes[n].role == Leader && c.nodes[n].log != []
    ensures AppendOk(c, ReplicationTo(c.nodes[n], n, p))
  {
    var log := c.nodes[n].log;
    var i := |log| - 1;
    assert Chained(c.chain, log);
    assert log[i].index == i + 1 && c.chain[Slot(log[i].term, i + 1)] == log[..i + 1] == log;
    assert log[i..] == [log[i]];
  }

  lemma LogsReplicate(c: Cluster, n: NodeId)
    requires LogsInv(c) && LeadersInv(c) && n in c.nodes
    ensures LogsInv(ReplicateStep(c, n))
  {
    var s := c.nodes[n];
    if s.role == Leader && s.log != [] {
      var d := ReplicateStep(c, n);
      forall m | m in d.appends && m !in c.appends ensures AppendOk(d, m) {
        ReplicationOk(c, n, m.to);
        assert m == ReplicationTo(s, n, m.to);
      }
      LogsFrame(c, d);
    }
  }

  lemma ProposalIsNew(c: Cluster, n: NodeId)
    requires LogsInv(c) && LeadersInv(c) && n in c.nodes && c.nodes[n].role == Leader
    ensures Slot(c.nodes[n].term, |c.nodes[n].log| + 1) !in c.chain
  {
    var s := Slot(c.nodes[n].term, |c.nodes[n].log| + 1);
    assert s in c.chain ==> SlotOk(c, s);
  }

  lemma ChainGrows(chain: map<Slot, Log>, log: Log, s: Slot, l: Log)
    requires Chained(chain, log) && s !in chain
    ensures Chained(chain[s := l], log)
  {
  }

  lemma SlotGrows(c: Cluster, d: Cluster, s: Slot, slot: Slot, l: Log)
    requires s in c.chain && SlotOk(c, s) && slot !in c.chain && d.chain == c.chain[slot := l]
    requires d.leaders == c.leaders && d.nodes.Keys == c.nodes.Keys
    requires forall n | n in c.nodes :: d.nodes[n].term == c.nodes[n].term && |c.nodes[n].log| <= |d.nodes[n].log|
    ensures SlotOk(d, s)
  {
    ChainGrows(c.chain, c.chain[s], slot, l);
  }

  lemma AppendGrows(c: Cluster, d: Cluster, m: AppendRequest, slot: Slot, l: Log)
    requires AppendOk(c, m) && slot !in c.chain && d.chain == c.chain[slot := l] && d.leaders == c.leaders
    ensures AppendOk(d, m)
  {
  }

  lemma ProposedChained(chain: map<Slot, Log>, log: Log, e: LogEntry)
    requires Chained(chain, log) && Slot(e.term, e.index) !in chain && e.index == |log| + 1
    ensures Chained(chain[Slot(e.term, e.index) := log + [e]], log + [e])
  {
    var l := log + [e];
    var grown := chain[Slot(e.term, e.index) := l];
    forall j | 0 <= j < |l|
      ensures l[j].index == j + 1 && Slot(l[j].term, j + 1) in grown && grown[Slot(l[j].term, j + 1)] == l[..j + 1]
    {
      if j < |log| {
        assert l[..j + 1] == log[..j + 1];
      } else {
        assert l[..j + 1] == l;
      }
    }
  }

  lemma LogsPropose(c: Cluster, n: NodeId, cmd: Command)
    requires LogsInv(c) && LeadersInv(c) && n in c.nodes
    ensures LogsInv(ProposeStep(c, n, cmd))
  {
    if c.nodes[n].role == Leader {
      ProposalIsNew(c, n);
      var was := c.nodes[n].log;
      var e := LogEntry(|was| + 1, c.nodes[n].term, cmd);
      var slot := Slot(e.term, e.index);
      var d := ProposeStep(c, n, cmd);
      assert d.chain == c.chain[slot := was + [e]];
      ProposedChained(c.chain, was, e);
      forall s | s in d.chain ensures SlotOk(d, s) {
        if s != slot { SlotGrows(c, d, s, slot, was + [e]); }
      }
      forall k | k in d.nodes ensures Chained(d.chain, d.nodes[k].log) {
        if k != n { ChainGrows(c.chain, c.nodes[k].log, slot, was + [e]); }
      }
      forall m | m in d.appends ensures AppendOk(d, m) { AppendGrows(c, d, m, slot, was + [e]); }
    }
  }

  lemma AppendedLog(c: Cluster, m: AppendRequest)
    requires LogsInv(c) && m in c.appends && m.to in c.nodes && Indexed(m.entries)
    ensures Chained(c.chain, AppendStep(c, m).nodes[m.to].log)
  {
    assert AppendOk(c, m);
    if m.entries != [] {
      var e := m.entries[|m.entries| - 1];
      assert SlotOk(c, Slot(e.term, e.index));
      var source := c.chain[Slot(e.term, e.index)];
      var log := c.nodes[m.to].log;
      if Matches(log, m.prevIndex, m.prevTerm) {
        MergeChained(c.chain, log, source, m.prevIndex, m.entries);
      }
    }
  }

  /** A leader's log does not change through requests of its own term. */
  lemma LeaderIgnoresOwnTerm(c: Cluster, m: AppendRequest, n: NodeId)
    requires LogsInv(c) && LeadersInv(c) && n in c.nodes && c.nodes[n].role == Leader
    requires m in c.appends && m.to in c.nodes && Indexed(m.entries)
    requires AppendStep(c, m).nodes[n].term == c.nodes[n].term
    ensures AppendStep(c, m).nodes[n].log == c.nodes[n].log
  {
    assert AppendOk(c, m);
    assert m.to == n && m.term == c.nodes[n].term ==> m.entries == [];
  }

  lemma LeaderUntouched(c: Cluster, m: AppendRequest, s: Slot)
    requires LogsInv(c) && LeadersInv(c) && m in c.appends && m.to in c.nodes && Indexed(m.entries) && s in c.chain
    ensures SlotOk(AppendStep(c, m), s)
  {
    assert SlotOk(c, s) && LeaderOk(c, s.term);
    var n := c.leaders[s.term];
    if AppendStep(c, m).nodes[n].term == s.term {
      LeaderIgnoresOwnTerm(c, m, n);
    }
  }

  lemma LogsAppend(c: Cluster, m: AppendRequest)
    requires LogsInv(c) && LeadersInv(c) && m in c.appends && m.to in c.nodes && Indexed(m.entries)
    ensures LogsInv(AppendStep(c, m))
  {
    var d := AppendStep(c, m);
    AppendedLog(c, m);
    forall s | s in d.chain ensures SlotOk(d, s) { LeaderUntouched(c, m, s); }
    forall q | q in d.appends ensures AppendOk(d, q) { assert AppendOk(c, q); }
    forall k | k in d.nodes ensures Chained(d.chain, d.nodes[k].log) {
      assert k != m.to ==> d.nodes[k] == c.nodes[k];
    }
  }

  lemma LogsConclude(c: Cluster, k: nat)
    requires VotesInv(c) && LeadersInv(c) && LogsInv(c) && k < |c.attempts|
    ensures LogsInv(ConcludeStep(c, k))
  {
    if Wins(c, c.attempts[k]) {
      WinnerIsFirst(c, k);
      LogsFrame(c, ConcludeStep(c, k));
    }
  }

  lemma LogsHeartbeat(c: Cluster, n: NodeId)
    requires LeadersInv(c) && LogsInv(c) && n in c.nodes
    ensures LogsInv(HeartbeatStep(c, n))
  {
    LogsFrame(c, HeartbeatStep(c, n));
  }

  ghost predicate TouchesNoLog(a: Action) {
    a.Timeout? || a.Campaign? || a.DeliverVoteRequest? || a.PeerFailed? || a.PeerReplied? || a.Commit?
  }

  lemma StepKeepsLogs(c: Cluster, a: Action)
    requires TouchesNoLog(a)
    ensures var d := Step(c, a);
            && d.chain == c.chain && d.appends == c.appends && d.nodes.Keys == c.nodes.Keys
            && forall n | n in c.nodes :: d.nodes[n].log == c.nodes[n].log
  {
    if Enabled(c, a) {
      match a
      case Timeout(n) => assert Step(c, a) == TimeoutStep(c, n);
      case Campaign(n) => assert Step(c, a) == CampaignStep(c, n);
      case DeliverVoteRequest(q) => assert Step(c, a) == VoteStep(c, q);
      case PeerFailed(k, p) => assert Step(c, a) == PeerFailedStep(c, k, p);
      case PeerReplied(r) => assert Step(c, a) == PeerRepliedStep(c, r);
      case Commit(n, i) => assert Step(c, a) == CommitStep(c, n, i);
    }
  }

  lemma LogsStep(c: Cluster, a: Action)
    requires VotesInv(c) && LeadersInv(c) && LogsInv(c)
    ensures LogsInv(Step(c, a))
  {
    if TouchesNoLog(a) {
      StepKeepsLogs(c, a);
      StepAdvances(c, a);
      LogsFrame(c, Step(c, a));
    } else if Enabled(c, a) {
      match a
      case Propose(n, cmd) => LogsPropose(c, n, cmd);
      case Replicate(n) => LogsReplicate(c, n);
      case DeliverAppend(m) => LogsAppend(c, m);
      case Conclude(k) => LogsConclude(c, k);
      case Heartbeat(n) => LogsHeartbeat(c, n);
    }
  }

  // ---------------------------------------------------------------- Theorems over whole runs

  ghost predicate Inv(c: Cluster) {
    VotesInv(c) && LeadersInv(c) && LogsInv(c)
  }

  lemma {:induction false} RunKeepsInv(c: Cluster, actions: seq<Action>)
    requires Inv(c)
    ensures Inv(Run(c, actions))
    decreases |actions|
  {
    if actions != [] {
      VotesStep(c, actions[0]);
      LeadersStep(c, actions[0]);
      LogsStep(c, actions[0]);
      RunKeepsInv(Step(c, actions[0]), actions[1..]);
    }
  }

  lemma Reachable(members: set<NodeId>, actions: seq<Action>)
    requires "" !in members
    ensures Inv(Run(Init(members), actions))
  {
    RunKeepsInv(Init(members), actions);
  }

  lemma {:induction false} RunSplits(c: Cluster, early: seq<Action>, late: seq<Action>)
    ensures Run(c, early + late) == Run(Run(c, early), late)
    decreases |early|
  {
    if early == [] {
      assert early + late == late;
    } else {
      assert (early + late)[1..] == early[1..] + late;
      RunSplits(Step(c, early[0]), early[1..], late);
    }
  }

  /** Along a run terms never decrease, votes are never withdrawn, and the leader of a term
      is never replaced. */
  ghost predicate Later(c: Cluster, d: Cluster) {
    && d.nodes.Keys == c.nodes.Keys && c.ballots <= d.ballots
    && (forall n | n in c.nodes :: c.nodes[n].term <= d.nodes[n].term)
    && (forall t | t in c.leaders :: t in d.leaders && d.leaders[t] == c.leaders[t])
  }

  lemma StepLater(c: Cluster, a: Action)
    requires VotesInv(c) && LeadersInv(c)
    ensures Later(c, Step(c, a))
  {
    if a.Conclude? {
      if Enabled(c, a) { ConcludeLater(c, a.attempt); }
    } else {
      StepAdvances(c, a);
    }
  }

  lemma ConcludeLater(c: Cluster, k: nat)
    requires VotesInv(c) && LeadersInv(c) && k < |c.attempts|
    ensures Later(c, ConcludeStep(c, k))
  {
    if Wins(c, c.attempts[k]) { WinnerIsFirst(c, k); }
  }

  lemma {:induction false} RunLater(c: Cluster, actions: seq<Action>)
    requires Inv(c)
    ensures Later(c, Run(c, actions))
    decreases |actions|
  {
    if actions != [] {
      var d := Step(c, actions[0]);
      StepLater(c, actions[0]);
      VotesStep(c, actions[0]);
      LeadersStep(c, actions[0]);
      LogsStep(c, actions[0]);
      RunLater(d, actions[1..]);
    }
  }

  /** No two nodes are ever leader in the same term, now or at any later time. */
  lemma ElectionSafety(members: set<NodeId>, early: seq<Action>, late: seq<Action>, a: NodeId, b: NodeId)
    requires "" !in members
    requires var c, d := Run(Init(members), early), Run(Init(members), early + late);
             && a in c.nodes && c.nodes[a].role == Leader
             && b in d.nodes && d.nodes[b].role == Leader
             && c.nodes[a].term == d.nodes[b].term
    ensures a == b
  {
    Reachable(members, early);
    Reachable(members, early + late);
    RunSplits(Init(members), early, late);
    RunLater(Run(Init(members), early), late);
  }

  /** A leader holds the votes of a strict majority of the members, and whoever voted for it
      voted for nobody else in that term. */
  lemma LeaderHasMajority(members: set<NodeId>, actions: seq<Action>, n: NodeId)
    requires "" !in members && n in Run(Init(members), actions).nodes
    requires Run(Init(members), actions).nodes[n].role == Leader
    ensures var c := Run(Init(members), actions); var term := c.nodes[n].term;
            && 2 * |Backers(c, term, n)| > |members|
            && forall v, other | v in Backers(c, term, n) && Ballot(term, v, other) in c.ballots :: other == n
  {
    Reachable(members, actions);
    SameMembers(members, actions);
    Backed(Run(Init(members), actions), n);
  }

  lemma SameMembers(members: set<NodeId>, actions: seq<Action>)
    requires "" !in members
    ensures Run(Init(members), actions).nodes.Keys == members
  {
    Reachable(members, []);
    RunLater(Init(members), actions);
    assert Init(members).nodes.Keys == members;
  }

  lemma Backed(c: Cluster, n: NodeId)
    requires BallotsInv(c) && LeadersInv(c) && n in c.nodes && c.nodes[n].role == Leader
    ensures var term := c.nodes[n].term;
            && 2 * |Backers(c, term, n)| > |c.nodes.Keys|
            && forall v, other | v in Backers(c, term, n) && Ballot(term, v, other) in c.ballots :: other == n
  {
    assert LeaderOk(c, c.nodes[n].term);
    assert |c.nodes| == |c.nodes.Keys|;
  }

  /** As long as a node leads, its log only grows, however long the run. */
  lemma {:induction false} LeaderAppendOnly(c: Cluster, actions: seq<Action>, n: NodeId)
    requires Inv(c) && n in c.nodes && c.nodes[n].role == Leader
    ensures n in Run(c, actions).nodes
    ensures Run(c, actions).nodes[n].term == c.nodes[n].term ==>
              Run(c, actions).nodes[n].role == Leader && c.nodes[n].log <= Run(c, actions).nodes[n].log
    decreases |actions|
  {
    if actions != [] {
      var a := actions[0];
      var d := Step(c, a);
      StepLater(c, a);
      VotesStep(c, a);
      LeadersStep(c, a);
      LogsStep(c, a);
      RunLater(d, actions[1..]);
      if d.nodes[n].term == c.nodes[n].term {
        LeaderStepGrows(c, a, n);
        LeaderAppendOnly(d, actions[1..], n);
      }
    }
  }

  lemma LeaderStepGrows(c: Cluster, a: Action, n: NodeId)
    requires Inv(c) && n in c.nodes && c.nodes[n].role == Leader
    requires n in Step(c, a).nodes && Step(c, a).nodes[n].term == c.nodes[n].term
    ensures Step(c, a).nodes[n].role == Leader && c.nodes[n].log <= Step(c, a).nodes[n].log
  {
    if a.Conclude? {
      if Enabled(c, a) { ConcludeKeepsLeader(c, a.attempt, n); }
    } else {
      StepAdvances(c, a);
      LeaderLogGrows(c, a, n);
    }
  }

  lemma ConcludeKeepsLeader(c: Cluster, k: nat, n: NodeId)
    requires n in c.nodes && c.nodes[n].role == Leader && k < |c.attempts|
    ensures n in ConcludeStep(c, k).nodes && ConcludeStep(c, k).nodes[n] == c.nodes[n]
  {
  }

  lemma LeaderLogGrows(c: Cluster, a: Action, n: NodeId)
    requires LogsInv(c) && LeadersInv(c) && n in c.nodes && c.nodes[n].role == Leader && !a.Conclude?
    requires n in Step(c, a).nodes && Step(c, a).nodes[n].term == c.nodes[n].term
    ensures c.nodes[n].log <= Step(c, a).nodes[n].log
  {
    if TouchesNoLog(a) {
      StepKeepsLogs(c, a);
    } else if Enabled(c, a) {
      match a
      case DeliverAppend(m) => LeaderIgnoresOwnTerm(c, m, n);
      case Propose(k, cmd) => ProposeGrows(c, k, cmd, n);
      case Replicate(k) => assert Step(c, a).nodes == c.nodes;
      case Heartbeat(k) => assert Step(c, a).nodes == c.nodes;
    }
  }

  lemma ProposeGrows(c: Cluster, k: NodeId, cmd: Command, n: NodeId)
    requires k in c.nodes && n in c.nodes
    ensures n in ProposeStep(c, k, cmd).nodes && c.nodes[n].log <= ProposeStep(c, k, cmd).nodes[n].log
  {
  }

  /** If two logs hold an entry with the same index and term, they are identical up to it. */
  lemma LogMatching(members: set<NodeId>, actions: seq<Action>, a: NodeId, b: NodeId, i: nat, j: nat)
    requires "" !in members
    requires var c := Run(Init(members), actions);
             && a in c.nodes && b in c.nodes && i < |c.nodes[a].log| && j < |c.nodes[b].log|
             && c.nodes[a].log[i].index == c.nodes[b].log[j].index
             && c.nodes[a].log[i].term == c.nodes[b].log[j].term
    ensures var c := Run(Init(members), actions);
            i == j && c.nodes[a].log[..i + 1] == c.nodes[b].log[..j + 1]
  {
    Reachable(members, actions);
    var c := Run(Init(members), actions);
    assert Chained(c.chain, c.nodes[a].log) && Chained(c.chain, c.nodes[b].log);
    ChainedAgree(c.chain, c.nodes[a].log, c.nodes[b].log, i);
  }

  lemma AppendIndexed(c: Cluster, m: AppendRequest)
    requires LogsInv(c) && m in c.appends && m.entries != []
    ensures Indexed(m.entries)
  {
    assert AppendOk(c, m);
    var e := m.entries[|m.entries| - 1];
    assert SlotOk(c, Slot(e.term, e.index));
    SuffixIndexed(c.chain, c.chain[Slot(e.term, e.index)], m.prevIndex);
  }

  lemma SuffixIndexed(chain: map<Slot, Log>, log: Log, prev: nat)
    requires Chained(chain, log) && prev <= |log|
    ensures Indexed(log[prev..])
  {
  }

  /** No request in flight can make the receiver index its log at position -1. */
  lemma RequestsAreIndexed(members: set<NodeId>, actions: seq<Action>, m: AppendRequest)
    requires "" !in members && m in Run(Init(members), actions).appends
    ensures Indexed(m.entries)
  {
    Reachable(members, actions);
    if m.entries != [] {
      AppendIndexed(Run(Init(members), actions), m);
    }
  }
}
