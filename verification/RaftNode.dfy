/**
 One Raft node: its state, the transitions its methods make, and the class whose
 methods update the fields in place. Terms and indexes are unbounded here.
 */
module RaftNode {

  type NodeId = string
  type Command = seq<bv8>

  datatype Role = Follower | Candidate | Leader

  datatype LogEntry = LogEntry(index: nat, term: nat, command: Command)

  type Log = seq<LogEntry>

  /** The lock-protected fields. `votedFor == ""` means that no vote was cast. */
  datatype NodeState = NodeState(role: Role, term: nat, votedFor: NodeId, log: Log, commitIndex: nat)

  datatype AppendRequest = AppendRequest(
    to: NodeId, leader: NodeId, term: nat, commit: nat, prevIndex: nat, prevTerm: nat, entries: Log)

  const INITIAL_STATE := NodeState(Follower, 0, "", [], 0)

  function LastTerm(log: Log): nat {
    if log == [] then 0 else log[|log| - 1].term
  }

  /** A request of a later term makes the receiver a follower of that term with no vote cast. */
  function Adopt(s: NodeState, term: nat): NodeState {
    if term > s.term then s.(term := term, role := Follower, votedFor := "") else s
  }

  /** Entry indexes count from one; the code indexes its slice with `index - 1`. */
  predicate Indexed(entries: Log) {
    forall e | e in entries :: e.index >= 1
  }

  /** What the append loop leaves in the log. */
  function Merge(log: Log, entries: Log): Log
    requires Indexed(entries)
  {
    if entries == [] then log
    else
      var e := entries[0];
      if e.index > |log| then log + entries
      else if log[e.index - 1].term != e.term then log[..e.index - 1] + entries
      else Merge(log, entries[1..])
  }

  predicate Matches(log: Log, prevIndex: nat, prevTerm: nat) {
    prevIndex == 0 || (prevIndex <= |log| && log[prevIndex - 1].term == prevTerm)
  }

  function AfterAppend(s: NodeState, term: nat, commit: nat, prevIndex: nat, prevTerm: nat, entries: Log)
    : (r: (NodeState, bool))
    requires Indexed(entries)
  {
    if term < s.term then (s, false)
    else
      var s1 := Adopt(s, term);
      if !Matches(s1.log, prevIndex, prevTerm) then (s1, false)
      else
        var log := Merge(s1.log, entries);
        var ci := if commit > s1.commitIndex then (if commit < |log| then commit else |log|) else s1.commitIndex;
        (s1.(log := log, commitIndex := ci), true)
  }

  /** The candidate's log is at least as recent as the voter's. */
  predicate UpToDate(log: Log, lastIndex: nat, lastTerm: nat) {
    LastTerm(log) < lastTerm || (LastTerm(log) == lastTerm && |log| <= lastIndex)
  }

  function AfterVote(s: NodeState, term: nat, candidate: NodeId, lastIndex: nat, lastTerm: nat)
    : (r: (NodeState, bool))
  {
    if term < s.term then (s, false)
    else
      var s1 := Adopt(s, term);
      if (s1.votedFor != "" && s1.votedFor != candidate) || !UpToDate(s1.log, lastIndex, lastTerm)
      then (s1, false)
      else (s1.(votedFor := candidate), true)
  }

  /** Last terms compare first, then lengths. */
  predicate AtLeastAsRecent(term1: nat, length1: nat, term2: nat, length2: nat) {
    term1 > term2 || (term1 == term2 && length1 >= length2)
  }

  /** A vote is granted exactly when the request is not stale, no other candidate has this voter's
      vote in that term, and the candidate's log is at least as recent; nothing is lost by voting,
      and the role changes only when the term does. */
  lemma VoteIff(s: NodeState, term: nat, candidate: NodeId, lastIndex: nat, lastTerm: nat)
    ensures var (r, granted) := AfterVote(s, term, candidate, lastIndex, lastTerm);
            && (granted <==>
                  && term >= s.term && (term > s.term || s.votedFor == "" || s.votedFor == candidate)
                  && AtLeastAsRecent(lastTerm, lastIndex, LastTerm(s.log), |s.log|))
            && (granted ==> r.votedFor == candidate && r.term == term)
            && r.log == s.log && r.commitIndex == s.commitIndex && r.term >= s.term
            && (r.term == s.term ==> r.role == s.role && (s.votedFor != "" ==> r.votedFor == s.votedFor))
            && (r.term > s.term ==> r.role == Follower)
  {
  }

  function AfterTimeout(s: NodeState, self: NodeId): NodeState {
    s.(term := s.term + 1, role := Candidate, votedFor := self)
  }

  function AfterPropose(s: NodeState, cmd: Command): (r: (NodeState, nat, bool)) {
    if s.role != Leader then (s, 0, false)
    else (s.(log := s.log + [LogEntry(|s.log| + 1, s.term, cmd)]), |s.log| + 1, true)
  }

  /** The request that ReplicateAll sends one peer: the last entry, and what precedes it. */
  function ReplicationTo(s: NodeState, self: NodeId, peer: NodeId): AppendRequest
    requires s.log != []
  {
    var n := |s.log|;
    AppendRequest(peer, self, s.term, s.commitIndex, n - 1, LastTerm(s.log[..n - 1]), s.log[n - 1..])
  }

  function HeartbeatTo(s: NodeState, self: NodeId, peer: NodeId): AppendRequest {
    AppendRequest(peer, self, s.term, s.commitIndex, 0, 0, [])
  }

  /** The entries continue at `prevIndex + 1`, as every sender in the cluster writes them. */
  ghost predicate Contiguous(prevIndex: nat, entries: Log) {
    forall k | 0 <= k < |entries| :: entries[k].index == prevIndex + 1 + k
  }

  /** The first `k` entries are in the log already, as far as terms can tell. */
  ghost predicate Present(log: Log, prevIndex: nat, entries: Log, k: nat) {
    k <= |entries| && prevIndex + k <= |log| &&
    forall j | 0 <= j < k :: log[prevIndex + j].term == entries[j].term
  }

  /** Entry `k` is past the end of the log or conflicts with it, and those before it are present. */
  ghost predicate FirstConflict(log: Log, prevIndex: nat, entries: Log, k: nat) {
    Present(log, prevIndex, entries, k) && k < |entries| &&
    (prevIndex + k < |log| ==> log[prevIndex + k].term != entries[k].term)
  }

  lemma {:induction false} MergeSkipsPresent(log: Log, prevIndex: nat, entries: Log, k: nat)
    requires Indexed(entries) && Contiguous(prevIndex, entries) && Present(log, prevIndex, entries, k)
    ensures Merge(log, entries) == Merge(log, entries[k..])
  {
    if k == 0 {
      assert entries[0..] == entries;
    } else {
      MergeSkipsPresent(log, prevIndex, entries, k - 1);
      var tail := entries[k - 1..];
      assert tail[0] == entries[k - 1] && tail[1..] == entries[k..];
      assert log[prevIndex + (k - 1)].term == entries[k - 1].term;
    }
  }

  lemma {:induction false} ConflictOrPresent(log: Log, prevIndex: nat, entries: Log, k: nat) returns (c: nat)
    requires Present(log, prevIndex, entries, k)
    ensures if Present(log, prevIndex, entries, |entries|) then c == |entries|
            else FirstConflict(log, prevIndex, entries, c)
    decreases |entries| - k
  {
    c := k;
    if k < |entries| && prevIndex + k < |log| && log[prevIndex + k].term == entries[k].term {
      c := ConflictOrPresent(log, prevIndex, entries, k + 1);
    }
  }

  /** The append loop keeps the log if every entry is present, and otherwise replaces exactly
      the part of the log from the first conflict on. */
  lemma MergeMeaning(log: Log, prevIndex: nat, entries: Log) returns (k: nat)
    requires prevIndex <= |log| && Contiguous(prevIndex, entries) && Indexed(entries)
    ensures if Present(log, prevIndex, entries, |entries|) then Merge(log, entries) == log
            else FirstConflict(log, prevIndex, entries, k) &&
                 Merge(log, entries) == log[..prevIndex + k] + entries[k..]
  {
    k := ConflictOrPresent(log, prevIndex, entries, 0);
    MergeSkipsPresent(log, prevIndex, entries, k);
    if k < |entries| {
      assert entries[k..][0] == entries[k];
      assert prevIndex + k == |log| ==> log[..prevIndex + k] == log;
    }
  }

  /** The node as the source has it: fields updated in place under one lock per method. */
  class Node {
    const id: NodeId
    const peers: seq<NodeId>
    var role: Role
    var currentTerm: nat
    var votedFor: NodeId
    var log: Log
    var commitIndex: nat

    function State(): NodeState
      reads this
    {
      NodeState(role, currentTerm, votedFor, log, commitIndex)
    }

    constructor (id: NodeId, peers: seq<NodeId>)
      ensures State() == INITIAL_STATE && this.id == id && this.peers == peers
    {
      this.id, this.peers := id, peers;
      role, currentTerm, votedFor, log, commitIndex := Follower, 0, "", [], 0;
    }

    method Propose(cmd: Command) returns (index: nat, ok: bool)
      modifies this
      ensures (State(), index, ok) == AfterPropose(old(State()), cmd)
    {
      if role != Leader { return 0, false; }
      index, ok := |log| + 1, true;
      log := log + [LogEntry(index, currentTerm, cmd)];
    }

    /** The append loop. */
    method AppendNew(entries: Log)
      requires Indexed(entries)
      modifies this`log
      ensures log == Merge(old(log), entries)
    {
      var i := 0;
      while i < |entries|
        invariant 0 <= i <= |entries|
        invariant log == old(log)
        invariant Merge(log, entries[i..]) == Merge(old(log), entries)
      {
        var ent := entries[i];
        assert entries[i..][0] == ent && entries[i..][1..] == entries[i + 1..];
        if ent.index <= |log| {
          if log[ent.index - 1].term != ent.term {
            log := log[..ent.index - 1];
            log := log + entries[i..];
            return;
          }
        } else {
          log := log + entries[i..];
          return;
        }
        i := i + 1;
      }
    }

    method AppendEntries(term: nat, commit: nat, prevIndex: nat, prevTerm: nat, entries: Log)
      returns (success: bool)
      requires Indexed(entries)
      modifies this
      ensures (State(), success) == AfterAppend(old(State()), term, commit, prevIndex, prevTerm, entries)
    {
      if term < currentTerm { return false; }
      if term > currentTerm {
        currentTerm, role, votedFor := term, Follower, "";
      }
      if prevIndex > 0 {
        if prevIndex > |log| { return false; }
        if log[prevIndex - 1].term != prevTerm { return false; }
      }
      AppendNew(entries);
      if commit > commitIndex {
        commitIndex := if commit < |log| then commit else |log|;
      }
      return true;
    }

    method RequestVote(term: nat, candidate: NodeId, lastIndex: nat, lastTerm: nat) returns (granted: bool)
      modifies this
      ensures (State(), granted) == AfterVote(old(State()), term, candidate, lastIndex, lastTerm)
    {
      if term < currentTerm { return false; }
      if term > currentTerm {
        currentTerm, role, votedFor := term, Follower, "";
      }
      if votedFor != "" && votedFor != candidate { return false; }
      var myLastTerm := 0;
      if |log| > 0 { myLastTerm := log[|log| - 1].term; }
      if lastTerm < myLastTerm { return false; }
      if lastTerm == myLastTerm && lastIndex < |log| { return false; }
      votedFor := candidate;
      return true;
    }

    method BecomeCandidate()
      modifies this
      ensures State() == AfterTimeout(old(State()), id)
    {
      currentTerm := currentTerm + 1;
      role := Candidate;
      votedFor := id;
    }

    method BecomeLeader()
      modifies this
      ensures State() == old(State()).(role := Leader)
    {
      role := Leader;
    }

    method SetCommitIndex(index: nat)
      modifies this
      ensures State() == old(State()).(commitIndex := if index > old(commitIndex) then index else old(commitIndex))
    {
      if index > commitIndex { commitIndex := index; }
    }

    /** One request per peer, and none unless this node leads and has something to send. */
    method ReplicateAll() returns (sent: seq<AppendRequest>)
      ensures role == Leader && log != [] ==>
                |sent| == |peers| && forall i | 0 <= i < |peers| :: sent[i] == ReplicationTo(State(), id, peers[i])
      ensures role != Leader || log == [] ==> sent == []
    {
      sent := [];
      if role != Leader { return; }
      var logLen := |log|;
      if logLen == 0 { return; }
      var i := 0;
      while i < |peers|
        invariant 0 <= i <= |peers|
        invariant |sent| == i
        invariant forall j | 0 <= j < i :: sent[j] == ReplicationTo(State(), id, peers[j])
      {
        var prevIndex, prevTerm := 0, 0;
        if logLen > 1 {
          prevIndex := logLen - 1;
          prevTerm := log[prevIndex - 1].term;
        }
        assert log[logLen - 1..] == [log[logLen - 1]];
        sent := sent + [AppendRequest(peers[i], id, currentTerm, commitIndex, prevIndex, prevTerm, [log[logLen - 1]])];
        i := i + 1;
      }
    }
  }
}
