/** Reachability in a finite directed graph given by its adjacency sets. */
module Paths {

  type Adjacency = map<string, set<string>>

  function Succ(g: Adjacency, x: string): set<string> {
    if x in g then g[x] else {}
  }

  ghost predicate IsPath(g: Adjacency, p: seq<string>) {
    |p| >= 1 && forall i | 0 <= i < |p| - 1 :: p[i + 1] in Succ(g, p[i])
  }

  ghost predicate Connects(g: Adjacency, p: seq<string>, a: string, b: string) {
    IsPath(g, p) && p[0] == a && p[|p| - 1] == b
  }

  /** There is a path, possibly of length zero. */
  ghost predicate Reach(g: Adjacency, a: string, b: string) {
    exists p :: Connects(g, p, a, b)
  }

  ghost predicate IsCycle(g: Adjacency, p: seq<string>) {
    IsPath(g, p) && |p| >= 2 && p[0] == p[|p| - 1]
  }

  ghost predicate Acyclic(g: Adjacency) {
    forall p :: !IsCycle(g, p)
  }

  ghost predicate Subgraph(g: Adjacency, h: Adjacency) {
    forall x :: Succ(g, x) <= Succ(h, x)
  }

  lemma ReachSelf(g: Adjacency, a: string)
    ensures Reach(g, a, a)
  {
    assert Connects(g, [a], a, a);
  }

  lemma ReachJoin(g: Adjacency, a: string, b: string, c: string)
    requires Reach(g, a, b) && Reach(g, b, c)
    ensures Reach(g, a, c)
  {
    var p :| Connects(g, p, a, b);
    var q :| Connects(g, q, b, c);
    var r := p + q[1..];
    forall i | 0 <= i < |r| - 1 ensures r[i + 1] in Succ(g, r[i]) {
      if i >= |p| - 1 { assert r[i] == q[i - |p| + 1] && r[i + 1] == q[i - |p| + 2]; }
    }
    assert Connects(g, r, a, c);
  }

  lemma ReachEdge(g: Adjacency, a: string, b: string)
    requires b in Succ(g, a)
    ensures Reach(g, a, b)
  {
    assert Connects(g, [a, b], a, b);
  }

  lemma ReachSlice(g: Adjacency, p: seq<string>, i: nat, j: nat)
    requires IsPath(g, p) && i <= j < |p|
    ensures Reach(g, p[i], p[j])
  {
    assert Connects(g, p[i..j + 1], p[i], p[j]);
  }

  /** A set closed under successors contains all that its members reach. */
  lemma ClosedUnderReach(g: Adjacency, s: set<string>, a: string, b: string)
    requires a in s && Reach(g, a, b) && forall x | x in s :: Succ(g, x) <= s
    ensures b in s
  {
    var p :| Connects(g, p, a, b);
    for i := 1 to |p|
      invariant p[i - 1] in s
    {
    }
  }

  lemma SubgraphAcyclic(g: Adjacency, h: Adjacency)
    requires Acyclic(h) && Subgraph(g, h)
    ensures Acyclic(g)
  {
    forall p ensures !IsCycle(g, p) {
      assert IsCycle(g, p) ==> IsCycle(h, p);
    }
  }

  function WithEdge(g: Adjacency, a: string, b: string): Adjacency {
    g[a := Succ(g, a) + {b}]
  }

  /** An edge that starts at `s` does not help to reach `s`. */
  lemma {:induction false} PathBackToSource(g: Adjacency, s: string, d: string, p: seq<string>)
    requires IsPath(WithEdge(g, s, d), p) && p[|p| - 1] == s
    ensures Reach(g, p[0], s)
    decreases |p|
  {
    if p[0] == s {
      ReachSelf(g, s);
    } else {
      assert p[1] in Succ(g, p[0]);
      PathBackToSource(g, s, d, p[1..]);
      ReachEdge(g, p[0], p[1]);
      ReachJoin(g, p[0], p[1], s);
    }
  }

  /** The step of the new cycle that is not in the old graph is the new edge. */
  lemma NewStep(g: Adjacency, s: string, d: string, p: seq<string>) returns (i: nat)
    requires Acyclic(g) && IsCycle(WithEdge(g, s, d), p)
    ensures i < |p| - 1 && p[i] == s && p[i + 1] == d
  {
    assert !IsCycle(g, p);
    i :| 0 <= i < |p| - 1 && p[i + 1] !in Succ(g, p[i]);
  }

  lemma AroundCycle(h: Adjacency, p: seq<string>, i: nat)
    requires IsCycle(h, p) && i < |p| - 1
    ensures Reach(h, p[i + 1], p[i])
  {
    ReachSlice(h, p, i + 1, |p| - 1);
    ReachSlice(h, p, 0, i);
    ReachJoin(h, p[i + 1], p[0], p[i]);
  }

  lemma CycleUsesEdge(g: Adjacency, s: string, d: string, p: seq<string>)
    requires Acyclic(g) && IsCycle(WithEdge(g, s, d), p)
    ensures Reach(g, d, s)
  {
    var i := NewStep(g, s, d, p);
    AroundCycle(WithEdge(g, s, d), p, i);
    var q :| Connects(WithEdge(g, s, d), q, d, s);
    PathBackToSource(g, s, d, q);
  }

  lemma EdgeClosesCycle(g: Adjacency, s: string, d: string)
    requires Reach(g, d, s)
    ensures !Acyclic(WithEdge(g, s, d))
  {
    var p :| Connects(g, p, d, s);
    assert IsCycle(WithEdge(g, s, d), [s] + p);
  }

  /** Adding an edge to an acyclic graph keeps it acyclic exactly when the edge's end does not
      reach its start. */
  lemma AcyclicWithEdge(g: Adjacency, s: string, d: string)
    requires Acyclic(g)
    ensures Acyclic(WithEdge(g, s, d)) <==> !Reach(g, d, s)
  {
    if Reach(g, d, s) {
      EdgeClosesCycle(g, s, d);
    } else {
      forall p ensures !IsCycle(WithEdge(g, s, d), p) {
        if IsCycle(WithEdge(g, s, d), p) { CycleUsesEdge(g, s, d, p); }
      }
    }
  }
}
