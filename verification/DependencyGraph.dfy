/** The dependency graph of one environment, independent of how it is sorted. */
module DependencyGraph {
  import opened Sequences

  type VmId = string

  /** `from` has to come before `to`. */
  datatype Edge = Edge(from: VmId, to: VmId)

  /** A chain of prerequisites: every entry is a prerequisite of the one before it. */
  ghost predicate Chain(edges: seq<Edge>, p: seq<VmId>) {
    forall i :: 0 <= i < |p| - 1 ==> Edge(p[i + 1], p[i]) in edges
  }

  /** A chain with at least one edge that comes back to where it started. */
  ghost predicate Cycle(edges: seq<Edge>, p: seq<VmId>) {
    |p| >= 2 && p[0] == p[|p| - 1] && Chain(edges, p)
  }

  ghost predicate Cyclic(edges: seq<Edge>) {
    exists p :: Cycle(edges, p)
  }

  /** In `order`, every prerequisite edge points forward. */
  ghost predicate EdgesPointForward(edges: seq<Edge>, order: seq<VmId>) {
    forall e <- edges ::
      exists i, j :: 0 <= i < j < |order| && order[i] == e.from && order[j] == e.to
  }

  ghost predicate HasPrerequisiteIn(edges: seq<Edge>, members: set<VmId>, v: VmId) {
    exists u :: u in members && Edge(u, v) in edges
  }

  /** Everybody in the set waits for somebody of the set. */
  ghost predicate EverybodyWaits(edges: seq<Edge>, members: set<VmId>) {
    forall v {:trigger HasPrerequisiteIn(edges, members, v)} ::
      v in members ==> HasPrerequisiteIn(edges, members, v)
  }

  /** Where every member has a prerequisite inside the set, chains of any length exist. */
  lemma {:induction false} LongChain(edges: seq<Edge>, members: set<VmId>, n: nat) returns (p: seq<VmId>)
    requires members != {}
    requires EverybodyWaits(edges, members)
    ensures |p| == n + 1 && Chain(edges, p)
    ensures forall v <- p :: v in members
  {
    if n == 0 {
      var v :| v in members;
      p := [v];
    } else {
      var q := LongChain(edges, members, n - 1);
      assert HasPrerequisiteIn(edges, members, q[|q| - 1]);
      var u :| u in members && Edge(u, q[|q| - 1]) in edges;
      p := q + [u];
    }
  }

  /** A non-empty set in which everybody waits for a member contains a cycle. */
  lemma EverybodyWaitsMeansCycle(edges: seq<Edge>, members: set<VmId>)
    requires members != {}
    requires EverybodyWaits(edges, members)
    ensures Cyclic(edges)
  {
    var p := LongChain(edges, members, |members|);
    Pigeonhole(p, members);
    var i, j :| 0 <= i < j < |p| && p[i] == p[j];
    var c := p[i..j + 1];
    forall k | 0 <= k < |c| - 1
      ensures Edge(c[k + 1], c[k]) in edges
    {
      assert c[k] == p[i + k] && c[k + 1] == p[i + k + 1];
    }
    assert Cycle(edges, c);
  }

  /** Along a chain the position in a forward order drops by at least one per edge. */
  lemma {:induction false} ChainDescends(edges: seq<Edge>, order: seq<VmId>, p: seq<VmId>, start: nat)
    returns (end: nat)
    requires NoDup(order) && EdgesPointForward(edges, order)
    requires p != [] && Chain(edges, p)
    requires start < |order| && order[start] == p[0]
    ensures end < |order| && order[end] == p[|p| - 1]
    ensures end + |p| - 1 <= start
  {
    if |p| == 1 {
      end := start;
    } else {
      var e := Edge(p[1], p[0]);
      assert e in edges;
      var i, j :| 0 <= i < j < |order| && order[i] == e.from && order[j] == e.to;
      assert j == start;
      end := ChainDescends(edges, order, p[1..], i);
    }
  }

  /** A duplicate-free order in which all edges point forward rules cycles out. */
  lemma ForwardOrderMeansAcyclic(edges: seq<Edge>, order: seq<VmId>)
    requires NoDup(order) && EdgesPointForward(edges, order)
    ensures !Cyclic(edges)
  {
    forall p | Cycle(edges, p)
      ensures false
    {
      assert Edge(p[1], p[0]) in edges;
      var i, j :| 0 <= i < j < |order| && order[i] == p[1] && order[j] == p[0];
      var end := ChainDescends(edges, order, p, j);
    }
  }
}
