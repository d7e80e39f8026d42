/** Membership and dependency updates of an environment, and what they do to the order. */
module EnvironmentGraph {
  import opened Sequences
  import opened DependencyGraph
  import opened ExecutionOrder

  /** `a` is `v` or one of the VMs `v` transitively waits for. */
  ghost predicate WaitsFor(edges: seq<Edge>, v: VmId, a: VmId) {
    exists p :: ChainBetween(edges, p, v, a)
  }

  ghost predicate ChainBetween(edges: seq<Edge>, p: seq<VmId>, v: VmId, a: VmId) {
    |p| >= 1 && p[0] == v && p[|p| - 1] == a && Chain(edges, p)
  }

  class Environment {
    var vms: seq<EnvVm>
    var deps: seq<Dependency>

    ghost predicate Valid()
      reads this
    {
      NoDup(Ids(vms)) && forall d <- deps :: d.source != d.target
    }

    constructor ()
      ensures Valid() && vms == [] && deps == []
    {
      vms, deps := [], [];
    }

    /** AddVM is an upsert on the VM id, so ids stay distinct. */
    method AddVm(vm: EnvVm)
      requires Valid()
      modifies this
      ensures Valid() && deps == old(deps)
      ensures vm in vms
      ensures forall w: EnvVm :: w.vmid != vm.vmid ==> (w in vms <==> w in old(vms))
      ensures IdSet(vms) == IdSet(old(vms)) + {vm.vmid}
    {
      var i := 0;
      while i < |vms| && vms[i].vmid != vm.vmid
        invariant 0 <= i <= |vms|
        invariant forall j :: 0 <= j < i ==> vms[j].vmid != vm.vmid
      {
        i := i + 1;
      }
      if i < |vms| {
        assert forall j :: 0 <= j < |vms| && j != i ==> Ids(vms)[j] != Ids(vms)[i];
        ghost var was := vms;
        vms := vms[i := vm];
        assert Ids(vms) == Ids(was);
        SameIds(was, vms);
      } else {
        vms := vms + [vm];
      }
    }

    /** RemoveVM also deletes every dependency that mentions the VM. */
    method RemoveVm(id: VmId)
      requires Valid()
      modifies this
      ensures Valid()
      ensures forall w :: w in vms <==> w in old(vms) && w.vmid != id
      ensures forall d :: d in deps <==> d in old(deps) && d.source != id && d.target != id
      ensures !Cyclic(EnvironmentEdges(old(vms), old(deps))) ==> !Cyclic(EnvironmentEdges(vms, deps))
    {
      vms := Remaining(vms, [id]);
      var kept: seq<Dependency> := [];
      for i := 0 to |deps|
        invariant deps == old(deps)
        invariant forall d :: d in kept <==> d in deps[..i] && d.source != id && d.target != id
      {
        assert deps[..i + 1] == deps[..i] + [deps[i]];
        if deps[i].source != id && deps[i].target != id {
          kept := kept + [deps[i]];
        }
      }
      assert deps[..|deps|] == deps;
      deps := kept;
      if !Cyclic(EnvironmentEdges(old(vms), old(deps))) {
        FewerEnvironmentEdges(vms, deps, old(vms), old(deps));
      }
    }

    /** AddDependency rejects only self-dependencies (and exact duplicates, by a unique index). */
    method AddDependency(d: Dependency) returns (ok: bool)
      requires Valid()
      modifies this
      ensures Valid() && vms == old(vms)
      ensures ok <==> d.source != d.target && d !in old(deps)
      ensures deps == if ok then old(deps) + [d] else old(deps)
    {
      ok := d.source != d.target && d !in deps;
      if ok {
        deps := deps + [d];
      }
    }
  }

  lemma SameIds(a: seq<EnvVm>, b: seq<EnvVm>)
    requires Ids(a) == Ids(b)
    ensures IdSet(a) == IdSet(b)
  {
    assert forall id :: id in IdSet(a) <==> id in Ids(a);
    assert forall id :: id in IdSet(b) <==> id in Ids(b);
  }

  lemma FewerEdgesKeepAcyclic(fewer: seq<Edge>, edges: seq<Edge>)
    requires forall e <- fewer :: e in edges
    requires !Cyclic(edges)
    ensures !Cyclic(fewer)
  {
    forall p
      ensures !Cycle(fewer, p)
    {
      assert Cycle(fewer, p) ==> Cycle(edges, p);
    }
  }

  lemma FewerEnvironmentEdges(vms: seq<EnvVm>, deps: seq<Dependency>, vms0: seq<EnvVm>, deps0: seq<Dependency>)
    requires forall w <- vms :: w in vms0
    requires forall d <- deps :: d in deps0
    requires !Cyclic(EnvironmentEdges(vms0, deps0))
    ensures !Cyclic(EnvironmentEdges(vms, deps))
  {
    var fewer, edges := EnvironmentEdges(vms, deps), EnvironmentEdges(vms0, deps0);
    forall e | e in fewer
      ensures e in edges
    {
      MemberEdgesExact(IdSet(vms), deps, e.from, e.to);
      MemberEdgesExact(IdSet(vms0), deps0, e.from, e.to);
    }
    FewerEdgesKeepAcyclic(fewer, edges);
  }

  /** A chain through one more edge `e`, from its source back to its target, contains a stretch
      that does not use `e`. */
  lemma {:induction false} StretchWithout(edges: seq<Edge>, e: Edge, q: seq<VmId>) returns (p: seq<VmId>)
    requires ChainBetween(edges + [e], q, e.from, e.to)
    ensures ChainBetween(edges, p, e.from, e.to)
    decreases |q|
  {
    if m :| 0 <= m < |q| - 1 && Edge(q[m + 1], q[m]) == e {
      assert forall i :: 0 <= i <= m ==> q[..m + 1][i] == q[i];
      p := StretchWithout(edges, e, q[..m + 1]);
    } else {
      p := q;
    }
  }

  /** Adding the edge of an accepted dependency to an acyclic graph makes it cyclic exactly when
      the new prerequisite already waits, directly or not, for the VM that would depend on it. */
  lemma NewEdgeClosesCycleIff(edges: seq<Edge>, e: Edge)
    requires !Cyclic(edges)
    ensures Cyclic(edges + [e]) <==> WaitsFor(edges, e.from, e.to)
  {
    if WaitsFor(edges, e.from, e.to) {
      var p :| ChainBetween(edges, p, e.from, e.to);
      var c := p + [e.from];
      forall i | 0 <= i < |c| - 1
        ensures Edge(c[i + 1], c[i]) in edges + [e]
      {
        assert i < |p| - 1 ==> c[i + 1] == p[i + 1] && c[i] == p[i];
      }
      assert Cycle(edges + [e], c);
    }
    if Cyclic(edges + [e]) {
      var c :| Cycle(edges + [e], c);
      assert !Cycle(edges, c);
      var i :| 0 <= i < |c| - 1 && Edge(c[i + 1], c[i]) !in edges;
      assert Edge(c[i + 1], c[i]) == e;
      var q := c[i + 1..] + c[1..i + 1];
      RotationIsChain(edges + [e], c, i);
      var p := StretchWithout(edges, e, q);
    }
  }

  lemma RotationIsChain(edges: seq<Edge>, c: seq<VmId>, i: nat)
    requires Cycle(edges, c) && i < |c| - 1
    ensures ChainBetween(edges, c[i + 1..] + c[1..i + 1], c[i + 1], c[i])
  {
    var q := c[i + 1..] + c[1..i + 1];
    var n := |c| - i - 1;
    forall j | 0 <= j < |q| - 1
      ensures Edge(q[j + 1], q[j]) in edges
    {
      if j < n - 1 {
        assert q[j] == c[i + 1 + j] && q[j + 1] == c[i + 1 + j + 1];
      } else {
        assert q[j + 1] == c[j + 1 - n + 1];
        assert q[j] == c[j + 1 - n];
      }
    }
    assert i > 0 ==> q[|q| - 1] == c[i];
  }

  /** The same, for dependencies of an environment. */
  lemma AddDependencyClosesCycleIff(vms: seq<EnvVm>, deps: seq<Dependency>, d: Dependency)
    requires !Cyclic(EnvironmentEdges(vms, deps))
    ensures Cyclic(EnvironmentEdges(vms, deps + [d])) <==>
            (d.kind == StartBefore || d.kind == Requires) && d.source in IdSet(vms) && d.target in IdSet(vms)
            && WaitsFor(EnvironmentEdges(vms, deps), d.target, d.source)
  {
    var edges := EnvironmentEdges(vms, deps);
    assert (deps + [d])[..|deps|] == deps;
    if Orders(d) && d.source in IdSet(vms) && d.target in IdSet(vms) {
      NewEdgeClosesCycleIff(edges, Edge(d.target, d.source));
    }
  }
}
