/** `computeExecutionOrder`: Kahn's algorithm with FIFO tie-breaking by StartOrder and a
    fallback that still emits every VM when the dependencies are cyclic. */
module ExecutionOrder {
  import opened Sequences
  import opened DependencyGraph

  datatype EnvVm = EnvVm(vmid: VmId, startOrder: int, stopOrder: int)

  datatype DepType = StartBefore | StopAfter | Requires | Unknown(text: string)

  datatype Dependency = Dependency(source: VmId, target: VmId, kind: DepType)

  datatype Operation = Start | Stop | Restart | Snapshot | Clone

  function Ids(vms: seq<EnvVm>): (ids: seq<VmId>)
    ensures |ids| == |vms|
    ensures forall i :: 0 <= i < |vms| ==> ids[i] == vms[i].vmid
  {
    seq(|vms|, i requires 0 <= i < |vms| => vms[i].vmid)
  }

  /** The edges that matter: StartBefore/Requires dependencies between members, target first. */
  function MemberEdges(members: set<VmId>, deps: seq<Dependency>): (edges: seq<Edge>)
  {
    if deps == [] then []
    else
      var rest := MemberEdges(members, deps[..|deps| - 1]);
      var d := deps[|deps| - 1];
      if Orders(d) && d.target in members && d.source in members
      then rest + [Edge(d.target, d.source)]
      else rest
  }

  predicate Orders(d: Dependency) {
    d.kind.StartBefore? || d.kind.Requires?
  }

  /** The edges of an environment are exactly its StartBefore and Requires dependencies between
      members, from the target to the source. */
  lemma {:induction false} MemberEdgesExact(members: set<VmId>, deps: seq<Dependency>, u: VmId, v: VmId)
    ensures Edge(u, v) in MemberEdges(members, deps) <==>
            u in members && v in members
            && exists d <- deps :: (d.kind == StartBefore || d.kind == Requires) && d.target == u && d.source == v
  {
    if deps != [] {
      MemberEdgesExact(members, deps[..|deps| - 1], u, v);
      assert deps == deps[..|deps| - 1] + [deps[|deps| - 1]];
    }
  }

  function IdSet(vms: seq<EnvVm>): set<VmId> {
    set vm <- vms :: vm.vmid
  }

  function EnvironmentEdges(vms: seq<EnvVm>, deps: seq<Dependency>): seq<Edge> {
    MemberEdges(IdSet(vms), deps)
  }

  // ---------------------------------------------------------------------------------------
  // Specification of the order
  // ---------------------------------------------------------------------------------------

  /** `r` is the largest position in `ids` holding a prerequisite of `v`, or -1. */
  ghost predicate IsLastPrerequisite(edges: seq<Edge>, ids: seq<VmId>, v: VmId, r: int) {
    && -1 <= r < |ids|
    && (r >= 0 ==> Edge(ids[r], v) in edges)
    && forall j :: r < j < |ids| ==> Edge(ids[j], v) !in edges
  }

  ghost function LastPrerequisite(edges: seq<Edge>, ids: seq<VmId>, v: VmId): (r: int)
    ensures IsLastPrerequisite(edges, ids, v, r)
  {
    if ids == [] then -1
    else if Edge(ids[|ids| - 1], v) in edges then |ids| - 1
    else LastPrerequisite(edges, ids[..|ids| - 1], v)
  }

  /** FIFO tie-breaking: ordered by the moment of release, then by StartOrder. */
  ghost predicate Fifo(edges: seq<Edge>, prefix: seq<EnvVm>) {
    forall i, j {:trigger NotReleasedAfter(edges, prefix, i, j)} ::
      0 <= i < j < |prefix| ==> NotReleasedAfter(edges, prefix, i, j)
  }

  ghost predicate NotReleasedAfter(edges: seq<Edge>, prefix: seq<EnvVm>, i: int, j: int)
    requires 0 <= i < |prefix| && 0 <= j < |prefix|
  {
    var a := LastPrerequisite(edges, Ids(prefix), prefix[i].vmid);
    var b := LastPrerequisite(edges, Ids(prefix), prefix[j].vmid);
    a < b || (a == b && prefix[i].startOrder <= prefix[j].startOrder)
  }

  /** Every VM comes after all of its prerequisites. */
  ghost predicate PrerequisitesEarlier(edges: seq<Edge>, ids: seq<VmId>) {
    forall i, e :: 0 <= i < |ids| && e in edges && e.to == ids[i] ==> e.from in ids[..i]
  }

  ghost predicate SortedByStart(vms: seq<EnvVm>) {
    forall i, j :: 0 <= i < j < |vms| ==> vms[i].startOrder <= vms[j].startOrder
  }

  /** The complete account of a non-stop order: `order[..k]` is the topological part,
      `order[k..]` the fallback tail. */
  ghost predicate KahnOrder(vms: seq<EnvVm>, edges: seq<Edge>, order: seq<EnvVm>, k: nat) {
    && k <= |order|
    && multiset(order) == multiset(vms)
    && NoDup(Ids(order))
    && PrerequisitesEarlier(edges, Ids(order[..k]))
    && Fifo(edges, order[..k])
    && SortedByStart(order[k..])
    && EverybodyWaits(edges, IdSet(order[k..]))
  }

  // ---------------------------------------------------------------------------------------
  // sort.Slice: any permutation sorted by the key (Go's sort is not stable)
  // ---------------------------------------------------------------------------------------

  method SortBy<T>(s: seq<T>, key: T -> int) returns (r: seq<T>)
    ensures multiset(r) == multiset(s)
    ensures SortedOn(r, key)
  {
    r := [];
    for n := 0 to |s|
      invariant multiset(r) == multiset(s[..n])
      invariant SortedOn(r, key)
    {
      assert s[..n + 1] == s[..n] + [s[n]];
      r := Insert(r, s[n], key);
    }
    assert s == s[..|s|];
  }

  ghost predicate SortedOn<T>(s: seq<T>, key: T -> int) {
    forall i, j :: 0 <= i < j < |s| ==> key(s[i]) <= key(s[j])
  }

  method Insert<T>(s: seq<T>, x: T, key: T -> int) returns (r: seq<T>)
    requires SortedOn(s, key)
    ensures SortedOn(r, key)
    ensures multiset(r) == multiset(s) + multiset{x}
  {
    var p := |s|;
    while p > 0 && key(s[p - 1]) > key(x)
      invariant 0 <= p <= |s|
      invariant p < |s| ==> key(s[p]) > key(x)
    {
      p := p - 1;
    }
    r := s[..p] + [x] + s[p..];
    InsertedSorted(s, p, x, key, r);
    InsertedCount(s, p, x);
  }

  lemma InsertedCount<T>(s: seq<T>, p: nat, x: T)
    requires p <= |s|
    ensures multiset(s[..p] + [x] + s[p..]) == multiset(s) + multiset{x}
  {
    assert s == s[..p] + s[p..];
  }

  lemma InsertedSorted<T>(s: seq<T>, p: nat, x: T, key: T -> int, r: seq<T>)
    requires SortedOn(s, key) && p <= |s|
    requires p > 0 ==> key(s[p - 1]) <= key(x)
    requires p < |s| ==> key(s[p]) > key(x)
    requires r == s[..p] + [x] + s[p..]
    ensures SortedOn(r, key)
  {
    forall i, j | 0 <= i < j < |r|
      ensures key(r[i]) <= key(r[j])
    {
      assert r[i] == if i < p then s[i] else if i == p then x else s[i - 1];
      assert r[j] == if j < p then s[j] else if j == p then x else s[j - 1];
      assert i < p ==> key(s[i]) <= key(x);
      assert j > p ==> key(s[j - 1]) >= key(x);
    }
  }

  // ---------------------------------------------------------------------------------------
  // Counting edges
  // ---------------------------------------------------------------------------------------

  /** Number of edges u -> v, duplicates included. */
  ghost function Multiplicity(edges: seq<Edge>, u: VmId, v: VmId): nat {
    if edges == [] then 0
    else Multiplicity(edges[..|edges| - 1], u, v) + if edges[|edges| - 1] == Edge(u, v) then 1 else 0
  }

  /** Number of edges into v whose source has not been emitted. */
  ghost function Open(edges: seq<Edge>, done: seq<VmId>, v: VmId): nat {
    if edges == [] then 0
    else
      var e := edges[|edges| - 1];
      Open(edges[..|edges| - 1], done, v) + if e.to == v && e.from !in done then 1 else 0
  }

  lemma {:induction false} OpenZero(edges: seq<Edge>, done: seq<VmId>, v: VmId)
    ensures Open(edges, done, v) == 0 <==> forall e <- edges :: e.to == v ==> e.from in done
  {
    if edges != [] {
      var init := edges[..|edges| - 1];
      OpenZero(init, done, v);
      assert edges == init + [edges[|edges| - 1]];
    }
  }

  lemma {:induction false} OpenAfterEmitting(edges: seq<Edge>, done: seq<VmId>, cur: VmId, v: VmId)
    requires cur !in done
    ensures Open(edges, done, v) == Open(edges, done + [cur], v) + Multiplicity(edges, cur, v)
  {
    if edges != [] {
      OpenAfterEmitting(edges[..|edges| - 1], done, cur, v);
    }
  }

  lemma {:induction false} MultiplicityPositive(edges: seq<Edge>, u: VmId, v: VmId)
    ensures Multiplicity(edges, u, v) > 0 <==> Edge(u, v) in edges
  {
    if edges != [] {
      var init := edges[..|edges| - 1];
      MultiplicityPositive(init, u, v);
      assert edges == init + [edges[|edges| - 1]];
    }
  }

  function Neighbours(adj: map<VmId, seq<VmId>>, u: VmId): seq<VmId> {
    if u in adj then adj[u] else []
  }

  /** What the graph-building loops establish about `inDegree` and `adj`. */
  ghost predicate GraphOf(members: set<VmId>, edges: seq<Edge>, inDegree: map<VmId, int>,
                          adj: map<VmId, seq<VmId>>)
  {
    && inDegree.Keys == members
    && (forall v <- members :: inDegree[v] == Open(edges, [], v))
    && (forall u, v :: multiset(Neighbours(adj, u))[v] == Multiplicity(edges, u, v))
  }

  // ---------------------------------------------------------------------------------------
  // The algorithm
  // ---------------------------------------------------------------------------------------

  method OrderingEdges(deps: seq<Dependency>) returns (all: seq<Edge>)
    ensures forall members :: Restrict(members, all) == MemberEdges(members, deps)
    ensures forall u, v :: Edge(u, v) in all <==>
              exists d <- deps :: (d.kind == StartBefore || d.kind == Requires) && d.target == u && d.source == v
  {
    all := [];
    for i := 0 to |deps|
      invariant forall members :: Restrict(members, all) == MemberEdges(members, deps[..i])
      invariant forall u, v :: Edge(u, v) in all <==>
                  exists d <- deps[..i] :: (d.kind == StartBefore || d.kind == Requires) && d.target == u && d.source == v
    {
      var d := deps[i];
      assert deps[..i + 1][..i] == deps[..i] && deps[..i + 1] == deps[..i] + [d];
      if Orders(d) {
        var next := all + [Edge(d.target, d.source)];
        assert next[..|next| - 1] == all;
        all := next;
      }
    }
    assert deps[..|deps|] == deps;
  }

  /** The edges whose two ends are members. */
  function Restrict(members: set<VmId>, edges: seq<Edge>): seq<Edge> {
    if edges == [] then []
    else
      var rest := Restrict(members, edges[..|edges| - 1]);
      var e := edges[|edges| - 1];
      if e.from in members && e.to in members then rest + [e] else rest
  }

  method ZeroDegrees(ids: seq<VmId>) returns (inDegree: map<VmId, int>)
    ensures inDegree.Keys == set id | id in ids
    ensures forall v <- inDegree :: inDegree[v] == 0
  {
    inDegree := map[];
    for i := 0 to |ids|
      invariant inDegree.Keys == set id | id in ids[..i]
      invariant forall v <- inDegree :: inDegree[v] == 0
    {
      inDegree := inDegree[ids[i] := 0];
      assert ids[..i + 1] == ids[..i] + [ids[i]];
    }
    assert ids[..|ids|] == ids;
  }

  /** One more edge: its target's degree grows by one and it joins its source's neighbours. */
  lemma GraphGrows(members: set<VmId>, edges: seq<Edge>, e: Edge, inDegree: map<VmId, int>,
                   adj: map<VmId, seq<VmId>>)
    requires GraphOf(members, edges, inDegree, adj)
    requires e.from in members && e.to in members
    ensures GraphOf(members, edges + [e], inDegree[e.to := inDegree[e.to] + 1],
                    adj[e.from := Neighbours(adj, e.from) + [e.to]])
  {
    var adj' := adj[e.from := Neighbours(adj, e.from) + [e.to]];
    assert (edges + [e])[..|edges|] == edges;
    forall u, v
      ensures multiset(Neighbours(adj', u))[v] == Multiplicity(edges + [e], u, v)
    {
      assert multiset(Neighbours(adj, u))[v] == Multiplicity(edges, u, v);
    }
  }

  method BuildGraph(ids: seq<VmId>, vmMap: map<VmId, EnvVm>, all: seq<Edge>)
    returns (inDegree: map<VmId, int>, adj: map<VmId, seq<VmId>>)
    requires vmMap.Keys == set id | id in ids
    ensures GraphOf(vmMap.Keys, Restrict(vmMap.Keys, all), inDegree, adj)
  {
    inDegree := ZeroDegrees(ids);
    adj := map[];
    for i := 0 to |all|
      invariant GraphOf(vmMap.Keys, Restrict(vmMap.Keys, all[..i]), inDegree, adj)
    {
      var e := all[i];
      assert all[..i + 1][..i] == all[..i];
      if e.from in vmMap && e.to in vmMap {
        GraphGrows(vmMap.Keys, Restrict(vmMap.Keys, all[..i]), e, inDegree, adj);
        adj := adj[e.from := Neighbours(adj, e.from) + [e.to]];
        inDegree := inDegree[e.to := inDegree[e.to] + 1];
      }
    }
    assert all[..|all|] == all;
  }

  // ---------------------------------------------------------------------------------------
  // The work-list loop
  // ---------------------------------------------------------------------------------------

  /** Invariant of the work-list: `all` is what was emitted followed by what is queued, and
      `rank[i]` the position of the emission that released `all[i]` (-1: free from the start). */
  ghost predicate Worklist(vmMap: map<VmId, EnvVm>, edges: seq<Edge>, inDegree: map<VmId, int>,
                           done: seq<VmId>, all: seq<VmId>, rank: seq<int>)
  {
    && Degrees(vmMap, edges, inDegree, done, all, [])
    && Released(vmMap, edges, done, all, rank)
  }

  ghost predicate Released(vmMap: map<VmId, EnvVm>, edges: seq<Edge>, done: seq<VmId>, all: seq<VmId>,
                           rank: seq<int>)
    requires forall v <- all :: v in vmMap
  {
    && |rank| == |all|
    && (forall i :: 0 <= i < |all| ==> rank[i] < i && IsLastPrerequisite(edges, done, all[i], rank[i]))
    && (forall i, j :: 0 <= i < j < |all| ==>
          rank[i] < rank[j] || (rank[i] == rank[j] && vmMap[all[i]].startOrder <= vmMap[all[j]].startOrder))
  }

  /** Same, in the middle of handling the neighbours of the last emitted VM: `todo` is the part
      of its neighbour list still to be decremented. */
  ghost predicate Decrementing(vmMap: map<VmId, EnvVm>, edges: seq<Edge>, inDegree: map<VmId, int>,
                               done: seq<VmId>, all: seq<VmId>, rank: seq<int>, todo: seq<VmId>)
  {
    && Degrees(vmMap, edges, inDegree, done, all, todo)
    && Released(vmMap, edges, done, all, rank)
    && done != []
    && ReleasedNow(vmMap, edges, done, all, rank, todo)
  }

  ghost predicate Degrees(vmMap: map<VmId, EnvVm>, edges: seq<Edge>, inDegree: map<VmId, int>,
                          done: seq<VmId>, all: seq<VmId>, todo: seq<VmId>)
  {
    && inDegree.Keys == vmMap.Keys
    && done <= all
    && NoDup(all)
    && (forall v <- all :: v in vmMap)
    && (forall v <- todo :: v in vmMap)
    && (forall v <- vmMap :: inDegree[v] == Open(edges, done, v) + multiset(todo)[v])
    && (forall v <- vmMap :: v in all <==> inDegree[v] == 0)
  }

  ghost predicate ReleasedNow(vmMap: map<VmId, EnvVm>, edges: seq<Edge>, done: seq<VmId>, all: seq<VmId>,
                              rank: seq<int>, todo: seq<VmId>)
    requires done != [] && |rank| == |all|
    requires forall v <- all :: v in vmMap
    requires forall v <- todo :: v in vmMap
  {
    && (forall v <- todo :: Edge(done[|done| - 1], v) in edges)
    && (forall i, v :: 0 <= i < |all| && rank[i] == |done| - 1 && v in todo ==>
          vmMap[all[i]].startOrder <= vmMap[v].startOrder)
  }

  /** Emitting the head of the queue starts a decrementing phase over its sorted neighbours. */
  lemma EmitHead(vmMap: map<VmId, EnvVm>, edges: seq<Edge>, inDegree: map<VmId, int>,
                 done: seq<VmId>, all: seq<VmId>, rank: seq<int>, todo: seq<VmId>)
    requires Worklist(vmMap, edges, inDegree, done, all, rank)
    requires |done| < |all|
    requires forall v :: multiset(todo)[v] == Multiplicity(edges, all[|done|], v)
    requires forall v <- todo :: v in vmMap
    ensures Decrementing(vmMap, edges, inDegree, done + [all[|done|]], all, rank, todo)
  {
    var cur := all[|done|];
    var done' := done + [cur];
    assert cur !in done by {
      assert forall i :: 0 <= i < |done| ==> done[i] == all[i];
    }
    forall v | v in vmMap
      ensures inDegree[v] == Open(edges, done', v) + multiset(todo)[v]
    {
      OpenAfterEmitting(edges, done, cur, v);
    }
    forall v | v in todo
      ensures Edge(cur, v) in edges
    {
      assert v in multiset(todo);
      MultiplicityPositive(edges, cur, v);
    }
    forall i | 0 <= i < |all|
      ensures IsLastPrerequisite(edges, done', all[i], rank[i])
    {
      OpenZero(edges, done, all[i]);
      assert Edge(cur, all[i]) !in edges;
    }
  }

  predicate StartsNoLater(vmMap: map<VmId, EnvVm>, u: VmId, v: VmId) {
    u in vmMap && v in vmMap && vmMap[u].startOrder <= vmMap[v].startOrder
  }

  ghost predicate AscendingStart(vmMap: map<VmId, EnvVm>, s: seq<VmId>) {
    forall i, j :: 0 <= i < j < |s| ==> StartsNoLater(vmMap, s[i], s[j])
  }

  ghost predicate LeastFirst(vmMap: map<VmId, EnvVm>, s: seq<VmId>) {
    forall v <- s :: StartsNoLater(vmMap, s[0], v)
  }

  lemma SuffixLeastFirst(vmMap: map<VmId, EnvVm>, s: seq<VmId>, j: nat)
    requires AscendingStart(vmMap, s) && j < |s| && s[j] in vmMap
    ensures LeastFirst(vmMap, s[j..])
  {
  }

  lemma NextIsOpen(vmMap: map<VmId, EnvVm>, edges: seq<Edge>, inDegree: map<VmId, int>,
                   done: seq<VmId>, all: seq<VmId>, todo: seq<VmId>)
    requires todo != []
    requires Degrees(vmMap, edges, inDegree, done, all, todo)
    ensures inDegree[todo[0]] > 0 && todo[0] !in all
  {
    assert todo[0] in todo && todo[0] in multiset(todo);
  }

  lemma DegreesStep(vmMap: map<VmId, EnvVm>, edges: seq<Edge>, inDegree: map<VmId, int>,
                    done: seq<VmId>, all: seq<VmId>, todo: seq<VmId>)
    requires todo != []
    requires Degrees(vmMap, edges, inDegree, done, all, todo)
    ensures inDegree[todo[0]] > 0 && todo[0] !in all
    ensures var next := todo[0];
            var d := inDegree[next] - 1;
            Degrees(vmMap, edges, inDegree[next := d], done, if d == 0 then all + [next] else all, todo[1..])
  {
    var next := todo[0];
    NextIsOpen(vmMap, edges, inDegree, done, all, todo);
    var d := inDegree[next] - 1;
    CountsAfter(vmMap, edges, inDegree, done, todo);
    QueuedAfter(vmMap, inDegree, all, next);
    RestKnown(vmMap, todo);
    PrefixGrows(done, all, next);
  }

  lemma RestKnown(vmMap: map<VmId, EnvVm>, todo: seq<VmId>)
    requires todo != [] && forall v <- todo :: v in vmMap
    ensures forall v <- todo[1..] :: v in vmMap
  {
    assert forall v <- todo[1..] :: v in todo;
  }

  lemma PrefixGrows(done: seq<VmId>, all: seq<VmId>, next: VmId)
    requires done <= all
    ensures done <= all + [next]
  {
  }

  lemma QueuedAfter(vmMap: map<VmId, EnvVm>, inDegree: map<VmId, int>, all: seq<VmId>, next: VmId)
    requires inDegree.Keys == vmMap.Keys && NoDup(all) && next in vmMap && next !in all && inDegree[next] > 0
    requires forall v <- vmMap :: v in all <==> inDegree[v] == 0
    ensures var d := inDegree[next] - 1;
            var all' := if d == 0 then all + [next] else all;
            && NoDup(all') && (forall v <- all' :: v in all || v == next)
            && forall v <- vmMap :: v in all' <==> inDegree[next := d][v] == 0
  {
  }

  lemma CountsAfter(vmMap: map<VmId, EnvVm>, edges: seq<Edge>, inDegree: map<VmId, int>, done: seq<VmId>, todo: seq<VmId>)
    requires todo != [] && inDegree.Keys == vmMap.Keys && todo[0] in vmMap
    requires forall v <- vmMap :: inDegree[v] == Open(edges, done, v) + multiset(todo)[v]
    ensures forall v <- vmMap ::
              inDegree[todo[0] := inDegree[todo[0]] - 1][v] == Open(edges, done, v) + multiset(todo[1..])[v]
  {
    forall v | v in vmMap
      ensures inDegree[todo[0] := inDegree[todo[0]] - 1][v] == Open(edges, done, v) + multiset(todo[1..])[v]
    {
      CountRest(todo, v);
    }
  }

  lemma CountRest(todo: seq<VmId>, v: VmId)
    requires todo != []
    ensures multiset(todo)[v] == multiset(todo[1..])[v] + if v == todo[0] then 1 else 0
  {
    assert todo == [todo[0]] + todo[1..];
    assert multiset(todo)[v] == multiset{todo[0]}[v] + multiset(todo[1..])[v];
  }

  /** Decrementing one neighbour, queueing it when its last open edge closes. */
  lemma DecrementOne(vmMap: map<VmId, EnvVm>, edges: seq<Edge>, inDegree: map<VmId, int>,
                     done: seq<VmId>, all: seq<VmId>, rank: seq<int>, todo: seq<VmId>, grown: seq<VmId>,
                     rest: seq<VmId>)
    requires todo != [] && grown == all + [todo[0]] && rest == todo[1..]
    requires Decrementing(vmMap, edges, inDegree, done, all, rank, todo)
    requires LeastFirst(vmMap, todo)
    ensures todo[0] in vmMap
    ensures var next := todo[0];
            var d := inDegree[next] - 1;
            if d == 0
            then Decrementing(vmMap, edges, inDegree[next := d], done, grown, rank + [|done| - 1], rest)
            else Decrementing(vmMap, edges, inDegree[next := d], done, all, rank, rest)
  {
    var next := todo[0];
    assert next in todo;
    DegreesStep(vmMap, edges, inDegree, done, all, todo);
    if inDegree[next] == 1 {
      ReleaseNext(vmMap, edges, done, all, rank, next);
      ReleasedNowStep(vmMap, edges, done, all, rank, todo);
    } else {
      assert forall v <- todo[1..] :: v in todo;
    }
  }

  lemma ReleasedNowStep(vmMap: map<VmId, EnvVm>, edges: seq<Edge>, done: seq<VmId>, all: seq<VmId>,
                        rank: seq<int>, todo: seq<VmId>)
    requires done != [] && |rank| == |all| && todo != []
    requires forall v <- all :: v in vmMap
    requires forall v <- todo :: v in vmMap
    requires ReleasedNow(vmMap, edges, done, all, rank, todo)
    requires LeastFirst(vmMap, todo)
    ensures forall v <- all + [todo[0]] :: v in vmMap
    ensures ReleasedNow(vmMap, edges, done, all + [todo[0]], rank + [|done| - 1], todo[1..])
  {
    var all', rank' := all + [todo[0]], rank + [|done| - 1];
    assert forall v <- todo[1..] :: v in todo;
    forall i, v | 0 <= i < |all'| && rank'[i] == |done| - 1 && v in todo[1..]
      ensures vmMap[all'[i]].startOrder <= vmMap[v].startOrder
    {
      assert i < |all| ==> all'[i] == all[i] && rank'[i] == rank[i];
    }
  }

  lemma ReleaseNext(vmMap: map<VmId, EnvVm>, edges: seq<Edge>, done: seq<VmId>, all: seq<VmId>,
                    rank: seq<int>, next: VmId)
    requires forall v <- all :: v in vmMap
    requires next in vmMap && done != [] && done <= all
    requires Released(vmMap, edges, done, all, rank)
    requires Edge(done[|done| - 1], next) in edges
    requires forall i :: 0 <= i < |all| && rank[i] == |done| - 1 ==>
               vmMap[all[i]].startOrder <= vmMap[next].startOrder
    ensures Released(vmMap, edges, done, all + [next], rank + [|done| - 1])
  {
    var all', rank' := all + [next], rank + [|done| - 1];
    forall i, j | 0 <= i < j < |all'|
      ensures rank'[i] < rank'[j]
           || (rank'[i] == rank'[j] && vmMap[all'[i]].startOrder <= vmMap[all'[j]].startOrder)
    {
      assert i < |all|;
      assert IsLastPrerequisite(edges, done, all[i], rank[i]);
    }
  }

  lemma DecrementAt(vmMap: map<VmId, EnvVm>, edges: seq<Edge>, inDegree: map<VmId, int>, done: seq<VmId>,
                    queue: seq<VmId>, rank: seq<int>, neighbours: seq<VmId>, j: nat)
    requires j < |neighbours|
    requires Decrementing(vmMap, edges, inDegree, done, done + queue, rank, neighbours[j..])
    requires neighbours[j] in vmMap && LeastFirst(vmMap, neighbours[j..])
    ensures var next := neighbours[j];
            var d := inDegree[next] - 1;
            if d == 0
            then Decrementing(vmMap, edges, inDegree[next := d], done, done + (queue + [next]),
                              rank + [|done| - 1], neighbours[j + 1..])
            else Decrementing(vmMap, edges, inDegree[next := d], done, done + queue, rank, neighbours[j + 1..])
  {
    DecrementOne(vmMap, edges, inDegree, done, done + queue, rank, neighbours[j..], done + (queue + [neighbours[j]]),
                 neighbours[j + 1..]);
  }

  method DecrementNeighbours(vmMap: map<VmId, EnvVm>, ghost edges: seq<Edge>, degrees: map<VmId, int>,
                             done: seq<VmId>, waiting: seq<VmId>, ghost ranks: seq<int>, neighbours: seq<VmId>)
    returns (inDegree: map<VmId, int>, queue: seq<VmId>, ghost rank: seq<int>)
    requires Decrementing(vmMap, edges, degrees, done, done + waiting, ranks, neighbours)
    requires AscendingStart(vmMap, neighbours)
    ensures Worklist(vmMap, edges, inDegree, done, done + queue, rank)
  {
    inDegree, queue, rank := degrees, waiting, ranks;
    assert neighbours[0..] == neighbours;
    for j := 0 to |neighbours|
      invariant Decrementing(vmMap, edges, inDegree, done, done + queue, rank, neighbours[j..])
    {
      var next := neighbours[j];
      assert next in neighbours[j..];
      SuffixLeastFirst(vmMap, neighbours, j);
      DecrementAt(vmMap, edges, inDegree, done, queue, rank, neighbours, j);
      inDegree := inDegree[next := inDegree[next] - 1];
      if inDegree[next] == 0 {
        queue := queue + [next];
        rank := rank + [|done| - 1];
      }
    }
    assert neighbours[|neighbours|..] == [];
  }

  method FreeVms(ids: seq<VmId>, inDegree: map<VmId, int>) returns (queue: seq<VmId>)
    requires NoDup(ids) && inDegree.Keys == set id | id in ids
    ensures NoDup(queue)
    ensures forall v :: v in queue <==> v in inDegree && inDegree[v] == 0
  {
    queue := [];
    for i := 0 to |ids|
      invariant NoDup(queue)
      invariant forall v :: v in queue <==> v in ids[..i] && inDegree[v] == 0
    {
      if inDegree[ids[i]] == 0 {
        queue := queue + [ids[i]];
      }
      assert ids[..i + 1] == ids[..i] + [ids[i]];
    }
    assert ids[..|ids|] == ids;
  }

  method InitialQueue(vmMap: map<VmId, EnvVm>, ids: seq<VmId>, ghost edges: seq<Edge>, inDegree: map<VmId, int>)
    returns (queue: seq<VmId>, ghost rank: seq<int>)
    requires NoDup(ids) && vmMap.Keys == (set id | id in ids) && inDegree.Keys == vmMap.Keys
    requires forall v <- vmMap :: inDegree[v] == Open(edges, [], v)
    ensures Worklist(vmMap, edges, inDegree, [], queue, rank)
  {
    var free := FreeVms(ids, inDegree);
    var key := (id: VmId) => if id in vmMap then vmMap[id].startOrder else 0;
    queue := SortBy(free, key);
    PermutationKeepsNoDup(free, queue);
    PermutationKeepsElements(free, queue);
    rank := seq(|queue|, _ => -1);
    assert forall i, j :: 0 <= i < j < |queue| ==> key(queue[i]) <= key(queue[j]);
  }

  lemma PermutationKeepsElements<T>(a: seq<T>, b: seq<T>)
    requires multiset(a) == multiset(b)
    ensures forall x :: x in a <==> x in b
  {
    assert forall x :: x in a <==> x in multiset(a);
    assert forall x :: x in b <==> x in multiset(b);
  }

  lemma PermutationKeepsNoDup<T>(a: seq<T>, b: seq<T>)
    requires multiset(a) == multiset(b) && NoDup(a)
    ensures NoDup(b)
  {
    NoDupCounts(a);
    forall i, j | 0 <= i < j < |b|
      ensures b[i] != b[j]
    {
      var rest := b[..i] + b[i + 1..];
      assert b == b[..i] + [b[i]] + b[i + 1..];
      assert rest[j - 1] == b[j];
      assert multiset(b) == multiset(rest) + multiset{b[i]};
      assert multiset(a)[b[j]] <= 1;
      assert multiset(rest)[rest[j - 1]] > 0;
      assert multiset(b)[b[j]] == multiset(rest)[b[j]] + multiset{b[i]}[b[j]];
    }
  }

  /** The neighbours handed to the decrementing loop are exactly the successors of `cur`. */
  method SortedNeighbours(vmMap: map<VmId, EnvVm>, ghost edges: seq<Edge>, adj: map<VmId, seq<VmId>>, cur: VmId)
    returns (neighbours: seq<VmId>)
    requires forall v :: multiset(Neighbours(adj, cur))[v] == Multiplicity(edges, cur, v)
    requires forall e <- edges :: e.to in vmMap
    ensures forall v :: multiset(neighbours)[v] == Multiplicity(edges, cur, v)
    ensures forall v <- neighbours :: v in vmMap
    ensures AscendingStart(vmMap, neighbours)
  {
    var key := (id: VmId) => if id in vmMap then vmMap[id].startOrder else 0;
    neighbours := SortBy(Neighbours(adj, cur), key);
    forall v | v in neighbours
      ensures v in vmMap
    {
      assert v in multiset(neighbours);
      MultiplicityPositive(edges, cur, v);
    }
    forall i, j | 0 <= i < j < |neighbours|
      ensures StartsNoLater(vmMap, neighbours[i], neighbours[j])
    {
      assert key(neighbours[i]) <= key(neighbours[j]);
    }
  }

  /** There is room for the head of the queue among the VMs. */
  lemma HeadFits(vmMap: map<VmId, EnvVm>, done: seq<VmId>, queue: seq<VmId>)
    requires queue != [] && NoDup(done + queue)
    requires forall v <- done + queue :: v in vmMap
    ensures |done| < |vmMap| && queue[0] in vmMap
    ensures done + [queue[0]] + queue[1..] == done + queue
  {
    var all := done + queue;
    assert all[|done|] == queue[0];
    NoDupCardinality(all);
    SubsetCardinality((set v | v in all), vmMap.Keys);
  }

  /** The loop itself. Each VM is queued at most once, so it ends. */
  method Kahn(vmMap: map<VmId, EnvVm>, ids: seq<VmId>, ghost edges: seq<Edge>, degrees: map<VmId, int>,
              adj: map<VmId, seq<VmId>>)
    returns (emitted: seq<VmId>, ghost inDegree: map<VmId, int>, ghost rank: seq<int>)
    requires NoDup(ids) && vmMap.Keys == set id | id in ids
    requires GraphOf(vmMap.Keys, edges, degrees, adj)
    requires forall e <- edges :: e.to in vmMap
    ensures Worklist(vmMap, edges, inDegree, emitted, emitted, rank)
  {
    emitted := [];
    var degree := degrees;
    var queue;
    queue, rank := InitialQueue(vmMap, ids, edges, degree);
    assert [] + queue == queue;
    while |queue| > 0
      invariant Worklist(vmMap, edges, degree, emitted, emitted + queue, rank)
      decreases |vmMap| - |emitted|
    {
      var cur := queue[0];
      HeadFits(vmMap, emitted, queue);
      var neighbours := SortedNeighbours(vmMap, edges, adj, cur);
      EmitHead(vmMap, edges, degree, emitted, emitted + queue, rank, neighbours);
      emitted, queue := emitted + [cur], queue[1..];
      degree, queue, rank := DecrementNeighbours(vmMap, edges, degree, emitted, queue, rank, neighbours);
    }
    assert emitted + queue == emitted;
    inDegree := degree;
  }

  // ---------------------------------------------------------------------------------------
  // From the finished work-list to the specification
  // ---------------------------------------------------------------------------------------

  lemma LastPrerequisiteUnique(edges: seq<Edge>, ids: seq<VmId>, v: VmId, r: int)
    requires IsLastPrerequisite(edges, ids, v, r)
    ensures LastPrerequisite(edges, ids, v) == r
  {
    var l := LastPrerequisite(edges, ids, v);
    assert IsLastPrerequisite(edges, ids, v, l);
  }

  lemma FinishedPrefix(vmMap: map<VmId, EnvVm>, edges: seq<Edge>, inDegree: map<VmId, int>, emitted: seq<VmId>,
                       rank: seq<int>)
    requires Worklist(vmMap, edges, inDegree, emitted, emitted, rank)
    ensures PrerequisitesEarlier(edges, emitted)
  {
    forall i, e | 0 <= i < |emitted| && e in edges && e.to == emitted[i]
      ensures e.from in emitted[..i]
    {
      assert emitted[i] in emitted;
      OpenZero(edges, emitted, emitted[i]);
      var j :| 0 <= j < |emitted| && emitted[j] == e.from;
      assert IsLastPrerequisite(edges, emitted, emitted[i], rank[i]);
      assert emitted[..i][j] == e.from;
    }
  }

  lemma FinishedFifo(vmMap: map<VmId, EnvVm>, edges: seq<Edge>, inDegree: map<VmId, int>, prefix: seq<EnvVm>,
                     rank: seq<int>)
    requires Worklist(vmMap, edges, inDegree, Ids(prefix), Ids(prefix), rank)
    requires forall i :: 0 <= i < |prefix| ==> vmMap[Ids(prefix)[i]] == prefix[i]
    ensures Fifo(edges, prefix)
  {
    var ids := Ids(prefix);
    forall i, j | 0 <= i < j < |prefix|
      ensures NotReleasedAfter(edges, prefix, i, j)
    {
      LastPrerequisiteUnique(edges, ids, prefix[i].vmid, rank[i]);
      LastPrerequisiteUnique(edges, ids, prefix[j].vmid, rank[j]);
    }
  }

  lemma FinishedTail(vmMap: map<VmId, EnvVm>, edges: seq<Edge>, inDegree: map<VmId, int>, emitted: seq<VmId>,
                     rank: seq<int>, tail: set<VmId>)
    requires Worklist(vmMap, edges, inDegree, emitted, emitted, rank)
    requires forall e <- edges :: e.from in vmMap
    requires forall v :: v in tail <==> v in vmMap && v !in emitted
    ensures EverybodyWaits(edges, tail)
  {
    forall v | v in tail
      ensures HasPrerequisiteIn(edges, tail, v)
    {
      OpenZero(edges, emitted, v);
      var e :| e in edges && e.to == v && e.from !in emitted;
      assert e == Edge(e.from, v) && e.from in tail;
    }
  }

  lemma {:induction false} RestrictStaysInside(members: set<VmId>, edges: seq<Edge>)
    ensures forall e <- Restrict(members, edges) :: e.from in members && e.to in members
  {
    if edges != [] {
      RestrictStaysInside(members, edges[..|edges| - 1]);
    }
  }

  method VmMap(vms: seq<EnvVm>) returns (ids: seq<VmId>, vmMap: map<VmId, EnvVm>)
    requires NoDup(Ids(vms))
    ensures ids == Ids(vms)
    ensures vmMap.Keys == IdSet(vms) == set id | id in ids
    ensures forall vm <- vms :: vmMap[vm.vmid] == vm
  {
    ids, vmMap := [], map[];
    for i := 0 to |vms|
      invariant ids == Ids(vms)[..i]
      invariant vmMap.Keys == set id | id in ids
      invariant forall j :: 0 <= j < i ==> vms[j].vmid in vmMap && vmMap[vms[j].vmid] == vms[j]
    {
      ids := ids + [vms[i].vmid];
      vmMap := vmMap[vms[i].vmid := vms[i]];
      assert forall j :: 0 <= j < i ==> Ids(vms)[j] != Ids(vms)[i];
    }
    assert forall id :: id in IdSet(vms) <==> id in ids;
  }

  /** The VMs that never made it into the topological part, in their original order. */
  method Remaining(vms: seq<EnvVm>, emitted: seq<VmId>) returns (remaining: seq<EnvVm>)
    requires NoDup(Ids(vms))
    ensures NoDup(Ids(remaining))
    ensures forall vm :: vm in remaining <==> vm in vms && vm.vmid !in emitted
  {
    remaining := [];
    for i := 0 to |vms|
      invariant NoDup(Ids(remaining))
      invariant forall vm :: vm in remaining <==> vm in vms[..i] && vm.vmid !in emitted
    {
      if vms[i].vmid !in emitted {
        assert forall j :: 0 <= j < |remaining| ==> remaining[j] in vms[..i];
        assert forall j :: 0 <= j < i ==> Ids(vms)[j] != Ids(vms)[i];
        remaining := remaining + [vms[i]];
      }
      assert vms[..i + 1] == vms[..i] + [vms[i]];
    }
    assert vms[..|vms|] == vms;
  }

  lemma AssembledIsPermutation(vms: seq<EnvVm>, prefix: seq<EnvVm>, tail: seq<EnvVm>)
    requires NoDup(Ids(vms)) && NoDup(Ids(prefix)) && NoDup(Ids(tail))
    requires forall vm <- prefix :: vm in vms
    requires forall vm :: vm in tail <==> vm in vms && vm.vmid !in Ids(prefix)
    ensures multiset(prefix + tail) == multiset(vms)
    ensures NoDup(Ids(prefix + tail))
  {
    var order := prefix + tail;
    forall i, j | 0 <= i < j < |order|
      ensures Ids(order)[i] != Ids(order)[j]
    {
      if i < |prefix| <= j {
        assert order[j] == tail[j - |prefix|] && tail[j - |prefix|] in tail;
        assert Ids(prefix)[i] in Ids(prefix);
      } else if j < |prefix| {
        assert Ids(prefix)[i] != Ids(prefix)[j];
      } else {
        assert Ids(tail)[i - |prefix|] != Ids(tail)[j - |prefix|];
      }
    }
    NoDupIdsNoDup(order);
    NoDupIdsNoDup(vms);
    forall vm | vm in vms
      ensures vm in order
    {
      if vm.vmid in Ids(prefix) {
        var i :| 0 <= i < |prefix| && Ids(prefix)[i] == vm.vmid;
        SameIdSameVm(vms, prefix[i], vm);
      }
    }
    SameElementsPermutation(order, vms);
  }

  lemma NoDupIdsNoDup(vms: seq<EnvVm>)
    requires NoDup(Ids(vms))
    ensures NoDup(vms)
  {
    forall i, j | 0 <= i < j < |vms|
      ensures vms[i] != vms[j]
    {
      assert Ids(vms)[i] != Ids(vms)[j];
    }
  }

  lemma SameIdSameVm(vms: seq<EnvVm>, a: EnvVm, b: EnvVm)
    requires NoDup(Ids(vms)) && a in vms && b in vms && a.vmid == b.vmid
    ensures a == b
  {
    var i :| 0 <= i < |vms| && vms[i] == a;
    var j :| 0 <= j < |vms| && vms[j] == b;
    assert Ids(vms)[i] == Ids(vms)[j];
  }

  method TopologicalOrder(vms: seq<EnvVm>, deps: seq<Dependency>) returns (order: seq<EnvVm>, ghost k: nat)
    requires NoDup(Ids(vms))
    ensures KahnOrder(vms, EnvironmentEdges(vms, deps), order, k)
  {
    var all := OrderingEdges(deps);
    var ids, vmMap := VmMap(vms);
    ghost var edges := EnvironmentEdges(vms, deps);
    RestrictStaysInside(vmMap.Keys, all);
    var inDegree, adj := BuildGraph(ids, vmMap, all);
    var emitted; ghost var degrees, rank;
    emitted, degrees, rank := Kahn(vmMap, ids, edges, inDegree, adj);
    var prefix := Records(vmMap, vms, emitted);
    var rest := Remaining(vms, emitted);
    var tail := SortBy(rest, (vm: EnvVm) => vm.startOrder);
    order, k := prefix + tail, |prefix|;

    FinishedPrefix(vmMap, edges, degrees, emitted, rank);
    FinishedFifo(vmMap, edges, degrees, prefix, rank);
    PermutationKeepsElements(rest, tail);
    PermutationKeepsDistinctIds(rest, tail);
    AssembledIsPermutation(vms, prefix, tail);
    TailIds(vmMap, vms, emitted, tail);
    FinishedTail(vmMap, edges, degrees, emitted, rank, IdSet(tail));
    assert order[..k] == prefix && order[k..] == tail;
  }

  lemma TailIds(vmMap: map<VmId, EnvVm>, vms: seq<EnvVm>, emitted: seq<VmId>, tail: seq<EnvVm>)
    requires vmMap.Keys == IdSet(vms)
    requires forall vm :: vm in tail <==> vm in vms && vm.vmid !in emitted
    ensures forall v :: v in IdSet(tail) <==> v in vmMap && v !in emitted
  {
    forall v | v in vmMap && v !in emitted
      ensures v in IdSet(tail)
    {
      var vm :| vm in vms && vm.vmid == v;
      assert vm in tail;
    }
  }

  lemma PermutationKeepsDistinctIds(a: seq<EnvVm>, b: seq<EnvVm>)
    requires multiset(a) == multiset(b) && NoDup(Ids(a))
    ensures NoDup(Ids(b))
  {
    NoDupIdsNoDup(a);
    PermutationKeepsNoDup(a, b);
    PermutationKeepsElements(a, b);
    forall i, j | 0 <= i < j < |b|
      ensures Ids(b)[i] != Ids(b)[j]
    {
      assert b[i] in a && b[j] in a;
      if b[i].vmid == b[j].vmid {
        SameIdSameVm(a, b[i], b[j]);
      }
    }
  }

  /** The records of the emitted ids. */
  method Records(vmMap: map<VmId, EnvVm>, ghost vms: seq<EnvVm>, emitted: seq<VmId>) returns (prefix: seq<EnvVm>)
    requires forall v <- emitted :: v in vmMap
    requires vmMap.Keys == IdSet(vms)
    requires forall vm <- vms :: vmMap[vm.vmid] == vm
    ensures Ids(prefix) == emitted
    ensures forall i :: 0 <= i < |prefix| ==> vmMap[Ids(prefix)[i]] == prefix[i]
    ensures forall vm <- prefix :: vm in vms
  {
    prefix := [];
    for i := 0 to |emitted|
      invariant |prefix| == i
      invariant forall j :: 0 <= j < i ==> prefix[j].vmid == emitted[j] && prefix[j] == vmMap[emitted[j]]
      invariant forall j :: 0 <= j < i ==> prefix[j] in vms
    {
      assert emitted[i] in IdSet(vms);
      prefix := prefix + [vmMap[emitted[i]]];
    }
  }

  /** computeExecutionOrder. */
  method ComputeExecutionOrder(vms: seq<EnvVm>, deps: seq<Dependency>, op: Operation)
    returns (order: seq<EnvVm>, ghost k: nat)
    requires NoDup(Ids(vms))
    ensures multiset(order) == multiset(vms)
    ensures op == Stop ==> forall i, j :: 0 <= i < j < |order| ==> order[i].stopOrder >= order[j].stopOrder
    ensures op != Stop ==> KahnOrder(vms, EnvironmentEdges(vms, deps), order, k)
  {
    if op.Stop? {
      var key := (vm: EnvVm) => -vm.stopOrder;
      order := SortBy(vms, key);
      k := 0;
      assert forall i, j :: 0 <= i < j < |order| ==> key(order[i]) <= key(order[j]);
    } else {
      order, k := TopologicalOrder(vms, deps);
    }
  }

  // ---------------------------------------------------------------------------------------
  // What an order of this shape means
  // ---------------------------------------------------------------------------------------

  /** The fallback tail is non-empty exactly when the member dependencies are cyclic. */
  lemma TailNonEmptyIffCyclic(vms: seq<EnvVm>, deps: seq<Dependency>, order: seq<EnvVm>, k: nat)
    requires KahnOrder(vms, EnvironmentEdges(vms, deps), order, k)
    ensures k < |order| <==> Cyclic(EnvironmentEdges(vms, deps))
  {
    var edges := EnvironmentEdges(vms, deps);
    if k < |order| {
      assert order[k..][0].vmid in IdSet(order[k..]);
      EverybodyWaitsMeansCycle(edges, IdSet(order[k..]));
    } else {
      CompleteOrderPointsForward(vms, deps, order);
      ForwardOrderMeansAcyclic(edges, Ids(order));
    }
  }

  lemma CompleteOrderPointsForward(vms: seq<EnvVm>, deps: seq<Dependency>, order: seq<EnvVm>)
    requires KahnOrder(vms, EnvironmentEdges(vms, deps), order, |order|)
    ensures EdgesPointForward(EnvironmentEdges(vms, deps), Ids(order))
  {
    var edges := EnvironmentEdges(vms, deps);
    assert order[..|order|] == order;
    PermutationKeepsElements(order, vms);
    forall e | e in edges
      ensures exists i, j :: 0 <= i < j < |order| && Ids(order)[i] == e.from && Ids(order)[j] == e.to
    {
      MemberEdgesExact(IdSet(vms), deps, e.from, e.to);
      var vm :| vm in vms && vm.vmid == e.to;
      var j :| 0 <= j < |order| && order[j] == vm;
      assert Ids(order)[j] == e.to;
      assert e.from in Ids(order)[..j];
      var i :| 0 <= i < j && Ids(order)[i] == e.from;
    }
  }

  /** With acyclic dependencies, whatever their duplicates and outside ends, every VM another
      one depends on comes first, and nothing is left for the fallback. */
  lemma AcyclicOrderIsTopological(vms: seq<EnvVm>, deps: seq<Dependency>, order: seq<EnvVm>, k: nat)
    requires KahnOrder(vms, EnvironmentEdges(vms, deps), order, k)
    requires !Cyclic(EnvironmentEdges(vms, deps))
    ensures k == |order|
    ensures forall d :: d in deps && (d.kind == StartBefore || d.kind == Requires)
                        && d.source in IdSet(vms) && d.target in IdSet(vms) ==>
              exists i, j :: 0 <= i < j < |order| && order[i].vmid == d.target && order[j].vmid == d.source
  {
    var edges := EnvironmentEdges(vms, deps);
    TailNonEmptyIffCyclic(vms, deps, order, k);
    CompleteOrderPointsForward(vms, deps, order);
    forall d | d in deps && (d.kind == StartBefore || d.kind == Requires) && d.source in IdSet(vms) && d.target in IdSet(vms)
      ensures exists i, j :: 0 <= i < j < |order| && order[i].vmid == d.target && order[j].vmid == d.source
    {
      MemberEdgesExact(IdSet(vms), deps, d.target, d.source);
      var e := Edge(d.target, d.source);
      assert e in edges;
      var i, j :| 0 <= i < j < |order| && Ids(order)[i] == e.from && Ids(order)[j] == e.to;
      assert order[i].vmid == d.target && order[j].vmid == d.source;
    }
  }

  /** Dependencies of any other kind do not order anything: the VMs are sorted by StartOrder. */
  lemma OtherKindsDoNotOrder(vms: seq<EnvVm>, deps: seq<Dependency>, order: seq<EnvVm>, k: nat)
    requires KahnOrder(vms, EnvironmentEdges(vms, deps), order, k)
    requires forall d <- deps :: d.kind.StopAfter? || d.kind.Unknown?
    ensures k == |order|
    ensures forall i, j :: 0 <= i < j < |order| ==> order[i].startOrder <= order[j].startOrder
  {
    var edges := EnvironmentEdges(vms, deps);
    forall u, v
      ensures Edge(u, v) !in edges
    {
      MemberEdgesExact(IdSet(vms), deps, u, v);
    }
    NoEdgesNoCycle(edges);
    TailNonEmptyIffCyclic(vms, deps, order, k);
    assert order[..k] == order;
    forall i, j | 0 <= i < j < |order|
      ensures order[i].startOrder <= order[j].startOrder
    {
      assert NotReleasedAfter(edges, order, i, j);
      assert IsLastPrerequisite(edges, Ids(order), order[i].vmid, -1);
      LastPrerequisiteUnique(edges, Ids(order), order[i].vmid, -1);
      LastPrerequisiteUnique(edges, Ids(order), order[j].vmid, -1);
    }
  }

  lemma NoEdgesNoCycle(edges: seq<Edge>)
    requires forall u, v :: Edge(u, v) !in edges
    ensures !Cyclic(edges)
  {
    forall p: seq<VmId> | |p| >= 2
      ensures !Cycle(edges, p)
    {
      assert Edge(p[0 + 1], p[0]) !in edges;
    }
  }

  // ---------------------------------------------------------------------------------------
  // The specification leaves no freedom beyond equal StartOrders
  // ---------------------------------------------------------------------------------------

  ghost predicate DistinctStartOrders(vms: seq<EnvVm>) {
    forall a, b {:trigger SameStart(a, b)} :: a in vms && b in vms && SameStart(a, b) ==> a == b
  }

  predicate SameStart(a: EnvVm, b: EnvVm) {
    a.startOrder == b.startOrder
  }

  lemma {:induction false} PrefixMembersAgree(vms: seq<EnvVm>, edges: seq<Edge>, o1: seq<EnvVm>, k1: nat,
                                              o2: seq<EnvVm>, k2: nat, i: nat)
    requires KahnOrder(vms, edges, o1, k1) && KahnOrder(vms, edges, o2, k2)
    requires i < k1
    ensures o1[i] in o2[..k2]
    decreases i
  {
    var v, tail := o1[i].vmid, IdSet(o2[k2..]);
    forall u | Edge(u, v) in edges
      ensures u !in tail
    {
      assert Ids(o1[..k1])[i] == v && Edge(u, v).to == v;
      assert u in Ids(o1[..k1])[..i];
      var h :| 0 <= h < i && Ids(o1[..k1])[h] == u;
      PrefixMembersAgree(vms, edges, o1, k1, o2, k2, h);
      var p :| 0 <= p < k2 && o2[..k2][p] == o1[h];
      PrefixIdsOutsideTail(o2, k2, p);
    }
    assert !HasPrerequisiteIn(edges, tail, v);
    assert o1[i] in multiset(o2);
    PrefixOrTail(o2, k2, o1[i]);
  }

  lemma PrefixOrTail(order: seq<EnvVm>, k: nat, vm: EnvVm)
    requires k <= |order| && vm in order
    ensures vm in order[..k] || vm.vmid in IdSet(order[k..])
  {
    assert order == order[..k] + order[k..];
  }

  lemma PrefixIdsOutsideTail(order: seq<EnvVm>, k: nat, p: nat)
    requires NoDup(Ids(order)) && p < k <= |order|
    ensures order[p].vmid !in IdSet(order[k..])
  {
    forall q | 0 <= q < |order[k..]|
      ensures order[k..][q].vmid != order[p].vmid
    {
      assert Ids(order)[p] != Ids(order)[k + q];
    }
  }

  lemma SameRelease(edges: seq<Edge>, ids1: seq<VmId>, ids2: seq<VmId>, i: nat, v: VmId)
    requires i < |ids1| && i <= |ids2| && ids1[..i] == ids2[..i] && ids1[i] == v
    requires NoDup(ids1) && NoDup(ids2) && PrerequisitesEarlier(edges, ids1)
    ensures LastPrerequisite(edges, ids1, v) == LastPrerequisite(edges, ids2, v)
  {
    var r := LastPrerequisite(edges, ids1, v);
    if r >= 0 {
      assert Edge(ids1[r], v).from in ids1[..i];
      assert r < i;
      assert ids2[..i][r] == ids1[..i][r];
    }
    forall j | r < j < |ids2|
      ensures Edge(ids2[j], v) !in edges
    {
      assert forall m :: 0 <= m < i ==> ids1[..i][m] == ids2[..i][m] && ids1[m] == ids2[m];
    }
    LastPrerequisiteUnique(edges, ids2, v, r);
  }

  lemma SameNext(edges: seq<Edge>, p1: seq<EnvVm>, p2: seq<EnvVm>, i: nat)
    requires NoDup(Ids(p1)) && NoDup(Ids(p2))
    requires PrerequisitesEarlier(edges, Ids(p1)) && PrerequisitesEarlier(edges, Ids(p2))
    requires Fifo(edges, p1) && Fifo(edges, p2)
    requires DistinctStartOrders(p1)
    requires forall vm :: vm in p1 <==> vm in p2
    requires i < |p1| && i < |p2| && p1[..i] == p2[..i]
    ensures p1[i] == p2[i]
  {
    var x, y := p1[i], p2[i];
    assert Ids(p1)[..i] == Ids(p1[..i]) == Ids(p2)[..i];
    assert x in p2 && y in p1;
    var j :| 0 <= j < |p1| && p1[j] == y;
    var h :| 0 <= h < |p2| && p2[h] == x;
    NotBefore(p1, p2, i, j);
    NotBefore(p2, p1, i, h);
    SameRelease(edges, Ids(p1), Ids(p2), i, x.vmid);
    SameRelease(edges, Ids(p2), Ids(p1), i, y.vmid);
    assert j > i ==> NotReleasedAfter(edges, p1, i, j);
    assert h > i ==> NotReleasedAfter(edges, p2, i, h);
    assert SameStart(x, y);
  }

  /** What sits at position i of `q` cannot sit earlier in `p` when the two agree before i. */
  lemma NotBefore(p: seq<EnvVm>, q: seq<EnvVm>, i: nat, j: nat)
    requires NoDup(Ids(q)) && i < |p| && i < |q| && p[..i] == q[..i]
    requires j < |p| && p[j] == q[i]
    ensures i <= j
  {
    assert forall m :: 0 <= m < i ==> p[..i][m] == q[..i][m] && Ids(q)[m] != Ids(q)[i];
  }

  lemma {:induction false} SamePrefix(edges: seq<Edge>, p1: seq<EnvVm>, p2: seq<EnvVm>, i: nat)
    requires NoDup(Ids(p1)) && NoDup(Ids(p2))
    requires PrerequisitesEarlier(edges, Ids(p1)) && PrerequisitesEarlier(edges, Ids(p2))
    requires Fifo(edges, p1) && Fifo(edges, p2)
    requires DistinctStartOrders(p1)
    requires forall vm :: vm in p1 <==> vm in p2
    requires i <= |p1| && |p1| == |p2|
    ensures p1[..i] == p2[..i]
  {
    if i > 0 {
      SamePrefix(edges, p1, p2, i - 1);
      SameNext(edges, p1, p2, i - 1);
      assert p1[..i] == p1[..i - 1] + [p1[i - 1]];
      assert p2[..i] == p2[..i - 1] + [p2[i - 1]];
    }
  }

  lemma {:induction false} SameSorted(t1: seq<EnvVm>, t2: seq<EnvVm>)
    requires multiset(t1) == multiset(t2)
    requires SortedByStart(t1) && SortedByStart(t2) && DistinctStartOrders(t1)
    ensures t1 == t2
  {
    assert |t1| == |multiset(t1)| == |multiset(t2)| == |t2|;
    if t1 != [] {
      SameFirst(t1, t2);
      RestOf(t1);
      RestOf(t2);
      SameSorted(t1[1..], t2[1..]);
    }
  }

  lemma RestOf(t: seq<EnvVm>)
    requires t != []
    ensures t == [t[0]] + t[1..]
    ensures multiset(t[1..]) == multiset(t) - multiset{t[0]}
    ensures DistinctStartOrders(t) ==> DistinctStartOrders(t[1..])
  {
    assert t == [t[0]] + t[1..];
    assert forall vm <- t[1..] :: vm in t;
  }

  lemma SameFirst(t1: seq<EnvVm>, t2: seq<EnvVm>)
    requires multiset(t1) == multiset(t2) && t1 != [] && t2 != []
    requires SortedByStart(t1) && SortedByStart(t2) && DistinctStartOrders(t1)
    ensures t1[0] == t2[0]
  {
    assert t1[0] in multiset(t2) && t2[0] in multiset(t1);
    var i :| 0 <= i < |t1| && t1[i] == t2[0];
    var j :| 0 <= j < |t2| && t2[j] == t1[0];
    assert SameStart(t1[0], t2[0]);
  }

  lemma NoDupSlice(order: seq<EnvVm>, k: nat)
    requires NoDup(Ids(order)) && k <= |order|
    ensures NoDup(Ids(order[..k]))
  {
    forall i, j | 0 <= i < j < k
      ensures Ids(order[..k])[i] != Ids(order[..k])[j]
    {
      assert Ids(order)[i] != Ids(order)[j];
    }
  }

  lemma PrefixesHoldSameVms(vms: seq<EnvVm>, edges: seq<Edge>, o1: seq<EnvVm>, k1: nat, o2: seq<EnvVm>, k2: nat)
    requires KahnOrder(vms, edges, o1, k1) && KahnOrder(vms, edges, o2, k2)
    ensures multiset(o1[..k1]) == multiset(o2[..k2])
  {
    var p1, p2 := o1[..k1], o2[..k2];
    forall vm
      ensures vm in p1 <==> vm in p2
    {
      if vm in p1 {
        var i :| 0 <= i < k1 && p1[i] == vm;
        PrefixMembersAgree(vms, edges, o1, k1, o2, k2, i);
      }
      if vm in p2 {
        var i :| 0 <= i < k2 && p2[i] == vm;
        PrefixMembersAgree(vms, edges, o2, k2, o1, k1, i);
      }
    }
    NoDupSlice(o1, k1);
    NoDupSlice(o2, k2);
    NoDupIdsNoDup(p1);
    NoDupIdsNoDup(p2);
    SameElementsPermutation(p1, p2);
  }

  /** Any two runs on VMs with pairwise different StartOrders give the same order and the same
      split, so the specification determines the algorithm's output. */
  lemma KahnOrderDetermined(vms: seq<EnvVm>, edges: seq<Edge>, o1: seq<EnvVm>, k1: nat, o2: seq<EnvVm>, k2: nat)
    requires DistinctStartOrders(vms)
    requires KahnOrder(vms, edges, o1, k1) && KahnOrder(vms, edges, o2, k2)
    ensures o1 == o2 && k1 == k2
  {
    var p1, p2, t1, t2 := o1[..k1], o2[..k2], o1[k1..], o2[k2..];
    assert o1 == p1 + t1 && o2 == p2 + t2;
    assert multiset(p1) == multiset(p2) by {
      PrefixesHoldSameVms(vms, edges, o1, k1, o2, k2);
    }
    assert |p1| == |multiset(p1)| == |multiset(p2)| == |p2|;
    SplitKeepsDistinct(vms, o1, p1, t1);
    assert t1 == t2 by {
      assert multiset(t1) == multiset(o1) - multiset(p1) == multiset(t2);
      SameSorted(t1, t2);
    }
    assert p1 == p2 by {
      PermutationKeepsElements(p1, p2);
      NoDupSlice(o1, k1);
      NoDupSlice(o2, k2);
      SamePrefix(edges, p1, p2, k1);
      assert p1[..k1] == p1 && p2[..k1] == p2;
    }
  }

  lemma SplitKeepsDistinct(vms: seq<EnvVm>, order: seq<EnvVm>, p: seq<EnvVm>, t: seq<EnvVm>)
    requires DistinctStartOrders(vms) && multiset(order) == multiset(vms) && order == p + t
    ensures DistinctStartOrders(p) && DistinctStartOrders(t)
  {
    PermutationKeepsElements(order, vms);
    assert forall vm :: vm in p || vm in t ==> vm in order;
  }
}
