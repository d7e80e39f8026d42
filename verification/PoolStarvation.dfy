/** Bulk and environment handlers keep their worker while they wait for other tasks. When exactly the
    worker pool comes to a stop because of that, and how many such tasks it takes. */
module PoolStarvation {
  import opened Wrappers
  import opened Sequences
  import opened RedisQueue
  import opened TaskProtocol
  import opened TaskSafety
  import opened TaskStranding

  // ---------------------------------------------------------------------------------------
  // Workers that cannot move
  // ---------------------------------------------------------------------------------------

  /** The step ends the wait for a child that has not finished: a timeout or a cancellation. */
  predicate GivesUp(s: State, a: Action)
    requires Enabled(s, a)
  {
    a.Abandon? || (a.Finish? && Unseen(s, a.w) != {})
  }

  /** The worker has a step to make without giving up on a child. */
  ghost predicate CanMove(s: State, w: nat) {
    exists a :: WorkerOf(a) == Some(w) && Enabled(s, a) && !GivesUp(s, a)
  }

  /** The handler waits: some child exists that it has not seen finished, and none of them is. */
  predicate Blocked(s: State, w: nat) {
    && WorkerAt(s, w) && s.workers[w].Executing? && Unseen(s, w) != {}
    && forall c <- Unseen(s, w) :: !Terminal(s.db[c].status)
  }

  predicate OutOfWork(s: State, w: nat) {
    WorkerAt(s, w) && s.workers[w].Idle? && AllEmpty(s.lists)
  }

  /** The worker waits for a slot of its task's hypervisor, and all of them are taken. */
  predicate AwaitsSlot(s: State, w: nat) {
    && WorkerAt(s, w) && s.workers[w].Checked? && s.workers[w].task.hypervisor.Some?
    && Occupancy(s, s.workers[w].task.hypervisor.value) >= MAX_SLOTS
  }

  function FirstServed(lists: Lists, k: nat): (r: nat)
    requires k < 10 && (forall j :: 0 <= j < k ==> lists[j] == []) && !AllEmpty(lists)
    ensures Serves(lists, r)
    decreases 10 - k
  {
    if lists[k] != [] then k
    else assert k < 9; FirstServed(lists, k + 1)
  }

  /** A step of the worker that is not giving up, wherever it is. */
  lemma FindMove(s: State, w: nat) returns (a: Action)
    requires WorkerAt(s, w) && !OutOfWork(s, w) && !AwaitsSlot(s, w) && !Blocked(s, w)
    requires s.workers[w].Finished? && s.workers[w].slot.Some? ==> Occupancy(s, s.workers[w].slot.value) > 0
    ensures WorkerOf(a) == Some(w) && Enabled(s, a) && !GivesUp(s, a)
  {
    match s.workers[w]
    case Idle => a := Pop(w, FirstServed(s.lists, 0));
    case Popped(id) => a := if id in s.locks then Drop(w) else Acquire(w);
    case Holding(_) => a := Load(w);
    case Loaded(_, _) => a := CheckCancel(w);
    case CancelSeen(_) => a := WriteCancelled(w);
    case Checked(_, _) => a := TakeSlot(w);
    case Slotted(_, _) => a := MarkRunning(w);
    case Executing(_, _) =>
      if Unseen(s, w) == {} {
        a := Finish(w, Succeeds);
      } else {
        var c :| c in Unseen(s, w) && Terminal(s.db[c].status);
        a := Observe(w, c);
      }
    case ArmingTimer(_, _) => a := ArmTimer(w);
    case ClearingCancel(_, _) => a := ClearCancel(w);
    case Finished(_, _) => a := ReleaseSlot(w);
    case Unlocking(_) => a := Unlock(w);
  }

  /** A worker that gives back a slot holds one. */
  lemma HolderOccupies(s: State, w: nat, h: Hypervisor)
    requires SlotInv(s) && WorkerAt(s, w) && SlotOf(s.workers[w]) == Some(h)
    ensures Occupancy(s, h) > 0
  {
    assert w in SlotHolders(s.workers, h);
  }

  /** In a reachable state a worker cannot move exactly when it is out of work, awaits a slot or is
      blocked by its children. */
  lemma CanMoveIff(s: State, w: nat)
    requires SlotInv(s) && WorkerAt(s, w)
    ensures CanMove(s, w) <==> !OutOfWork(s, w) && !AwaitsSlot(s, w) && !Blocked(s, w)
  {
    if !OutOfWork(s, w) && !AwaitsSlot(s, w) && !Blocked(s, w) {
      if s.workers[w].Finished? && s.workers[w].slot.Some? {
        HolderOccupies(s, w, s.workers[w].slot.value);
      }
      var a := FindMove(s, w);
    }
  }

  // ---------------------------------------------------------------------------------------
  // A pool that stands still
  // ---------------------------------------------------------------------------------------

  /** No worker can move without giving up on a child. */
  ghost predicate PoolStuck(s: State) {
    forall w: nat :: WorkerAt(s, w) ==> !CanMove(s, w)
  }

  /** Every worker is blocked by its children. */
  ghost predicate Starved(s: State) {
    s.workers != [] && forall w: nat :: WorkerAt(s, w) ==> Blocked(s, w)
  }

  /** Of the workers holding the slots somebody awaits, every one can move: none of them waits for
      another task. */
  lemma SlotHolderCanMove(s: State, w: nat) returns (v: nat)
    requires SlotInv(s) && WaitInv(s) && AwaitsSlot(s, w)
    ensures WorkerAt(s, v) && CanMove(s, v)
  {
    var h := s.workers[w].task.hypervisor.value;
    assert |SlotHolders(s.workers, h)| > 0;
    var i :| i in SlotHolders(s.workers, h);
    v := i;
    assert !Blocked(s, v);
    CanMoveIff(s, v);
  }

  /** The pool stands still exactly when every worker is out of work or blocked by its children:
      waiting for slots never brings it to a stop. */
  lemma PoolStuckIff(s: State)
    requires SlotInv(s) && WaitInv(s)
    ensures PoolStuck(s) <==> forall w: nat :: WorkerAt(s, w) ==> OutOfWork(s, w) || Blocked(s, w)
  {
    forall w: nat | WorkerAt(s, w)
      ensures CanMove(s, w) <==> !OutOfWork(s, w) && !AwaitsSlot(s, w) && !Blocked(s, w)
    {
      CanMoveIff(s, w);
    }
    if PoolStuck(s) {
      forall w: nat | WorkerAt(s, w)
        ensures OutOfWork(s, w) || Blocked(s, w)
      {
        if AwaitsSlot(s, w) {
          var v := SlotHolderCanMove(s, w);
        }
      }
    }
  }

  /** In every reachable state with something in the lists, the pool stands still exactly when it is
      starved. */
  lemma StuckWithWorkIffStarved(n: nat, actions: seq<Action>)
    requires Runs(Init(n), actions) && n > 0
    ensures var s := Exec(Init(n), actions); !AllEmpty(s.lists) ==> (PoolStuck(s) <==> Starved(s))
  {
    RunKeepsInvariants(n, actions);
    WorkersKept(n, actions);
    PoolStuckIff(Exec(Init(n), actions));
  }

  // ---------------------------------------------------------------------------------------
  // Starvation lasts
  // ---------------------------------------------------------------------------------------

  lemma BlockedCannotMove(s: State, a: Action, w: nat)
    requires Enabled(s, a) && WorkerOf(a) == Some(w) && !GivesUp(s, a)
    ensures !Blocked(s, w)
  {
  }

  lemma StarvedWorkersKeep(s: State, a: Action)
    requires Enabled(s, a) && Starved(s) && !GivesUp(s, a)
    ensures WorkerOf(a).None? && Apply(s, a).workers == s.workers
  {
    if WorkerOf(a).Some? {
      BlockedCannotMove(s, a, WorkerOf(a).value);
    }
  }

  /** Only a cancellation from outside makes a task terminal without a worker. */
  lemma OpenStaysOpen(s: State, a: Action, c: TaskId)
    requires Enabled(s, a) && WorkerOf(a).None? && !a.CancelWrite?
    requires c in s.db ==> !Terminal(s.db[c].status)
    requires c in NextDb(s, a)
    ensures !Terminal(NextDb(s, a)[c].status)
  {
  }

  lemma StepKeepsStarved(s: State, a: Action)
    requires Enabled(s, a) && Starved(s) && !GivesUp(s, a) && !a.CancelWrite?
    ensures Starved(Apply(s, a)) && Apply(s, a).workers == s.workers
    ensures forall id :: InLists(s.lists, id) ==> InLists(Apply(s, a).lists, id)
  {
    var t := Apply(s, a);
    StarvedWorkersKeep(s, a);
    forall w: nat | WorkerAt(t, w)
      ensures Blocked(t, w)
    {
      assert Blocked(s, w);
      var c :| c in Unseen(s, w);
      assert c in Unseen(t, w);
      forall d | d in Unseen(t, w)
        ensures !Terminal(t.db[d].status)
      {
        assert d in s.db ==> d in Unseen(s, w);
        OpenStaysOpen(s, a, d);
      }
    }
    forall id | InLists(s.lists, id)
      ensures InLists(t.lists, id)
    {
      WaitingStays(s, a, id);
    }
  }

  lemma WaitingStays(s: State, a: Action, id: TaskId)
    requires Enabled(s, a) && WorkerOf(a).None? && InLists(s.lists, id)
    ensures InLists(NextLists(s, a), id)
  {
    match a
    case EnqueuePush(x, priority) => PushCovers(s.lists, x, priority, id);
    case TimerFires(n) => PushCovers(s.lists, s.timers[n].id, s.timers[n].priority, id);
    case PollPush => PushCovers(s.lists, s.poller.cur.id, s.poller.cur.priority, id);
    case _ =>
  }

  /** The run neither gives up on a child nor cancels a task from outside. */
  ghost predicate Patient(s: State, actions: seq<Action>)
    requires Runs(s, actions)
    decreases |actions|
  {
    actions == [] ||
    var init, a := actions[..|actions| - 1], actions[|actions| - 1];
    Patient(s, init) && !a.CancelWrite? && !GivesUp(Exec(s, init), a)
  }

  /** Whatever else is created, enqueued or polled, a starved pool dequeues nothing until a handler
      gives up or somebody cancels a task. */
  lemma {:induction false} StarvedForever(s: State, actions: seq<Action>)
    requires Starved(s) && Runs(s, actions) && Patient(s, actions)
    ensures Starved(Exec(s, actions)) && Exec(s, actions).workers == s.workers
    ensures forall id :: InLists(s.lists, id) ==> InLists(Exec(s, actions).lists, id)
    decreases |actions|
  {
    if actions != [] {
      var init := actions[..|actions| - 1];
      StarvedForever(s, init);
      StepKeepsStarved(Exec(s, init), actions[|actions| - 1]);
    }
  }

  // ---------------------------------------------------------------------------------------
  // It takes as many waiting tasks as workers
  // ---------------------------------------------------------------------------------------

  function Parents(db: map<TaskId, Task>): set<TaskId> {
    set id | id in db && db[id].waits
  }

  function Ids(workers: seq<Pc>): (ids: seq<TaskId>)
    requires forall i :: 0 <= i < |workers| ==> workers[i].Executing?
    ensures |ids| == |workers| && forall i :: 0 <= i < |ids| ==> ids[i] == workers[i].id
  {
    seq(|workers|, i requires 0 <= i < |workers| => workers[i].id)
  }

  /** A pool is starved only by at least as many bulk and environment tasks as it has workers: with
      fewer, every reachable state with work waiting has a worker that can move. */
  lemma StarvationNeedsParents(n: nat, actions: seq<Action>)
    requires Runs(Init(n), actions) && Starved(Exec(Init(n), actions))
    ensures |Parents(Exec(Init(n), actions).db)| >= n
  {
    var s := Exec(Init(n), actions);
    RunKeepsInvariants(n, actions);
    ReachableStatesSafe(n, actions);
    WorkersKept(n, actions);
    forall i | 0 <= i < n
      ensures s.workers[i].Executing? && s.workers[i].id in Parents(s.db)
    {
      assert Blocked(s, i);
    }
    var ids := Ids(s.workers);
    NoDupCardinality(ids);
    SubsetCardinality((set id | id in ids), Parents(s.db));
  }

  /** With fewer bulk and environment tasks than workers, waiting work always finds a worker that
      can move. */
  lemma FewParentsNeverStarve(n: nat, actions: seq<Action>)
    requires Runs(Init(n), actions)
    ensures var s := Exec(Init(n), actions);
            |Parents(s.db)| < n && !AllEmpty(s.lists) ==> !PoolStuck(s)
  {
    if n > 0 {
      StuckWithWorkIffStarved(n, actions);
      if Starved(Exec(Init(n), actions)) {
        StarvationNeedsParents(n, actions);
      }
    }
  }

  // ---------------------------------------------------------------------------------------
  // And that many are enough
  // ---------------------------------------------------------------------------------------

  /** The id of the k-th parent, and of the one child it has. */
  function ParentId(k: nat): (id: TaskId)
    ensures |id| == k + 1 && id[0] == 'p'
  {
    seq(k + 1, _ => 'p')
  }

  function ChildId(k: nat): (id: TaskId)
    ensures |id| == k + 1 && id[0] == 'c'
  {
    seq(k + 1, _ => 'c')
  }

  function Parent(k: nat, status: Status): Task {
    Task(status, 5, None, true, {ChildId(k)})
  }

  /** An idle worker takes the only waiting id and starts the handler of its parent task. */
  lemma WorkerStarts(s0: State, s: State, w: nat, id: TaskId, task: Task)
    requires Leads(s0, s)
    requires w < |s.workers| && s.workers[w] == Idle && Serves(s.lists, 4) && s.lists[4] == [id]
    requires id in s.db && s.db[id] == task && task.hypervisor == None && task.status != Cancelled
    requires id !in s.locks && id !in s.cancels
    ensures Leads(s0, At(WithStatus(s, id, Running), w, Executing(id, task))
                      .(lists := s.lists[4 := []], locks := s.locks + {id}))
  {
    var base := s.(lists := s.lists[4 := []]);
    var held := base.(locks := s.locks + {id});
    PopOnly(s, w, id);
    LeadsOn(s0, s, Pop(w, 4), At(base, w, Pc.Popped(id)));
    AcquireFree(At(base, w, Pc.Popped(id)), w, id);
    assert At(At(base, w, Pc.Popped(id)), w, Holding(id)).(locks := s.locks + {id}) == At(held, w, Holding(id));
    LeadsOn(s0, At(base, w, Pc.Popped(id)), Acquire(w), At(held, w, Holding(id)));
    HolderGetsSlot(s0, held, w, id, task);
    HandlerStarts(s0, held, w, id, task);
    assert At(WithStatus(held, id, Running), w, Executing(id, task)) ==
           At(WithStatus(s, id, Running), w, Executing(id, task)).(lists := s.lists[4 := []], locks := s.locks + {id});
  }

  lemma HandlerStarts(s0: State, s: State, w: nat, id: TaskId, task: Task)
    requires w < |s.workers| && Leads(s0, At(s, w, Slotted(id, task))) && id in s.db
    ensures Leads(s0, At(WithStatus(s, id, Running), w, Executing(id, task)))
  {
    var slotted := At(s, w, Slotted(id, task));
    MarkStarted(slotted, w, id, task);
    AtTwice(WithStatus(s, id, Running), w, Slotted(id, task), Executing(id, task));
    LeadsOn(s0, slotted, MarkRunning(w), At(WithStatus(s, id, Running), w, Executing(id, task)));
  }

  /** Nothing is waiting or half done. */
  ghost predicate Quiet(s: State) {
    s.lists == Lists5([]) && s.marking == [] && s.cancels == {}
  }

  lemma OnlyEnqueued(s0: State, s: State, id: TaskId)
    requires Leads(s0, s) && Quiet(s) && id in s.db
    ensures Leads(s0, WithStatus(s, id, Queued).(lists := Lists5([id])))
  {
    var l := Lists5([]);
    assert [id] + l[4] == [id] && l[4 := [id]] == Lists5([id]);
    var pushed := s.(lists := Lists5([id]), marking := [id]);
    assert Apply(s, EnqueuePush(id, 5)) == pushed;
    LeadsOn(s0, s, EnqueuePush(id, 5), pushed);
    MarkFirst(pushed, id);
    LeadsOn(s0, pushed, EnqueueMark(0), WithStatus(s, id, Queued).(lists := Lists5([id])));
  }

  lemma MarkFirst(s: State, id: TaskId)
    requires s.marking == [id]
    ensures Enabled(s, EnqueueMark(0)) && Apply(s, EnqueueMark(0)) == WithStatus(s, id, Queued).(marking := [])
  {
    assert Remove([id], 0) == [];
  }

  /** The database with the k-th parent and its child. */
  function Family(db: map<TaskId, Task>, k: nat, status: Status): map<TaskId, Task> {
    db[ParentId(k) := Parent(k, status)][ChildId(k) := TASK]
  }

  lemma FamilyCreated(s0: State, s: State, k: nat)
    requires Leads(s0, s) && ParentId(k) !in s.db && ChildId(k) !in s.db
    ensures Leads(s0, s.(db := Family(s.db, k, Pending)))
  {
    var one := s.(db := s.db[ParentId(k) := Parent(k, Pending)]);
    assert Apply(s, Create(ParentId(k), Parent(k, Pending))) == one;
    LeadsOn(s0, s, Create(ParentId(k), Parent(k, Pending)), one);
    assert ParentId(k) != ChildId(k);
    assert Apply(one, Create(ChildId(k), TASK)) == s.(db := Family(s.db, k, Pending));
    LeadsOn(s0, one, Create(ChildId(k), TASK), s.(db := Family(s.db, k, Pending)));
  }

  lemma FamilyStatus(db: map<TaskId, Task>, k: nat, before: Status, after: Status)
    ensures SetStatus(Family(db, k, before), ParentId(k), after) == Family(db, k, after)
  {
    assert ParentId(k) != ChildId(k);
  }

  /** The state with one more family, whose parent's handler worker w is running. */
  function WithFamily(s: State, w: nat, k: nat): State
    requires w < |s.workers|
  {
    At(s, w, Executing(ParentId(k), Parent(k, Queued)))
    .(db := Family(s.db, k, Running), locks := s.locks + {ParentId(k)})
  }

  lemma ParentQueued(s0: State, s: State, k: nat)
    requires Leads(s0, s) && Quiet(s) && ParentId(k) !in s.db && ChildId(k) !in s.db
    ensures Leads(s0, OnlyParent(s, k))
  {
    FamilyCreated(s0, s, k);
    FamilyStatus(s.db, k, Pending, Queued);
    OnlyEnqueued(s0, s.(db := Family(s.db, k, Pending)), ParentId(k));
  }

  /** The state in which the k-th parent is the only waiting task. */
  function OnlyParent(s: State, k: nat): State {
    s.(db := Family(s.db, k, Queued), lists := Lists5([ParentId(k)]))
  }

  lemma ParentServed(s: State, k: nat)
    ensures var q, id := OnlyParent(s, k), ParentId(k);
            Serves(q.lists, 4) && q.lists[4] == [id] && id in q.db && q.db[id] == Parent(k, Queued)
  {
    assert ParentId(k) != ChildId(k);
  }

  lemma FamilyStarts(s0: State, s: State, w: nat, k: nat)
    requires Leads(s0, s) && Quiet(s) && w < |s.workers| && s.workers[w] == Idle
    requires ParentId(k) !in s.db && ChildId(k) !in s.db && ParentId(k) !in s.locks
    ensures Leads(s0, WithFamily(s, w, k))
  {
    ParentQueued(s0, s, k);
    ParentServed(s, k);
    WorkerStarts(s0, OnlyParent(s, k), w, ParentId(k), Parent(k, Queued));
    FamilyRuns(s, w, k);
  }

  lemma FamilyRuns(s: State, w: nat, k: nat)
    requires Quiet(s) && w < |s.workers|
    ensures var queued := OnlyParent(s, k);
            At(WithStatus(queued, ParentId(k), Running), w, Executing(ParentId(k), Parent(k, Queued)))
            .(lists := queued.lists[4 := []], locks := queued.locks + {ParentId(k)}) == WithFamily(s, w, k)
  {
    FamilyStatus(s.db, k, Queued, Running);
    assert Lists5([ParentId(k)])[4 := []] == Lists5([]);
  }

  /** The first k of n workers run handlers of parents, the others are idle. */
  ghost predicate CrowdAtWork(workers: seq<Pc>, n: nat, k: nat) {
    && k <= n == |workers|
    && (forall i :: 0 <= i < k ==> workers[i] == Executing(ParentId(i), Parent(i, Queued)))
    && (forall i :: k <= i < n ==> workers[i] == Idle)
  }

  /** The first k families exist, their children pending. */
  ghost predicate Families(db: map<TaskId, Task>, k: nat) {
    && (forall i :: 0 <= i < k ==> ChildId(i) in db && db[ChildId(i)] == TASK)
    && (forall id <- db :: |id| <= k)
    && |Parents(db)| == k
  }

  ghost predicate Crowded(s: State, n: nat, k: nat) {
    && CrowdAtWork(s.workers, n, k) && Families(s.db, k) && Quiet(s)
    && forall id <- s.locks :: |id| <= k
  }

  lemma OneMoreFamily(db: map<TaskId, Task>, k: nat)
    requires Families(db, k)
    ensures Families(Family(db, k, Running), k + 1)
  {
    var db' := Family(db, k, Running);
    assert ParentId(k) != ChildId(k) && ParentId(k) !in db && ChildId(k) !in db;
    assert Parents(db') == Parents(db) + {ParentId(k)};
    forall i | 0 <= i < k
      ensures db'[ChildId(i)] == TASK
    {
      assert ChildId(i) != ParentId(k);
    }
  }

  lemma OneMoreAtWork(s: State, n: nat, k: nat)
    requires Crowded(s, n, k) && k < n
    ensures Crowded(WithFamily(s, k, k), n, k + 1)
  {
    OneMoreFamily(s.db, k);
  }

  lemma CrowdGrows(s0: State, s: State, n: nat, k: nat) returns (t: State)
    requires Leads(s0, s) && Crowded(s, n, k) && k < n
    ensures Leads(s0, t) && Crowded(t, n, k + 1)
  {
    assert ParentId(k) !in s.db && ParentId(k) !in s.locks && ChildId(k) !in s.db;
    FamilyStarts(s0, s, k, k);
    OneMoreAtWork(s, n, k);
    t := WithFamily(s, k, k);
  }

  lemma {:induction false} CrowdReachable(n: nat, k: nat) returns (s: State)
    requires k <= n
    ensures Leads(Init(n), s) && Crowded(s, n, k)
  {
    if k == 0 {
      s := Init(n);
      LeadsHere(s);
      assert Parents(s.db) == {};
    } else {
      var t := CrowdReachable(n, k - 1);
      s := CrowdGrows(Init(n), t, n, k - 1);
    }
  }

  lemma CrowdStarves(s: State, n: nat)
    requires Crowded(s, n, n) && n > 0
    ensures Starved(s)
  {
    forall w: nat | WorkerAt(s, w)
      ensures Blocked(s, w)
    {
      assert s.workers[w] == Executing(ParentId(w), Parent(w, Queued));
      assert Unseen(s, w) == {ChildId(w)};
    }
  }

  ghost predicate Dispatched(s: State, id: TaskId) {
    id in s.db && s.db[id].status == Queued && InLists(s.lists, id)
  }

  /** A starved state reached from s0, with the tasks of s, in which `ids` are dispatched. */
  ghost predicate Goal(s0: State, s: State, t: State, ids: set<TaskId>) {
    && Leads(s0, t) && Starved(t) && t.marking == []
    && t.db.Keys == s.db.Keys && Parents(t.db) == Parents(s.db)
    && forall id <- ids :: Dispatched(t, id)
  }

  lemma PushKeepsStarved(s0: State, s: State, id: TaskId) returns (t: State)
    requires Leads(s0, s) && Starved(s)
    ensures Leads(s0, t) && Starved(t) && t.marking == s.marking + [id] && t.db == s.db && InLists(t.lists, id)
    ensures forall x :: InLists(s.lists, x) ==> InLists(t.lists, x)
  {
    t := Apply(s, EnqueuePush(id, 5));
    LeadsOn(s0, s, EnqueuePush(id, 5), t);
    StepKeepsStarved(s, EnqueuePush(id, 5));
    PushCovers(s.lists, id, 5, id);
  }

  lemma MarkKeepsStarved(s0: State, s: State, id: TaskId) returns (t: State)
    requires Leads(s0, s) && Starved(s) && s.marking == [id]
    ensures Leads(s0, t) && Starved(t) && t.marking == [] && t.db == SetStatus(s.db, id, Queued) && t.lists == s.lists
  {
    t := WithStatus(s, id, Queued).(marking := []);
    MarkFirst(s, id);
    LeadsOn(s0, s, EnqueueMark(0), t);
    StepKeepsStarved(s, EnqueueMark(0));
  }

  lemma StatusKeepsParents(db: map<TaskId, Task>, id: TaskId, status: Status)
    requires id in db
    ensures SetStatus(db, id, status).Keys == db.Keys && Parents(SetStatus(db, id, status)) == Parents(db)
  {
  }

  /** Enqueueing a task, whatever waits already. */
  lemma EnqueueKeepsStarved(s0: State, s: State, u: State, ids: set<TaskId>, id: TaskId) returns (t: State)
    requires Goal(s0, s, u, ids) && id in u.db
    ensures Goal(s0, s, t, ids + {id})
  {
    var pushed := PushKeepsStarved(s0, u, id);
    t := MarkKeepsStarved(s0, pushed, id);
    StatusKeepsParents(u.db, id, Queued);
    forall x | x in ids + {id}
      ensures Dispatched(t, x)
    {
      assert x in ids ==> Dispatched(u, x);
    }
  }

  function ChildIds(k: nat): set<TaskId> {
    if k == 0 then {} else ChildIds(k - 1) + {ChildId(k - 1)}
  }

  lemma {:induction false} ChildrenDispatched(s0: State, s: State, k: nat) returns (t: State)
    requires Leads(s0, s) && Starved(s) && s.marking == [] && ChildIds(k) <= s.db.Keys
    ensures Goal(s0, s, t, ChildIds(k))
  {
    if k == 0 {
      t := s;
    } else {
      var u := ChildrenDispatched(s0, s, k - 1);
      assert ChildId(k - 1) in u.db.Keys;
      t := EnqueueKeepsStarved(s0, s, u, ChildIds(k - 1), ChildId(k - 1));
    }
  }

  lemma {:induction false} ChildrenExist(db: map<TaskId, Task>, k: nat, n: nat)
    requires Families(db, n) && k <= n
    ensures ChildIds(k) <= db.Keys
    ensures forall i :: 0 <= i < k ==> ChildId(i) in ChildIds(k)
  {
    if k > 0 {
      ChildrenExist(db, k - 1, n);
    }
  }

  /** Every pool is starved by as many parents as it has workers, each with one child of its own:
      all children are Queued and in a list, and nobody will take them. */
  lemma EveryPoolCanStarve(n: nat) returns (s: State)
    requires n > 0
    ensures Leads(Init(n), s) && Starved(s) && |Parents(s.db)| == n
    ensures forall i :: 0 <= i < n ==> Dispatched(s, ChildId(i))
  {
    var full := CrowdReachable(n, n);
    CrowdStarves(full, n);
    ChildrenExist(full.db, n, n);
    s := ChildrenDispatched(Init(n), full, n);
  }
}
