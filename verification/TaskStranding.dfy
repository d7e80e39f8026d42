/** Stranded tasks: both ways to strand one do happen, and a stranded task that the poller does not
    know either is lost until somebody enqueues or cancels it from outside. */
module TaskStranding {
  import opened Wrappers
  import opened RedisQueue
  import opened TaskProtocol
  import opened TaskSafety

  // ---------------------------------------------------------------------------------------
  // Lost tasks
  // ---------------------------------------------------------------------------------------

  predicate Listed(entries: seq<Entry>, id: TaskId) {
    exists n :: 0 <= n < |entries| && entries[n].id == id
  }

  /** The poller has the id in hand or in its unread list. */
  predicate PollerKnows(p: PollerPc, id: TaskId) {
    !p.PollIdle? && (Listed(p.rest, id) || (!p.PollList? && p.cur.id == id))
  }

  /** Stranded, unknown to the poller, and with no enqueue or cancellation half done. */
  ghost predicate Lost(s: State, id: TaskId) {
    && Stranded(s, id) && !PollerKnows(s.poller, id)
    && id !in s.marking && id !in s.flagging && id !in s.cancelling
  }

  /** The calls from outside that could bring the task back. */
  predicate Rescues(a: Action, id: TaskId) {
    (a.EnqueuePush? || a.CancelCheck?) && a.id == id
  }

  lemma PopAddsNothing(lists: Lists, k: int, id: TaskId)
    requires Serves(lists, k) && !InLists(lists, id)
    ensures !InLists(PopFrom(lists, k), id) && id != RedisQueue.Popped(lists, k)
  {
    assert RedisQueue.Popped(lists, k) in lists[k];
  }

  lemma ListsStayWithout(s: State, a: Action, id: TaskId)
    requires Enabled(s, a) && !Rescues(a, id)
    requires !InLists(s.lists, id) && !InTimers(s.timers, id) && !PollerCarries(s.poller, id)
    ensures !InLists(NextLists(s, a), id)
  {
    match a
    case Pop(w, k) => PopAddsNothing(s.lists, k, id);
    case EnqueuePush(x, priority) => PushCovers(s.lists, x, priority, id);
    case TimerFires(n) => PushCovers(s.lists, s.timers[n].id, s.timers[n].priority, id);
    case PollPush => PushCovers(s.lists, s.poller.cur.id, s.poller.cur.priority, id);
    case _ =>
  }

  lemma TimersStayWithout(s: State, a: Action, id: TaskId)
    requires Enabled(s, a) && !InTimers(s.timers, id) && !WorkerCarries(s.workers, id)
    ensures !InTimers(NextTimers(s, a), id)
  {
    if a.ArmTimer? {
      assert CarryOf(s.workers[a.w]) != Some(id);
    }
  }

  lemma WorkerStaysWithout(s: State, a: Action, id: TaskId)
    requires Enabled(s, a) && WorkerOf(a).Some?
    requires !InLists(s.lists, id) && CarryOf(s.workers[WorkerOf(a).value]) != Some(id)
    ensures CarryOf(NextPc(s, a)) != Some(id)
  {
    if a.Pop? {
      PopAddsNothing(s.lists, a.k, id);
    }
  }

  lemma WorkersStayWithout(s: State, a: Action, id: TaskId)
    requires Enabled(s, a) && !InLists(s.lists, id) && !WorkerCarries(s.workers, id)
    ensures !WorkerCarries(Apply(s, a).workers, id)
  {
    if WorkerOf(a).Some? {
      assert CarryOf(s.workers[WorkerOf(a).value]) != Some(id);
      WorkerStaysWithout(s, a, id);
    }
  }

  lemma PollerStaysWithout(s: State, a: Action, id: TaskId)
    requires Enabled(s, a) && !PollerKnows(s.poller, id)
    requires id in s.db && s.db[id].status != Pending
    ensures !PollerKnows(NextPoller(s, a), id)
  {
    if a.PollFetch? {
      assert forall e <- a.tasks :: e.id != id;
    } else if a.PollSkip? || a.PollAcquire? {
      assert s.poller.rest[0].id != id;
    }
  }

  lemma StatusStays(s: State, a: Action, id: TaskId)
    requires Enabled(s, a) && id in s.db && !WorkerCarries(s.workers, id) && !PollerKnows(s.poller, id)
    requires id !in s.marking && id !in s.cancelling
    ensures id in NextDb(s, a) && NextDb(s, a)[id] == s.db[id]
  {
    if a.MarkRunning? || a.Finish? || a.WriteCancelled? {
      assert CarryOf(s.workers[a.w]) != Some(id);
    }
  }

  /** Without a call from outside nothing brings a lost task back, and its status stays. */
  lemma StepKeepsLost(s: State, a: Action, id: TaskId)
    requires Enabled(s, a) && Lost(s, id) && !Rescues(a, id)
    ensures Lost(Apply(s, a), id) && Apply(s, a).db[id] == s.db[id]
  {
    ListsStayWithout(s, a, id);
    TimersStayWithout(s, a, id);
    WorkersStayWithout(s, a, id);
    PollerStaysWithout(s, a, id);
    StatusStays(s, a, id);
  }

  /** Whatever the workers, the poller and the rest of the system do, a lost task stays as it is
      until it is enqueued or cancelled by a call naming it. */
  lemma {:induction false} LostForever(s: State, actions: seq<Action>, id: TaskId)
    requires Lost(s, id) && Runs(s, actions) && forall a <- actions :: !Rescues(a, id)
    ensures Lost(Exec(s, actions), id) && Exec(s, actions).db[id] == s.db[id]
    decreases |actions|
  {
    if actions != [] {
      var init := actions[..|actions| - 1];
      LostForever(s, init, id);
      StepKeepsLost(Exec(s, init), actions[|actions| - 1], id);
    }
  }

  // ---------------------------------------------------------------------------------------
  // Both kinds of stranding do happen
  // ---------------------------------------------------------------------------------------

  /** Some run leads from s to t. */
  ghost predicate Leads(s: State, t: State) {
    exists actions :: Runs(s, actions) && Exec(s, actions) == t
  }

  lemma LeadsHere(s: State)
    ensures Leads(s, s)
  {
    assert Runs(s, []) && Exec(s, []) == s;
  }

  lemma LeadsOn(s0: State, s: State, a: Action, t: State)
    requires Leads(s0, s) && Enabled(s, a) && Apply(s, a) == t
    ensures Leads(s0, t)
  {
    var actions :| Runs(s0, actions) && Exec(s0, actions) == s;
    var more := actions + [a];
    assert more[..|actions|] == actions;
    assert Runs(s0, more) && Exec(s0, more) == t;
  }

  /** The state with worker w moved to pc. */
  function At(s: State, w: nat, pc: Pc): State
    requires w < |s.workers|
  {
    s.(workers := s.workers[w := pc])
  }

  function WithStatus(s: State, id: TaskId, status: Status): State {
    s.(db := SetStatus(s.db, id, status))
  }

  lemma PopOnly(s: State, w: nat, id: TaskId)
    requires w < |s.workers| && s.workers[w] == Idle && Serves(s.lists, 4) && s.lists[4] == [id]
    ensures Enabled(s, Pop(w, 4))
    ensures Apply(s, Pop(w, 4)) == At(s, w, Pc.Popped(id)).(lists := s.lists[4 := []])
  {
  }

  lemma AcquireFree(s: State, w: nat, id: TaskId)
    requires w < |s.workers| && s.workers[w] == Pc.Popped(id) && id !in s.locks
    ensures Enabled(s, Acquire(w))
    ensures Apply(s, Acquire(w)) == At(s, w, Holding(id)).(locks := s.locks + {id})
  {
  }

  lemma LoadKnown(s: State, w: nat, id: TaskId)
    requires w < |s.workers| && s.workers[w] == Holding(id) && id in s.db
    ensures Enabled(s, Load(w)) && Apply(s, Load(w)) == At(s, w, Loaded(id, s.db[id]))
  {
  }

  lemma CheckClean(s: State, w: nat, id: TaskId, task: Task)
    requires w < |s.workers| && s.workers[w] == Loaded(id, task)
    requires task.status != Cancelled && id !in s.cancels
    ensures Enabled(s, CheckCancel(w)) && Apply(s, CheckCancel(w)) == At(s, w, Checked(id, task))
  {
  }

  lemma SlotFree(s: State, w: nat, id: TaskId, task: Task)
    requires w < |s.workers| && s.workers[w] == Checked(id, task) && task.hypervisor == None
    ensures Enabled(s, TakeSlot(w)) && Apply(s, TakeSlot(w)) == At(s, w, Slotted(id, task))
  {
  }

  lemma MarkStarted(s: State, w: nat, id: TaskId, task: Task)
    requires w < |s.workers| && s.workers[w] == Slotted(id, task) && id in s.db
    ensures Enabled(s, MarkRunning(w))
    ensures Apply(s, MarkRunning(w)) == At(WithStatus(s, id, Running), w, Executing(id, task))
  {
  }

  lemma FinishStarted(s: State, w: nat, id: TaskId, task: Task)
    requires w < |s.workers| && s.workers[w] == Slotted(id, task) && id in s.db && task.children == {}
    ensures var r := At(WithStatus(s, id, Running), w, Executing(id, task));
            && Enabled(r, Finish(w, Succeeds))
            && Apply(r, Finish(w, Succeeds)) == At(WithStatus(s, id, Completed), w, Finished(id, task.hypervisor))
  {
  }

  /** Idle worker w takes the only waiting id, runs its task to the end and writes Completed. */
  lemma WorkerCompletes(s0: State, s: State, w: nat, id: TaskId)
    requires Leads(s0, s)
    requires w < |s.workers| && s.workers[w] == Idle && Serves(s.lists, 4) && s.lists[4] == [id]
    requires id in s.db && s.db[id].hypervisor == None && s.db[id].status != Cancelled
    requires id !in s.locks && id !in s.cancels && s.db[id].children == {}
    ensures Leads(s0, At(WithStatus(s, id, Completed), w, Finished(id, None))
                      .(lists := s.lists[4 := []], locks := s.locks + {id}))
  {
    var task := s.db[id];
    var base := s.(lists := s.lists[4 := []]);
    var held := base.(locks := s.locks + {id});
    PopOnly(s, w, id);
    LeadsOn(s0, s, Pop(w, 4), At(base, w, Pc.Popped(id)));
    AcquireFree(At(base, w, Pc.Popped(id)), w, id);
    assert At(At(base, w, Pc.Popped(id)), w, Holding(id)).(locks := s.locks + {id}) == At(held, w, Holding(id));
    LeadsOn(s0, At(base, w, Pc.Popped(id)), Acquire(w), At(held, w, Holding(id)));
    HolderCompletes(s0, held, w, id, task);
    assert At(WithStatus(held, id, Completed), w, Finished(id, None)) ==
           At(WithStatus(s, id, Completed), w, Finished(id, None)).(lists := s.lists[4 := []], locks := s.locks + {id});
  }

  lemma HolderCompletes(s0: State, s: State, w: nat, id: TaskId, task: Task)
    requires w < |s.workers| && Leads(s0, At(s, w, Holding(id)))
    requires id in s.db && s.db[id] == task && task.hypervisor == None && task.status != Cancelled
    requires id !in s.cancels && task.children == {}
    ensures Leads(s0, At(WithStatus(s, id, Completed), w, Finished(id, None)))
  {
    HolderGetsSlot(s0, s, w, id, task);
    SlottedCompletes(s0, s, w, id, task);
  }

  lemma HolderGetsSlot(s0: State, s: State, w: nat, id: TaskId, task: Task)
    requires w < |s.workers| && Leads(s0, At(s, w, Holding(id)))
    requires id in s.db && s.db[id] == task && task.hypervisor == None && task.status != Cancelled
    requires id !in s.cancels
    ensures Leads(s0, At(s, w, Slotted(id, task)))
  {
    LoadKnown(At(s, w, Holding(id)), w, id);
    AtTwice(s, w, Holding(id), Loaded(id, task));
    LeadsOn(s0, At(s, w, Holding(id)), Load(w), At(s, w, Loaded(id, task)));
    CheckClean(At(s, w, Loaded(id, task)), w, id, task);
    AtTwice(s, w, Loaded(id, task), Checked(id, task));
    LeadsOn(s0, At(s, w, Loaded(id, task)), CheckCancel(w), At(s, w, Checked(id, task)));
    SlotFree(At(s, w, Checked(id, task)), w, id, task);
    AtTwice(s, w, Checked(id, task), Slotted(id, task));
    LeadsOn(s0, At(s, w, Checked(id, task)), TakeSlot(w), At(s, w, Slotted(id, task)));
  }

  lemma AtTwice(s: State, w: nat, p: Pc, q: Pc)
    requires w < |s.workers|
    ensures At(At(s, w, p), w, q) == At(s, w, q)
  {
  }

  lemma SlottedCompletes(s0: State, s: State, w: nat, id: TaskId, task: Task)
    requires w < |s.workers| && Leads(s0, At(s, w, Slotted(id, task)))
    requires id in s.db && task.hypervisor == None && task.children == {}
    ensures Leads(s0, At(WithStatus(s, id, Completed), w, Finished(id, None)))
  {
    var slotted := At(s, w, Slotted(id, task));
    var running := At(WithStatus(slotted, id, Running), w, Executing(id, task));
    MarkStarted(slotted, w, id, task);
    FinishStarted(slotted, w, id, task);
    LeadsOn(s0, slotted, MarkRunning(w), running);
    var end := At(WithStatus(slotted, id, Completed), w, Finished(id, None));
    LeadsOn(s0, running, Finish(w, Succeeds), end);
    AtTwice(WithStatus(s, id, Completed), w, Slotted(id, task), Finished(id, None));
  }

  const TASK: Task := Task(Pending, 5, None, false, {})

  function Lists5(ids: seq<TaskId>): Lists {
    [[], [], [], [], ids, [], [], [], [], []]
  }

  function Scene(status: Status, ids: seq<TaskId>, locks: set<TaskId>, workers: seq<Pc>, marking: seq<TaskId>): State {
    State(map["t" := TASK.(status := status)], Lists5(ids), [], locks, {}, map[], workers, PollIdle, marking, [], [])
  }

  lemma PushInScene(status: Status, locks: set<TaskId>, workers: seq<Pc>)
    ensures Apply(Scene(status, [], locks, workers, []), EnqueuePush("t", 5)) == Scene(status, ["t"], locks, workers, ["t"])
  {
    var l := Lists5([]);
    assert ["t"] + l[4] == ["t"];
    assert l[4 := ["t"]] == Lists5(["t"]);
  }

  lemma MarkInScene(status: Status, ids: seq<TaskId>, locks: set<TaskId>, workers: seq<Pc>)
    ensures var s := Scene(status, ids, locks, workers, ["t"]);
            Enabled(s, EnqueueMark(0)) && Apply(s, EnqueueMark(0)) == Scene(Queued, ids, locks, workers, [])
  {
    var s := Scene(status, ids, locks, workers, ["t"]);
    assert SetStatus(s.db, "t", Queued) == Scene(Queued, ids, locks, workers, []).db;
    assert Remove(s.marking, 0) == [];
  }

  /** Creating a task and pushing it, the mark still outstanding. */
  lemma CreateAndPush(n: nat)
    ensures Leads(Init(n), Scene(Pending, ["t"], {}, Init(n).workers, ["t"]))
  {
    var s0, ws := Init(n), Init(n).workers;
    CreateInScene(n);
    PushInScene(Pending, {}, ws);
    LeadsOn(s0, Scene(Pending, [], {}, ws, []), EnqueuePush("t", 5), Scene(Pending, ["t"], {}, ws, ["t"]));
  }

  lemma CompleteInScene(s0: State, status: Status, workers: seq<Pc>, marking: seq<TaskId>)
    requires workers != [] && workers[0] == Idle && status != Cancelled
    requires Leads(s0, Scene(status, ["t"], {}, workers, marking))
    ensures Leads(s0, Scene(Completed, [], {"t"}, workers[0 := Finished("t", None)], marking))
  {
    WorkerCompletes(s0, Scene(status, ["t"], {}, workers, marking), 0, "t");
    SceneCompleted(status, workers, marking);
  }

  lemma SceneCompleted(status: Status, workers: seq<Pc>, marking: seq<TaskId>)
    requires workers != []
    ensures var s := Scene(status, ["t"], {}, workers, marking);
            At(WithStatus(s, "t", Completed), 0, Finished("t", None))
            .(lists := s.lists[4 := []], locks := s.locks + {"t"}) ==
            Scene(Completed, [], {"t"}, workers[0 := Finished("t", None)], marking)
  {
    var s := Scene(status, ["t"], {}, workers, marking);
    assert SetStatus(s.db, "t", Completed) == map["t" := TASK.(status := Completed)];
    assert s.lists[4 := []] == Lists5([]);
  }

  lemma NobodyCarries(status: Status, locks: set<TaskId>, workers: seq<Pc>, marking: seq<TaskId>)
    requires Live(status) && forall i :: 0 <= i < |workers| ==> CarryOf(workers[i]) != Some("t")
    ensures Stranded(Scene(status, [], locks, workers, marking), "t")
    ensures marking == [] ==> Lost(Scene(status, [], locks, workers, marking), "t")
  {
  }

  /** The finished worker gives up its (empty) slot and its lock. */
  lemma WrapUp(s0: State, status: Status, workers: seq<Pc>, marking: seq<TaskId>)
    requires workers != [] && workers[0] == Finished("t", None)
    requires Leads(s0, Scene(status, [], {"t"}, workers, marking))
    ensures Leads(s0, Scene(status, [], {}, workers[0 := Idle], marking))
  {
    var s := Scene(status, [], {"t"}, workers, marking);
    var u := Scene(status, [], {"t"}, workers[0 := Unlocking("t")], marking);
    var v := Scene(status, [], {}, workers[0 := Idle], marking);
    assert Apply(s, ReleaseSlot(0)) == u;
    LeadsOn(s0, s, ReleaseSlot(0), u);
    UnlockStep(status, workers, marking);
    LeadsOn(s0, u, Unlock(0), v);
  }

  lemma UnlockStep(status: Status, workers: seq<Pc>, marking: seq<TaskId>)
    requires workers != []
    ensures var u := Scene(status, [], {"t"}, workers[0 := Unlocking("t")], marking);
            Enabled(u, Unlock(0)) && Apply(u, Unlock(0)) == Scene(status, [], {}, workers[0 := Idle], marking)
  {
    assert workers[0 := Unlocking("t")][0 := Idle] == workers[0 := Idle];
    assert {"t"} - {"t"} == {};
  }

  /** With the push and the "Queued" write as separate steps, a task can complete in between and
      then be marked Queued with every worker idle and every list empty. */
  lemma LateMarkStrandsATask() returns (s: State)
    ensures Leads(Init(1), s) && Lost(s, "t") && s.workers == [Idle] && s.locks == {}
  {
    var s0 := Init(1);
    CreateAndPush(1);
    CompleteInScene(s0, Pending, s0.workers, ["t"]);
    WrapUp(s0, Completed, s0.workers[0 := Finished("t", None)], ["t"]);
    assert s0.workers[0 := Finished("t", None)][0 := Idle] == [Idle];
    MarkInScene(Completed, [], {}, [Idle]);
    s := Scene(Queued, [], {}, [Idle], []);
    LeadsOn(s0, Scene(Completed, [], {}, [Idle], ["t"]), EnqueueMark(0), s);
    NobodyCarries(Queued, {}, [Idle], []);
  }

  /** Even with push and mark together: the poller enqueues a task that was just created, and the
      creator's own enqueue comes while the worker is between writing Completed and releasing the
      lock. The worker that pops the second copy drops it, and the task ends up Queued with every
      worker idle and every list empty. */
  lemma LateDropStrandsATask() returns (s: State)
    ensures Leads(Init(2), s) && Lost(s, "t") && s.workers == [Idle, Idle] && s.locks == {}
  {
    DropBeforeRelease();
    WrapUp(Init(2), Queued, [Finished("t", None), Idle], []);
    assert [Finished("t", None), Idle][0 := Idle] == [Idle, Idle];
    s := Scene(Queued, [], {}, [Idle, Idle], []);
    NobodyCarries(Queued, {}, [Idle, Idle], []);
  }

  lemma DropBeforeRelease()
    ensures Leads(Init(2), Scene(Queued, [], {"t"}, [Finished("t", None), Idle], []))
  {
    var s0 := Init(2);
    var ws := [Finished("t", None), Idle];
    PollerEnqueues(2);
    CompleteInScene(s0, Queued, s0.workers, []);
    assert s0.workers[0 := Finished("t", None)] == ws;
    CreatorEnqueues(s0, ws);
    DropInScene(s0, ws);
  }

  /** The scene seen while the poller works on the task. */
  function Polled(status: Status, ids: seq<TaskId>, locks: set<TaskId>, workers: seq<Pc>, poller: PollerPc): State {
    Scene(status, ids, locks, workers, []).(poller := poller)
  }

  lemma CreateInScene(n: nat)
    ensures Leads(Init(n), Scene(Pending, [], {}, Init(n).workers, []))
  {
    var s0, ws := Init(n), Init(n).workers;
    LeadsHere(s0);
    assert Apply(s0, Create("t", TASK)) == Scene(Pending, [], {}, ws, []);
    LeadsOn(s0, s0, Create("t", TASK), Scene(Pending, [], {}, ws, []));
  }

  lemma PollerLocks(workers: seq<Pc>)
    ensures var fetched := Polled(Pending, [], {}, workers, PollList([Entry(5, "t")]));
            && Enabled(fetched, PollAcquire)
            && Apply(fetched, PollAcquire) == Polled(Pending, [], {"t"}, workers, PollHolding(Entry(5, "t"), []))
  {
    assert [Entry(5, "t")][1..] == [];
    assert {} + {"t"} == {"t"};
  }

  lemma PollerUnlocks(workers: seq<Pc>)
    ensures var holding := Polled(Pending, [], {"t"}, workers, PollHolding(Entry(5, "t"), []));
            && Enabled(holding, PollRelease)
            && Apply(holding, PollRelease) == Polled(Pending, [], {}, workers, PollReleased(Entry(5, "t"), []))
  {
    assert {"t"} - {"t"} == {};
  }

  /** The poller finds the pending task and takes and gives back its lock. */
  lemma PollerFinds(n: nat)
    ensures Leads(Init(n), Polled(Pending, [], {}, Init(n).workers, PollReleased(Entry(5, "t"), [])))
  {
    var s0, ws, entry := Init(n), Init(n).workers, Entry(5, "t");
    CreateInScene(n);
    var fetched := Polled(Pending, [], {}, ws, PollList([entry]));
    LeadsOn(s0, Scene(Pending, [], {}, ws, []), PollFetch([entry]), fetched);
    var holding := Polled(Pending, [], {"t"}, ws, PollHolding(entry, []));
    PollerLocks(ws);
    LeadsOn(s0, fetched, PollAcquire, holding);
    PollerUnlocks(ws);
    LeadsOn(s0, holding, PollRelease, Polled(Pending, [], {}, ws, PollReleased(entry, [])));
  }

  lemma PollerPushes(workers: seq<Pc>)
    ensures var released := Polled(Pending, [], {}, workers, PollReleased(Entry(5, "t"), []));
            Enabled(released, PollPush) && Apply(released, PollPush) == Polled(Pending, ["t"], {}, workers, PollPushed(Entry(5, "t"), []))
  {
    PushInScene(Pending, {}, workers);
  }

  lemma PollerMarks(workers: seq<Pc>)
    ensures var pushed := Polled(Pending, ["t"], {}, workers, PollPushed(Entry(5, "t"), []));
            Enabled(pushed, PollMark) && Apply(pushed, PollMark) == Polled(Queued, ["t"], {}, workers, PollList([]))
  {
    MarkInScene(Pending, ["t"], {}, workers);
  }

  /** The poller enqueues the new task before its creator does. */
  lemma PollerEnqueues(n: nat)
    ensures Leads(Init(n), Scene(Queued, ["t"], {}, Init(n).workers, []))
  {
    var s0, ws, entry := Init(n), Init(n).workers, Entry(5, "t");
    PollerFinds(n);
    PollerPushes(ws);
    PollerMarks(ws);
    PollerStops(ws);
    var released := Polled(Pending, [], {}, ws, PollReleased(entry, []));
    var pushed := Polled(Pending, ["t"], {}, ws, PollPushed(entry, []));
    var marked := Polled(Queued, ["t"], {}, ws, PollList([]));
    LeadsOn(s0, released, PollPush, pushed);
    LeadsOn(s0, pushed, PollMark, marked);
    LeadsOn(s0, marked, PollDone, Scene(Queued, ["t"], {}, ws, []));
  }

  lemma PollerStops(workers: seq<Pc>)
    ensures var marked := Polled(Queued, ["t"], {}, workers, PollList([]));
            Enabled(marked, PollDone) && Apply(marked, PollDone) == Scene(Queued, ["t"], {}, workers, [])
  {
  }

  lemma CreatorEnqueues(s0: State, ws: seq<Pc>)
    requires Leads(s0, Scene(Completed, [], {"t"}, ws, []))
    ensures Leads(s0, Scene(Queued, ["t"], {"t"}, ws, []))
  {
    PushInScene(Completed, {"t"}, ws);
    LeadsOn(s0, Scene(Completed, [], {"t"}, ws, []), EnqueuePush("t", 5), Scene(Completed, ["t"], {"t"}, ws, ["t"]));
    MarkInScene(Completed, ["t"], {"t"}, ws);
    LeadsOn(s0, Scene(Completed, ["t"], {"t"}, ws, ["t"]), EnqueueMark(0), Scene(Queued, ["t"], {"t"}, ws, []));
  }

  lemma DropInScene(s0: State, workers: seq<Pc>)
    requires |workers| == 2 && workers[1] == Idle
    requires Leads(s0, Scene(Queued, ["t"], {"t"}, workers, []))
    ensures Leads(s0, Scene(Queued, [], {"t"}, workers, []))
  {
    var s := Scene(Queued, ["t"], {"t"}, workers, []);
    var p := Scene(Queued, [], {"t"}, workers[1 := Pc.Popped("t")], []);
    PopOnly(s, 1, "t");
    assert s.lists[4 := []] == Lists5([]);
    LeadsOn(s0, s, Pop(1, 4), p);
    DropStep(workers);
    LeadsOn(s0, p, Drop(1), Scene(Queued, [], {"t"}, workers, []));
  }

  lemma DropStep(workers: seq<Pc>)
    requires |workers| == 2 && workers[1] == Idle
    ensures var p := Scene(Queued, [], {"t"}, workers[1 := Pc.Popped("t")], []);
            Enabled(p, Drop(1)) && Apply(p, Drop(1)) == Scene(Queued, [], {"t"}, workers, [])
  {
    assert workers[1 := Pc.Popped("t")][1 := Idle] == workers;
  }
}
