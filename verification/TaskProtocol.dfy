/** The task engine as interleaved atomic steps of N workers, the database poller, enqueuers,
    cancellers and retry timers over the Redis lists and the task table. */
module TaskProtocol {
  import opened Wrappers
  import opened RedisQueue

  type Hypervisor = string

  /** Slots per hypervisor. */
  const MAX_SLOTS: nat := 3

  datatype Status = Pending | Queued | Running | Completed | Failed | Cancelled | Retrying | TimedOut

  predicate Terminal(s: Status) {
    s.Completed? || s.Failed? || s.Cancelled? || s.TimedOut?
  }

  /** Neither finished nor visible to the poller: somebody has to have the task in hand. */
  predicate Live(s: Status) {
    s.Queued? || s.Running? || s.Retrying?
  }

  /** `waits` marks the bulk-parent and environment tasks, whose handlers wait for `children`. */
  datatype Task = Task(
    status: Status, priority: int, hypervisor: Option<Hypervisor>, waits: bool, children: set<TaskId>)

  /** Where a worker is in processTask. The children of an executing task's copy are those its
      handler has not seen finished yet. */
  datatype Pc =
    | Idle
    | Popped(id: TaskId)
    | Holding(id: TaskId)
    | Loaded(id: TaskId, task: Task)
    | CancelSeen(id: TaskId)
    | Checked(id: TaskId, task: Task)
    | Slotted(id: TaskId, task: Task)
    | Executing(id: TaskId, task: Task)
    | ArmingTimer(id: TaskId, task: Task)
    | ClearingCancel(id: TaskId, slot: Option<Hypervisor>)
    | Finished(id: TaskId, slot: Option<Hypervisor>)
    | Unlocking(id: TaskId)

  /** Where the poller is in rehydrateFromDB; `rest` is the unread part of its possibly stale list. */
  datatype PollerPc =
    | PollIdle
    | PollList(rest: seq<Entry>)
    | PollHolding(cur: Entry, rest: seq<Entry>)
    | PollReleased(cur: Entry, rest: seq<Entry>)
    | PollPushed(cur: Entry, rest: seq<Entry>)

  datatype State = State(
    db: map<TaskId, Task>,
    lists: Lists,
    timers: seq<Entry>,
    locks: set<TaskId>,
    cancels: set<TaskId>,
    slots: map<Hypervisor, nat>,
    workers: seq<Pc>,
    poller: PollerPc,
    marking: seq<TaskId>,
    flagging: seq<TaskId>,
    cancelling: seq<TaskId>)

  datatype Result = Succeeds | Fails | IsCancelledInside | WillRetry

  datatype Action =
    // outside the engine
    | Create(id: TaskId, task: Task)
    | EnqueuePush(id: TaskId, priority: int)
    | EnqueueMark(n: nat)
    | CancelCheck(id: TaskId)
    | CancelFlag(n: nat)
    | CancelWrite(n: nat)
    | CancelExpires(id: TaskId)
    | TimerFires(n: nat)
    // worker w
    | Pop(w: nat, k: int)
    | Drop(w: nat)
    | Acquire(w: nat)
    | Load(w: nat)
    | CheckCancel(w: nat)
    | WriteCancelled(w: nat)
    | TakeSlot(w: nat)
    | MarkRunning(w: nat)
    | Observe(w: nat, child: TaskId)
    | Abandon(w: nat, child: TaskId)
    | Finish(w: nat, result: Result)
    | ArmTimer(w: nat)
    | ClearCancel(w: nat)
    | ReleaseSlot(w: nat)
    | Unlock(w: nat)
    // poller
    | PollFetch(tasks: seq<Entry>)
    | PollSkip
    | PollAcquire
    | PollRelease
    | PollPush
    | PollMark
    | PollDone

  function Init(workers: nat): State {
    State(map[], [[], [], [], [], [], [], [], [], [], []], [], {}, {}, map[], seq(workers, _ => Idle), PollIdle, [], [], [])
  }

  function SetStatus(db: map<TaskId, Task>, id: TaskId, s: Status): map<TaskId, Task> {
    if id in db then db[id := db[id].(status := s)] else db
  }

  function Occupancy(s: State, h: Hypervisor): nat {
    if h in s.slots then s.slots[h] else 0
  }

  function Remove<T>(s: seq<T>, n: nat): seq<T>
    requires n < |s|
  {
    s[..n] + s[n + 1..]
  }

  predicate WorkerAt(s: State, w: nat) {
    w < |s.workers|
  }

  /** The existing children the handler of an executing task has not seen finished. */
  function Unseen(s: State, w: nat): set<TaskId>
    requires WorkerAt(s, w) && s.workers[w].Executing?
  {
    s.workers[w].task.children * s.db.Keys
  }

  predicate Enabled(s: State, a: Action) {
    match a
    case Create(id, task) => 
      id !in s.db && task.status == Pending && (task.waits ==> task.hypervisor.None?) && (task.children != {} ==> task.waits)
    case EnqueuePush(_, _) => true
    case EnqueueMark(n) => n < |s.marking|
    case CancelCheck(id) =>
      id in s.db && !(s.db[id].status.Completed? || s.db[id].status.Failed? || s.db[id].status.Cancelled?)
    case CancelFlag(n) => n < |s.flagging|
    case CancelWrite(n) => n < |s.cancelling|
    case CancelExpires(_) => true
    case TimerFires(n) => n < |s.timers|
    case Pop(w, k) => WorkerAt(s, w) && s.workers[w].Idle? && Serves(s.lists, k)
    case Drop(w) => WorkerAt(s, w) && s.workers[w].Popped? && s.workers[w].id in s.locks
    case Acquire(w) => WorkerAt(s, w) && s.workers[w].Popped? && s.workers[w].id !in s.locks
    case Load(w) => WorkerAt(s, w) && s.workers[w].Holding?
    case CheckCancel(w) => WorkerAt(s, w) && s.workers[w].Loaded?
    case WriteCancelled(w) => WorkerAt(s, w) && s.workers[w].CancelSeen?
    case TakeSlot(w) =>
      WorkerAt(s, w) && s.workers[w].Checked?
      && (s.workers[w].task.hypervisor.Some? ==> Occupancy(s, s.workers[w].task.hypervisor.value) < MAX_SLOTS)
    case MarkRunning(w) => WorkerAt(s, w) && s.workers[w].Slotted?
    case Observe(w, child) =>
      WorkerAt(s, w) && s.workers[w].Executing? && child in s.workers[w].task.children
      && child in s.db && Terminal(s.db[child].status)
    case Abandon(w, child) => WorkerAt(s, w) && s.workers[w].Executing? && child in s.workers[w].task.children
    case Finish(w, result) =>
      WorkerAt(s, w) && s.workers[w].Executing? && (result.Succeeds? ==> Unseen(s, w) == {})
    case ArmTimer(w) => WorkerAt(s, w) && s.workers[w].ArmingTimer?
    case ClearCancel(w) => WorkerAt(s, w) && s.workers[w].ClearingCancel?
    case ReleaseSlot(w) =>
      WorkerAt(s, w) && s.workers[w].Finished?
      && (s.workers[w].slot.Some? ==> Occupancy(s, s.workers[w].slot.value) > 0)
    case Unlock(w) => WorkerAt(s, w) && s.workers[w].Unlocking?
    case PollFetch(tasks) =>
      s.poller.PollIdle? && forall e <- tasks :: e.id in s.db && s.db[e.id].status == Pending
    case PollSkip => s.poller.PollList? && s.poller.rest != [] && s.poller.rest[0].id in s.locks
    case PollAcquire => s.poller.PollList? && s.poller.rest != [] && s.poller.rest[0].id !in s.locks
    case PollRelease => s.poller.PollHolding?
    case PollPush => s.poller.PollReleased?
    case PollMark => s.poller.PollPushed?
    case PollDone => s.poller.PollList? && s.poller.rest == []
  }

  /** The database status after a step. */
  function NextDb(s: State, a: Action): map<TaskId, Task>
    requires Enabled(s, a)
  {
    match a
    case Create(id, task) => s.db[id := task]
    case EnqueueMark(n) => SetStatus(s.db, s.marking[n], Queued)
    case CancelWrite(n) => SetStatus(s.db, s.cancelling[n], Cancelled)
    case WriteCancelled(w) => SetStatus(s.db, s.workers[w].id, Cancelled)
    case MarkRunning(w) => SetStatus(s.db, s.workers[w].id, Running)
    case Finish(w, result) =>
      SetStatus(s.db, s.workers[w].id,
                match result
                case Succeeds => Completed
                case Fails => Failed
                case IsCancelledInside => Cancelled
                case WillRetry => Retrying)
    case PollMark => SetStatus(s.db, s.poller.cur.id, Queued)
    case _ => s.db
  }

  function NextLists(s: State, a: Action): Lists
    requires Enabled(s, a)
  {
    match a
    case EnqueuePush(id, priority) => Push(s.lists, id, priority)
    case TimerFires(n) => Push(s.lists, s.timers[n].id, s.timers[n].priority)
    case Pop(w, k) => PopFrom(s.lists, k)
    case PollPush => Push(s.lists, s.poller.cur.id, s.poller.cur.priority)
    case _ => s.lists
  }

  function NextTimers(s: State, a: Action): seq<Entry>
    requires Enabled(s, a)
  {
    match a
    case TimerFires(n) => Remove(s.timers, n)
    case ArmTimer(w) => s.timers + [Entry(s.workers[w].task.priority, s.workers[w].id)]
    case _ => s.timers
  }

  function NextLocks(s: State, a: Action): set<TaskId>
    requires Enabled(s, a)
  {
    match a
    case Acquire(w) => s.locks + {s.workers[w].id}
    case Unlock(w) => s.locks - {s.workers[w].id}
    case PollAcquire => s.locks + {s.poller.rest[0].id}
    case PollRelease => s.locks - {s.poller.cur.id}
    case _ => s.locks
  }

  function NextCancels(s: State, a: Action): set<TaskId>
    requires Enabled(s, a)
  {
    match a
    case CancelFlag(n) => s.cancels + {s.flagging[n]}
    case CancelExpires(id) => s.cancels - {id}
    case ClearCancel(w) => s.cancels - {s.workers[w].id}
    case _ => s.cancels
  }

  function NextSlots(s: State, a: Action): map<Hypervisor, nat>
    requires Enabled(s, a)
  {
    match a
    case TakeSlot(w) =>
      (match s.workers[w].task.hypervisor
       case None => s.slots
       case Some(h) => s.slots[h := Occupancy(s, h) + 1])
    case ReleaseSlot(w) =>
      (match s.workers[w].slot
       case None => s.slots
       case Some(h) => s.slots[h := Occupancy(s, h) - 1])
    case _ => s.slots
  }

  /** The worker a step belongs to. */
  function WorkerOf(a: Action): Option<nat> {
    match a
    case Pop(w, _) => Some(w)
    case Drop(w) => Some(w)
    case Acquire(w) => Some(w)
    case Load(w) => Some(w)
    case CheckCancel(w) => Some(w)
    case WriteCancelled(w) => Some(w)
    case TakeSlot(w) => Some(w)
    case MarkRunning(w) => Some(w)
    case Observe(w, _) => Some(w)
    case Abandon(w, _) => Some(w)
    case Finish(w, _) => Some(w)
    case ArmTimer(w) => Some(w)
    case ClearCancel(w) => Some(w)
    case ReleaseSlot(w) => Some(w)
    case Unlock(w) => Some(w)
    case _ => None
  }

  /** Where worker w is after its step. */
  function NextPc(s: State, a: Action): Pc
    requires Enabled(s, a) && WorkerOf(a).Some?
  {
    var pc := s.workers[WorkerOf(a).value];
    match a
    case Pop(_, k) => Pc.Popped(RedisQueue.Popped(s.lists, k))
    case Drop(_) => Idle
    case Acquire(_) => Holding(pc.id)
    case Load(_) => if pc.id in s.db then Loaded(pc.id, s.db[pc.id]) else Unlocking(pc.id)
    case CheckCancel(_) =>
      if pc.task.status == Cancelled || pc.id in s.cancels then CancelSeen(pc.id) else Checked(pc.id, pc.task)
    case WriteCancelled(_) => ClearingCancel(pc.id, None)
    case TakeSlot(_) => Slotted(pc.id, pc.task)
    case MarkRunning(_) => Executing(pc.id, pc.task)
    case Observe(_, child) => Executing(pc.id, pc.task.(children := pc.task.children - {child}))
    case Abandon(_, child) => Executing(pc.id, pc.task.(children := pc.task.children - {child}))
    case Finish(_, result) =>
      (match result
       case Succeeds => Finished(pc.id, pc.task.hypervisor)
       case Fails => Finished(pc.id, pc.task.hypervisor)
       case IsCancelledInside => ClearingCancel(pc.id, pc.task.hypervisor)
       case WillRetry => ArmingTimer(pc.id, pc.task))
    case ArmTimer(_) => Finished(pc.id, pc.task.hypervisor)
    case ClearCancel(_) => Finished(pc.id, pc.slot)
    case ReleaseSlot(_) => Unlocking(pc.id)
    case Unlock(_) => Idle
  }

  function NextPoller(s: State, a: Action): PollerPc
    requires Enabled(s, a)
  {
    match a
    case PollFetch(tasks) => PollList(tasks)
    case PollSkip => PollList(s.poller.rest[1..])
    case PollAcquire => PollHolding(s.poller.rest[0], s.poller.rest[1..])
    case PollRelease => PollReleased(s.poller.cur, s.poller.rest)
    case PollPush => PollPushed(s.poller.cur, s.poller.rest)
    case PollMark => PollList(s.poller.rest)
    case PollDone => PollIdle
    case _ => s.poller
  }

  function Apply(s: State, a: Action): State
    requires Enabled(s, a)
  {
    State(
      NextDb(s, a), NextLists(s, a), NextTimers(s, a), NextLocks(s, a), NextCancels(s, a), NextSlots(s, a),
      if WorkerOf(a).Some? then s.workers[WorkerOf(a).value := NextPc(s, a)] else s.workers,
      NextPoller(s, a),
      if a.EnqueuePush? then s.marking + [a.id] else if a.EnqueueMark? then Remove(s.marking, a.n) else s.marking,
      if a.CancelCheck? then s.flagging + [a.id] else if a.CancelFlag? then Remove(s.flagging, a.n) else s.flagging,
      if a.CancelFlag? then s.cancelling + [s.flagging[a.n]]
      else if a.CancelWrite? then Remove(s.cancelling, a.n) else s.cancelling)
  }

  /** A run: every action enabled when its turn comes. */
  predicate Runs(s: State, actions: seq<Action>)
    decreases |actions|, 0
  {
    actions == [] || (Runs(s, actions[..|actions| - 1])
                      && Enabled(Exec(s, actions[..|actions| - 1]), actions[|actions| - 1]))
  }

  function Exec(s: State, actions: seq<Action>): State
    requires Runs(s, actions)
    decreases |actions|, 1
  {
    if actions == [] then s
    else Apply(Exec(s, actions[..|actions| - 1]), actions[|actions| - 1])
  }
}
