/** What processTask does step by step, what it writes, and what a cancellation prevents. */
module TaskCancellation {
  import opened Wrappers
  import opened RedisQueue
  import opened TaskProtocol
  import opened TaskSafety

  // ---------------------------------------------------------------------------------------
  // The program of a worker
  // ---------------------------------------------------------------------------------------

  /** Which step of processTask comes directly after which. */
  predicate MayFollow(a: Action, b: Action) {
    match a
    case Pop(_, _) => b.Drop? || b.Acquire?
    case Drop(_) => b.Pop?
    case Acquire(_) => b.Load?
    case Load(_) => b.CheckCancel? || b.Unlock?
    case CheckCancel(_) => b.WriteCancelled? || b.TakeSlot?
    case WriteCancelled(_) => b.ClearCancel?
    case TakeSlot(_) => b.MarkRunning?
    case MarkRunning(_) => b.Observe? || b.Abandon? || b.Finish?
    case Observe(_, _) => b.Observe? || b.Abandon? || b.Finish?
    case Abandon(_, _) => b.Observe? || b.Abandon? || b.Finish?
    case Finish(_, result) =>
      (match result
       case Succeeds => b.ReleaseSlot?
       case Fails => b.ReleaseSlot?
       case IsCancelledInside => b.ClearCancel?
       case WillRetry => b.ArmTimer?)
    case ArmTimer(_) => b.ReleaseSlot?
    case ClearCancel(_) => b.ReleaseSlot?
    case ReleaseSlot(_) => b.Unlock?
    case Unlock(_) => b.Pop?
    case _ => false
  }

  /** The last step of worker w in a run. */
  function LastOwn(actions: seq<Action>, w: nat): Option<Action> {
    if actions == [] then None
    else if WorkerOf(actions[|actions| - 1]) == Some(w) then Some(actions[|actions| - 1])
    else LastOwn(actions[..|actions| - 1], w)
  }

  /** The place of processTask a step belongs to. */
  predicate Fits(pc: Pc, b: Action) {
    match pc
    case Idle => b.Pop?
    case Popped(_) => b.Drop? || b.Acquire?
    case Holding(_) => b.Load?
    case Loaded(_, _) => b.CheckCancel?
    case CancelSeen(_) => b.WriteCancelled?
    case Checked(_, _) => b.TakeSlot?
    case Slotted(_, _) => b.MarkRunning?
    case Executing(_, _) => b.Observe? || b.Abandon? || b.Finish?
    case ArmingTimer(_, _) => b.ArmTimer?
    case ClearingCancel(_, _) => b.ClearCancel?
    case Finished(_, _) => b.ReleaseSlot?
    case Unlocking(_) => b.Unlock?
  }

  /** Whatever the worker can do at pc is a successor of its last step. */
  ghost predicate Continues(last: Option<Action>, pc: Pc) {
    forall b :: Fits(pc, b) ==>
      match last
      case None => b.Pop?
      case Some(a) => MayFollow(a, b)
  }

  lemma OwnStepFits(s: State, b: Action, w: nat)
    requires Enabled(s, b) && WorkerOf(b) == Some(w)
    ensures Fits(s.workers[w], b)
  {
  }

  lemma OwnStepContinues(s: State, a: Action, w: nat)
    requires Enabled(s, a) && WorkerOf(a) == Some(w)
    ensures Continues(Some(a), Apply(s, a).workers[w])
  {
  }

  lemma {:induction false} PlacesFollow(n: nat, actions: seq<Action>, w: nat)
    requires Runs(Init(n), actions) && w < n
    ensures var s := Exec(Init(n), actions); |s.workers| == n && Continues(LastOwn(actions, w), s.workers[w])
  {
    if actions != [] {
      var init, a := actions[..|actions| - 1], actions[|actions| - 1];
      PlacesFollow(n, init, w);
      if WorkerOf(a) == Some(w) {
        OwnStepContinues(Exec(Init(n), init), a, w);
      }
    }
  }

  /** In every run each worker goes through processTask in its order: it starts with a pop, and
      every later step of its own is one that may follow the previous one. */
  lemma WorkerProgram(n: nat, actions: seq<Action>, b: Action, w: nat)
    requires Runs(Init(n), actions) && Enabled(Exec(Init(n), actions), b) && WorkerOf(b) == Some(w)
    ensures match LastOwn(actions, w)
            case None => b.Pop?
            case Some(a) => MayFollow(a, b)
  {
    var s := Exec(Init(n), actions);
    WorkersKept(n, actions);
    PlacesFollow(n, actions, w);
    OwnStepFits(s, b, w);
  }

  /** From its pop to its release a worker keeps to one task. */
  lemma OneTaskAtATime(s: State, a: Action, w: nat)
    requires Enabled(s, a) && WorkerAt(s, w) && !s.workers[w].Idle? && !Apply(s, a).workers[w].Idle?
    ensures Apply(s, a).workers[w].id == s.workers[w].id
  {
  }

  /** The poller goes through its list: it passes over a task exactly when its lock is held, and
      otherwise takes the lock, gives it back, pushes the id and marks the task. */
  lemma PollerProgram(s: State, a: Action)
    requires WorkerOf(a).None?
    ensures match s.poller
            case PollIdle => !(a.PollSkip? || a.PollAcquire? || a.PollRelease? || a.PollPush? || a.PollMark? || a.PollDone?)
                             || !Enabled(s, a)
            case PollList(rest) =>
              && (a.PollDone? ==> (Enabled(s, a) <==> rest == []))
              && (a.PollSkip? ==> (Enabled(s, a) <==> rest != [] && rest[0].id in s.locks))
              && (a.PollAcquire? ==> (Enabled(s, a) <==> rest != [] && rest[0].id !in s.locks))
            case PollHolding(_, _) => a.PollRelease? ==> Enabled(s, a)
            case PollReleased(_, _) => a.PollPush? ==> Enabled(s, a)
            case PollPushed(_, _) => a.PollMark? ==> Enabled(s, a)
  {
  }

  /** What may happen at any time: pushes, marks of pushed ids, cancellations of tasks that have not
      ended, expiring flags, timers going off, and handlers giving up on a child. */
  lemma OutsideSteps(s: State)
    ensures forall id, priority :: Enabled(s, EnqueuePush(id, priority))
    ensures forall n: nat :: n < |s.marking| ==> Enabled(s, EnqueueMark(n))
    ensures forall id <- s.db :: Enabled(s, CancelCheck(id)) <==>
              s.db[id].status !in {Status.Completed, Status.Failed, Status.Cancelled}
    ensures forall n: nat :: n < |s.flagging| ==> Enabled(s, CancelFlag(n))
    ensures forall n: nat :: n < |s.cancelling| ==> Enabled(s, CancelWrite(n))
    ensures forall id :: Enabled(s, CancelExpires(id))
    ensures forall n: nat :: n < |s.timers| ==> Enabled(s, TimerFires(n))
    ensures forall w: nat, c :: WorkerAt(s, w) && s.workers[w].Executing? && c in s.workers[w].task.children ==>
              Enabled(s, Abandon(w, c))
  {
  }

  // ---------------------------------------------------------------------------------------
  // What is written
  // ---------------------------------------------------------------------------------------

  /** The status a step writes for a task, if it writes one. */
  ghost predicate Writes(s: State, a: Action, id: TaskId, status: Status)
    requires Enabled(s, a)
  {
    match status
    case Pending => a.Create? && a.id == id
    case Queued => (a.EnqueueMark? && s.marking[a.n] == id) || (a.PollMark? && s.poller.cur.id == id)
    case Running => a.MarkRunning? && s.workers[a.w].id == id
    case Completed => a.Finish? && a.result == Succeeds && s.workers[a.w].id == id
    case Failed => a.Finish? && a.result == Fails && s.workers[a.w].id == id
    case Retrying => a.Finish? && a.result == WillRetry && s.workers[a.w].id == id
    case Cancelled =>
      || (a.Finish? && a.result == IsCancelledInside && s.workers[a.w].id == id)
      || (a.WriteCancelled? && s.workers[a.w].id == id)
      || (a.CancelWrite? && s.cancelling[a.n] == id)
    case TimedOut => false
  }

  /** A task has the status of the last write for it: each handler result is recorded as such, a
      start as Running, an enqueue as Queued, and a cancellation as Cancelled. */
  lemma WriteIsStored(s: State, a: Action, id: TaskId, status: Status)
    requires Enabled(s, a) && id in Apply(s, a).db && Writes(s, a, id, status)
    ensures Apply(s, a).db[id].status == status
  {
    assert Apply(s, a).db == NextDb(s, a);
  }

  /** And nothing else changes a task. */
  lemma OnlyWritesChange(s: State, a: Action, id: TaskId)
    requires Enabled(s, a) && id in s.db
    ensures id in Apply(s, a).db
    ensures Apply(s, a).db[id] == s.db[id] || Writes(s, a, id, Apply(s, a).db[id].status)
  {
    assert Apply(s, a).db == NextDb(s, a);
  }

  /** The entry a step pushes: as called, as the timer held it, or as the poller read it. */
  function PushedBy(s: State, a: Action): Option<Entry>
    requires Enabled(s, a)
  {
    match a
    case EnqueuePush(id, priority) => Some(Entry(priority, id))
    case TimerFires(n) => Some(s.timers[n])
    case PollPush => Some(s.poller.cur)
    case _ => None
  }

  /** A pushed id comes first in the list of its own priority and nowhere else; a popped one was last
      in the best list; no other step touches the lists. */
  lemma ListsChange(s: State, a: Action, k: nat)
    requires Enabled(s, a) && k < 10
    ensures Apply(s, a).lists[k] ==
            if PushedBy(s, a).Some? && Clamp(PushedBy(s, a).value.priority) == k + 1
            then [PushedBy(s, a).value.id] + s.lists[k]
            else if a.Pop? && a.k == k then s.lists[k][..|s.lists[k]| - 1]
            else s.lists[k]
    ensures a.Pop? && a.k == k ==>
              s.lists[k] == Apply(s, a).lists[k] + [Apply(s, a).workers[a.w].id] && forall j :: 0 <= j < k ==> s.lists[j] == []
  {
  }

  /** A worker loads the task as it is stored; a new task is stored as it is created. */
  lemma LoadsWhatIsStored(s: State, a: Action)
    requires Enabled(s, a)
    ensures a.Load? && s.workers[a.w].id in s.db ==>
              Apply(s, a).workers[a.w] == Loaded(s.workers[a.w].id, s.db[s.workers[a.w].id])
    ensures a.Create? ==> a.id in Apply(s, a).db && Apply(s, a).db[a.id] == a.task
  {
  }

  /** A retry comes back with the task's own priority: from the worker into a timer, and from the
      timer into the list of that priority. */
  lemma RetryKeepsPriority(s: State, w: nat)
    requires Enabled(s, ArmTimer(w))
    ensures Apply(s, ArmTimer(w)).timers == s.timers + [Entry(s.workers[w].task.priority, s.workers[w].id)]
  {
  }

  // ---------------------------------------------------------------------------------------
  // Cancelled tasks are not executed
  // ---------------------------------------------------------------------------------------

  /** Past the check before execution. */
  predicate Started(pc: Pc) {
    pc.Checked? || pc.Slotted? || pc.Executing? || pc.ArmingTimer?
  }

  ghost predicate NotStarted(s: State, id: TaskId) {
    forall i :: 0 <= i < |s.workers| && Started(s.workers[i]) ==> s.workers[i].id != id
  }

  /** No worker is past the check with a copy that says Cancelled. */
  ghost predicate CopiesLive(s: State) {
    forall i :: 0 <= i < |s.workers| && Started(s.workers[i]) ==> s.workers[i].task.status != Cancelled
  }

  lemma {:induction false} CancelledCopiesStop(n: nat, actions: seq<Action>)
    requires Runs(Init(n), actions)
    ensures CopiesLive(Exec(Init(n), actions))
  {
    if actions != [] {
      var init, a := actions[..|actions| - 1], actions[|actions| - 1];
      CancelledCopiesStop(n, init);
      StepKeepsCopiesLive(Exec(Init(n), init), a);
    }
  }

  lemma StepKeepsCopiesLive(s: State, a: Action)
    requires Enabled(s, a) && CopiesLive(s)
    ensures CopiesLive(Apply(s, a))
  {
    if WorkerOf(a).Some? {
      var pc := NextPc(s, a);
      assert Started(pc) ==> pc.task.status != Cancelled;
    }
  }

  /** The check lets a task through exactly when neither its copy nor its flag says cancelled. */
  lemma CheckPassesIff(s: State, w: nat)
    requires Enabled(s, CheckCancel(w))
    ensures Started(Apply(s, CheckCancel(w)).workers[w]) <==>
            s.workers[w].task.status != Cancelled && s.workers[w].id !in s.cancels
  {
  }

  ghost predicate ClearingWritten(s: State, id: TaskId)
    requires id in s.db
  {
    forall i :: 0 <= i < |s.workers| && s.workers[i].ClearingCancel? && s.workers[i].id == id ==>
      s.db[id].status == Cancelled
  }

  /** A cancellation that nobody past the check escapes: the flag is set, or the database and every
      loaded copy say Cancelled. A worker about to clear the flag has written Cancelled. */
  ghost predicate Doomed(s: State, id: TaskId) {
    && NotStarted(s, id) && id in s.db
    && ClearingWritten(s, id)
    && (id in s.cancels
        || (s.db[id].status == Cancelled
            && forall i :: 0 <= i < |s.workers| && s.workers[i].Loaded? && s.workers[i].id == id ==>
                 s.workers[i].task.status == Cancelled))
  }

  /** The step undoes the cancellation: it writes Queued for the task or lets the flag expire. */
  ghost predicate Undoes(s: State, a: Action, id: TaskId)
    requires Enabled(s, a)
  {
    Writes(s, a, id, Queued) || a == CancelExpires(id)
  }

  lemma StepKeepsNotStarted(s: State, a: Action, id: TaskId)
    requires Enabled(s, a) && Doomed(s, id)
    ensures NotStarted(Apply(s, a), id)
  {
    if WorkerOf(a).Some? {
      var pc := NextPc(s, a);
      assert Started(pc) ==> pc.id != id;
    }
  }

  lemma StepKeepsCancelled(s: State, a: Action, id: TaskId)
    requires Enabled(s, a) && Doomed(s, id) && !Undoes(s, a, id)
    ensures id in Apply(s, a).db
    ensures s.db[id].status == Cancelled ==> Apply(s, a).db[id].status == Cancelled
  {
    if a.MarkRunning? || a.Finish? {
      assert s.workers[a.w].id != id;
    }
  }

  lemma StepKeepsClearing(s: State, a: Action, id: TaskId)
    requires Enabled(s, a) && Doomed(s, id) && !Undoes(s, a, id)
    ensures id in Apply(s, a).db && ClearingWritten(Apply(s, a), id)
  {
    StepKeepsCancelled(s, a, id);
    var t := Apply(s, a);
    forall i | 0 <= i < |t.workers| && t.workers[i].ClearingCancel? && t.workers[i].id == id
      ensures t.db[id].status == Cancelled
    {
      if WorkerOf(a) == Some(i) {
        assert a.WriteCancelled? || (a.Finish? && s.workers[i].Executing?);
      } else {
        assert t.workers[i] == s.workers[i];
      }
    }
  }

  lemma StepKeepsReason(s: State, a: Action, id: TaskId)
    requires Enabled(s, a) && Doomed(s, id) && !Undoes(s, a, id) && LockInv(s)
    ensures var t := Apply(s, a);
            || id in t.cancels
            || (id in t.db && t.db[id].status == Cancelled
                && forall i :: 0 <= i < |t.workers| && t.workers[i].Loaded? && t.workers[i].id == id ==>
                     t.workers[i].task.status == Cancelled)
  {
    StepKeepsCancelled(s, a, id);
    var t := Apply(s, a);
    if id !in t.cancels {
      if id in s.cancels {
        assert a.ClearCancel? && s.workers[a.w].id == id;
        assert s.db[id].status == Cancelled;
      }
      forall i | 0 <= i < |t.workers| && t.workers[i].Loaded? && t.workers[i].id == id
        ensures t.workers[i].task.status == Cancelled
      {
        if WorkerOf(a) == Some(i) {
          assert a.Load?;
        } else {
          assert t.workers[i] == s.workers[i] && LockOf(s.workers[i]) == Some(id);
        }
      }
    }
  }

  lemma StepKeepsDoomed(s: State, a: Action, id: TaskId)
    requires Enabled(s, a) && Doomed(s, id) && !Undoes(s, a, id) && LockInv(s)
    ensures Doomed(Apply(s, a), id)
  {
    StepKeepsNotStarted(s, a, id);
    StepKeepsCancelled(s, a, id);
    StepKeepsClearing(s, a, id);
    StepKeepsReason(s, a, id);
  }

  /** No step of the run undoes the cancellation. */
  ghost predicate LeftAlone(s: State, actions: seq<Action>, id: TaskId)
    requires Runs(s, actions)
    decreases |actions|
  {
    actions == [] ||
    var init, a := actions[..|actions| - 1], actions[|actions| - 1];
    LeftAlone(s, init, id) && !Undoes(Exec(s, init), a, id)
  }

  /** A task cancelled before any worker passed its check is never executed, however often its id is
      queued, until somebody writes Queued for it or its flag expires. */
  lemma {:induction false} CancelledNeverExecuted(s: State, actions: seq<Action>, id: TaskId)
    requires LockInv(s) && Doomed(s, id) && Runs(s, actions) && LeftAlone(s, actions, id)
    ensures var t := Exec(s, actions);
            && LockInv(t) && Doomed(t, id)
            && (forall i :: 0 <= i < |t.workers| && t.workers[i].Executing? ==> t.workers[i].id != id)
    decreases |actions|
  {
    if actions != [] {
      var init, a := actions[..|actions| - 1], actions[|actions| - 1];
      CancelledNeverExecuted(s, init, id);
      StepKeepsLocks(Exec(s, init), a);
      StepKeepsDoomed(Exec(s, init), a, id);
    }
  }

  /** The service's flag dooms a task that no worker has started or is just clearing. */
  lemma FlagDooms(s: State, n: nat)
    requires Enabled(s, CancelFlag(n)) && s.flagging[n] in s.db && NotStarted(s, s.flagging[n])
    requires forall i :: 0 <= i < |s.workers| && s.workers[i].ClearingCancel? ==> s.workers[i].id != s.flagging[n]
    ensures Doomed(Apply(s, CancelFlag(n)), s.flagging[n])
  {
    var t := Apply(s, CancelFlag(n));
    assert t.workers == s.workers && t.db == s.db;
  }

  /** A flag stands from the service's call until it expires or the worker that acknowledged the
      cancellation clears it. */
  lemma FlagStandsUntil(s: State, a: Action, id: TaskId)
    requires Enabled(s, a)
    ensures id in Apply(s, a).cancels <==>
            || (a.CancelFlag? && s.flagging[a.n] == id)
            || (id in s.cancels && a != CancelExpires(id) && !(a.ClearCancel? && s.workers[a.w].id == id))
  {
  }

  /** A worker that saw the cancellation next writes Cancelled for its task. */
  lemma SeenIsWritten(s: State, a: Action, w: nat)
    requires Enabled(s, a) && WorkerOf(a) == Some(w) && s.workers[w].CancelSeen?
    requires s.workers[w].id in s.db
    ensures Writes(s, a, s.workers[w].id, Cancelled) && Apply(s, a).db[s.workers[w].id].status == Cancelled
  {
  }
}
