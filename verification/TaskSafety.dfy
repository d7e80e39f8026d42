/** Safety of the task protocol over all interleavings: mutual exclusion per task, slot
    conservation, and exactly when a task can be stranded. */
module TaskSafety {
  import opened Wrappers
  import opened RedisQueue
  import opened TaskProtocol

  // ---------------------------------------------------------------------------------------
  // What a program counter stands for
  // ---------------------------------------------------------------------------------------

  /** The task whose lock the worker holds: from a successful SETNX to the deferred release. */
  function LockOf(pc: Pc): Option<TaskId> {
    if pc.Idle? || pc.Popped? then None else Some(pc.id)
  }

  /** The task the worker will still write a status for (or push again). */
  function CarryOf(pc: Pc): Option<TaskId> {
    if pc.Idle? || pc.ClearingCancel? || pc.Finished? || pc.Unlocking? then None else Some(pc.id)
  }

  /** The hypervisor whose slot the worker occupies. */
  function SlotOf(pc: Pc): Option<Hypervisor> {
    match pc
    case Slotted(_, t) => t.hypervisor
    case Executing(_, t) => t.hypervisor
    case ArmingTimer(_, t) => t.hypervisor
    case ClearingCancel(_, slot) => slot
    case Finished(_, slot) => slot
    case _ => None
  }

  function PollerLock(p: PollerPc): Option<TaskId> {
    if p.PollHolding? then Some(p.cur.id) else None
  }

  // ---------------------------------------------------------------------------------------
  // Mutual exclusion
  // ---------------------------------------------------------------------------------------

  /** Every held lock has exactly one holder among workers and poller. */
  ghost predicate LockInv(s: State) {
    && (forall i :: 0 <= i < |s.workers| && LockOf(s.workers[i]).Some? ==>
          LockOf(s.workers[i]).value in s.locks && PollerLock(s.poller) != LockOf(s.workers[i]))
    && (forall i, j :: 0 <= i < j < |s.workers| && LockOf(s.workers[i]).Some? ==>
          LockOf(s.workers[i]) != LockOf(s.workers[j]))
    && (PollerLock(s.poller).Some? ==> PollerLock(s.poller).value in s.locks)
    && (forall id <- s.locks :: Held(s, id))
  }

  ghost predicate Held(s: State, id: TaskId) {
    PollerLock(s.poller) == Some(id) || exists i :: 0 <= i < |s.workers| && LockOf(s.workers[i]) == Some(id)
  }

  lemma HeldFrame(s: State, t: State, id: TaskId, w: nat)
    requires Held(s, id)
    requires |t.workers| == |s.workers|
    requires forall i :: 0 <= i < |s.workers| && i != w ==> t.workers[i] == s.workers[i]
    requires w < |s.workers| ==> LockOf(t.workers[w]) == LockOf(s.workers[w]) || LockOf(s.workers[w]) != Some(id)
    requires PollerLock(t.poller) == PollerLock(s.poller)
    ensures Held(t, id)
  {
    if PollerLock(s.poller) != Some(id) {
      var i :| 0 <= i < |s.workers| && LockOf(s.workers[i]) == Some(id);
      assert LockOf(t.workers[i]) == Some(id);
    }
  }

  /** Steps that touch no lock. */
  lemma LocksUntouched(s: State, a: Action)
    requires Enabled(s, a)
    requires !a.Acquire? && !a.Unlock? && !a.PollAcquire? && !a.PollRelease?
    ensures Apply(s, a).locks == s.locks
    ensures PollerLock(Apply(s, a).poller) == PollerLock(s.poller)
    ensures WorkerOf(a).Some? ==> LockOf(NextPc(s, a)) == LockOf(s.workers[WorkerOf(a).value])
  {
  }

  lemma LockFrame(s: State, a: Action)
    requires Enabled(s, a) && LockInv(s)
    requires !a.Acquire? && !a.Unlock? && !a.PollAcquire? && !a.PollRelease?
    ensures LockInv(Apply(s, a))
  {
    var t := Apply(s, a);
    LocksUntouched(s, a);
    LockInvFrame(s, t, if WorkerOf(a).Some? then WorkerOf(a).value else |s.workers|);
  }

  lemma LockInvFrame(s: State, t: State, w: nat)
    requires LockInv(s)
    requires t.locks == s.locks && PollerLock(t.poller) == PollerLock(s.poller)
    requires |t.workers| == |s.workers|
    requires forall i :: 0 <= i < |s.workers| && i != w ==> t.workers[i] == s.workers[i]
    requires w < |s.workers| ==> LockOf(t.workers[w]) == LockOf(s.workers[w])
    ensures LockInv(t)
  {
    assert forall i :: 0 <= i < |s.workers| ==> LockOf(t.workers[i]) == LockOf(s.workers[i]);
    forall id | id in t.locks
      ensures Held(t, id)
    {
      HeldFrame(s, t, id, w);
    }
  }

  lemma AcquireKeepsLocks(s: State, w: nat)
    requires Enabled(s, Acquire(w)) && LockInv(s)
    ensures LockInv(Apply(s, Acquire(w)))
  {
    var t := Apply(s, Acquire(w));
    var x := s.workers[w].id;
    assert t.workers == s.workers[w := Holding(x)];
    assert LockOf(t.workers[w]) == Some(x);
    forall id | id in t.locks
      ensures Held(t, id)
    {
      if id != x {
        HeldFrame(s, t, id, w);
      }
    }
  }

  lemma UnlockKeepsLocks(s: State, w: nat)
    requires Enabled(s, Unlock(w)) && LockInv(s)
    ensures LockInv(Apply(s, Unlock(w)))
  {
    var t := Apply(s, Unlock(w));
    var x := s.workers[w].id;
    assert t.workers == s.workers[w := Idle];
    forall id | id in t.locks
      ensures Held(t, id)
    {
      HeldFrame(s, t, id, w);
    }
    assert forall i :: 0 <= i < |s.workers| && i != w ==> LockOf(s.workers[i]) != LockOf(s.workers[w]);
  }

  lemma PollerKeepsLocks(s: State, a: Action)
    requires a.PollAcquire? || a.PollRelease?
    requires Enabled(s, a) && LockInv(s)
    ensures LockInv(Apply(s, a))
  {
    var t := Apply(s, a);
    assert t.workers == s.workers;
    forall id | id in t.locks
      ensures Held(t, id)
    {
      if id in s.locks && PollerLock(s.poller) != Some(id) {
        assert Held(s, id);
        var i :| 0 <= i < |s.workers| && LockOf(s.workers[i]) == Some(id);
        assert LockOf(t.workers[i]) == Some(id);
      }
    }
  }

  lemma StepKeepsLocks(s: State, a: Action)
    requires Enabled(s, a) && LockInv(s)
    ensures LockInv(Apply(s, a))
  {
    if a.Acquire? {
      AcquireKeepsLocks(s, a.w);
    } else if a.Unlock? {
      UnlockKeepsLocks(s, a.w);
    } else if a.PollAcquire? || a.PollRelease? {
      PollerKeepsLocks(s, a);
    } else {
      LockFrame(s, a);
    }
  }

  /** From acquiring a task's lock to releasing it, a worker is alone with the task: no other
      worker and not the poller is between acquire and release of the same lock. */
  ghost predicate MutualExclusion(s: State) {
    && (forall i, j :: 0 <= i < j < |s.workers| && LockOf(s.workers[i]).Some? ==>
          LockOf(s.workers[i]) != LockOf(s.workers[j]))
    && (forall i :: 0 <= i < |s.workers| && LockOf(s.workers[i]).Some? ==>
          LockOf(s.workers[i]) != PollerLock(s.poller))
  }

  /** No two handlers run the same task. */
  ghost predicate HandlersApart(s: State) {
    forall i, j :: 0 <= i < j < |s.workers| && s.workers[i].Executing? && s.workers[j].Executing? ==>
      s.workers[i].id != s.workers[j].id
  }

  // ---------------------------------------------------------------------------------------
  // Slots
  // ---------------------------------------------------------------------------------------

  ghost function SlotHolders(workers: seq<Pc>, h: Hypervisor): set<int> {
    set i | 0 <= i < |workers| && SlotOf(workers[i]) == Some(h)
  }

  /** Occupancy is the number of workers holding the slot, and never exceeds the maximum. */
  ghost predicate SlotInv(s: State) {
    forall h :: Occupancy(s, h) == |SlotHolders(s.workers, h)| && Occupancy(s, h) <= MAX_SLOTS
  }

  lemma SlotFrame(s: State, a: Action)
    requires Enabled(s, a) && SlotInv(s)
    requires !a.TakeSlot? && !a.ReleaseSlot?
    ensures SlotInv(Apply(s, a))
  {
    var t := Apply(s, a);
    assert t.slots == s.slots;
    forall i | 0 <= i < |s.workers|
      ensures SlotOf(t.workers[i]) == SlotOf(s.workers[i])
    {
      assert WorkerOf(a) != Some(i) ==> t.workers[i] == s.workers[i];
    }
    forall h
      ensures Occupancy(t, h) == |SlotHolders(t.workers, h)| && Occupancy(t, h) <= MAX_SLOTS
    {
      assert SlotHolders(t.workers, h) == SlotHolders(s.workers, h);
      assert Occupancy(t, h) == Occupancy(s, h);
    }
  }

  lemma TakeSlotCounts(s: State, w: nat)
    requires Enabled(s, TakeSlot(w)) && SlotInv(s)
    ensures SlotInv(Apply(s, TakeSlot(w)))
  {
    var t := Apply(s, TakeSlot(w));
    var pc := s.workers[w];
    assert t.workers == s.workers[w := Slotted(pc.id, pc.task)];
    forall h
      ensures Occupancy(t, h) == |SlotHolders(t.workers, h)| && Occupancy(t, h) <= MAX_SLOTS
    {
      SlotChange(s.workers, w, Slotted(pc.id, pc.task), h);
      assert Occupancy(s, h) == |SlotHolders(s.workers, h)|;
    }
  }

  lemma ReleaseSlotCounts(s: State, w: nat)
    requires Enabled(s, ReleaseSlot(w)) && SlotInv(s)
    ensures SlotInv(Apply(s, ReleaseSlot(w)))
  {
    var t := Apply(s, ReleaseSlot(w));
    var pc := s.workers[w];
    assert t.workers == s.workers[w := Unlocking(pc.id)];
    forall h
      ensures Occupancy(t, h) == |SlotHolders(t.workers, h)| && Occupancy(t, h) <= MAX_SLOTS
    {
      SlotChange(s.workers, w, Unlocking(pc.id), h);
      assert Occupancy(s, h) == |SlotHolders(s.workers, h)|;
    }
  }

  /** How one worker's move changes the number of holders of a slot. */
  lemma SlotChange(workers: seq<Pc>, w: nat, pc: Pc, h: Hypervisor)
    requires w < |workers|
    ensures |SlotHolders(workers[w := pc], h)| ==
            |SlotHolders(workers, h)| + (if SlotOf(pc) == Some(h) then 1 else 0)
                                      - (if SlotOf(workers[w]) == Some(h) then 1 else 0)
  {
    var before, after := SlotHolders(workers, h), SlotHolders(workers[w := pc], h);
    assert after - {w} == before - {w};
    assert |before| == |before - {w}| + if w in before then 1 else 0;
    assert |after| == |after - {w}| + if w in after then 1 else 0;
  }

  lemma StepKeepsSlots(s: State, a: Action)
    requires Enabled(s, a) && SlotInv(s)
    ensures SlotInv(Apply(s, a))
  {
    if a.TakeSlot? {
      TakeSlotCounts(s, a.w);
    } else if a.ReleaseSlot? {
      ReleaseSlotCounts(s, a.w);
    } else {
      SlotFrame(s, a);
    }
  }

  predicate HasCopy(pc: Pc) {
    pc.Loaded? || pc.Checked? || pc.Slotted? || pc.Executing? || pc.ArmingTimer?
  }

  /** Tasks whose handlers wait for other tasks carry no hypervisor, nor do their loaded copies, and
      only they have children. */
  ghost predicate WaitInv(s: State) {
    && (forall id <- s.db ::
          (s.db[id].waits ==> s.db[id].hypervisor.None?) && (s.db[id].children != {} ==> s.db[id].waits))
    && (forall i :: 0 <= i < |s.workers| && HasCopy(s.workers[i]) ==>
          (s.workers[i].task.waits ==> s.workers[i].task.hypervisor.None?)
          && (s.workers[i].task.children != {} ==> s.workers[i].task.waits)
          && s.workers[i].id in s.db && s.db[s.workers[i].id].waits == s.workers[i].task.waits)
  }

  lemma StepKeepsKinds(s: State, a: Action, id: TaskId)
    requires Enabled(s, a) && id in Apply(s, a).db
    ensures id in s.db ==> Apply(s, a).db[id] == s.db[id].(status := Apply(s, a).db[id].status)
    ensures id !in s.db ==> a.Create? && Apply(s, a).db[id] == a.task
  {
  }

  lemma CopyFromDbOrBefore(s: State, a: Action)
    requires Enabled(s, a) && WorkerOf(a).Some? && HasCopy(NextPc(s, a))
    ensures var pc := s.workers[WorkerOf(a).value];
            || (HasCopy(pc) && NextPc(s, a).id == pc.id && NextPc(s, a).task.children <= pc.task.children
                && NextPc(s, a).task == pc.task.(children := NextPc(s, a).task.children))
            || (NextPc(s, a).id in s.db && NextPc(s, a).task == s.db[NextPc(s, a).id])
  {
  }

  lemma StepKeepsWaits(s: State, a: Action)
    requires Enabled(s, a) && WaitInv(s)
    ensures WaitInv(Apply(s, a))
  {
    var t := Apply(s, a);
    forall id | id in t.db
      ensures (t.db[id].waits ==> t.db[id].hypervisor.None?) && (t.db[id].children != {} ==> t.db[id].waits)
      ensures id in s.db ==> t.db[id].waits == s.db[id].waits
    {
      StepKeepsKinds(s, a, id);
    }
    assert forall id <- s.db :: id in t.db;
    if WorkerOf(a).Some? && HasCopy(NextPc(s, a)) {
      CopyFromDbOrBefore(s, a);
    }
  }

  /** No worker occupies a slot while its handler waits for another task. */
  ghost predicate NoWaitingSlotHolder(s: State) {
    forall i :: 0 <= i < |s.workers| && SlotOf(s.workers[i]).Some? && s.workers[i].Executing? ==>
      !s.workers[i].task.waits
  }

  // ---------------------------------------------------------------------------------------
  // Stranded tasks
  // ---------------------------------------------------------------------------------------

  predicate InTimers(timers: seq<Entry>, id: TaskId) {
    exists n :: 0 <= n < |timers| && timers[n].id == id
  }

  predicate PollerCarries(p: PollerPc, id: TaskId) {
    (p.PollHolding? || p.PollReleased?) && p.cur.id == id
  }

  predicate WorkerCarries(workers: seq<Pc>, id: TaskId) {
    exists i :: 0 <= i < |workers| && CarryOf(workers[i]) == Some(id)
  }

  /** The id is in a list, a timer, the poller's current step or the hands of a worker that will
      still settle it. */
  predicate Covered(s: State, id: TaskId) {
    InLists(s.lists, id) || InTimers(s.timers, id) || PollerCarries(s.poller, id) || WorkerCarries(s.workers, id)
  }

  /** The task is neither finished nor pending, and no list, timer, worker or current poller step
      has its id. Only a stale entry the poller has not read yet could still bring it back. */
  predicate Stranded(s: State, id: TaskId) {
    id in s.db && Live(s.db[id].status) && !Covered(s, id)
  }

  ghost predicate NoneStranded(s: State) {
    forall id <- s.db :: !Stranded(s, id)
  }

  /** The steps that strand a task: a "Queued" written when the id is already gone from every
      hand, or a worker that drops the last copy because the lock holder, past its own final
      status write, has not released yet. */
  predicate Strands(s: State, a: Action)
    requires Enabled(s, a)
  {
    match a
    case EnqueueMark(n) => s.marking[n] in s.db && !Covered(s, s.marking[n])
    case PollMark => s.poller.cur.id in s.db && !Covered(s, s.poller.cur.id)
    case Drop(w) =>
      var id := s.workers[w].id;
      id in s.db && Live(s.db[id].status) && !Covered(s.(workers := s.workers[w := Idle]), id)
    case _ => false
  }

  lemma PushCovers(lists: Lists, x: TaskId, priority: int, id: TaskId)
    ensures InLists(Push(lists, x, priority), id) <==> InLists(lists, id) || id == x
  {
    var k := Clamp(priority) - 1;
    var lists' := Push(lists, x, priority);
    assert lists'[k] == [x] + lists[k];
    if InLists(lists, id) {
      var j :| 0 <= j < 10 && id in lists[j];
      assert id in lists'[j];
    }
    assert x in lists'[k];
  }

  lemma PopUncoversOnlyPopped(lists: Lists, k: int, id: TaskId)
    requires Serves(lists, k) && InLists(lists, id) && id != RedisQueue.Popped(lists, k)
    ensures InLists(PopFrom(lists, k), id)
  {
    var j :| 0 <= j < 10 && id in lists[j];
    assert lists[k] == lists[k][..|lists[k]| - 1] + [RedisQueue.Popped(lists, k)];
    assert id in PopFrom(lists, k)[j];
  }

  lemma CarryFrame(s: seq<Pc>, t: seq<Pc>, w: nat, id: TaskId)
    requires |s| == |t| && (forall i :: 0 <= i < |s| && i != w ==> s[i] == t[i])
    requires w < |s| ==> CarryOf(t[w]) == CarryOf(s[w]) || CarryOf(s[w]) != Some(id)
    requires WorkerCarries(s, id)
    ensures WorkerCarries(t, id)
  {
    var i :| 0 <= i < |s| && CarryOf(s[i]) == Some(id);
    assert CarryOf(t[i]) == Some(id);
  }

  /** The carrier may let go of a task only by writing a final status, or of an unknown id. */
  predicate LetsGo(s: State, a: Action, id: TaskId)
    requires Enabled(s, a)
  {
    || (a.Finish? && !a.result.WillRetry? && s.workers[a.w].id == id)
    || (a.WriteCancelled? && s.workers[a.w].id == id)
    || (a.Load? && s.workers[a.w].id == id && id !in s.db)
  }

  lemma ListCoverStays(s: State, a: Action, id: TaskId)
    requires Enabled(s, a) && InLists(s.lists, id)
    ensures Covered(Apply(s, a), id)
  {
    var t := Apply(s, a);
    if a.Pop? {
      if id == RedisQueue.Popped(s.lists, a.k) {
        assert CarryOf(t.workers[a.w]) == Some(id);
      } else {
        PopUncoversOnlyPopped(s.lists, a.k, id);
      }
    } else if a.EnqueuePush? {
      PushCovers(s.lists, a.id, a.priority, id);
    } else if a.TimerFires? {
      PushCovers(s.lists, s.timers[a.n].id, s.timers[a.n].priority, id);
    } else if a.PollPush? {
      PushCovers(s.lists, s.poller.cur.id, s.poller.cur.priority, id);
    }
  }

  lemma TimerCoverStays(s: State, a: Action, id: TaskId)
    requires Enabled(s, a) && InTimers(s.timers, id)
    ensures Covered(Apply(s, a), id)
  {
    var t := Apply(s, a);
    var n :| 0 <= n < |s.timers| && s.timers[n].id == id;
    if a.TimerFires? {
      if n == a.n {
        PushCovers(s.lists, id, s.timers[n].priority, id);
      } else {
        assert t.timers[if n < a.n then n else n - 1].id == id;
      }
    } else {
      assert t.timers[n].id == id;
    }
  }

  lemma PollerCoverStays(s: State, a: Action, id: TaskId)
    requires Enabled(s, a) && PollerCarries(s.poller, id)
    ensures Covered(Apply(s, a), id)
  {
    if a.PollPush? {
      PushCovers(s.lists, id, s.poller.cur.priority, id);
    }
  }

  lemma WorkerCoverStays(s: State, a: Action, id: TaskId)
    requires Enabled(s, a) && WorkerCarries(s.workers, id) && !a.Drop? && !LetsGo(s, a, id)
    ensures Covered(Apply(s, a), id)
  {
    var t := Apply(s, a);
    if a.ArmTimer? && s.workers[a.w].id == id {
      assert t.timers[|t.timers| - 1].id == id;
    } else {
      var w := if WorkerOf(a).Some? then WorkerOf(a).value else |s.workers|;
      CarryFrame(s.workers, t.workers, w, id);
    }
  }

  lemma CoverStays(s: State, a: Action, id: TaskId)
    requires Enabled(s, a) && Covered(s, id) && !a.Drop? && !LetsGo(s, a, id)
    ensures Covered(Apply(s, a), id)
  {
    if InLists(s.lists, id) {
      ListCoverStays(s, a, id);
    } else if InTimers(s.timers, id) {
      TimerCoverStays(s, a, id);
    } else if PollerCarries(s.poller, id) {
      PollerCoverStays(s, a, id);
    } else {
      WorkerCoverStays(s, a, id);
    }
  }

  /** A step other than a stranding one strands nobody. */
  lemma NotStrandedAfter(s: State, a: Action, id: TaskId)
    requires Enabled(s, a) && NoneStranded(s) && !Strands(s, a)
    ensures !Stranded(Apply(s, a), id)
  {
    var t := Apply(s, a);
    if id in t.db && Live(t.db[id].status) {
      if a.Drop? {
        DropKeepsCover(s, a.w, id);
      } else if (a.MarkRunning? || a.Finish?) && s.workers[a.w].id == id {
        assert CarryOf(t.workers[a.w]) == Some(id);
      } else {
        LiveWasCovered(s, a, id);
        CoverStays(s, a, id);
      }
    }
  }

  lemma LiveWasCovered(s: State, a: Action, id: TaskId)
    requires Enabled(s, a) && NoneStranded(s) && !Strands(s, a) && !a.Drop?
    requires id in Apply(s, a).db && Live(Apply(s, a).db[id].status)
    requires !((a.MarkRunning? || a.Finish?) && s.workers[a.w].id == id)
    ensures Covered(s, id) && !LetsGo(s, a, id)
  {
    assert !a.Create? || a.id != id;
    assert id in s.db;
    assert !Stranded(s, id);
  }

  lemma DropKeepsCover(s: State, w: nat, id: TaskId)
    requires Enabled(s, Drop(w)) && NoneStranded(s) && !Strands(s, Drop(w))
    requires id in s.db && Live(s.db[id].status)
    ensures Covered(Apply(s, Drop(w)), id)
  {
    var t := Apply(s, Drop(w));
    assert !Stranded(s, id);
    assert t.workers == s.workers[w := Idle];
    if id != s.workers[w].id && WorkerCarries(s.workers, id) {
      CarryFrame(s.workers, t.workers, w, id);
    }
  }

  lemma StrandingStepStrands(s: State, a: Action) returns (id: TaskId)
    requires Enabled(s, a) && Strands(s, a)
    ensures Stranded(Apply(s, a), id)
  {
    match a
    case EnqueueMark(n) => id := s.marking[n];
    case PollMark => id := s.poller.cur.id;
    case Drop(w) => id := s.workers[w].id;
  }

  /** From a state without stranded tasks, a step strands one exactly when `Strands` says so. */
  lemma StepStrandsIff(s: State, a: Action)
    requires Enabled(s, a) && NoneStranded(s)
    ensures NoneStranded(Apply(s, a)) <==> !Strands(s, a)
  {
    if Strands(s, a) {
      var id := StrandingStepStrands(s, a);
    } else {
      forall id
        ensures !Stranded(Apply(s, a), id)
      {
        NotStrandedAfter(s, a, id);
      }
    }
  }

  // ---------------------------------------------------------------------------------------
  // Over whole runs
  // ---------------------------------------------------------------------------------------

  lemma InitialState(n: nat)
    ensures LockInv(Init(n)) && SlotInv(Init(n)) && WaitInv(Init(n)) && NoneStranded(Init(n))
  {
    forall h
      ensures Occupancy(Init(n), h) == |SlotHolders(Init(n).workers, h)|
    {
      assert SlotHolders(Init(n).workers, h) == {};
    }
  }

  lemma StepKeepsWorkers(s: State, a: Action)
    requires Enabled(s, a)
    ensures |Apply(s, a).workers| == |s.workers|
  {
  }

  lemma {:induction false} WorkersKept(n: nat, actions: seq<Action>)
    requires Runs(Init(n), actions)
    ensures |Exec(Init(n), actions).workers| == n
  {
    if actions != [] {
      var init := actions[..|actions| - 1];
      WorkersKept(n, init);
      StepKeepsWorkers(Exec(Init(n), init), actions[|actions| - 1]);
    }
  }

  lemma {:induction false} RunKeepsInvariants(n: nat, actions: seq<Action>)
    requires Runs(Init(n), actions)
    ensures var s := Exec(Init(n), actions); LockInv(s) && SlotInv(s) && WaitInv(s)
  {
    if actions == [] {
      InitialState(n);
    } else {
      var init, a := actions[..|actions| - 1], actions[|actions| - 1];
      RunKeepsInvariants(n, init);
      var s := Exec(Init(n), init);
      StepKeepsLocks(s, a);
      StepKeepsSlots(s, a);
      StepKeepsWaits(s, a);
    }
  }

  /** In every reachable state of every interleaving: nobody shares the section between lock and
      release, so no two handlers run the same task, a
      hypervisor's occupancy is the number of workers holding its slot and at most the maximum,
      and nobody waits for another task while holding a slot. */
  lemma ReachableStatesSafe(n: nat, actions: seq<Action>)
    requires Runs(Init(n), actions)
    ensures var s := Exec(Init(n), actions);
            MutualExclusion(s) && HandlersApart(s) && SlotInv(s) && NoWaitingSlotHolder(s)
  {
    RunKeepsInvariants(n, actions);
    var s := Exec(Init(n), actions);
    forall i, j | 0 <= i < j < |s.workers| && s.workers[i].Executing? && s.workers[j].Executing?
      ensures s.workers[i].id != s.workers[j].id
    {
      assert LockOf(s.workers[i]) != LockOf(s.workers[j]);
    }
  }

  /** Some step of the run was a stranding one. */
  ghost predicate HasStrandingStep(s: State, actions: seq<Action>)
    requires Runs(s, actions)
    decreases |actions|
  {
    actions != [] &&
    var init := actions[..|actions| - 1];
    HasStrandingStep(s, init) || Strands(Exec(s, init), actions[|actions| - 1])
  }

  /** No task is stranded in any run without a stranding step. */
  lemma {:induction false} NoTaskStranded(n: nat, actions: seq<Action>)
    requires Runs(Init(n), actions) && !HasStrandingStep(Init(n), actions)
    ensures NoneStranded(Exec(Init(n), actions))
  {
    if actions == [] {
      InitialState(n);
    } else {
      var init := actions[..|actions| - 1];
      NoTaskStranded(n, init);
      StepStrandsIff(Exec(Init(n), init), actions[|actions| - 1]);
    }
  }

  lemma LastStepStrands(n: nat, actions: seq<Action>)
    requires Runs(Init(n), actions) && HasStrandingStep(Init(n), actions)
    requires !HasStrandingStep(Init(n), actions[..|actions| - 1])
    ensures !NoneStranded(Exec(Init(n), actions))
  {
    var init := actions[..|actions| - 1];
    NoTaskStranded(n, init);
    StepStrandsIff(Exec(Init(n), init), actions[|actions| - 1]);
  }

  /** Conversely, a run with a stranding step passes through a state with a stranded task. */
  lemma {:induction false} StrandingStepShows(n: nat, actions: seq<Action>) returns (k: nat)
    requires Runs(Init(n), actions) && HasStrandingStep(Init(n), actions)
    ensures k <= |actions| && Runs(Init(n), actions[..k])
    ensures !NoneStranded(Exec(Init(n), actions[..k]))
  {
    var init := actions[..|actions| - 1];
    if HasStrandingStep(Init(n), init) {
      k := StrandingStepShows(n, init);
      assert actions[..k] == init[..k];
    } else {
      LastStepStrands(n, actions);
      k := |actions|;
      assert actions[..k] == actions;
    }
  }

  /** The worker holding the lock of `id` has already written the final status. */
  ghost predicate LateHolder(s: State, id: TaskId) {
    exists i :: 0 <= i < |s.workers| && LockOf(s.workers[i]) == Some(id) && CarryOf(s.workers[i]) == None
  }

  /** A worker that drops an id strands its task only in the window between the lock holder's
      final status write and its release. */
  lemma StrandingDropIsLate(s: State, w: nat)
    requires Enabled(s, Drop(w)) && LockInv(s) && Strands(s, Drop(w))
    ensures LateHolder(s, s.workers[w].id)
  {
    var id := s.workers[w].id;
    var t := s.(workers := s.workers[w := Idle]);
    assert Held(s, id);
    assert PollerLock(s.poller) != Some(id);
    var i :| 0 <= i < |s.workers| && LockOf(s.workers[i]) == Some(id);
    assert t.workers[i] == s.workers[i];
    assert !WorkerCarries(t.workers, id);
  }

  /** Push and "Queued" in one go never strand: right after the push the id is in a list. */
  lemma AtomicEnqueueIsSafe(s: State, id: TaskId, priority: int)
    ensures var s' := Apply(s, EnqueuePush(id, priority));
            var mark := EnqueueMark(|s.marking|);
            Enabled(s', mark) && s'.marking[|s.marking|] == id && !Strands(s', mark)
  {
    PushCovers(s.lists, id, priority, id);
  }

  /** The poller's push and mark, taken together, do not strand either. */
  lemma AtomicPollIsSafe(s: State)
    requires Enabled(s, PollPush)
    ensures Enabled(Apply(s, PollPush), PollMark) && !Strands(Apply(s, PollPush), PollMark)
  {
    PushCovers(s.lists, s.poller.cur.id, s.poller.cur.priority, s.poller.cur.id);
  }

  /** A run in which a "Queued" mark directly follows its own push, and no worker drops an id in
      the window between the lock holder's final status write and its release. */
  ghost predicate Orderly(s: State, actions: seq<Action>)
    requires Runs(s, actions)
    decreases |actions|
  {
    actions == [] ||
    var init, a := actions[..|actions| - 1], actions[|actions| - 1];
    var t := Exec(s, init);
    && Orderly(s, init)
    && (a.EnqueueMark? ==> init != [] && init[|init| - 1].EnqueuePush? && a.n == |t.marking| - 1)
    && (a.PollMark? ==> init != [] && init[|init| - 1].PollPush?)
    && (a.Drop? ==> !LateHolder(t, t.workers[a.w].id))
  }

  lemma OrderlyStepIsSafe(n: nat, actions: seq<Action>)
    requires Runs(Init(n), actions) && actions != [] && Orderly(Init(n), actions)
    ensures var init := actions[..|actions| - 1]; !Strands(Exec(Init(n), init), actions[|actions| - 1])
  {
    var init, a := actions[..|actions| - 1], actions[|actions| - 1];
    var t := Exec(Init(n), init);
    if a.EnqueueMark? {
      var s, p := Exec(Init(n), init[..|init| - 1]), init[|init| - 1];
      AtomicEnqueueIsSafe(s, p.id, p.priority);
    } else if a.PollMark? {
      AtomicPollIsSafe(Exec(Init(n), init[..|init| - 1]));
    } else if a.Drop? && Strands(t, a) {
      RunKeepsInvariants(n, init);
      StrandingDropIsLate(t, a.w);
    }
  }

  /** Under the two premises no task is stranded, although a worker that fails to get the lock
      throws the id away. */
  lemma {:induction false} OrderlyRunStrandsNobody(n: nat, actions: seq<Action>)
    requires Runs(Init(n), actions) && Orderly(Init(n), actions)
    ensures NoneStranded(Exec(Init(n), actions))
  {
    if actions == [] {
      InitialState(n);
    } else {
      var init := actions[..|actions| - 1];
      OrderlyRunStrandsNobody(n, init);
      OrderlyStepIsSafe(n, actions);
      StepStrandsIff(Exec(Init(n), init), actions[|actions| - 1]);
    }
  }
}
