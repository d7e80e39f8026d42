/** createOrchestrationRun and handleEnvOperation: the computed order, executed step by step. */
module OrchestrationRun {
  import opened Sequences
  import opened DependencyGraph
  import opened ExecutionOrder
  import opened Progress

  datatype StepStatus = StepPending | StepRunning | StepCompleted | StepFailed

  datatype Step = Step(vmid: VmId, executionOrder: nat, status: StepStatus)

  datatype RunStatus = RunPending | RunRunning | RunCompleted | RunFailed | RunCancelled

  /** What happens to one step: the VM task cannot be created, it ends badly (failed, cancelled,
      timed out, unobservable), or it completes. */
  datatype Outcome = DispatchError | WaitError | Success

  /** What the handler returns to the task engine. */
  datatype HandlerResult = Nil | Cancelled | AllFailed(failed: nat)

  /** What an observer of the run sees. */
  datatype Event =
    | Started(vm: VmId)
    | Dispatched(vm: VmId)
    | Settled(vm: VmId, ok: bool)
    | Progressed(percent: int, completed: nat, failed: nat)

  // ---------------------------------------------------------------------------------------
  // Specification: the event trace of the first n steps
  // ---------------------------------------------------------------------------------------

  function CountSuccesses(outcome: nat -> Outcome, n: nat): (c: nat)
    ensures c <= n
  {
    if n == 0 then 0 else CountSuccesses(outcome, n - 1) + if outcome(n - 1).Success? then 1 else 0
  }

  function StepEvents(vm: VmId, outcome: nat -> Outcome, n: nat, total: nat): seq<Event>
    requires total > 0 && n > 0
  {
    var completed := CountSuccesses(outcome, n);
    [Started(vm)]
    + (if outcome(n - 1).DispatchError? then [] else [Dispatched(vm)])
    + [Settled(vm, outcome(n - 1).Success?), Progressed(Percent(n, total), completed, n - completed)]
  }

  function Trace(ids: seq<VmId>, outcome: nat -> Outcome, n: nat): seq<Event>
    requires n <= |ids|
  {
    if n == 0 then []
    else Trace(ids, outcome, n - 1) + StepEvents(ids[n - 1], outcome, n, |ids|)
  }

  /** Number of steps that run: up to the first iteration that sees the cancel flag. */
  function Horizon(cancelled: nat -> bool, from: nat, n: nat): (h: nat)
    requires from <= n
    ensures from <= h <= n
    ensures h < n ==> cancelled(h)
    ensures forall j :: from <= j < h ==> !cancelled(j)
    decreases n - from
  {
    if from == n || cancelled(from) then from else Horizon(cancelled, from + 1, n)
  }

  function SettledStatus(o: Outcome): StepStatus {
    if o.Success? then StepCompleted else StepFailed
  }

  ghost function StepIds(steps: seq<Step>): (ids: seq<VmId>)
    ensures |ids| == |steps|
    ensures forall i :: 0 <= i < |steps| ==> ids[i] == steps[i].vmid
  {
    seq(|steps|, i requires 0 <= i < |steps| => steps[i].vmid)
  }

  /** The first n steps are settled according to their outcomes, the others untouched. */
  ghost predicate SettledUpTo(before: seq<Step>, after: seq<Step>, outcome: nat -> Outcome, n: nat) {
    && n <= |before| == |after|
    && (forall i :: 0 <= i < n ==> after[i] == before[i].(status := SettledStatus(outcome(i))))
    && (forall i :: n <= i < |after| ==> after[i] == before[i])
  }

  /** How a run over `total` steps ends when n of them ran and `done` completed: cancelled if it
      stopped early, failed exactly when nothing completed. */
  predicate Ending(total: nat, n: nat, done: nat, status: RunStatus, r: HandlerResult) {
    if total == 0 then status == RunCompleted && r == Nil
    else if n < total then status == RunCancelled && r == Cancelled
    else if done == 0 then status == RunFailed && r == AllFailed(n)
    else status == RunCompleted && r == Nil
  }

  class Run {
    var status: RunStatus
    var progress: int
    var completed: nat
    var failed: nat
    var skipped: nat
    var totalVms: nat
    var steps: seq<Step>
    ghost var log: seq<Event>

    /** One pending step per ordered VM, numbered in execution order. */
    constructor (order: seq<EnvVm>)
      ensures status == RunPending && progress == 0 && completed == failed == skipped == 0 && log == []
      ensures totalVms == |steps| == |order|
      ensures forall i :: 0 <= i < |order| ==> steps[i] == Step(order[i].vmid, i, StepPending)
    {
      status, progress, completed, failed, skipped := RunPending, 0, 0, 0, 0;
      totalVms := |order|;
      log := [];
      var s: seq<Step> := [];
      for i := 0 to |order|
        invariant |s| == i
        invariant forall j :: 0 <= j < i ==> s[j] == Step(order[j].vmid, j, StepPending)
      {
        s := s + [Step(order[i].vmid, i, StepPending)];
      }
      steps := s;
    }

    /** One iteration: mark running, dispatch, wait, mark the result, report progress. */
    method RunStep(outcome: nat -> Outcome, i: nat, ok: nat, bad: nat, total: nat) returns (ok': nat, bad': nat)
      requires i < |steps| == total
      requires ok == CountSuccesses(outcome, i) && ok + bad == i
      modifies this
      ensures status == old(status)
      ensures ok' == CountSuccesses(outcome, i + 1) && ok' + bad' == i + 1
      ensures steps == old(steps)[i := old(steps)[i].(status := SettledStatus(outcome(i)))]
      ensures log == old(log) + StepEvents(old(steps)[i].vmid, outcome, i + 1, total)
      ensures progress == Percent(i + 1, total) && completed == ok' && failed == bad' && skipped == 0
    {
      var vm := steps[i].vmid;
      steps := steps[i := steps[i].(status := StepRunning)];
      log := log + [Started(vm)];
      ok', bad' := DispatchAndWait(outcome(i), i, ok, bad);
      progress, completed, failed, skipped := Percent(i + 1, total), ok', bad', 0;
      log := log + [Progressed(progress, ok', bad')];
    }

    /** Dispatching the task of a step marked running, waiting for it and marking the result. */
    method DispatchAndWait(outcome: Outcome, i: nat, ok: nat, bad: nat) returns (ok': nat, bad': nat)
      requires i < |steps| && steps[i].status == StepRunning
      modifies this`steps, this`log
      ensures ok' == (if outcome == Success then ok + 1 else ok) && ok' + bad' == ok + bad + 1
      ensures steps == old(steps)[i := old(steps)[i].(status := SettledStatus(outcome))]
      ensures log == old(log) + (if outcome == DispatchError then [] else [Dispatched(steps[i].vmid)])
                     + [Settled(steps[i].vmid, outcome == Success)]
    {
      ok', bad' := ok, bad;
      var vm := steps[i].vmid;
      match outcome {
        case DispatchError =>
          steps := steps[i := steps[i].(status := StepFailed)];
          bad' := bad' + 1;
        case WaitError =>
          log := log + [Dispatched(vm)];
          steps := steps[i := steps[i].(status := StepFailed)];
          bad' := bad' + 1;
        case Success =>
          log := log + [Dispatched(vm)];
          steps := steps[i := steps[i].(status := StepCompleted)];
          ok' := ok' + 1;
      }
      log := log + [Settled(vm, steps[i].status == StepCompleted)];
    }

    /** The loop over the steps, left at the first iteration that finds the cancel flag. */
    method RunSteps(outcome: nat -> Outcome, cancelled: nat -> bool) returns (i: nat, ok: nat, bad: nat)
      requires status == RunRunning
      modifies this
      ensures status == old(status)
      ensures i == Horizon(cancelled, 0, |old(steps)|)
      ensures ok == CountSuccesses(outcome, i) && ok + bad == i
      ensures SettledUpTo(old(steps), steps, outcome, i)
      ensures log == old(log) + Trace(StepIds(old(steps)), outcome, i)
    {
      i, ok, bad := 0, 0, 0;
      ghost var ids := StepIds(steps);
      while i < |steps| && !cancelled(i)
        invariant status == old(status)
        invariant SettledUpTo(old(steps), steps, outcome, i)
        invariant ok == CountSuccesses(outcome, i) && ok + bad == i
        invariant log == old(log) + Trace(ids, outcome, i)
        invariant Horizon(cancelled, i, |steps|) == Horizon(cancelled, 0, |steps|)
        decreases |steps| - i
      {
        ok, bad := RunStep(outcome, i, ok, bad, |steps|);
        assert log == old(log) + Trace(ids, outcome, i + 1);
        i := i + 1;
      }
    }

    /** handleEnvOperation. `outcome(i)` and `cancelled(i)` are what the i-th iteration finds. */
    method Execute(outcome: nat -> Outcome, cancelled: nat -> bool) returns (r: HandlerResult)
      modifies this
      ensures var n := Horizon(cancelled, 0, |old(steps)|);
              && SettledUpTo(old(steps), steps, outcome, n)
              && log == old(log) + Trace(StepIds(old(steps)), outcome, n)
      ensures var n := Horizon(cancelled, 0, |old(steps)|);
              && Ending(|old(steps)|, n, CountSuccesses(outcome, n), status, r)
              && (0 < n == |old(steps)| ==>
                    progress == 100 && skipped == 0 && completed + failed == n
                    && completed == CountSuccesses(outcome, n))
      ensures |old(steps)| == 0 ==> status == RunCompleted && r == Nil
    {
      status := RunRunning;
      if |steps| == 0 {
        status := RunCompleted;
        r := Nil;
        assert log == log + Trace(StepIds(steps), outcome, 0);
      } else {
        var i, ok, bad := RunSteps(outcome, cancelled);
        r := Conclude(i, ok, bad);
      }
    }

    /** The final status, from the counters. */
    method Conclude(i: nat, ok: nat, bad: nat) returns (r: HandlerResult)
      requires ok + bad == i <= |steps| && steps != []
      modifies this`status, this`progress, this`completed, this`failed, this`skipped
      ensures Ending(|steps|, i, ok, status, r)
      ensures i == |steps| ==> progress == 100 && skipped == 0 && completed == ok && failed == bad
    {
      if i < |steps| {
        status := RunCancelled;
        return Cancelled;
      }
      status := if bad > 0 && ok == 0 then RunFailed else RunCompleted;
      progress, completed, failed, skipped := 100, ok, bad, 0;
      r := if bad > 0 && ok == 0 then AllFailed(bad) else Nil;
    }
  }

  // ---------------------------------------------------------------------------------------
  // What the trace guarantees
  // ---------------------------------------------------------------------------------------

  lemma {:induction false} SettledInTrace(ids: seq<VmId>, outcome: nat -> Outcome, n: nat, i: nat)
    requires i < n <= |ids|
    ensures exists s :: 0 <= s < |Trace(ids, outcome, n)| && Trace(ids, outcome, n)[s].Settled?
                        && Trace(ids, outcome, n)[s].vm == ids[i]
  {
    var prev, last := Trace(ids, outcome, n - 1), StepEvents(ids[n - 1], outcome, n, |ids|);
    if i < n - 1 {
      SettledInTrace(ids, outcome, n - 1, i);
      var s :| 0 <= s < |prev| && prev[s].Settled? && prev[s].vm == ids[i];
      assert Trace(ids, outcome, n)[s] == prev[s];
    } else {
      assert last[|last| - 2].Settled?;
      assert Trace(ids, outcome, n)[|prev| + |last| - 2] == last[|last| - 2];
    }
  }

  /** A dispatch of step j comes after every earlier step was marked completed or failed. */
  lemma {:induction false} DispatchAfterEarlierSteps(ids: seq<VmId>, outcome: nat -> Outcome, n: nat, t: nat, i: nat, j: nat)
    requires NoDup(ids) && n <= |ids| && i < j < |ids|
    requires t < |Trace(ids, outcome, n)| && Trace(ids, outcome, n)[t] == Dispatched(ids[j])
    ensures exists s :: 0 <= s < t && Trace(ids, outcome, n)[s].Settled? && Trace(ids, outcome, n)[s].vm == ids[i]
  {
    var prev, last := Trace(ids, outcome, n - 1), StepEvents(ids[n - 1], outcome, n, |ids|);
    assert Trace(ids, outcome, n)[..|prev|] == prev;
    if t < |prev| {
      DispatchAfterEarlierSteps(ids, outcome, n - 1, t, i, j);
      var s :| 0 <= s < t && prev[s].Settled? && prev[s].vm == ids[i];
      assert Trace(ids, outcome, n)[s] == prev[s];
    } else {
      assert last[t - |prev|] == Dispatched(ids[n - 1]);
      SettledInTrace(ids, outcome, n - 1, i);
      var s :| 0 <= s < |prev| && prev[s].Settled? && prev[s].vm == ids[i];
      assert Trace(ids, outcome, n)[s] == prev[s];
    }
  }

  /** End to end: in a start/restart/snapshot/clone run over acyclic dependencies, whatever the
      steps' outcomes and wherever it is cancelled, the task of a VM is dispatched only after each
      VM it depends on has been marked completed or failed. */
  lemma DependenciesSettledBeforeDispatch(vms: seq<EnvVm>, deps: seq<Dependency>, order: seq<EnvVm>, k: nat,
                                          outcome: nat -> Outcome, n: nat, t: nat, d: Dependency)
    requires KahnOrder(vms, EnvironmentEdges(vms, deps), order, k)
    requires !Cyclic(EnvironmentEdges(vms, deps))
    requires d in deps && (d.kind == StartBefore || d.kind == Requires)
    requires d.source in IdSet(vms) && d.target in IdSet(vms)
    requires n <= |order|
    requires t < |Trace(Ids(order), outcome, n)| && Trace(Ids(order), outcome, n)[t] == Dispatched(d.source)
    ensures exists s :: 0 <= s < t && Trace(Ids(order), outcome, n)[s].Settled?
                        && Trace(Ids(order), outcome, n)[s].vm == d.target
  {
    AcyclicOrderIsTopological(vms, deps, order, k);
    var i, j :| 0 <= i < j < |order| && order[i].vmid == d.target && order[j].vmid == d.source;
    assert Ids(order)[i] == d.target && Ids(order)[j] == d.source;
    DispatchAfterEarlierSteps(Ids(order), outcome, n, t, i, j);
  }

  /** Every progress report accounts for exactly the steps so far, lies in [10, 95], and no
      report is below an earlier one. */
  lemma {:induction false} ProgressReports(ids: seq<VmId>, outcome: nat -> Outcome, n: nat, t: nat)
    requires n <= |ids|
    requires t < |Trace(ids, outcome, n)| && Trace(ids, outcome, n)[t].Progressed?
    ensures var e := Trace(ids, outcome, n)[t];
            && 1 <= e.completed + e.failed <= n
            && e.percent == Percent(e.completed + e.failed, |ids|)
            && 10 <= e.percent <= 95
            && e.completed == CountSuccesses(outcome, e.completed + e.failed)
  {
    var prev, last := Trace(ids, outcome, n - 1), StepEvents(ids[n - 1], outcome, n, |ids|);
    if t < |prev| {
      assert Trace(ids, outcome, n)[t] == prev[t];
      ProgressReports(ids, outcome, n - 1, t);
    } else {
      assert Trace(ids, outcome, n)[t] == last[t - |prev|];
      PercentBounds(n, |ids|);
    }
  }

  lemma {:induction false} ProgressNeverDecreases(ids: seq<VmId>, outcome: nat -> Outcome, n: nat, s: nat, t: nat)
    requires n <= |ids| && s < t < |Trace(ids, outcome, n)|
    requires Trace(ids, outcome, n)[s].Progressed? && Trace(ids, outcome, n)[t].Progressed?
    ensures Trace(ids, outcome, n)[s].percent <= Trace(ids, outcome, n)[t].percent
  {
    var prev, last := Trace(ids, outcome, n - 1), StepEvents(ids[n - 1], outcome, n, |ids|);
    if t < |prev| {
      assert Trace(ids, outcome, n)[s] == prev[s] && Trace(ids, outcome, n)[t] == prev[t];
      ProgressNeverDecreases(ids, outcome, n - 1, s, t);
    } else {
      assert Trace(ids, outcome, n)[t] == last[t - |prev|];
      ProgressReports(ids, outcome, n, s);
      var e := Trace(ids, outcome, n)[s];
      PercentMonotone(e.completed + e.failed, n, |ids|);
    }
  }

  /** In the log, no VM is dispatched before everything it depends on is completed or failed. */
  ghost predicate DependenciesRespected(log: seq<Event>, vms: seq<EnvVm>, deps: seq<Dependency>) {
    forall d, t :: MemberDependency(vms, deps, d) && 0 <= t < |log| && log[t] == Dispatched(d.source) ==>
      exists s :: 0 <= s < t && log[s].Settled? && log[s].vm == d.target
  }

  ghost predicate MemberDependency(vms: seq<EnvVm>, deps: seq<Dependency>, d: Dependency) {
    d in deps && (d.kind == StartBefore || d.kind == Requires) && d.source in IdSet(vms) && d.target in IdSet(vms)
  }

  lemma TraceRespectsDependencies(vms: seq<EnvVm>, deps: seq<Dependency>, order: seq<EnvVm>, k: nat,
                                  outcome: nat -> Outcome, n: nat)
    requires KahnOrder(vms, EnvironmentEdges(vms, deps), order, k) && n <= |order|
    requires !Cyclic(EnvironmentEdges(vms, deps))
    ensures DependenciesRespected(Trace(Ids(order), outcome, n), vms, deps)
  {
    var log := Trace(Ids(order), outcome, n);
    forall d, t | MemberDependency(vms, deps, d) && 0 <= t < |log| && log[t] == Dispatched(d.source)
      ensures exists s :: 0 <= s < t && log[s].Settled? && log[s].vm == d.target
    {
      DependenciesSettledBeforeDispatch(vms, deps, order, k, outcome, n, t, d);
    }
  }

  lemma {:induction false} TraceOfSteps(ids: seq<VmId>, outcome: nat -> Outcome, n: nat, e: Event)
    requires n <= |ids|
    ensures e in Trace(ids, outcome, n) <==>
            exists i :: 0 <= i < n && e in StepEvents(ids[i], outcome, i + 1, |ids|)
  {
    if n > 0 {
      TraceOfSteps(ids, outcome, n - 1, e);
      var last := StepEvents(ids[n - 1], outcome, n - 1 + 1, |ids|);
      assert Trace(ids, outcome, n) == Trace(ids, outcome, n - 1) + last;
    }
  }

  /** What the log says of the steps, exactly: a step that runs is settled with its success, and
      dispatched unless its task could not be created. */
  lemma LogOfSteps(ids: seq<VmId>, outcome: nat -> Outcome, n: nat, vm: VmId, ok: bool)
    requires n <= |ids|
    ensures Settled(vm, ok) in Trace(ids, outcome, n) <==>
            exists i :: 0 <= i < n && ids[i] == vm && ok == (outcome(i) == Success)
    ensures Dispatched(vm) in Trace(ids, outcome, n) <==>
            exists i :: 0 <= i < n && ids[i] == vm && outcome(i) != DispatchError
  {
    forall i | 0 <= i < n
      ensures Settled(vm, ok) in StepEvents(ids[i], outcome, i + 1, |ids|) <==>
              ids[i] == vm && ok == (outcome(i) == Success)
      ensures Dispatched(vm) in StepEvents(ids[i], outcome, i + 1, |ids|) <==> ids[i] == vm && outcome(i) != DispatchError
    {
      EventsOfStep(ids[i], outcome, i + 1, |ids|, vm, ok);
    }
    TraceOfSteps(ids, outcome, n, Settled(vm, ok));
    TraceOfSteps(ids, outcome, n, Dispatched(vm));
  }

  lemma EventsOfStep(id: VmId, outcome: nat -> Outcome, n: nat, total: nat, vm: VmId, ok: bool)
    requires total > 0 && n > 0
    ensures Settled(vm, ok) in StepEvents(id, outcome, n, total) <==> id == vm && ok == (outcome(n - 1) == Success)
    ensures Dispatched(vm) in StepEvents(id, outcome, n, total) <==> id == vm && outcome(n - 1) != DispatchError
  {
  }

  /** The counter counts the successful steps. */
  lemma {:induction false} SuccessesCounted(outcome: nat -> Outcome, n: nat)
    ensures CountSuccesses(outcome, n) == |set i: nat | i < n && outcome(i) == Success|
  {
    var now := set i: nat | i < n && outcome(i) == Success;
    if n > 0 {
      SuccessesCounted(outcome, n - 1);
      var before := set i: nat | i < n - 1 && outcome(i) == Success;
      assert now == before + if outcome(n - 1) == Success then {n - 1} else {};
    }
  }

  /** How step i of a finished run stands. */
  ghost predicate StepEnded(step: Step, i: nat, outcome: nat -> Outcome, cancelled: nat -> bool) {
    && step.executionOrder == i
    && (step.status == StepPending <==> exists j :: 0 <= j <= i && cancelled(j))
    && (step.status == StepCompleted <==> outcome(i) == Success && forall j :: 0 <= j <= i ==> !cancelled(j))
    && (step.status == StepFailed <==> outcome(i) != Success && forall j :: 0 <= j <= i ==> !cancelled(j))
  }

  lemma StepsEnded(before: seq<Step>, after: seq<Step>, outcome: nat -> Outcome, cancelled: nat -> bool)
    requires forall i :: 0 <= i < |before| ==> before[i].executionOrder == i && before[i].status == StepPending
    requires SettledUpTo(before, after, outcome, Horizon(cancelled, 0, |before|))
    ensures forall i :: 0 <= i < |after| ==> StepEnded(after[i], i, outcome, cancelled)
  {
  }

  /** How a run over n > 0 steps ends. */
  ghost predicate RunEnded(run: Run, r: HandlerResult, n: nat, outcome: nat -> Outcome, cancelled: nat -> bool)
    reads run
  {
    && |run.steps| == n
    && (forall i :: 0 <= i < n ==> StepEnded(run.steps[i], i, outcome, cancelled))
    && ((exists i :: 0 <= i < n && cancelled(i)) ==> run.status == RunCancelled && r == Cancelled)
    && ((forall i :: 0 <= i < n ==> !cancelled(i)) ==>
          && run.completed == |set i: nat | i < n && outcome(i) == Success|
          && run.failed == n - run.completed && run.progress == 100
          && (if run.completed == 0 then run.status == RunFailed && r == AllFailed(n)
              else run.status == RunCompleted && r == Nil))
  }

  /** A new run for the order, executed. */
  method ExecuteOrder(order: seq<EnvVm>, outcome: nat -> Outcome, cancelled: nat -> bool)
    returns (run: Run, r: HandlerResult)
    requires order != []
    ensures fresh(run) && RunEnded(run, r, |order|, outcome, cancelled)
    ensures StepIds(run.steps) == Ids(order)
    ensures run.log == Trace(Ids(order), outcome, Horizon(cancelled, 0, |order|))
  {
    run := new Run(order);
    ghost var before := run.steps;
    assert StepIds(before) == Ids(order);
    r := run.Execute(outcome, cancelled);
    StepsEnded(before, run.steps, outcome, cancelled);
    SuccessesCounted(outcome, |order|);
  }

  /** The whole path: order, run record, execution. An environment without VMs is refused. */
  method Orchestrate(vms: seq<EnvVm>, deps: seq<Dependency>, op: Operation, outcome: nat -> Outcome,
                     cancelled: nat -> bool)
    returns (run: Run?, r: HandlerResult)
    requires NoDup(Ids(vms))
    ensures run == null <==> vms == []
    ensures run != null ==> fresh(run) && RunEnded(run, r, |vms|, outcome, cancelled)
    ensures run != null && op != Stop && !Cyclic(EnvironmentEdges(vms, deps)) ==>
              DependenciesRespected(run.log, vms, deps)
    ensures run != null ==> multiset(StepIds(run.steps)) == multiset(Ids(vms))
  {
    if vms == [] {
      return null, Nil;
    }
    var order; ghost var k;
    order, k := ComputeExecutionOrder(vms, deps, op);
    assert |order| == |multiset(order)| == |multiset(vms)| == |vms|;
    run, r := ExecuteOrder(order, outcome, cancelled);
    IdsOfPermutation(order, vms);
    if op != Stop && !Cyclic(EnvironmentEdges(vms, deps)) {
      TraceRespectsDependencies(vms, deps, order, k, outcome, Horizon(cancelled, 0, |order|));
    }
  }

  lemma IdsOfPermutation(a: seq<EnvVm>, b: seq<EnvVm>)
    requires multiset(a) == multiset(b) && NoDup(Ids(b))
    ensures multiset(Ids(a)) == multiset(Ids(b))
  {
    PermutationKeepsDistinctIds(b, a);
    PermutationKeepsElements(a, b);
    forall v
      ensures v in Ids(a) <==> v in Ids(b)
    {
      if v in Ids(a) {
        var i :| 0 <= i < |a| && Ids(a)[i] == v;
        assert a[i] in a;
        var j :| 0 <= j < |b| && b[j] == a[i];
        assert Ids(b)[j] == v;
      }
      if v in Ids(b) {
        var i :| 0 <= i < |b| && Ids(b)[i] == v;
        assert b[i] in b;
        var j :| 0 <= j < |a| && a[j] == b[i];
        assert Ids(a)[j] == v;
      }
    }
    SameElementsPermutation(Ids(a), Ids(b));
  }
}
