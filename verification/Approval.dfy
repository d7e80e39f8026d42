/** Multi-step approval requests under arbitrary sequences of service operations. */
module Approval {
  import opened Wrappers

  type Uuid = nat
  type RequestId = nat

  /** An identity as text: the canonical form of a uuid, or any other string, which may still
      parse as one. */
  datatype Actor = Canonical(id: Uuid) | OtherText(parsed: Option<Uuid>)

  function Parse(a: Actor): Option<Uuid> {
    match a
    case Canonical(id) => Some(id)
    case OtherText(p) => p
  }

  datatype StepStatus = StepPending | StepApproved | StepRejected

  datatype Step = Step(order: int, status: StepStatus, approver: Option<Uuid>, resolvedBy: Option<Uuid>)

  datatype Status = Pending | Approved | Rejected | Expired | Escalated | Cancelled

  datatype Entry = WasCreated | WasApproved | WasRejected | WasCancelled | WasEscalated | WasExpired

  datatype Request = Request(
    status: Status, requester: Uuid, expiresAt: Option<int>, steps: seq<Step>, history: seq<Entry>)

  type Db = map<RequestId, Request>

  // ---------------------------------------------------------------------------------------
  // Operations on one request; None is an error that changes nothing
  // ---------------------------------------------------------------------------------------

  /** i is a pending step and no pending step comes before it. */
  predicate IsCurrent(steps: seq<Step>, i: int) {
    && 0 <= i < |steps| && steps[i].status.StepPending?
    && forall j :: 0 <= j < |steps| && steps[j].status.StepPending? ==> steps[i].order <= steps[j].order
  }

  predicate AllSettled(steps: seq<Step>) {
    forall j :: 0 <= j < |steps| ==> !steps[j].status.StepPending?
  }

  /** GetCurrentPendingStep: the pending step of least order, or none. */
  function CurrentPending(steps: seq<Step>): (r: Option<nat>)
    ensures r.Some? ==> IsCurrent(steps, r.value)
    ensures r.None? <==> AllSettled(steps)
  {
    if steps == [] then None
    else
      var n := |steps| - 1;
      var init := CurrentPending(steps[..n]);
      if !steps[n].status.StepPending? then init
      else if init.Some? && steps[init.value].order <= steps[n].order then init
      else Some(n)
  }

  /** verifyApprover. */
  predicate MayResolve(step: Step, actor: Actor) {
    step.approver.Some? ==> actor == Canonical(step.approver.value)
  }

  function Resolved(step: Step, status: StepStatus, actor: Actor): Step {
    step.(status := status, resolvedBy := if Parse(actor).Some? then Parse(actor) else step.resolvedBy)
  }

  /** The step a decision of `actor` may settle now. */
  function Decidable(r: Request, actor: Actor): (i: Option<nat>)
    ensures i.Some? ==> IsCurrent(r.steps, i.value) && r.status.Pending? && MayResolve(r.steps[i.value], actor)
  {
    if !r.status.Pending? then None
    else
      var i := CurrentPending(r.steps);
      if i.Some? && MayResolve(r.steps[i.value], actor) then i else None
  }

  function Approve(r: Request, actor: Actor): Option<Request> {
    match Decidable(r, actor)
    case None => None
    case Some(i) =>
      var steps := r.steps[i := Resolved(r.steps[i], StepApproved, actor)];
      Some(r.(steps := steps, history := r.history + [WasApproved],
              status := if CurrentPending(steps).None? then Approved else Pending))
  }

  function Reject(r: Request, actor: Actor): Option<Request> {
    match Decidable(r, actor)
    case None => None
    case Some(i) =>
      Some(r.(steps := r.steps[i := Resolved(r.steps[i], StepRejected, actor)],
              history := r.history + [WasRejected], status := Rejected))
  }

  function Cancel(r: Request, user: Actor): Option<Request> {
    if r.status.Pending? && user == Canonical(r.requester)
    then Some(r.(status := Cancelled, history := r.history + [WasCancelled])) else None
  }

  function Escalate(r: Request): Option<Request> {
    if r.status.Pending? then Some(r.(status := Escalated, history := r.history + [WasEscalated])) else None
  }

  predicate IsStale(r: Request, now: int) {
    r.status.Pending? && r.expiresAt.Some? && r.expiresAt.value <= now
  }

  function Expire(r: Request): Request {
    r.(status := Expired, history := r.history + [WasExpired])
  }

  /** A requested step: its order and the approver it names, if any. */
  datatype StepRequest = StepRequest(order: int, approver: Option<Uuid>)

  predicate DistinctOrders(reqs: seq<StepRequest>) {
    forall i, j :: 0 <= i < j < |reqs| ==> reqs[i].order != reqs[j].order
  }

  function PendingSteps(reqs: seq<StepRequest>): (s: seq<Step>)
    ensures |s| == |reqs|
    ensures forall i :: 0 <= i < |s| ==> s[i] == Step(reqs[i].order, StepPending, reqs[i].approver, None)
  {
    seq(|reqs|, i requires 0 <= i < |reqs| => Step(reqs[i].order, StepPending, reqs[i].approver, None))
  }

  /** Create: the requested steps, or one default step for any administrator. */
  function NewRequest(requester: Uuid, reqs: seq<StepRequest>, expiresAt: Option<int>): Request {
    Request(Pending, requester, expiresAt,
            if |reqs| > 0 then PendingSteps(reqs) else [Step(1, StepPending, None, None)], [WasCreated])
  }

  // ---------------------------------------------------------------------------------------
  // The invariant of a request
  // ---------------------------------------------------------------------------------------

  function Approvals(steps: seq<Step>): nat {
    if steps == [] then 0
    else Approvals(steps[..|steps| - 1]) + if steps[|steps| - 1].status.StepApproved? then 1 else 0
  }

  function Entries(history: seq<Entry>, e: Entry): nat {
    if history == [] then 0
    else Entries(history[..|history| - 1], e) + if history[|history| - 1] == e then 1 else 0
  }

  ghost predicate DistinctSteps(steps: seq<Step>) {
    forall i, j :: 0 <= i < j < |steps| ==> steps[i].order != steps[j].order
  }

  /** In order, the steps are approved up to the first unapproved one, and after that pending:
      everything before a settled step is approved. */
  ghost predicate ApprovedPrefix(steps: seq<Step>) {
    forall i, j | 0 <= i < |steps| && 0 <= j < |steps| && steps[i].order < steps[j].order ::
      !steps[j].status.StepPending? ==> steps[i].status.StepApproved?
  }

  ghost predicate SomeRejected(steps: seq<Step>) {
    exists i :: 0 <= i < |steps| && steps[i].status.StepRejected?
  }

  ghost predicate AllApproved(steps: seq<Step>) {
    forall i :: 0 <= i < |steps| ==> steps[i].status.StepApproved?
  }

  /** A settled step naming an approver was settled by that approver. */
  ghost predicate ByApprover(steps: seq<Step>) {
    forall i :: 0 <= i < |steps| && !steps[i].status.StepPending? && steps[i].approver.Some? ==>
      steps[i].resolvedBy == steps[i].approver
  }

  ghost predicate RequestInv(r: Request) {
    && |r.steps| >= 1 && DistinctSteps(r.steps)
    && ApprovedPrefix(r.steps)
    && ByApprover(r.steps)
    && (r.status.Approved? <==> AllApproved(r.steps))
    && (r.status.Rejected? <==> SomeRejected(r.steps))
    && Entries(r.history, WasApproved) == Approvals(r.steps)
    && Entries(r.history, WasRejected) == (if r.status.Rejected? then 1 else 0)
  }

  lemma {:induction false} ApprovalsAfter(steps: seq<Step>, i: nat, step: Step)
    requires i < |steps| && !steps[i].status.StepApproved?
    ensures Approvals(steps[i := step]) == Approvals(steps) + if step.status.StepApproved? then 1 else 0
  {
    var n := |steps| - 1;
    var steps' := steps[i := step];
    if i == n {
      assert steps'[..n] == steps[..n];
    } else {
      assert steps'[..n] == steps[..n][i := step];
      ApprovalsAfter(steps[..n], i, step);
    }
  }

  lemma EntriesSnoc(history: seq<Entry>, e: Entry, f: Entry)
    ensures Entries(history + [e], f) == Entries(history, f) + if e == f then 1 else 0
  {
    assert (history + [e])[..|history|] == history;
  }

  /** Everything before the current step of a pending request is approved. */
  lemma BeforeCurrentApproved(r: Request, i: nat, j: nat)
    requires RequestInv(r) && r.status.Pending? && IsCurrent(r.steps, i)
    requires j < |r.steps| && r.steps[j].order < r.steps[i].order
    ensures r.steps[j].status.StepApproved?
  {
  }

  lemma SettleKeepsPrefix(r: Request, i: nat, actor: Actor, status: StepStatus)
    requires RequestInv(r) && r.status.Pending? && IsCurrent(r.steps, i) && MayResolve(r.steps[i], actor)
    requires !status.StepPending?
    ensures var steps := r.steps[i := Resolved(r.steps[i], status, actor)];
            DistinctSteps(steps) && ApprovedPrefix(steps) && ByApprover(steps)
  {
    var steps := r.steps[i := Resolved(r.steps[i], status, actor)];
    forall a, b | 0 <= a < |steps| && 0 <= b < |steps| && steps[a].order < steps[b].order
                  && !steps[b].status.StepPending?
      ensures steps[a].status.StepApproved?
    {
      if b == i {
        BeforeCurrentApproved(r, i, a);
      } else {
        assert r.steps[a].status.StepApproved?;
        assert a != i;
      }
    }
  }

  lemma ApproveKeepsInv(r: Request, actor: Actor)
    requires RequestInv(r) && Approve(r, actor).Some?
    ensures RequestInv(Approve(r, actor).value)
  {
    var i := Decidable(r, actor).value;
    var steps := r.steps[i := Resolved(r.steps[i], StepApproved, actor)];
    SettleKeepsPrefix(r, i, actor, StepApproved);
    ApprovalsAfter(r.steps, i, steps[i]);
    EntriesSnoc(r.history, WasApproved, WasApproved);
    EntriesSnoc(r.history, WasApproved, WasRejected);
    assert !SomeRejected(steps) by {
      assert forall j :: 0 <= j < |steps| && j != i ==> steps[j] == r.steps[j];
    }
    assert AllSettled(steps) <==> AllApproved(steps) by {
      assert forall j :: 0 <= j < |steps| ==> !steps[j].status.StepRejected?;
    }
  }

  lemma RejectKeepsInv(r: Request, actor: Actor)
    requires RequestInv(r) && Reject(r, actor).Some?
    ensures RequestInv(Reject(r, actor).value)
  {
    var i := Decidable(r, actor).value;
    var steps := r.steps[i := Resolved(r.steps[i], StepRejected, actor)];
    SettleKeepsPrefix(r, i, actor, StepRejected);
    ApprovalsAfter(r.steps, i, steps[i]);
    EntriesSnoc(r.history, WasRejected, WasApproved);
    EntriesSnoc(r.history, WasRejected, WasRejected);
    assert steps[i].status.StepRejected?;
  }

  /** Ending a pending request in any other way. */
  lemma EndKeepsInv(r: Request, status: Status, e: Entry)
    requires RequestInv(r) && r.status.Pending?
    requires status.Cancelled? || status.Escalated? || status.Expired?
    requires e != WasApproved && e != WasRejected
    ensures RequestInv(r.(status := status, history := r.history + [e]))
  {
    EntriesSnoc(r.history, e, WasApproved);
    EntriesSnoc(r.history, e, WasRejected);
  }

  lemma {:induction false} NoneApproved(steps: seq<Step>)
    requires forall i :: 0 <= i < |steps| ==> steps[i].status.StepPending?
    ensures Approvals(steps) == 0
  {
    if steps != [] {
      NoneApproved(steps[..|steps| - 1]);
    }
  }

  lemma NewRequestInv(requester: Uuid, reqs: seq<StepRequest>, expiresAt: Option<int>)
    requires DistinctOrders(reqs)
    ensures RequestInv(NewRequest(requester, reqs, expiresAt))
  {
    var r := NewRequest(requester, reqs, expiresAt);
    NoneApproved(r.steps);
    EntriesSnoc([], WasCreated, WasApproved);
    EntriesSnoc([], WasCreated, WasRejected);
    assert [] + [WasCreated] == r.history;
    assert r.steps[0].status.StepPending?;
  }

  // ---------------------------------------------------------------------------------------
  // Over every sequence of operations
  // ---------------------------------------------------------------------------------------

  datatype Op =
    | CreateOp(id: RequestId, requester: Uuid, reqs: seq<StepRequest>, expiresAt: Option<int>)
    | ApproveOp(id: RequestId, actor: Actor)
    | RejectOp(id: RequestId, actor: Actor)
    | CancelOp(id: RequestId, user: Actor)
    | EscalateOp(id: RequestId)
    | ExpireOp(now: int)

  /** A new request gets a fresh id, and the orders of its steps differ. */
  predicate Allowed(db: Db, op: Op) {
    op.CreateOp? ==> op.id !in db && DistinctOrders(op.reqs)
  }

  function Store(db: Db, id: RequestId, r: Option<Request>): Db {
    if r.Some? then db[id := r.value] else db
  }

  function Apply(db: Db, op: Op): Db {
    match op
    case CreateOp(id, requester, reqs, expiresAt) => db[id := NewRequest(requester, reqs, expiresAt)]
    case ApproveOp(id, actor) => if id in db then Store(db, id, Approve(db[id], actor)) else db
    case RejectOp(id, actor) => if id in db then Store(db, id, Reject(db[id], actor)) else db
    case CancelOp(id, user) => if id in db then Store(db, id, Cancel(db[id], user)) else db
    case EscalateOp(id) => if id in db then Store(db, id, Escalate(db[id])) else db
    case ExpireOp(now) => map id | id in db :: if IsStale(db[id], now) then Expire(db[id]) else db[id]
  }

  predicate Runs(ops: seq<Op>) {
    ops == [] || (Runs(ops[..|ops| - 1]) && Allowed(Exec(ops[..|ops| - 1]), ops[|ops| - 1]))
  }

  function Exec(ops: seq<Op>): Db {
    if ops == [] then map[] else Apply(Exec(ops[..|ops| - 1]), ops[|ops| - 1])
  }

  ghost predicate AllInv(db: Db) {
    forall id <- db :: RequestInv(db[id])
  }

  lemma OpKeepsInv(db: Db, op: Op)
    requires AllInv(db) && Allowed(db, op)
    ensures AllInv(Apply(db, op))
  {
    match op
    case CreateOp(id, requester, reqs, expiresAt) => NewRequestInv(requester, reqs, expiresAt);
    case ApproveOp(id, actor) =>
      if id in db && Approve(db[id], actor).Some? {
        ApproveKeepsInv(db[id], actor);
      }
    case RejectOp(id, actor) =>
      if id in db && Reject(db[id], actor).Some? {
        RejectKeepsInv(db[id], actor);
      }
    case CancelOp(id, user) =>
      if id in db && Cancel(db[id], user).Some? {
        EndKeepsInv(db[id], Cancelled, WasCancelled);
      }
    case EscalateOp(id) =>
      if id in db && Escalate(db[id]).Some? {
        EndKeepsInv(db[id], Escalated, WasEscalated);
      }
    case ExpireOp(now) =>
      forall id | id in db
        ensures RequestInv(Apply(db, op)[id])
      {
        if IsStale(db[id], now) {
          EndKeepsInv(db[id], Expired, WasExpired);
        }
      }
  }

  /** After any operations, every request satisfies its invariant. */
  lemma {:induction false} ApprovalLaw(ops: seq<Op>)
    requires Runs(ops)
    ensures AllInv(Exec(ops))
  {
    if ops != [] {
      ApprovalLaw(ops[..|ops| - 1]);
      OpKeepsInv(Exec(ops[..|ops| - 1]), ops[|ops| - 1]);
    }
  }

  lemma OpFreezes(db: Db, op: Op, id: RequestId)
    requires Allowed(db, op) && id in db && !db[id].status.Pending?
    ensures id in Apply(db, op) && Apply(db, op)[id] == db[id]
  {
  }

  /** A request that is no longer pending never changes again, steps and history included. */
  lemma {:induction false} SettledRequestsFrozen(before: seq<Op>, after: seq<Op>, id: RequestId)
    requires Runs(before + after)
    requires id in Exec(before) && !Exec(before)[id].status.Pending?
    ensures id in Exec(before + after) && Exec(before + after)[id] == Exec(before)[id]
    decreases |after|
  {
    if after == [] {
      assert before + after == before;
    } else {
      var init, op := after[..|after| - 1], after[|after| - 1];
      assert (before + after)[..|before + after| - 1] == before + init;
      SettledRequestsFrozen(before, init, id);
      assert (before + after)[|before + after| - 1] == op;
      OpFreezes(Exec(before + init), op, id);
    }
  }

  /** In a rejected request exactly one step is rejected, all steps before it are approved and all
      steps after it still pending. */
  lemma RejectedShape(r: Request, i: nat)
    requires RequestInv(r) && i < |r.steps| && r.steps[i].status.StepRejected?
    ensures forall j :: 0 <= j < |r.steps| && j != i ==>
              r.steps[j].status == if r.steps[j].order < r.steps[i].order then StepApproved else StepPending
  {
    forall j | 0 <= j < |r.steps| && j != i
      ensures r.steps[j].status == if r.steps[j].order < r.steps[i].order then StepApproved else StepPending
    {
      assert r.steps[j].order != r.steps[i].order;
    }
  }

  // ---------------------------------------------------------------------------------------
  // Every state of a request goes back to operations that were made
  // ---------------------------------------------------------------------------------------

  /** The step belongs to whoever decides it, or to the approver it names alone. */
  ghost predicate Entitled(step: Step, actor: Actor) {
    step.approver == None || actor == Canonical(step.approver.value)
  }

  /** Somebody entitled made the decision, and is recorded with it. */
  ghost predicate DecidedBy(step: Step, actor: Actor) {
    Entitled(step, actor) && (Parse(actor) != None ==> step.resolvedBy == Parse(actor))
  }

  ghost predicate StepExplained(ops: seq<Op>, id: RequestId, step: Step) {
    match step.status
    case StepPending => step.resolvedBy == None
    case StepApproved => exists actor :: ApproveOp(id, actor) in ops && DecidedBy(step, actor)
    case StepRejected => exists actor :: RejectOp(id, actor) in ops && DecidedBy(step, actor)
  }

  /** How the request got its status. */
  ghost predicate StatusExplained(ops: seq<Op>, id: RequestId, r: Request) {
    match r.status
    case Cancelled => CancelOp(id, Canonical(r.requester)) in ops
    case Escalated => EscalateOp(id) in ops
    case Expired => r.expiresAt.Some? && exists now :: ExpireOp(now) in ops && r.expiresAt.value <= now
    case _ => true
  }

  ghost predicate CreatedAs(r: Request, requester: Uuid, reqs: seq<StepRequest>, expiresAt: Option<int>) {
    && r.requester == requester && r.expiresAt == expiresAt
    && |r.steps| == (if reqs == [] then 1 else |reqs|)
    && (forall i :: 0 <= i < |reqs| ==> r.steps[i].order == reqs[i].order && r.steps[i].approver == reqs[i].approver)
    && (reqs == [] ==> r.steps[0].order == 1 && r.steps[0].approver == None)
  }

  ghost predicate Created(ops: seq<Op>, id: RequestId, r: Request) {
    exists requester, reqs, expiresAt ::
      CreateOp(id, requester, reqs, expiresAt) in ops && CreatedAs(r, requester, reqs, expiresAt)
  }

  ghost predicate Explained(ops: seq<Op>, id: RequestId, r: Request) {
    && Created(ops, id, r) && StatusExplained(ops, id, r)
    && forall i :: 0 <= i < |r.steps| ==> StepExplained(ops, id, r.steps[i])
  }

  lemma StaysExplained(ops: seq<Op>, op: Op, id: RequestId, r: Request)
    requires Explained(ops, id, r)
    ensures Explained(ops + [op], id, r)
  {
    var requester, reqs, expiresAt :|
      CreateOp(id, requester, reqs, expiresAt) in ops && CreatedAs(r, requester, reqs, expiresAt);
    assert CreateOp(id, requester, reqs, expiresAt) in ops + [op];
    forall i | 0 <= i < |r.steps|
      ensures StepExplained(ops + [op], id, r.steps[i])
    {
      assert StepExplained(ops, id, r.steps[i]);
    }
  }

  lemma KeepsCreated(ops: seq<Op>, op: Op, id: RequestId, r: Request, t: Request)
    requires Created(ops, id, r) && t.requester == r.requester && t.expiresAt == r.expiresAt
    requires |t.steps| == |r.steps|
    requires forall i :: 0 <= i < |r.steps| ==> t.steps[i].order == r.steps[i].order && t.steps[i].approver == r.steps[i].approver
    ensures Created(ops + [op], id, t)
  {
    var requester, reqs, expiresAt :|
      CreateOp(id, requester, reqs, expiresAt) in ops && CreatedAs(r, requester, reqs, expiresAt);
    assert CreateOp(id, requester, reqs, expiresAt) in ops + [op] && CreatedAs(t, requester, reqs, expiresAt);
  }

  /** A decision explains the step it settles; the others stay as they were. */
  lemma DecisionExplained(ops: seq<Op>, op: Op, id: RequestId, r: Request, i: nat, status: StepStatus, actor: Actor)
    requires Explained(ops, id, r) && i < |r.steps| && r.steps[i].status == StepPending && MayResolve(r.steps[i], actor)
    requires op == if status == StepApproved then ApproveOp(id, actor) else RejectOp(id, actor)
    requires status != StepPending
    ensures var steps := r.steps[i := Resolved(r.steps[i], status, actor)];
            && Created(ops + [op], id, r.(steps := steps))
            && forall j :: 0 <= j < |steps| ==> StepExplained(ops + [op], id, steps[j])
  {
    var steps := r.steps[i := Resolved(r.steps[i], status, actor)];
    KeepsCreated(ops, op, id, r, r.(steps := steps));
    StaysExplained(ops, op, id, r);
    forall j | 0 <= j < |steps|
      ensures StepExplained(ops + [op], id, steps[j])
    {
      if j == i {
        assert DecidedBy(steps[j], actor) && op in ops + [op];
      }
    }
  }

  lemma ApproveExplained(ops: seq<Op>, id: RequestId, r: Request, actor: Actor)
    requires Explained(ops, id, r) && Approve(r, actor).Some?
    ensures Explained(ops + [ApproveOp(id, actor)], id, Approve(r, actor).value)
  {
    var i, op := Decidable(r, actor).value, ApproveOp(id, actor);
    DecisionExplained(ops, op, id, r, i, StepApproved, actor);
    var t := Approve(r, actor).value;
    KeepsCreated(ops, op, id, r, t);
  }

  lemma RejectExplained(ops: seq<Op>, id: RequestId, r: Request, actor: Actor)
    requires Explained(ops, id, r) && Reject(r, actor).Some?
    ensures Explained(ops + [RejectOp(id, actor)], id, Reject(r, actor).value)
  {
    var i, op := Decidable(r, actor).value, RejectOp(id, actor);
    DecisionExplained(ops, op, id, r, i, StepRejected, actor);
    var t := Reject(r, actor).value;
    KeepsCreated(ops, op, id, r, t);
  }

  /** Ending a request without a decision. */
  lemma EndExplained(ops: seq<Op>, op: Op, id: RequestId, r: Request, t: Request)
    requires Explained(ops, id, r) && t == r.(status := t.status, history := t.history)
    requires StatusExplained(ops + [op], id, t)
    ensures Explained(ops + [op], id, t)
  {
    StaysExplained(ops, op, id, r);
    KeepsCreated(ops, op, id, r, t);
  }

  lemma NewExplained(ops: seq<Op>, id: RequestId, requester: Uuid, reqs: seq<StepRequest>, expiresAt: Option<int>)
    ensures Explained(ops + [CreateOp(id, requester, reqs, expiresAt)], id, NewRequest(requester, reqs, expiresAt))
  {
    var op, r := CreateOp(id, requester, reqs, expiresAt), NewRequest(requester, reqs, expiresAt);
    assert op in ops + [op] && CreatedAs(r, requester, reqs, expiresAt);
  }

  lemma OpExplained(ops: seq<Op>, db: Db, op: Op, id: RequestId)
    requires forall x <- db :: Explained(ops, x, db[x])
    requires id in Apply(db, op)
    ensures Explained(ops + [op], id, Apply(db, op)[id])
  {
    var t := Apply(db, op)[id];
    if id in db && t == db[id] {
      StaysExplained(ops, op, id, db[id]);
    } else {
      match op
      case CreateOp(_, requester, reqs, expiresAt) => NewExplained(ops, id, requester, reqs, expiresAt);
      case ApproveOp(_, actor) => ApproveExplained(ops, id, db[id], actor);
      case RejectOp(_, actor) => RejectExplained(ops, id, db[id], actor);
      case CancelOp(_, _) => EndExplained(ops, op, id, db[id], t);
      case EscalateOp(_) => EndExplained(ops, op, id, db[id], t);
      case ExpireOp(_) => EndExplained(ops, op, id, db[id], t);
    }
  }

  /** After any operations: a request has the requester, deadline and steps it was created with; it
      is cancelled only by its requester, expired only by a sweep at or after its deadline, escalated
      only on demand, and each settled step was settled by somebody entitled. */
  lemma {:induction false} EverythingExplained(ops: seq<Op>)
    requires Runs(ops)
    ensures forall id <- Exec(ops) :: Explained(ops, id, Exec(ops)[id])
  {
    if ops != [] {
      var init, op := ops[..|ops| - 1], ops[|ops| - 1];
      EverythingExplained(init);
      assert ops == init + [op];
      forall id | id in Exec(ops)
        ensures Explained(ops, id, Exec(ops)[id])
      {
        OpExplained(init, Exec(init), op, id);
      }
    }
  }

  /** When an operation changes a request that exists. */
  ghost predicate TakesEffect(r: Request, op: Op) {
    r.status == Pending &&
    match op
    case CreateOp(_, _, _, _) => false
    case ApproveOp(_, actor) => exists i :: IsCurrent(r.steps, i) && Entitled(r.steps[i], actor)
    case RejectOp(_, actor) => exists i :: IsCurrent(r.steps, i) && Entitled(r.steps[i], actor)
    case CancelOp(_, user) => user == Canonical(r.requester)
    case EscalateOp(_) => true
    case ExpireOp(now) => r.expiresAt.Some? && r.expiresAt.value <= now
  }

  lemma CurrentUnique(steps: seq<Step>, i: int, j: int)
    requires DistinctSteps(steps) && IsCurrent(steps, i) && IsCurrent(steps, j)
    ensures i == j
  {
    assert steps[i].order == steps[j].order;
  }

  lemma DecidableIff(r: Request, actor: Actor)
    requires DistinctSteps(r.steps) && r.status == Pending
    ensures Decidable(r, actor).Some? <==> exists i :: IsCurrent(r.steps, i) && Entitled(r.steps[i], actor)
  {
    if i :| IsCurrent(r.steps, i) && Entitled(r.steps[i], actor) {
      assert !AllSettled(r.steps);
      CurrentUnique(r.steps, i, CurrentPending(r.steps).value);
    }
    if Decidable(r, actor).Some? {
      assert IsCurrent(r.steps, Decidable(r, actor).value);
    }
  }

  /** A request changes exactly when it is pending and the operation is addressed to it by somebody
      who may: the requester cancels, the one entitled to the current step decides, the sweep takes
      what is due. */
  lemma ChangesIff(db: Db, op: Op, id: RequestId)
    requires AllInv(db) && Allowed(db, op) && id in db
    ensures id in Apply(db, op)
    ensures Apply(db, op)[id] != db[id] <==> (op.ExpireOp? || op.id == id) && TakesEffect(db[id], op)
  {
    var r := db[id];
    if r.status == Pending && (op.ApproveOp? || op.RejectOp?) {
      DecidableIff(r, op.actor);
    }
    if !op.ExpireOp? && op.id == id && r.status == Pending {
      HistoryGrows(r, op);
    }
  }

  lemma HistoryGrows(r: Request, op: Op)
    ensures op.ApproveOp? && Approve(r, op.actor).Some? ==> Approve(r, op.actor).value != r
    ensures op.RejectOp? && Reject(r, op.actor).Some? ==> Reject(r, op.actor).value != r
    ensures op.CancelOp? && Cancel(r, op.user).Some? ==> Cancel(r, op.user).value.status == Cancelled
    ensures op.EscalateOp? && Escalate(r).Some? ==> Escalate(r).value.status == Escalated
  {
    if op.ApproveOp? && Approve(r, op.actor).Some? {
      assert |Approve(r, op.actor).value.history| == |r.history| + 1;
    }
    if op.RejectOp? && Reject(r, op.actor).Some? {
      assert |Reject(r, op.actor).value.history| == |r.history| + 1;
    }
  }

  /** Exactly the pending step of least order is settled. */
  ghost predicate SettlesCurrent(r: Request, t: Request, status: StepStatus) {
    exists i :: IsCurrent(r.steps, i) && |t.steps| == |r.steps| && t.steps[i].status == status
                && forall j :: 0 <= j < |r.steps| && j != i ==> t.steps[j] == r.steps[j]
  }

  lemma ApproveChanges(r: Request, actor: Actor)
    requires RequestInv(r) && Approve(r, actor).Some?
    ensures var t := Approve(r, actor).value;
            && SettlesCurrent(r, t, StepApproved) && t.history == r.history + [WasApproved]
            && t.status == if AllApproved(t.steps) then Approved else Pending
  {
    assert IsCurrent(r.steps, Decidable(r, actor).value);
    ApproveKeepsInv(r, actor);
  }

  lemma RejectChanges(r: Request, actor: Actor)
    requires Reject(r, actor).Some?
    ensures var t := Reject(r, actor).value;
            SettlesCurrent(r, t, StepRejected) && t.status == Rejected && t.history == r.history + [WasRejected]
  {
    assert IsCurrent(r.steps, Decidable(r, actor).value);
  }

  /** What a change makes of the request: a decision settles the pending step of least order, and the
      request is approved with its last approval. */
  lemma ChangedTo(db: Db, op: Op, id: RequestId)
    requires AllInv(db) && Allowed(db, op) && id in db && Apply(db, op)[id] != db[id]
    ensures var r, t := db[id], Apply(db, op)[id];
            match op
            case CancelOp(_, _) => t == r.(status := Cancelled, history := r.history + [WasCancelled])
            case EscalateOp(_) => t == r.(status := Escalated, history := r.history + [WasEscalated])
            case ExpireOp(_) => t == r.(status := Expired, history := r.history + [WasExpired])
            case RejectOp(_, _) =>
              SettlesCurrent(r, t, StepRejected) && t.status == Rejected && t.history == r.history + [WasRejected]
            case ApproveOp(_, _) =>
              && SettlesCurrent(r, t, StepApproved) && t.history == r.history + [WasApproved]
              && t.status == if AllApproved(t.steps) then Approved else Pending
            case CreateOp(_, _, _, _) => false
  {
    match op
    case ApproveOp(_, actor) => ApproveChanges(db[id], actor);
    case RejectOp(_, actor) => RejectChanges(db[id], actor);
    case _ =>
  }

  // ---------------------------------------------------------------------------------------
  // The service
  // ---------------------------------------------------------------------------------------

  class ApprovalService {
    var requests: Db

    constructor ()
      ensures requests == map[]
    {
      requests := map[];
    }

    /** Create writes the request and then its steps one by one. */
    method Create(id: RequestId, requester: Uuid, reqs: seq<StepRequest>, expiresAt: Option<int>)
      requires id !in requests
      modifies this
      ensures requests == Apply(old(requests), CreateOp(id, requester, reqs, expiresAt))
    {
      var steps: seq<Step> := [];
      if |reqs| > 0 {
        for i := 0 to |reqs|
          invariant steps == PendingSteps(reqs)[..i]
        {
          steps := steps + [Step(reqs[i].order, StepPending, reqs[i].approver, None)];
        }
        assert PendingSteps(reqs)[..|reqs|] == PendingSteps(reqs);
      } else {
        steps := [Step(1, StepPending, None, None)];
      }
      requests := requests[id := Request(Pending, requester, expiresAt, steps, [WasCreated])];
    }

    /** The database query behind GetCurrentPendingStep. */
    method FindPending(steps: seq<Step>) returns (r: Option<nat>)
      ensures r == CurrentPending(steps)
    {
      r := None;
      for n := 0 to |steps|
        invariant r == CurrentPending(steps[..n])
      {
        assert steps[..n + 1][..n] == steps[..n];
        if steps[n].status.StepPending? && (r.None? || steps[n].order < steps[r.value].order) {
          r := Some(n);
        }
      }
      assert steps[..|steps|] == steps;
    }

    /** Approve and Reject up to the decision: the step to settle, if the actor may. */
    method Decide(id: RequestId, actor: Actor) returns (i: Option<nat>)
      requires id in requests
      ensures i == Decidable(requests[id], actor)
    {
      var r := requests[id];
      if !r.status.Pending? {
        return None;
      }
      i := FindPending(r.steps);
      if i.Some? && !MayResolve(r.steps[i.value], actor) {
        return None;
      }
    }

    method ApproveRequest(id: RequestId, actor: Actor) returns (ok: bool)
      modifies this
      ensures requests == Apply(old(requests), ApproveOp(id, actor))
      ensures ok <==> id in old(requests) && Approve(old(requests)[id], actor).Some?
    {
      if id !in requests {
        return false;
      }
      var i := Decide(id, actor);
      if i.None? {
        return false;
      }
      var r := requests[id];
      var steps := r.steps[i.value := Resolved(r.steps[i.value], StepApproved, actor)];
      var next := FindPending(steps);
      var status := if next.None? then Approved else Pending;
      requests := requests[id := r.(steps := steps, status := status, history := r.history + [WasApproved])];
      return true;
    }

    method RejectRequest(id: RequestId, actor: Actor) returns (ok: bool)
      modifies this
      ensures requests == Apply(old(requests), RejectOp(id, actor))
      ensures ok <==> id in old(requests) && Reject(old(requests)[id], actor).Some?
    {
      if id !in requests {
        return false;
      }
      var i := Decide(id, actor);
      if i.None? {
        return false;
      }
      var r := requests[id];
      var steps := r.steps[i.value := Resolved(r.steps[i.value], StepRejected, actor)];
      requests := requests[id := r.(steps := steps, status := Rejected, history := r.history + [WasRejected])];
      return true;
    }

    method CancelRequest(id: RequestId, user: Actor) returns (ok: bool)
      modifies this
      ensures requests == Apply(old(requests), CancelOp(id, user))
      ensures ok <==> id in old(requests) && Cancel(old(requests)[id], user).Some?
    {
      if id !in requests || !requests[id].status.Pending? || user != Canonical(requests[id].requester) {
        return false;
      }
      var r := requests[id];
      requests := requests[id := r.(status := Cancelled, history := r.history + [WasCancelled])];
      return true;
    }

    method EscalateRequest(id: RequestId) returns (ok: bool)
      modifies this
      ensures requests == Apply(old(requests), EscalateOp(id))
      ensures ok <==> id in old(requests) && Escalate(old(requests)[id]).Some?
    {
      if id !in requests || !requests[id].status.Pending? {
        return false;
      }
      var r := requests[id];
      requests := requests[id := r.(status := Escalated, history := r.history + [WasEscalated])];
      return true;
    }

    /** ExpireStale: the expired requests as listed, one update each. */
    method ExpireStale(now: int) returns (count: nat)
      modifies this
      ensures requests == Apply(old(requests), ExpireOp(now))
      ensures count == |set id | id in old(requests) && IsStale(old(requests)[id], now)|
    {
      var listed := set id | id in requests && IsStale(requests[id], now);
      count := 0;
      var todo := listed;
      while todo != {}
        invariant todo <= listed && count == |listed| - |todo|
        invariant requests.Keys == old(requests).Keys
        invariant forall id <- requests ::
                    requests[id] == if id in listed - todo then Expire(old(requests)[id]) else old(requests)[id]
        decreases |todo|
      {
        var id :| id in todo;
        requests := requests[id := Expire(requests[id])];
        count := count + 1;
        todo := todo - {id};
      }
      assert listed - todo == listed;
      assert forall id <- requests :: requests[id] == Apply(old(requests), ExpireOp(now))[id];
    }
  }
}
