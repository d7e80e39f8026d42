/** handleBulkParent: dispatching the children of a bulk task and polling them until every one of
    them is terminal. */
module BulkParent {
  import opened Sequences
  import opened Progress
  import opened RedisQueue

  /** What one read of a child finds: an error, a non-terminal status, completed, or one of
      failed, cancelled and timed out. */
  datatype Reading = Unreadable | Unfinished | Succeeded | Unsuccessful

  /** One poll cycle: the cancel flag before it, what reads find, and the flag after it. */
  datatype Poll = Poll(cancelled: bool, reading: TaskId -> Reading, interrupted: bool)

  datatype Child = Child(id: TaskId, priority: int)

  /** What loading the children delivers. */
  datatype Load = Children(children: seq<Child>) | Unavailable

  datatype Outcome = Nil | Cancelled | LoadFailed | StillPolling

  predicate Terminal(r: Reading) {
    r.Succeeded? || r.Unsuccessful?
  }

  /** The verdict on a child after the first n polls: its first terminal reading. */
  function Fate(polls: seq<Poll>, n: nat, c: TaskId): (r: Reading)
    requires n <= |polls|
    ensures !r.Unreadable?
  {
    if n == 0 then Unfinished
    else
      var before := Fate(polls, n - 1, c);
      if Terminal(before) then before
      else
        var now := polls[n - 1].reading(c);
        if now.Unreadable? then Unfinished else now
  }

  /** Open children, failures and successes after n polls. */
  ghost function With(children: set<TaskId>, polls: seq<Poll>, n: nat, r: Reading): set<TaskId>
    requires n <= |polls|
  {
    set c | c in children && Fate(polls, n, c) == r
  }

  /** Some child has no verdict after n polls. */
  ghost predicate Open(ids: set<TaskId>, polls: seq<Poll>, n: nat)
    requires n <= |polls|
  {
    exists c :: c in ids && !Terminal(Fate(polls, n, c))
  }

  /** The first n polls were made: each found a child open and the flag unset, and no interruption
      before it. */
  ghost predicate Reached(ids: set<TaskId>, polls: seq<Poll>, n: nat) {
    n <= |polls| && forall k :: 0 <= k < n ==> Made(ids, polls, k)
  }

  ghost predicate Made(ids: set<TaskId>, polls: seq<Poll>, k: nat)
    requires k < |polls|
  {
    Open(ids, polls, k) && !Interrupted(polls, k) && !polls[k].cancelled
  }

  lemma ReachNext(ids: set<TaskId>, polls: seq<Poll>, n: nat)
    requires Reached(ids, polls, n) && n < |polls| && Open(ids, polls, n)
    requires !polls[n].cancelled && !Interrupted(polls, n)
    ensures Reached(ids, polls, n + 1)
  {
  }

  /** When waiting ends, and how: it polls as long as a child is open, is cancelled by the flag
      before a poll or by an interruption after one that leaves a child open, and ends well as soon
      as every child has a verdict. */
  ghost predicate Ends(ids: set<TaskId>, polls: seq<Poll>, r: Outcome, n: nat) {
    && Reached(ids, polls, n)
    && match r
       case Nil => !Open(ids, polls, n)
       case Cancelled => Open(ids, polls, n) && (Interrupted(polls, n) || (n < |polls| && polls[n].cancelled))
       case StillPolling => Open(ids, polls, n) && n == |polls| && !Interrupted(polls, n)
       case LoadFailed => false
  }

  ghost predicate Interrupted(polls: seq<Poll>, n: nat)
    requires n <= |polls|
  {
    n > 0 && polls[n - 1].interrupted
  }

  /** There is only one such end. */
  lemma EndsOnce(ids: set<TaskId>, polls: seq<Poll>, r1: Outcome, n1: nat, r2: Outcome, n2: nat)
    requires Ends(ids, polls, r1, n1) && Ends(ids, polls, r2, n2)
    ensures r1 == r2 && n1 == n2
  {
    if n1 < n2 {
      EndsNotLater(ids, polls, r1, n1, r2, n2);
    } else if n2 < n1 {
      EndsNotLater(ids, polls, r2, n2, r1, n1);
    }
  }

  lemma EndsNotLater(ids: set<TaskId>, polls: seq<Poll>, r1: Outcome, n1: nat, r2: Outcome, n2: nat)
    requires Ends(ids, polls, r1, n1) && Ends(ids, polls, r2, n2)
    ensures n1 >= n2
  {
    if n1 < n2 {
      EndIsLast(ids, polls, r1, n1);
    }
  }

  lemma EndIsLast(ids: set<TaskId>, polls: seq<Poll>, r: Outcome, n: nat)
    requires Ends(ids, polls, r, n) && n < |polls|
    ensures !Made(ids, polls, n)
  {
  }

  ghost predicate Ascending(progress: seq<int>) {
    forall i, j :: 0 <= i < j < |progress| ==> progress[i] <= progress[j]
  }

  /** The percentage reported after n polls. */
  ghost function ReportAfter(children: set<TaskId>, polls: seq<Poll>, n: nat): int
    requires n <= |polls| && children != {}
  {
    SubsetCardinality(With(children, polls, n, Unfinished), children);
    Percent(|children| - |With(children, polls, n, Unfinished)|, |children|)
  }

  /** One report per poll: the share of the children that had a verdict by then. */
  ghost predicate Reports(children: set<TaskId>, polls: seq<Poll>, n: nat, progress: seq<int>) {
    && children != {} && |progress| == n <= |polls|
    && forall k :: 0 <= k < n ==> progress[k] == ReportAfter(children, polls, k + 1)
  }

  class BulkRun {
    const total: nat
    ghost const children: set<TaskId>
    var remaining: set<TaskId>
    var failed: seq<TaskId>
    var completed: nat
    var progress: seq<int>

    /** After n polls the open, failed and succeeded children partition the children, and every
        progress report is in [10, 95] and not below an earlier one. */
    ghost predicate Valid(polls: seq<Poll>, n: nat)
      reads this
    {
      && n <= |polls|
      && total == |children| && total > 0
      && remaining == With(children, polls, n, Unfinished)
      && (forall c :: c in failed <==> c in With(children, polls, n, Unsuccessful))
      && NoDup(failed)
      && completed == total - |remaining|
      && Ascending(progress)
      && forall p <- progress :: 10 <= p <= Percent(completed, total) <= 95
    }

    constructor (ids: seq<TaskId>, ghost polls: seq<Poll>)
      requires NoDup(ids) && ids != []
      ensures Valid(polls, 0) && children == (set c | c in ids) && progress == []
    {
      NoDupCardinality(ids);
      total := |ids|;
      children := set c | c in ids;
      remaining := set c | c in ids;
      failed, completed, progress := [], 0, [];
      new;
      assert With(children, polls, 0, Unfinished) == children;
    }

    /** Reading one remaining child. */
    method ReadOne(c: TaskId, reading: Reading)
      requires c in remaining && c !in failed && NoDup(failed) && completed == total - |remaining|
      modifies this`remaining, this`failed, this`completed
      ensures remaining == if Terminal(reading) then old(remaining) - {c} else old(remaining)
      ensures failed == if reading.Unsuccessful? then old(failed) + [c] else old(failed)
      ensures NoDup(failed) && completed == total - |remaining| && completed >= old(completed)
    {
      match reading {
        case Succeeded =>
          completed := completed + 1;
          remaining := remaining - {c};
        case Unsuccessful =>
          completed := completed + 1;
          failed := failed + [c];
          remaining := remaining - {c};
        case Unreadable =>
        case Unfinished =>
      }
    }

    /** One pass over the remaining children. */
    method ReadAll(ghost polls: seq<Poll>, n: nat, reading: TaskId -> Reading)
      requires Valid(polls, n) && n < |polls| && reading == polls[n].reading
      modifies this`remaining, this`failed, this`completed
      ensures Valid(polls, n + 1)
      ensures completed >= old(completed)
    {
      ghost var open, lost := remaining, failed;
      var todo := remaining;
      while todo != {}
        invariant todo <= remaining <= open
        invariant forall c <- open :: c in remaining <==> c in todo || !Terminal(reading(c))
        invariant forall c :: c in failed <==> c in lost || (c in open - todo && reading(c).Unsuccessful?)
        invariant NoDup(failed) && completed == total - |remaining| && completed >= old(completed)
        decreases |todo|
      {
        var c :| c in todo;
        assert c !in lost;
        ReadOne(c, reading(c));
        todo := todo - {c};
      }
      RoundVerdicts(children, polls, n, open, remaining, lost, failed);
      PercentBounds(completed, total);
      ProgressStaysBelow(progress, old(completed), completed, total);
    }

    /** One round of the polling loop: read and report. */
    method PollOnce(polls: seq<Poll>, n: nat)
      requires Valid(polls, n) && n < |polls| && Reports(children, polls, n, progress)
      modifies this
      ensures Valid(polls, n + 1) && Reports(children, polls, n + 1, progress)
    {
      ReadAll(polls, n, polls[n].reading);
      Report();
    }

    /** The polling loop. Running out of given polls means it would go on polling. */
    method Wait(polls: seq<Poll>) returns (r: Outcome, n: nat)
      requires Valid(polls, 0) && progress == []
      modifies this
      ensures Valid(polls, n) && Reports(children, polls, n, progress)
      ensures Ends(children, polls, r, n)
    {
      n := 0;
      while remaining != {}
        invariant Valid(polls, n) && Reports(children, polls, n, progress) && Reached(children, polls, n)
        invariant Interrupted(polls, n) ==> remaining == {}
        decreases |polls| - n
      {
        OpenIff(children, polls, n);
        if n == |polls| {
          return StillPolling, n;
        }
        if polls[n].cancelled {
          return Cancelled, n;
        }
        ReachNext(children, polls, n);
        PollOnce(polls, n);
        n := n + 1;
        if remaining != {} && polls[n - 1].interrupted {
          OpenIff(children, polls, n);
          return Cancelled, n;
        }
      }
      OpenIff(children, polls, n);
      return Nil, n;
    }

    method Report()
      requires total > 0 && completed <= total
      requires Ascending(progress) && forall p <- progress :: 10 <= p <= Percent(completed, total) <= 95
      modifies this`progress
      ensures progress == old(progress) + [Percent(completed, total)]
      ensures Ascending(progress) && forall p <- progress :: 10 <= p <= Percent(completed, total) <= 95
    {
      PercentBounds(completed, total);
      assert forall i :: 0 <= i < |progress| ==> progress[i] in progress;
      progress := progress + [Percent(completed, total)];
    }
  }

  /** One more poll moves exactly the children it finds terminal out of the open ones. */
  lemma RoundVerdicts(children: set<TaskId>, polls: seq<Poll>, n: nat, open: set<TaskId>, remaining: set<TaskId>,
                      lost: seq<TaskId>, failed: seq<TaskId>)
    requires n < |polls| && open == With(children, polls, n, Unfinished) && remaining <= open
    requires forall c <- open :: c in remaining <==> !Terminal(polls[n].reading(c))
    requires forall c :: c in lost <==> c in With(children, polls, n, Unsuccessful)
    requires forall c :: c in failed <==> c in lost || (c in open && polls[n].reading(c).Unsuccessful?)
    ensures remaining == With(children, polls, n + 1, Unfinished)
    ensures forall c :: c in failed <==> c in With(children, polls, n + 1, Unsuccessful)
  {
  }

  lemma ProgressStaysBelow(progress: seq<int>, before: nat, after: nat, total: nat)
    requires 0 < total && before <= after <= total
    requires forall p <- progress :: 10 <= p <= Percent(before, total) <= 95
    ensures forall p <- progress :: 10 <= p <= Percent(after, total) <= 95
  {
    PercentMonotone(before, after, total);
    PercentBounds(after, total);
  }

  lemma OpenIff(children: set<TaskId>, polls: seq<Poll>, n: nat)
    requires n <= |polls|
    ensures Open(children, polls, n) <==> With(children, polls, n, Unfinished) != {}
  {
    if Open(children, polls, n) {
      var c :| c in children && !Terminal(Fate(polls, n, c));
      assert c in With(children, polls, n, Unfinished);
    }
  }

  function Ids(children: seq<Child>): (ids: seq<TaskId>)
    ensures |ids| == |children| && forall i :: 0 <= i < |ids| ==> ids[i] == children[i].id
  {
    seq(|children|, i requires 0 <= i < |children| => children[i].id)
  }

  /** The queue entries of the children whose push succeeds, in the order of the children. */
  function Entries(children: seq<Child>, refused: set<TaskId>): seq<Entry> {
    if children == [] then []
    else
      var init, c := Entries(children[..|children| - 1], refused), children[|children| - 1];
      if c.id in refused then init else init + [Entry(Clamp(c.priority), c.id)]
  }

  function Accepted(children: seq<Child>, refused: set<TaskId>): set<TaskId> {
    set id | id in Ids(children) && id !in refused
  }

  lemma OneMoreChild(children: seq<Child>, i: nat, refused: set<TaskId>)
    requires i < |children|
    ensures var c := children[i];
            && Entries(children[..i + 1], refused) ==
               Entries(children[..i], refused) + (if c.id in refused then [] else [Entry(Clamp(c.priority), c.id)])
            && Accepted(children[..i + 1], refused) ==
               Accepted(children[..i], refused) + if c.id in refused then {} else {c.id}
  {
    assert children[..i + 1][..i] == children[..i];
    assert Ids(children[..i + 1]) == Ids(children[..i]) + [children[i].id];
  }

  /** Exactly the accepted children are queued, each with the nearest valid priority, and in the
      order of the children. */
  lemma {:induction false} EntriesExact(children: seq<Child>, refused: set<TaskId>)
    ensures forall e :: e in Entries(children, refused) <==>
              exists c <- children :: c.id !in refused && e == Entry(Clamp(c.priority), c.id)
    ensures refused == {} ==>
              && |Entries(children, refused)| == |children|
              && forall i :: 0 <= i < |children| ==> Entries(children, refused)[i].id == children[i].id
  {
    if children != [] {
      var init := children[..|children| - 1];
      EntriesExact(init, refused);
      assert children == init + [children[|children| - 1]];
    }
  }

  /** The dispatch loop. A child whose push is refused is left alone, for the poller. */
  method Dispatch(queue: Queue, children: seq<Child>, refused: set<TaskId>) returns (marked: set<TaskId>)
    requires queue.Valid()
    modifies queue
    ensures queue.Valid() && queue.waiting == old(queue.waiting) + Entries(children, refused)
    ensures queue.popped == old(queue.popped) && queue.locks == old(queue.locks)
    ensures marked == Accepted(children, refused)
  {
    marked := {};
    for i := 0 to |children|
      invariant queue.Valid() && queue.waiting == old(queue.waiting) + Entries(children[..i], refused)
      invariant queue.popped == old(queue.popped) && queue.locks == old(queue.locks)
      invariant marked == Accepted(children[..i], refused)
    {
      var child := children[i];
      OneMoreChild(children, i, refused);
      if child.id !in refused {
        queue.Enqueue(child.id, child.priority);
        marked := marked + {child.id};
      }
    }
    assert children[..|children|] == children;
  }

  /** The waiting part for at least one child. */
  method WaitForAll(ids: seq<TaskId>, polls: seq<Poll>)
    returns (r: Outcome, failed: seq<TaskId>, progress: seq<int>, n: nat)
    requires NoDup(ids) && ids != []
    ensures Ends((set c | c in ids), polls, r, n)
    ensures NoDup(failed) && forall c :: c in failed <==> c in ids && Fate(polls, n, c).Unsuccessful?
    ensures Ascending(progress) && forall p <- progress :: 10 <= p <= 95
    ensures Reports((set c | c in ids), polls, n, progress)
  {
    var run := new BulkRun(ids, polls);
    r, n := run.Wait(polls);
    failed, progress := run.failed, run.progress;
  }

  lemma WholeProgress(reports: seq<int>, finished: bool)
    requires Ascending(reports) && forall p <- reports :: 10 <= p <= 95
    ensures var progress := [5, 10] + reports + if finished then [100] else [];
            Ascending(progress) && forall p <- progress :: p == 5 || 10 <= p <= 95 || (p == 100 && finished)
  {
    var progress := [5, 10] + reports + if finished then [100] else [];
    forall i | 2 <= i < 2 + |reports|
      ensures progress[i] == reports[i - 2] && 10 <= progress[i] <= 95
    {
      assert reports[i - 2] in reports;
    }
  }

  /** handleBulkParent. `stopped` is the cancel flag at the start, `refused` the children whose push
      fails. No children is not an error. */
  method HandleBulkParent(queue: Queue, stopped: bool, load: Load, refused: set<TaskId>, polls: seq<Poll>)
    returns (r: Outcome, marked: set<TaskId>, failed: seq<TaskId>, progress: seq<int>, n: nat)
    requires queue.Valid() && (load.Children? ==> NoDup(Ids(load.children)))
    modifies queue
    ensures queue.Valid()
    ensures stopped || load.Unavailable? || load.children == [] ==>
              && r == (if stopped then Cancelled else if load.Unavailable? then LoadFailed else Nil)
              && queue.waiting == old(queue.waiting) && marked == {} && failed == [] && progress == [5]
    ensures !stopped && load.Children? ==>
              && queue.waiting == old(queue.waiting) + Entries(load.children, refused)
              && marked == (set id | id in Ids(load.children) && id !in refused)
              && Ends((set c | c in Ids(load.children)), polls, r, n)
              && NoDup(failed) && (forall c :: c in failed <==> c in Ids(load.children) && Fate(polls, n, c).Unsuccessful?)
    ensures !stopped && load.Children? && load.children != [] ==>
              && 2 + n <= |progress| && progress[..2] == [5, 10]
              && Reports((set c | c in Ids(load.children)), polls, n, progress[2..2 + n])
              && progress[2 + n..] == if r.Nil? then [100] else []
    ensures Ascending(progress) && forall p <- progress :: p == 5 || 10 <= p <= 95 || (p == 100 && r.Nil?)
  {
    progress, marked, failed, n := [5], {}, [], 0;
    if stopped {
      return Cancelled, marked, failed, progress, n;
    }
    match load {
      case Unavailable =>
        return LoadFailed, marked, failed, progress, n;
      case Children(children) =>
        if children == [] {
          return Nil, marked, failed, progress, n;
        }
        marked := Dispatch(queue, children, refused);
        var reports;
        r, failed, reports, n := WaitForAll(Ids(children), polls);
        progress := [5, 10] + reports + if r.Nil? then [100] else [];
        WholeProgress(reports, r.Nil?);
        assert progress[2..2 + n] == reports;
    }
  }

  /** Every child is open, failed or succeeded, and only one of them. */
  lemma FatesPartition(children: set<TaskId>, polls: seq<Poll>, n: nat)
    requires n <= |polls|
    ensures var o, f, s := With(children, polls, n, Unfinished), With(children, polls, n, Unsuccessful),
                           With(children, polls, n, Succeeded);
            children == o + f + s && o !! f && o !! s && f !! s
  {
  }

  /** A verdict, once given, is the reading of some poll and never changes. */
  lemma {:induction false} VerdictIsARead(polls: seq<Poll>, n: nat, c: TaskId)
    requires n <= |polls| && Terminal(Fate(polls, n, c))
    ensures exists k :: 0 <= k < n && polls[k].reading(c) == Fate(polls, n, c)
                        && forall j :: 0 <= j < k ==> !Terminal(polls[j].reading(c))
  {
    if Terminal(Fate(polls, n - 1, c)) {
      VerdictIsARead(polls, n - 1, c);
    } else {
      NoVerdictNoRead(polls, n - 1, c);
    }
  }

  lemma {:induction false} NoVerdictNoRead(polls: seq<Poll>, n: nat, c: TaskId)
    requires n <= |polls| && !Terminal(Fate(polls, n, c))
    ensures forall j :: 0 <= j < n ==> !Terminal(polls[j].reading(c))
  {
    if n > 0 {
      NoVerdictNoRead(polls, n - 1, c);
    }
  }
}
