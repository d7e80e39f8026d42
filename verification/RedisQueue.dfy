/** The ten Redis priority lists and the task lock, and the one queue ordered by
    (clamped priority, arrival) that the lists implement. */
module RedisQueue {
  import opened Wrappers

  type TaskId = string

  /** An abstract waiting entry. */
  datatype Entry = Entry(priority: int, id: TaskId)

  /** Priority p is list p-1; LPUSH adds at the front, BRPOP takes from the back. */
  type Lists = l: seq<seq<TaskId>> | |l| == 10 witness [[], [], [], [], [], [], [], [], [], []]

  function Clamp(priority: int): (p: int)
    ensures 1 <= p <= 10
  {
    if priority < 1 then 1 else if priority > 10 then 10 else priority
  }

  /** Priorities outside 1 .. 10 go to the nearest list. */
  lemma ClampNearest(priority: int, q: int)
    requires 1 <= q <= 10
    ensures Distance(priority, Clamp(priority)) <= Distance(priority, q)
  {
  }

  function Distance(a: int, b: int): nat {
    if a < b then b - a else a - b
  }

  function Push(lists: Lists, id: TaskId, priority: int): Lists {
    var k := Clamp(priority) - 1;
    lists[k := [id] + lists[k]]
  }

  /** The key BRPOP serves: the first non-empty list. */
  predicate Serves(lists: Lists, k: int) {
    0 <= k < 10 && lists[k] != [] && forall j :: 0 <= j < k ==> lists[j] == []
  }

  predicate AllEmpty(lists: Lists) {
    forall k :: 0 <= k < 10 ==> lists[k] == []
  }

  function Popped(lists: Lists, k: int): TaskId
    requires Serves(lists, k)
  {
    lists[k][|lists[k]| - 1]
  }

  function PopFrom(lists: Lists, k: int): Lists
    requires Serves(lists, k)
  {
    lists[k := lists[k][..|lists[k]| - 1]]
  }

  predicate InLists(lists: Lists, id: TaskId) {
    exists k :: 0 <= k < 10 && id in lists[k]
  }

  // ---------------------------------------------------------------------------------------
  // The abstract queue
  // ---------------------------------------------------------------------------------------

  /** The ids waiting with priority p, oldest first. */
  ghost function OfPriority(waiting: seq<Entry>, p: int): seq<TaskId> {
    if waiting == [] then []
    else
      var init, last := OfPriority(waiting[..|waiting| - 1], p), waiting[|waiting| - 1];
      if last.priority == p then init + [last.id] else init
  }

  ghost function Reversed(s: seq<TaskId>): (r: seq<TaskId>)
    ensures |r| == |s|
    ensures forall i :: 0 <= i < |s| ==> r[i] == s[|s| - 1 - i]
  {
    seq(|s|, i requires 0 <= i < |s| => s[|s| - 1 - i])
  }

  /** Each list holds, newest first, exactly the entries of its priority. */
  ghost predicate Implements(lists: Lists, waiting: seq<Entry>) {
    && (forall e <- waiting :: 1 <= e.priority <= 10)
    && forall p :: 1 <= p <= 10 ==> Reversed(lists[p - 1]) == OfPriority(waiting, p)
  }

  /** i is the oldest entry of the best waiting priority. */
  ghost predicate Best(waiting: seq<Entry>, i: int) {
    && 0 <= i < |waiting|
    && (forall j :: 0 <= j < |waiting| ==> waiting[i].priority <= waiting[j].priority)
    && (forall j :: 0 <= j < i ==> waiting[j].priority != waiting[i].priority)
  }

  ghost function Without(waiting: seq<Entry>, i: nat): seq<Entry>
    requires i < |waiting|
  {
    waiting[..i] + waiting[i + 1..]
  }

  lemma PushImplements(lists: Lists, waiting: seq<Entry>, id: TaskId, priority: int)
    requires Implements(lists, waiting)
    ensures Implements(Push(lists, id, priority), waiting + [Entry(Clamp(priority), id)])
  {
    var waiting' := waiting + [Entry(Clamp(priority), id)];
    assert waiting'[..|waiting|] == waiting;
    forall p | 1 <= p <= 10
      ensures Reversed(Push(lists, id, priority)[p - 1]) == OfPriority(waiting', p)
    {
      var l := lists[p - 1];
      if p == Clamp(priority) {
        assert Reversed([id] + l) == Reversed(l) + [id];
      }
    }
  }

  /** The first id of a priority belongs to the first entry of that priority. */
  lemma {:induction false} FirstOfPriority(waiting: seq<Entry>, p: int) returns (i: nat)
    requires OfPriority(waiting, p) != []
    ensures i < |waiting| && waiting[i] == Entry(p, OfPriority(waiting, p)[0])
    ensures forall j :: 0 <= j < i ==> waiting[j].priority != p
    ensures OfPriority(Without(waiting, i), p) == OfPriority(waiting, p)[1..]
  {
    var init, last := waiting[..|waiting| - 1], waiting[|waiting| - 1];
    if OfPriority(init, p) == [] {
      i := |init|;
      NoneOfPriority(init, p);
      assert Without(waiting, i) == init;
    } else {
      i := FirstOfPriority(init, p);
      WithoutEarlier(waiting, i, p);
    }
  }

  lemma WithoutEarlier(waiting: seq<Entry>, i: nat, p: int)
    requires i < |waiting| - 1
    ensures var init, last := waiting[..|waiting| - 1], waiting[|waiting| - 1];
            OfPriority(Without(waiting, i), p) ==
            if last.priority == p then OfPriority(Without(init, i), p) + [last.id] else OfPriority(Without(init, i), p)
  {
    var init, last := waiting[..|waiting| - 1], waiting[|waiting| - 1];
    assert Without(waiting, i) == Without(init, i) + [last];
    assert (Without(init, i) + [last])[..|init| - 1] == Without(init, i);
  }

  lemma {:induction false} NoneOfPriority(waiting: seq<Entry>, p: int)
    requires OfPriority(waiting, p) == []
    ensures forall j :: 0 <= j < |waiting| ==> waiting[j].priority != p
  {
    if waiting != [] {
      NoneOfPriority(waiting[..|waiting| - 1], p);
    }
  }

  lemma {:induction false} OtherPrioritiesKept(waiting: seq<Entry>, i: nat, p: int)
    requires i < |waiting| && waiting[i].priority != p
    ensures OfPriority(Without(waiting, i), p) == OfPriority(waiting, p)
  {
    var init, last := waiting[..|waiting| - 1], waiting[|waiting| - 1];
    if i == |init| {
      assert Without(waiting, i) == init;
    } else {
      OtherPrioritiesKept(init, i, p);
      WithoutEarlier(waiting, i, p);
    }
  }

  /** What BRPOP returns is the oldest entry of the best waiting priority, and the lists then
      implement the queue without it. */
  lemma PopImplements(lists: Lists, waiting: seq<Entry>, k: int) returns (i: nat)
    requires Implements(lists, waiting) && Serves(lists, k)
    ensures Best(waiting, i) && waiting[i] == Entry(k + 1, Popped(lists, k))
    ensures Implements(PopFrom(lists, k), Without(waiting, i))
  {
    assert Reversed(lists[k])[0] == Popped(lists, k);
    i := FirstOfPriority(waiting, k + 1);
    forall j | 0 <= j < |waiting|
      ensures k + 1 <= waiting[j].priority
    {
      var p := waiting[j].priority;
      assert waiting[j] in waiting;
      if p < k + 1 {
        assert Reversed(lists[p - 1]) == [];
        NoneOfPriority(waiting, p);
      }
    }
    forall p | 1 <= p <= 10
      ensures Reversed(PopFrom(lists, k)[p - 1]) == OfPriority(Without(waiting, i), p)
    {
      if p == k + 1 {
        assert Reversed(PopFrom(lists, k)[k]) == Reversed(lists[k])[1..];
      } else {
        OtherPrioritiesKept(waiting, i, p);
      }
    }
  }

  lemma CountWithout(waiting: seq<Entry>, i: nat)
    requires i < |waiting|
    ensures multiset(waiting) == multiset(Without(waiting, i)) + multiset{waiting[i]}
  {
    assert waiting == waiting[..i] + [waiting[i]] + waiting[i + 1..];
  }

  class Queue {
    var lists: Lists
    var locks: set<TaskId>
    ghost var waiting: seq<Entry>
    ghost var pushed: multiset<Entry>
    ghost var popped: multiset<Entry>

    /** The lists implement the abstract queue, and nothing pushed is lost or invented. */
    ghost predicate Valid()
      reads this
    {
      Implements(lists, waiting) && pushed == popped + multiset(waiting)
    }

    constructor ()
      ensures Valid() && waiting == [] && locks == {} && pushed == popped == multiset{}
    {
      lists := [[], [], [], [], [], [], [], [], [], []];
      locks := {};
      waiting, pushed, popped := [], multiset{}, multiset{};
    }

    method Enqueue(id: TaskId, priority: int)
      requires Valid()
      modifies this
      ensures Valid() && lists == Push(old(lists), id, priority)
      ensures waiting == old(waiting) + [Entry(Clamp(priority), id)]
      ensures pushed == old(pushed) + multiset{Entry(Clamp(priority), id)} && popped == old(popped)
      ensures locks == old(locks)
    {
      PushImplements(lists, waiting, id, priority);
      var p := priority;
      if p < 1 {
        p := 1;
      }
      if p > 10 {
        p := 10;
      }
      lists := lists[p - 1 := [id] + lists[p - 1]];
      waiting := waiting + [Entry(p, id)];
      pushed := pushed + multiset{Entry(p, id)};
    }

    /** Taking from the back of the served list removes the best waiting entry. */
    method Take(k: nat) returns (id: TaskId, ghost i: nat)
      requires Valid() && Serves(lists, k)
      modifies this`lists, this`waiting, this`popped
      ensures Valid()
      ensures Best(old(waiting), i) && old(waiting)[i].id == id
      ensures waiting == Without(old(waiting), i)
      ensures popped == old(popped) + multiset{old(waiting)[i]}
    {
      i := PopImplements(lists, waiting, k);
      CountWithout(waiting, i);
      id := lists[k][|lists[k]| - 1];
      lists := lists[k := lists[k][..|lists[k]| - 1]];
      popped := popped + multiset{waiting[i]};
      waiting := Without(waiting, i);
    }

    /** BRPOP over the ten keys; None stands for blocking on empty lists. */
    method Dequeue() returns (r: Option<TaskId>, ghost i: nat)
      requires Valid()
      modifies this`lists, this`waiting, this`popped
      ensures Valid()
      ensures r.None? <==> old(waiting) == []
      ensures r.None? ==> waiting == old(waiting) && popped == old(popped) && lists == old(lists)
      ensures r.Some? ==>
                && Best(old(waiting), i) && old(waiting)[i].id == r.value
                && waiting == Without(old(waiting), i)
                && popped == old(popped) + multiset{old(waiting)[i]}
    {
      var k := 0;
      while k < 10 && lists[k] == []
        invariant 0 <= k <= 10
        invariant forall j :: 0 <= j < k ==> lists[j] == []
      {
        k := k + 1;
      }
      if k == 10 {
        EmptyListsEmptyQueue(lists, waiting);
        r, i := None, 0;
      } else {
        var id;
        id, i := Take(k);
        r := Some(id);
      }
    }

    /** SETNX on the lock key. */
    method AcquireLock(id: TaskId) returns (ok: bool)
      modifies this`locks
      ensures ok <==> id !in old(locks)
      ensures locks == old(locks) + {id}
    {
      ok := id !in locks;
      locks := locks + {id};
    }

    method ReleaseLock(id: TaskId)
      modifies this`locks
      ensures locks == old(locks) - {id}
    {
      locks := locks - {id};
    }
  }

  lemma EmptyListsEmptyQueue(lists: Lists, waiting: seq<Entry>)
    requires Implements(lists, waiting) && AllEmpty(lists)
    ensures waiting == []
  {
    if waiting != [] {
      var p := waiting[0].priority;
      assert waiting[0] in waiting;
      assert Reversed(lists[p - 1]) == [];
      NoneOfPriority(waiting, p);
    }
  }
}
