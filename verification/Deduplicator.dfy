/** The task deduplicator of the Go engine and the message deduplicator of the browser client:
    both forget old keys, and nobody can tell. */
module Deduplicator {
  import opened Wrappers

  type Key = string

  /** A key counts as seen for `window`. Entries older than `horizon` are removed by a cleanup, or
      by an accepted call that leaves more than `limit` entries. */
  datatype Config = Config(window: int, horizon: int, limit: Option<nat>)

  /** The Go deduplicator: a ticker removes what is older than the window. */
  function GoConfig(window: int): Config {
    Config(window, window, None)
  }

  /** The browser deduplicator: 200 ms, pruned beyond ten windows once it holds over 500 keys. */
  const BROWSER: Config := Config(200, 2000, Some(500))

  datatype Call = Ask(key: Key, now: int) | Release(key: Key) | Clean(now: int)

  type Seen = map<Key, int>

  predicate IsDuplicate(window: int, m: Seen, key: Key, now: int) {
    key in m && now - m[key] < window
  }

  function Recent(m: Seen, now: int, horizon: int): Seen {
    map k | k in m && now - m[k] <= horizon :: m[k]
  }

  function Step(cfg: Config, m: Seen, call: Call): Seen {
    match call
    case Ask(key, now) =>
      if IsDuplicate(cfg.window, m, key, now) then m
      else
        var m' := m[key := now];
        if cfg.limit.Some? && |m'| > cfg.limit.value then Recent(m', now, cfg.horizon) else m'
    case Release(key) => m - {key}
    case Clean(now) => Recent(m, now, cfg.horizon)
  }

  /** The same machine without any pruning. */
  function PlainStep(cfg: Config, m: Seen, call: Call): Seen {
    match call
    case Ask(key, now) => if IsDuplicate(cfg.window, m, key, now) then m else m[key := now]
    case Release(key) => m - {key}
    case Clean(now) => m
  }

  function Run(cfg: Config, calls: seq<Call>): Seen {
    if calls == [] then map[] else Step(cfg, Run(cfg, calls[..|calls| - 1]), calls[|calls| - 1])
  }

  function PlainRun(cfg: Config, calls: seq<Call>): Seen {
    if calls == [] then map[] else PlainStep(cfg, PlainRun(cfg, calls[..|calls| - 1]), calls[|calls| - 1])
  }

  /** What the n-th call answers (false for calls that do not ask). */
  predicate Answer(cfg: Config, calls: seq<Call>, n: nat)
    requires n < |calls|
  {
    calls[n].Ask? && IsDuplicate(cfg.window, Run(cfg, calls[..n]), calls[n].key, calls[n].now)
  }

  predicate PlainAnswer(cfg: Config, calls: seq<Call>, n: nat)
    requires n < |calls|
  {
    calls[n].Ask? && IsDuplicate(cfg.window, PlainRun(cfg, calls[..n]), calls[n].key, calls[n].now)
  }

  function TimeOf(call: Call): Option<int> {
    if call.Release? then None else Some(call.now)
  }

  /** The clock never goes back. */
  ghost predicate Clocked(calls: seq<Call>) {
    forall i, j :: 0 <= i < j < |calls| && TimeOf(calls[i]).Some? && TimeOf(calls[j]).Some? ==>
      TimeOf(calls[i]).value <= TimeOf(calls[j]).value
  }

  ghost predicate NotBefore(calls: seq<Call>, now: int) {
    forall i :: 0 <= i < |calls| && TimeOf(calls[i]).Some? ==> TimeOf(calls[i]).value <= now
  }

  // ---------------------------------------------------------------------------------------
  // Pruning is invisible
  // ---------------------------------------------------------------------------------------

  /** The pruned table is part of the plain one, and what it lacks is no longer a duplicate. */
  ghost predicate Agree(cfg: Config, m: Seen, plain: Seen, now: int) {
    && (forall k <- m :: k in plain && plain[k] == m[k])
    && (forall k <- plain :: k !in m ==> now - plain[k] >= cfg.window)
  }

  lemma StepAgrees(cfg: Config, m: Seen, plain: Seen, call: Call, now: int)
    requires cfg.horizon >= cfg.window
    requires Agree(cfg, m, plain, now)
    requires TimeOf(call).Some? ==> now <= TimeOf(call).value
    ensures Agree(cfg, Step(cfg, m, call), PlainStep(cfg, plain, call),
                  if TimeOf(call).Some? then TimeOf(call).value else now)
  {
  }

  /** Latest time of the calls so far, or `least` if there is none. */
  ghost function Latest(calls: seq<Call>, least: int): int {
    if calls == [] then least
    else
      var t := TimeOf(calls[|calls| - 1]);
      if t.Some? then t.value else Latest(calls[..|calls| - 1], least)
  }

  ghost predicate StartsAfter(calls: seq<Call>, least: int) {
    forall i :: 0 <= i < |calls| && TimeOf(calls[i]).Some? ==> least <= TimeOf(calls[i]).value
  }

  lemma {:induction false} LatestBounds(calls: seq<Call>, least: int, now: int)
    requires NotBefore(calls, now) && least <= now
    ensures Latest(calls, least) <= now
  {
    if calls != [] {
      LatestBounds(calls[..|calls| - 1], least, now);
    }
  }

  lemma {:induction false} RunsAgree(cfg: Config, calls: seq<Call>, least: int)
    requires cfg.horizon >= cfg.window && Clocked(calls) && StartsAfter(calls, least)
    ensures Agree(cfg, Run(cfg, calls), PlainRun(cfg, calls), Latest(calls, least))
  {
    if calls != [] {
      var init, call := calls[..|calls| - 1], calls[|calls| - 1];
      RunsAgree(cfg, init, least);
      if TimeOf(call).Some? {
        LatestBounds(init, least, TimeOf(call).value);
      }
      StepAgrees(cfg, Run(cfg, init), PlainRun(cfg, init), call, Latest(init, least));
    }
  }

  ghost function Least(calls: seq<Call>): (t: int)
    ensures StartsAfter(calls, t)
  {
    if calls == [] then 0
    else
      var t := Least(calls[..|calls| - 1]);
      var u := TimeOf(calls[|calls| - 1]);
      if u.Some? && u.value < t then u.value else t
  }

  /** For every call sequence with a clock that never goes back, the pruning deduplicator answers
      exactly as the one that never forgets. */
  lemma PruningInvisible(cfg: Config, calls: seq<Call>, n: nat)
    requires cfg.horizon >= cfg.window && Clocked(calls) && n < |calls|
    ensures Answer(cfg, calls, n) == PlainAnswer(cfg, calls, n)
  {
    var before := calls[..n];
    var least := Least(calls);
    RunsAgree(cfg, before, least);
    if calls[n].Ask? {
      LatestBounds(before, least, calls[n].now);
    }
  }

  // ---------------------------------------------------------------------------------------
  // Accepted calls are a window apart
  // ---------------------------------------------------------------------------------------

  /** After an accepted call and no release, the plain table remembers a time at least that late. */
  lemma {:induction false} Remembered(cfg: Config, calls: seq<Call>, i: nat, j: nat)
    requires Clocked(calls) && i < j <= |calls| && calls[i].Ask? && !PlainAnswer(cfg, calls, i)
    requires forall n :: i < n < j ==> calls[n] != Release(calls[i].key)
    ensures var u := PlainRun(cfg, calls[..j]); calls[i].key in u && u[calls[i].key] >= calls[i].now
    decreases j
  {
    assert calls[..j][..j - 1] == calls[..j - 1];
    if i < j - 1 {
      Remembered(cfg, calls, i, j - 1);
      assert calls[j - 1].Ask? ==> TimeOf(calls[i]).value <= TimeOf(calls[j - 1]).value;
    }
  }

  /** Two accepted calls for the same key are at least the window apart, unless the key was
      released in between. */
  lemma AcceptedApart(cfg: Config, calls: seq<Call>, i: nat, j: nat)
    requires cfg.horizon >= cfg.window && Clocked(calls) && i < j < |calls|
    requires calls[i].Ask? && calls[j].Ask? && calls[i].key == calls[j].key
    requires !Answer(cfg, calls, i) && !Answer(cfg, calls, j)
    requires forall n :: i < n < j ==> calls[n] != Release(calls[i].key)
    ensures calls[j].now - calls[i].now >= cfg.window
  {
    PruningInvisible(cfg, calls, i);
    PruningInvisible(cfg, calls, j);
    Remembered(cfg, calls, i, j);
  }

  /** The i-th call was accepted for the key, and the key was not released before call j. */
  ghost predicate Standing(cfg: Config, calls: seq<Call>, i: int, j: int, key: Key) {
    && 0 <= i < j <= |calls| && calls[i].Ask? && calls[i].key == key && !PlainAnswer(cfg, calls, i)
    && forall n :: i < n < j ==> calls[n] != Release(key)
  }

  /** The plain table remembers the time of the last standing call. */
  lemma {:induction false} LastStanding(cfg: Config, calls: seq<Call>, j: nat, key: Key) returns (i: int)
    requires j <= |calls| && key in PlainRun(cfg, calls[..j])
    ensures Standing(cfg, calls, i, j, key) && calls[i].now == PlainRun(cfg, calls[..j])[key]
    decreases j
  {
    var init, call := calls[..j - 1], calls[j - 1];
    assert calls[..j][..j - 1] == init;
    if call.Ask? && call.key == key && !PlainAnswer(cfg, calls, j - 1) {
      i := j - 1;
    } else {
      i := LastStanding(cfg, calls, j - 1, key);
    }
  }

  /** A call is a duplicate exactly when an earlier accepted call for its key, not released since,
      is less than the window ago. */
  lemma DuplicateIff(cfg: Config, calls: seq<Call>, j: nat)
    requires cfg.horizon >= cfg.window && Clocked(calls) && j < |calls| && calls[j].Ask?
    ensures Answer(cfg, calls, j) <==>
            exists i :: Standing(cfg, calls, i, j, calls[j].key) && calls[j].now - calls[i].now < cfg.window
  {
    PruningInvisible(cfg, calls, j);
    var key := calls[j].key;
    if Answer(cfg, calls, j) {
      var i := LastStanding(cfg, calls, j, key);
    } else if i :| Standing(cfg, calls, i, j, key) && calls[j].now - calls[i].now < cfg.window {
      Remembered(cfg, calls, i, j);
    }
  }

  /** The browser forgets another key exactly when a new message makes it hold over 500 keys and the
      key was last accepted more than two seconds ago. */
  lemma BrowserForgetsIff(m: Seen, key: Key, now: int, k: Key)
    requires k in m && k != key && !IsDuplicate(200, m, key, now)
    ensures k !in Step(BROWSER, m, Call.Ask(key, now)) <==> |m.Keys + {key}| > 500 && now - m[k] > 2000
  {
    assert m[key := now].Keys == m.Keys + {key};
    assert |m[key := now]| == |m[key := now].Keys|;
  }

  /** The browser takes a message for a duplicate exactly for 200 milliseconds. */
  lemma BrowserDuplicateIff(calls: seq<Call>, j: nat)
    requires Clocked(calls) && j < |calls| && calls[j].Ask?
    ensures Answer(BROWSER, calls, j) <==>
            exists i :: Standing(BROWSER, calls, i, j, calls[j].key) && calls[j].now - calls[i].now < 200
  {
    DuplicateIff(BROWSER, calls, j);
  }

  /** The engine's cleanup forgets exactly the keys accepted more than a window ago. */
  lemma CleanupForgetsIff(window: int, m: Seen, now: int, k: Key)
    requires k in m
    ensures k !in Step(GoConfig(window), m, Clean(now)) <==> now - m[k] > window
  {
  }

  // ---------------------------------------------------------------------------------------
  // The two objects
  // ---------------------------------------------------------------------------------------

  /** deduplicator in the task engine. */
  class TaskDeduplicator {
    var inflight: Seen
    const window: int

    constructor (window: int)
      ensures inflight == map[] && this.window == window
    {
      inflight := map[];
      this.window := window;
    }

    /** The ticker's loop over the table. */
    method Cleanup(now: int)
      modifies this
      ensures inflight == Step(GoConfig(window), old(inflight), Clean(now))
    {
      inflight := RemoveOld(inflight, now, window);
    }

    method Ask(taskType: string, scopeId: string, now: int) returns (dup: bool)
      modifies this
      ensures scopeId == "" ==> !dup && inflight == old(inflight)
      ensures scopeId != "" ==>
                var key := taskType + ":" + scopeId;
                && dup == IsDuplicate(window, old(inflight), key, now)
                && inflight == Step(GoConfig(window), old(inflight), Call.Ask(key, now))
    {
      if scopeId == "" {
        return false;
      }
      var key := taskType + ":" + scopeId;
      if key in inflight && now - inflight[key] < window {
        return true;
      }
      inflight := inflight[key := now];
      return false;
    }

    method Release(taskType: string, scopeId: string)
      modifies this
      ensures inflight == if scopeId == "" then old(inflight)
                          else Step(GoConfig(window), old(inflight), Call.Release(taskType + ":" + scopeId))
    {
      if scopeId != "" {
        inflight := inflight - {taskType + ":" + scopeId};
      }
    }
  }

  /** MessageDeduplicator in the browser client. */
  class MessageDeduplicator {
    var seen: Seen

    constructor ()
      ensures seen == map[]
    {
      seen := map[];
    }

    method Ask(key: Key, now: int) returns (dup: bool)
      modifies this
      ensures dup == IsDuplicate(BROWSER.window, old(seen), key, now)
      ensures seen == Step(BROWSER, old(seen), Call.Ask(key, now))
    {
      if key in seen && now - seen[key] < 200 {
        return true;
      }
      seen := seen[key := now];
      if |seen| > 500 {
        seen := RemoveOld(seen, now, 200 * 10);
      }
      return false;
    }
  }

  /** Deleting from a map while iterating over it. */
  method RemoveOld(m: Seen, now: int, horizon: int) returns (r: Seen)
    ensures r == Recent(m, now, horizon)
  {
    r := m;
    var todo := m.Keys;
    while todo != {}
      invariant todo <= m.Keys
      invariant r.Keys <= m.Keys
      invariant forall k <- m :: k in r <==> k in todo || now - m[k] <= horizon
      invariant forall k <- r :: r[k] == m[k]
      decreases |todo|
    {
      var k :| k in todo;
      if now - m[k] > horizon {
        r := r - {k};
      }
      todo := todo - {k};
    }
    assert r.Keys == Recent(m, now, horizon).Keys;
  }
}
