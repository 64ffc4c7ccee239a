/** The temporary lockout after repeated failures (app/security.py, AttemptLimiter).

    The limiter keeps a bounded dictionary and forgets entries.  Its specification keeps every
    failure time for ever: `After` folds a key's whole failure history.  The class is proved to give
    the answers of that unbounded history, and the lockout bound is proved about the history. */
module Lockout {
  import opened Wrappers

  /** One dictionary value: failure count, time of the last failure, time until which the key is locked. */
  datatype Entry = Entry(count: nat, last: real, until: real)

  datatype Config = Config(maxFailures: nat, baseLockout: real, maxLockout: real, window: real, maxKeys: nat)

  type Settings = c: Config | c.window >= 0.0 && c.maxKeys > 0 witness Config(5, 60.0, 900.0, 900.0, 10000)

  const DEFAULTS: Settings := Config(5, 60.0, 900.0, 900.0, 10000)

  function Doubled(x: real, times: nat): real {
    if times == 0 then x else 2.0 * Doubled(x, times - 1)
  }

  function LockoutFor(c: Config, count: nat): real
    requires count >= c.maxFailures
  {
    var d := Doubled(c.baseLockout, count - c.maxFailures);
    if d <= c.maxLockout then d else c.maxLockout
  }

  /** The entry after one more failure at `now`. */
  function Bump(c: Config, e: Option<Entry>, now: real): Entry {
    var before := if e.None? || now - e.value.last > c.window then 0 else e.value.count;
    var count := before + 1;
    Entry(count, now, if count >= c.maxFailures then now + LockoutFor(c, count) else 0.0)
  }

  function Wait(e: Option<Entry>, now: real): real {
    if e.None? || e.value.until <= now then 0.0 else e.value.until - now
  }

  predicate Stale(c: Config, e: Entry, now: real) {
    e.until <= now && now - e.last > c.window
  }

  /** The entry a limiter with unbounded memory holds once the first `i` failures at `times` happened. */
  function Before(c: Config, times: seq<real>, i: nat): Option<Entry>
    requires i <= |times|
  {
    if i == 0 then None else Some(Bump(c, Before(c, times, i - 1), times[i - 1]))
  }

  function After(c: Config, times: seq<real>): Option<Entry> {
    Before(c, times, |times|)
  }

  lemma {:induction false} LaterFailuresChangeNothing(c: Config, times: seq<real>, more: seq<real>, i: nat)
    requires i <= |times|
    ensures Before(c, times + more, i) == Before(c, times, i)
  {
    if i > 0 {
      LaterFailuresChangeNothing(c, times, more, i - 1);
    }
  }

  ghost function FailuresOf(history: map<string, seq<real>>, key: string): seq<real> {
    if key in history then history[key] else []
  }

  /** `e` is the entry of the whole history, or it is gone and that entry was stale. */
  ghost predicate Represents(c: Config, e: Option<Entry>, failures: seq<real>, now: real) {
    var full := After(c, failures);
    && (full.Some? ==> full.value.last <= now)
    && (e == full || (e.None? && Stale(c, full.value, now)))
  }

  ghost predicate Tracks(c: Config, state: map<string, Entry>, history: map<string, seq<real>>, now: real) {
    forall k: string :: Represents(c, Lookup(state, k), FailuresOf(history, k), now)
  }

  function NotStale(c: Config, state: map<string, Entry>, now: real): set<string> {
    set k | k in state && !Stale(c, state[k], now)
  }

  /** Neither a wait nor a failure, now or later, comes out otherwise without the entry. */
  ghost predicate Forgettable(c: Config, e: Entry, now: real) {
    forall later: real :: later >= now ==> Wait(Some(e), later) == Wait(None, later) && Bump(c, Some(e), later) == Bump(c, None, later)
  }

  /** Pruning first keeps just the entries something later could still tell from none. */
  lemma NotStaleMatters(c: Config, state: map<string, Entry>, now: real)
    requires forall k <- state :: state[k].count > 0
    ensures forall k :: k in NotStale(c, state, now) <==> k in state && !Forgettable(c, state[k], now)
  {
    forall k <- state ensures Forgettable(c, state[k], now) <==> k !in NotStale(c, state, now) {
      assert k in NotStale(c, state, now) ==>
        Wait(Some(state[k]), now) != Wait(None, now) || Bump(c, Some(state[k]), now) != Bump(c, None, now);
    }
  }

  /** `gone` was the oldest entry of those other than `key`. */
  predicate WasOldest(before: map<string, Entry>, after: map<string, Entry>, key: string, gone: string) {
    gone in before && forall k <- after :: k in before && k != key ==> before[gone].last <= before[k].last
  }

  lemma RecordKeepsTracking(c: Settings, state: map<string, Entry>, history: map<string, seq<real>>,
                            clock: real, key: string, now: real)
    requires Tracks(c, state, history, clock) && clock <= now
    ensures Tracks(c, state[key := Bump(c, Lookup(state, key), now)],
                   history[key := FailuresOf(history, key) + [now]], now)
  {
    var state', history' := state[key := Bump(c, Lookup(state, key), now)], history[key := FailuresOf(history, key) + [now]];
    LaterFailuresChangeNothing(c, FailuresOf(history, key), [now], |FailuresOf(history, key)|);
    forall k: string ensures Represents(c, Lookup(state', k), FailuresOf(history', k), now) {
      assert Represents(c, Lookup(state, k), FailuresOf(history, k), clock);
    }
  }

  lemma PruneKeepsTracking(c: Settings, state: map<string, Entry>, kept: map<string, Entry>,
                           history: map<string, seq<real>>, now: real)
    requires Tracks(c, state, history, now)
    requires kept.Keys <= NotStale(c, state, now) && forall k <- kept :: kept[k] == state[k]
    ensures Tracks(c, kept, history - (NotStale(c, state, now) - kept.Keys), now)
  {
    var left := history - (NotStale(c, state, now) - kept.Keys);
    forall k: string ensures Represents(c, Lookup(kept, k), FailuresOf(left, k), now) {
      assert Represents(c, Lookup(state, k), FailuresOf(history, k), now);
    }
  }

  lemma DropKeepsTracking(c: Settings, state: map<string, Entry>, history: map<string, seq<real>>, key: string, now: real)
    requires Tracks(c, state, history, now)
    ensures Tracks(c, state - {key}, history - {key}, now)
  {
    forall k: string ensures Represents(c, Lookup(state - {key}, k), FailuresOf(history - {key}, k), now) {
      assert Represents(c, Lookup(state, k), FailuresOf(history, k), now);
    }
  }

  /** The entries left once all but `room` are dropped, oldest failure first; `key` is the newest. */
  method DropOldest(live: map<string, Entry>, key: string, room: nat) returns (kept: map<string, Entry>)
    requires key in live && room > 0 && forall k <- live :: live[k].last <= live[key].last
    ensures key in kept && |kept| <= room
    ensures kept.Keys <= live.Keys && forall k <- kept :: kept[k] == live[k]
    ensures |live| <= room ==> kept == live
    ensures forall gone <- live :: gone !in kept ==> WasOldest(live, kept, key, gone)
  {
    kept := live;
    while |kept| > room
      invariant key in kept && |kept| <= |live|
      invariant kept.Keys <= live.Keys && forall k <- kept :: kept[k] == live[k]
      invariant |live| <= room ==> kept == live
      invariant forall gone <- live :: gone !in kept ==> WasOldest(live, kept, key, gone)
      decreases |kept|
    {
      assert kept.Keys != {key} by { assert |kept.Keys| == |kept|; }
      var oldest := Oldest(kept.Keys - {key}, kept);
      kept := kept - {oldest};
    }
  }

  class AttemptLimiter {
    const config: Settings
    var state: map<string, Entry>

    ghost var history: map<string, seq<real>>  // failures since the last success, reset or eviction
    ghost var clock: real                      // latest time seen

    ghost predicate Valid()
      reads this
    {
      |state| <= config.maxKeys && Tracks(config, state, history, clock)
    }

    constructor (config: Settings)
      ensures Valid() && this.config == config
      ensures history == map[] && clock == 0.0
    {
      this.config := config;
      state, history, clock := map[], map[], 0.0;
    }

    method RetryAfter(key: string, now: real) returns (seconds: real)
      requires Valid() && clock <= now
      ensures seconds == Wait(After(config, FailuresOf(history, key)), now)
    {
      if key !in state {
        return 0.0;
      }
      var left := state[key].until - now;
      seconds := if left > 0.0 then left else 0.0;
    }

    method Counted(key: string, now: real) returns (entry: Entry)
      ensures entry == Bump(config, Lookup(state, key), now)
    {
      var count, last := 0, now;
      if key in state {
        count, last := state[key].count, state[key].last;
      }
      if now - last > config.window {
        count := 0;
      }
      count := count + 1;
      var lockedUntil := 0.0;
      if count >= config.maxFailures {
        lockedUntil := now + LockoutFor(config, count);
      }
      entry := Entry(count, now, lockedUntil);
    }

    method Failure(key: string, now: real)
      requires Valid() && clock <= now
      modifies this
      ensures Valid() && clock == now
      ensures FailuresOf(history, key) == old(FailuresOf(history, key)) + [now]
      ensures forall k <- history :: k == key || (k in old(history) && history[k] == old(history[k]))
      // nothing is forgotten while the keys that still matter fit, and then only the oldest is
      ensures |NotStale(config, old(state), now) + {key}| <= config.maxKeys ==> old(history).Keys <= history.Keys
      ensures forall gone <- old(history) :: gone !in history ==> WasOldest(old(state), state, key, gone)
    {
      Record(key, now);
      assert NotStale(config, state, now) == NotStale(config, old(state), now) + {key};
      if |state| > config.maxKeys {
        Prune(key, now);
      }
    }

    method Record(key: string, now: real)
      requires Valid() && clock <= now
      modifies this
      ensures Tracks(config, state, history, now) && clock == now
      ensures state == old(state)[key := Bump(config, Lookup(old(state), key), now)]
      ensures history == old(history)[key := old(FailuresOf(history, key)) + [now]]
    {
      RecordKeepsTracking(config, state, history, clock, key, now);
      var entry := Counted(key, now);
      state := state[key := entry];
      history := history[key := FailuresOf(history, key) + [now]];
      clock := now;
    }

    /** Drops what is stale, then the oldest entries while there are too many.  `key` just failed. */
    method Prune(key: string, now: real)
      requires Tracks(config, state, history, now) && clock == now
      requires key in state && state[key].last == now
      modifies this
      ensures Valid() && clock == now
      ensures key in history <==> key in old(history)
      ensures forall k <- history :: k in old(history) && history[k] == old(history[k])
      ensures forall k <- state :: k in old(state) && state[k] == old(state[k])
      ensures |NotStale(config, old(state), now)| <= config.maxKeys ==> old(history).Keys <= history.Keys
      ensures forall gone <- old(history) :: gone !in history ==> WasOldest(old(state), state, key, gone)
    {
      forall k <- state ensures state[k].last <= now {
        assert Represents(config, Lookup(state, k), FailuresOf(history, k), now);
      }
      var live := state - (set k | k in state && Stale(config, state[k], now));
      assert live.Keys == NotStale(config, state, now);
      var kept := DropOldest(live, key, config.maxKeys);
      PruneKeepsTracking(config, state, kept, history, now);
      state, history := kept, history - (live.Keys - kept.Keys);
    }

    method Success(key: string)
      requires Valid()
      modifies this
      ensures Valid() && clock == old(clock)
      ensures history == old(history) - {key} && state == old(state) - {key}
    {
      DropKeepsTracking(config, state, history, key, clock);
      state := state - {key};
      history := history - {key};
    }

    method Reset()
      requires Valid()
      modifies this
      ensures Valid() && clock == old(clock)
      ensures history == map[] && state == map[]
    {
      state, history := map[], map[];
    }
  }

  /** A key of `keys` whose last failure is the oldest. */
  method Oldest(keys: set<string>, entries: map<string, Entry>) returns (oldest: string)
    requires keys != {} && keys <= entries.Keys
    ensures oldest in keys
    ensures forall k <- keys :: entries[oldest].last <= entries[k].last
  {
    oldest :| oldest in keys;
    var left := keys - {oldest};
    while left != {}
      invariant left <= keys && oldest in keys
      invariant forall k <- keys - left :: entries[oldest].last <= entries[k].last
      decreases |left|
    {
      var k :| k in left;
      if entries[k].last < entries[oldest].last {
        oldest := k;
      }
      left := left - {k};
    }
  }

  // ── What a key's failure history says ──

  /** The last `n` failures came in a row, none more than a window after the one before, and the one before them did not. */
  ghost predicate IsStreak(c: Config, times: seq<real>, n: nat) {
    && 0 < n <= |times|
    && (forall i :: |times| - n < i < |times| ==> Follows(c, times, i))
    && (n < |times| ==> !Follows(c, times, |times| - n))
  }

  ghost predicate Follows(c: Config, times: seq<real>, i: int)
    requires 0 < i < |times|
  {
    times[i] <= times[i - 1] + c.window
  }

  lemma {:induction false} CountIsStreak(c: Config, times: seq<real>, i: nat)
    requires 0 < i <= |times|
    ensures Before(c, times, i).value.last == times[i - 1]
    ensures IsStreak(c, times[..i], Before(c, times, i).value.count)
  {
    var n := Before(c, times, i).value.count;
    if i > 1 {
      CountIsStreak(c, times, i - 1);
      assert times[..i][..i - 1] == times[..i - 1];
      StreakGoesOn(c, times[..i], Before(c, times, i - 1).value.count);
    }
  }

  lemma StreakGoesOn(c: Config, times: seq<real>, n: nat)
    requires |times| > 1 && IsStreak(c, times[..|times| - 1], n)
    ensures IsStreak(c, times, if Follows(c, times, |times| - 1) then n + 1 else 1)
  {
    var rest := times[..|times| - 1];
    forall i | 0 < i < |rest| ensures Follows(c, times, i) == Follows(c, rest, i) { }
  }

  /** A key is told to wait exactly after a streak of `maxFailures` or more: from its last failure on the base time, doubled
      for each failure more, up to the most. */
  lemma WaitsExactly(c: Config, times: seq<real>, n: nat, now: real)
    requires IsStreak(c, times, n) && now >= times[|times| - 1] >= 0.0
    ensures Wait(After(c, times), now) ==
              if n < c.maxFailures then 0.0
              else Rest(times[|times| - 1] + Lesser(Doubled(c.baseLockout, n - c.maxFailures), c.maxLockout) - now)
  {
    CountIsStreak(c, times, |times|);
    assert times[..|times|] == times;
    StreaksAgree(c, times, n, After(c, times).value.count);
  }

  lemma StreaksAgree(c: Config, times: seq<real>, n: nat, m: nat)
    requires IsStreak(c, times, n) && IsStreak(c, times, m)
    ensures n == m
  {
  }

  function Rest(x: real): real {
    if x > 0.0 then x else 0.0
  }

  function Lesser(x: real, y: real): real {
    if x <= y then x else y
  }

  lemma NoFailureNoWait(c: Config, now: real)
    ensures Wait(After(c, []), now) == 0.0
  {
  }

  /** By default: five failures in a row cost a minute, then two, four, eight, and a quarter of an hour from the ninth on. */
  lemma DefaultWaits(times: seq<real>, n: nat)
    requires IsStreak(DEFAULTS, times, n) && times[|times| - 1] >= 0.0
    ensures Wait(After(DEFAULTS, times), times[|times| - 1]) ==
              if n < 5 then 0.0 else if n == 5 then 60.0 else if n == 6 then 120.0 else if n == 7 then 240.0
              else if n == 8 then 480.0 else 900.0
  {
    WaitsExactly(DEFAULTS, times, n, times[|times| - 1]);
    if n >= 9 { DefaultLockouts(n); }
    assert Doubled(60.0, 3) == 480.0;
  }

  // ── The lockout bound, about a key's whole failure history ──

  ghost predicate UnlockedAt(c: Config, times: seq<real>, i: nat)
    requires i < |times|
  {
    Wait(Before(c, times, i), times[i]) == 0.0
  }

  /** The failures come in time order and each one while the key is not locked. */
  ghost predicate Respected(c: Config, times: seq<real>) {
    && (forall i, j :: 0 <= i <= j < |times| ==> times[i] <= times[j])
    && (forall i :: 0 <= i < |times| ==> UnlockedAt(c, times, i))
  }

  /** A caller that asks `RetryAfter` first, and fails only when told 0, keeps the history respected. */
  lemma GuardKeepsRespected(c: Config, times: seq<real>, now: real)
    requires Respected(c, times) && Wait(After(c, times), now) == 0.0
    requires forall i :: 0 <= i < |times| ==> times[i] <= now
    ensures Respected(c, times + [now])
  {
    var more := times + [now];
    forall i | 0 <= i < |more| ensures UnlockedAt(c, more, i) {
      LaterFailuresChangeNothing(c, times, [now], i);
      assert i < |times| ==> UnlockedAt(c, times, i);
    }
  }

  ghost function CountAt(c: Config, times: seq<real>, i: nat): nat
    requires i < |times|
  {
    Before(c, times, i + 1).value.count
  }

  lemma {:induction false} CountsClimb(c: Config, times: seq<real>, i: nat, j: nat)
    requires i <= j < |times| && c.window >= 0.0
    requires forall m, n :: 0 <= m <= n < |times| ==> times[m] <= times[n]
    requires times[j] - times[i] <= c.window
    ensures CountAt(c, times, j) >= j - i + 1
    decreases j
  {
    if i < j {
      assert times[j - 1] <= times[j] && times[i] <= times[j - 1];
      CountsClimb(c, times, i, j - 1);
    }
  }

  lemma NextFailureWaits(c: Config, times: seq<real>, i: nat)
    requires i + 1 < |times| && Respected(c, times)
    requires CountAt(c, times, i) >= c.maxFailures
    ensures times[i + 1] >= times[i] + LockoutFor(c, CountAt(c, times, i))
  {
    assert UnlockedAt(c, times, i + 1);
  }

  lemma {:induction false} DoublingGrows(x: real, few: nat, many: nat)
    requires few <= many && x >= 0.0
    ensures 0.0 <= Doubled(x, few) <= Doubled(x, many)
    decreases many
  {
    if few < many {
      DoublingGrows(x, few, many - 1);
    } else if few > 0 {
      DoublingGrows(x, few - 1, few - 1);
    }
  }

  lemma DefaultLockouts(count: nat)
    requires count >= 5
    ensures LockoutFor(DEFAULTS, count) >= 60.0
    ensures count >= 9 ==> LockoutFor(DEFAULTS, count) == 900.0
  {
    DoublingGrows(60.0, 0, count - 5);
    if count >= 9 {
      assert Doubled(60.0, 4) == 960.0;
      DoublingGrows(60.0, 4, count - 5);
    }
  }

  /** With the default settings, any closed interval of 900 seconds holds at most nine failures of a key. */
  lemma AtMostNineFailures(times: seq<real>, i: nat, j: nat)
    requires Respected(DEFAULTS, times)
    requires i <= j < |times| && times[j] - times[i] <= 900.0
    ensures j - i + 1 <= 9
  {
    if j - i + 1 > 9 {
      CountsClimb(DEFAULTS, times, i, i + 4);
      NextFailureWaits(DEFAULTS, times, i + 4);
      DefaultLockouts(CountAt(DEFAULTS, times, i + 4));
      CountsClimb(DEFAULTS, times, i, i + 8);
      NextFailureWaits(DEFAULTS, times, i + 8);
      DefaultLockouts(CountAt(DEFAULTS, times, i + 8));
    }
  }

  /** The bound is reached: nine failures fit in exactly 900 seconds. */
  lemma NineFailuresFit()
    ensures exists times: seq<real> :: Respected(DEFAULTS, times) && |times| == 9 && times[8] - times[0] == 900.0
  {
    var c, times := DEFAULTS, [0.0, 0.0, 0.0, 0.0, 0.0, 60.0, 180.0, 420.0, 900.0];
    assert Before(c, times, 1) == Some(Entry(1, 0.0, 0.0));
    assert Before(c, times, 2) == Some(Entry(2, 0.0, 0.0));
    assert Before(c, times, 3) == Some(Entry(3, 0.0, 0.0));
    assert Before(c, times, 4) == Some(Entry(4, 0.0, 0.0));
    assert Before(c, times, 5) == Some(Entry(5, 0.0, 60.0));
    assert Before(c, times, 6) == Some(Entry(6, 60.0, 180.0));
    assert Before(c, times, 7) == Some(Entry(7, 180.0, 420.0));
    assert Before(c, times, 8) == Some(Entry(8, 420.0, 900.0));
    assert Respected(c, times);
  }
}
