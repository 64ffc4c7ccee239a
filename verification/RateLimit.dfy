/** The fixed-window rate limiter (app/security.py, RateLimiter).

    The dictionary is bounded and expired keys are purged from it.  The specification folds all hits
    a key was ever allowed; the class answers as that fold does, and the rate bound is proved of it. */
module RateLimit {
  import opened Wrappers

  /** One dictionary value: when the key's window started and the hits allowed in it. */
  datatype Window = Window(start: real, count: nat)

  /** The window a hit at `now` falls in, before it is counted. */
  function Current(length: real, w: Option<Window>, now: real): Window {
    if w.None? || now - w.value.start >= length then Window(now, 0) else w.value
  }

  /** The window an unbounded limiter holds once the first `i` hits at `times` were allowed. */
  function Before(length: real, times: seq<real>, i: nat): Option<Window>
    requires i <= |times|
  {
    if i == 0 then None
    else
      var w := Current(length, Before(length, times, i - 1), times[i - 1]);
      Some(Window(w.start, w.count + 1))
  }

  function After(length: real, times: seq<real>): Option<Window> {
    Before(length, times, |times|)
  }

  lemma {:induction false} LaterHitsChangeNothing(length: real, times: seq<real>, more: seq<real>, i: nat)
    requires i <= |times|
    ensures Before(length, times + more, i) == Before(length, times, i)
  {
    if i > 0 {
      LaterHitsChangeNothing(length, times, more, i - 1);
    }
  }

  function Allowed(limit: nat, length: real, w: Option<Window>, now: real): bool {
    Current(length, w, now).count < limit
  }

  ghost function HitsOf(history: map<string, seq<real>>, key: string): seq<real> {
    if key in history then history[key] else []
  }

  /** `w` is the window of all the hits, or it is gone and that window had expired. */
  ghost predicate Represents(length: real, w: Option<Window>, hits: seq<real>, now: real) {
    var full := After(length, hits);
    w == full || (w.None? && now - full.value.start >= length)
  }

  ghost predicate Tracks(length: real, hits: map<string, Window>, history: map<string, seq<real>>, now: real) {
    forall k: string :: Represents(length, Lookup(hits, k), HitsOf(history, k), now)
  }

  lemma HitKeepsTracking(length: real, hits: map<string, Window>, history: map<string, seq<real>>,
                         clock: real, key: string, now: real)
    requires Tracks(length, hits, history, clock) && clock <= now
    ensures var w := Current(length, Lookup(hits, key), now);
            Tracks(length, hits[key := Window(w.start, w.count + 1)], history[key := HitsOf(history, key) + [now]], now)
  {
    var w := Current(length, Lookup(hits, key), now);
    var hits', history' := hits[key := Window(w.start, w.count + 1)], history[key := HitsOf(history, key) + [now]];
    LaterHitsChangeNothing(length, HitsOf(history, key), [now], |HitsOf(history, key)|);
    forall k: string ensures Represents(length, Lookup(hits', k), HitsOf(history', k), now) {
      assert Represents(length, Lookup(hits, k), HitsOf(history, k), clock);
    }
  }

  lemma TimeKeepsTracking(length: real, hits: map<string, Window>, history: map<string, seq<real>>, clock: real, now: real)
    requires Tracks(length, hits, history, clock) && clock <= now
    ensures Tracks(length, hits, history, now)
  {
    forall k: string ensures Represents(length, Lookup(hits, k), HitsOf(history, k), now) {
      assert Represents(length, Lookup(hits, k), HitsOf(history, k), clock);
    }
  }

  function Unexpired(length: real, hits: map<string, Window>, now: real): map<string, Window> {
    map k | k in hits && now - hits[k].start < length :: hits[k]
  }

  /** No hit, now or later, is answered otherwise without the window. */
  ghost predicate Forgettable(length: real, w: Window, now: real) {
    forall later: real :: later >= now ==> Current(length, Some(w), later) == Current(length, None, later)
  }

  /** The purge keeps, as they are, just the windows some later hit could still tell from none. */
  lemma UnexpiredMatters(length: real, hits: map<string, Window>, now: real)
    requires forall k <- hits :: hits[k].count > 0
    ensures forall k :: k in Unexpired(length, hits, now) <==> k in hits && !Forgettable(length, hits[k], now)
    ensures forall k <- Unexpired(length, hits, now) :: Unexpired(length, hits, now)[k] == hits[k]
  {
    forall k <- hits ensures Forgettable(length, hits[k], now) <==> k !in Unexpired(length, hits, now) {
      assert k in Unexpired(length, hits, now) ==> Current(length, Some(hits[k]), now) != Current(length, None, now);
    }
  }

  lemma PurgeKeepsTracking(length: real, hits: map<string, Window>, history: map<string, seq<real>>, now: real)
    requires Tracks(length, hits, history, now)
    ensures Tracks(length, Unexpired(length, hits, now), history, now)
  {
    forall k: string ensures Represents(length, Lookup(Unexpired(length, hits, now), k), HitsOf(history, k), now) {
      assert Represents(length, Lookup(hits, k), HitsOf(history, k), now);
    }
  }

  class RateLimiter {
    const limit: nat
    const length: real
    const maxKeys: nat
    var hits: map<string, Window>

    ghost var history: map<string, seq<real>>  // the hits allowed so far
    ghost var clock: real

    ghost predicate Valid()
      reads this
    {
      |hits| <= maxKeys && Tracks(length, hits, history, clock)
    }

    constructor (limit: nat, length: real, maxKeys: nat)
      ensures Valid() && history == map[] && clock == 0.0
      ensures this.limit == limit && this.length == length && this.maxKeys == maxKeys
    {
      this.limit, this.length, this.maxKeys := limit, length, maxKeys;
      hits, history, clock := map[], map[], 0.0;
    }

    /** A tracked key is answered as if nothing had ever been purged; an untracked one may be turned
        away only while the table is full of unexpired windows. */
    method Allow(key: string, now: real) returns (ok: bool)
      requires Valid() && clock <= now
      modifies this
      ensures Valid() && clock == now
      ensures ok ==> Allowed(limit, length, After(length, old(HitsOf(history, key))), now)
      ensures !ok && Allowed(limit, length, After(length, old(HitsOf(history, key))), now) ==>
                key !in old(hits) && |Unexpired(length, old(hits), now)| >= maxKeys
      ensures history == if ok then old(history)[key := old(HitsOf(history, key)) + [now]] else old(history)
    {
      assert Represents(length, Lookup(hits, key), HitsOf(history, key), clock);
      TimeKeepsTracking(length, hits, history, clock, now);
      clock := now;
      var start, count := now, 0;
      if key in hits {
        start, count := hits[key].start, hits[key].count;
      }
      if now - start >= length {
        start, count := now, 0;
      }
      if count >= limit {
        return false;
      }
      if key !in hits && |hits| >= maxKeys {
        PurgeKeepsTracking(length, hits, history, now);
        UnexpiredShrinks(length, hits, now);
        hits := Unexpired(length, hits, now);
        if |hits| >= maxKeys {
          return false;
        }
      }
      HitKeepsTracking(length, hits, history, now, key, now);
      hits := hits[key := Window(start, count + 1)];
      history := history[key := HitsOf(history, key) + [now]];
      return true;
    }

    method Reset()
      modifies this
      ensures Valid() && history == map[] && hits == map[]
    {
      hits, history := map[], map[];
    }
  }

  lemma UnexpiredShrinks(length: real, hits: map<string, Window>, now: real)
    ensures |Unexpired(length, hits, now)| <= |hits|
  {
    var left := Unexpired(length, hits, now);
    assert left.Keys <= hits.Keys;
    SubsetSize(left.Keys, hits.Keys);
  }

  // ── The rate bound, about all the hits a key was allowed ──

  ghost predicate AllowedAt(limit: nat, length: real, times: seq<real>, i: nat)
    requires i < |times|
  {
    Allowed(limit, length, Before(length, times, i), times[i])
  }

  /** Hits in time order, each one allowed when it came. */
  ghost predicate AllAllowed(limit: nat, length: real, times: seq<real>) {
    && (forall i, j :: 0 <= i <= j < |times| ==> times[i] <= times[j])
    && (forall i :: 0 <= i < |times| ==> AllowedAt(limit, length, times, i))
  }

  /** A limiter's own history is such a sequence: allowing one more hit keeps it so. */
  lemma AllowKeepsAllAllowed(limit: nat, length: real, times: seq<real>, now: real)
    requires AllAllowed(limit, length, times) && Allowed(limit, length, After(length, times), now)
    requires forall i :: 0 <= i < |times| ==> times[i] <= now
    ensures AllAllowed(limit, length, times + [now])
  {
    var more := times + [now];
    forall i | 0 <= i < |more| ensures AllowedAt(limit, length, more, i) {
      LaterHitsChangeNothing(length, times, [now], i);
      assert i < |times| ==> AllowedAt(limit, length, times, i);
    }
  }

  ghost function WindowAt(length: real, times: seq<real>, i: nat): Window
    requires i < |times|
  {
    Before(length, times, i + 1).value
  }

  /** Between two hits the window either stays, and counts them all, or moves on by its whole length. */
  lemma {:induction false} WindowMoves(limit: nat, length: real, times: seq<real>, i: nat, j: nat)
    requires i <= j < |times| && AllAllowed(limit, length, times) && length > 0.0
    ensures var w, v := WindowAt(length, times, i), WindowAt(length, times, j);
            && 1 <= v.count <= limit
            && v.start <= times[j] < v.start + length
            && ((v.start == w.start && v.count == w.count + (j - i)) || v.start >= w.start + length)
    decreases j
  {
    assert AllowedAt(limit, length, times, j);
    if j > 0 {
      WindowMoves(limit, length, times, if i < j then i else j - 1, j - 1);
    }
  }

  /** `limit` hits after a given one, a new window has started, later than the given one's window ended. */
  lemma LimitHitsLater(limit: nat, length: real, times: seq<real>, i: nat)
    requires AllAllowed(limit, length, times) && length > 0.0 && i + limit < |times|
    ensures times[i] < WindowAt(length, times, i).start + length <= WindowAt(length, times, i + limit).start
    ensures WindowAt(length, times, i + limit).start <= times[i + limit]
  {
    WindowMoves(limit, length, times, i, i);
    WindowMoves(limit, length, times, i, i + limit);
  }

  /** At most `2 * limit` hits of a key fall in any closed interval as long as the window. */
  lemma AtMostTwiceTheLimit(limit: nat, length: real, times: seq<real>, from: real, i: nat, j: nat)
    requires AllAllowed(limit, length, times) && length > 0.0
    requires i <= j < |times| && from <= times[i] && times[j] <= from + length
    ensures j - i + 1 <= 2 * limit
  {
    if j - i + 1 > 2 * limit {
      LimitHitsLater(limit, length, times, i);
      WindowMoves(limit, length, times, i + limit, i + 2 * limit);
    }
  }

  lemma FirstStartsIt(limit: nat, length: real, times: seq<real>, i: nat)
    requires AllAllowed(limit, length, times) && length > 0.0 && i < |times| && WindowAt(length, times, i).count == 1
    ensures WindowAt(length, times, i).start == times[i]
  {
    var w := Current(length, Before(length, times, i), times[i]);
    assert Before(length, times, i + 1) == Some(Window(w.start, w.count + 1));
    if i > 0 {
      WindowMoves(limit, length, times, i - 1, i - 1);
      assert Before(length, times, i).value.count >= 1;
    }
  }

  /** Without its right end the interval holds one fewer: when it holds the whole of one window's hits, the next window's
      come too late. */
  lemma OneFewerInHalfOpen(limit: nat, length: real, times: seq<real>, from: real, i: nat, j: nat)
    requires AllAllowed(limit, length, times) && length > 0.0
    requires i <= j < |times| && from <= times[i] && times[j] < from + length
    ensures j - i + 1 <= 2 * limit - 1
  {
    WindowMoves(limit, length, times, i, i);
    if j - i + 1 > 2 * limit - 1 {
      if WindowAt(length, times, i).count == 1 {
        LimitHitsLater(limit, length, times, i);
        FirstStartsIt(limit, length, times, i);
      } else {
        var next := i + limit - 1;
        WindowMoves(limit, length, times, i, next);
        WindowMoves(limit, length, times, next, next + limit);
      }
    }
  }

  // ── Both bounds are reached ──

  /** One hit at 0, `limit - 1` at `late` and `limit` at the window's end. */
  function Burst(limit: nat, length: real, late: real): seq<real> {
    seq(2 * limit, k => if k == 0 then 0.0 else if k < limit then late else length)
  }

  lemma {:induction false} BurstWindows(limit: nat, length: real, late: real, i: nat)
    requires 0 < i <= 2 * limit && 0.0 <= late < length
    ensures Before(length, Burst(limit, length, late), i) == Some(if i <= limit then Window(0.0, i) else Window(length, i - limit))
  {
    if i > 1 { BurstWindows(limit, length, late, i - 1); }
  }

  lemma BurstIsAllowed(limit: nat, length: real, late: real)
    requires 0.0 <= late < length
    ensures AllAllowed(limit, length, Burst(limit, length, late))
  {
    forall i | 0 <= i < 2 * limit ensures AllowedAt(limit, length, Burst(limit, length, late), i) {
      if i > 0 { BurstWindows(limit, length, late, i); }
    }
  }

  /** The last `n` hits of an allowed history all come from `from` on, up to `to`. */
  ghost predicate Fits(limit: nat, length: real, times: seq<real>, n: nat, from: real, to: real) {
    AllAllowed(limit, length, times) && 0 < n <= |times| && from <= times[|times| - n] && times[|times| - 1] <= to
  }

  /** For every limit and window: `2 * limit` hits in a closed interval of its length, and one fewer in a shorter one, so in a
      half-open one. */
  lemma TwiceTheLimitFits(limit: nat, length: real)
    requires limit > 0 && length > 0.0
    ensures Fits(limit, length, Burst(limit, length, 0.0), 2 * limit, 0.0, length)
    ensures Fits(limit, length, Burst(limit, length, length / 2.0), 2 * limit - 1, length / 2.0, length)
  {
    BurstIsAllowed(limit, length, 0.0);
    BurstIsAllowed(limit, length, length / 2.0);
  }
}
