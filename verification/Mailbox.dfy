/** The relay Worker's mailbox (app/relay_worker.py, class Mailbox): sealed requests wait in it for the
    server and sealed replies for their PCs.  Times are milliseconds, as in the Worker. */
module Mailbox {
  import opened Wrappers

  const SKEW := 300_000
  const TTL := 600_000
  const PER_DEVICE := 20
  const PULL_BATCH := 20
  const DELETE_BATCH := 128
  const MAX_ENVELOPE := 300 * 1024

  /** A parsed request envelope; `signer` is the public key its signature verifies under. */
  datatype Envelope = Envelope(d: string, seconds: int, n: string, sealedText: string, signer: string)

  datatype Posted = TooLarge | Malformed | Parsed(env: Envelope)

  /** Storage keys "q:<device>:<nonce>", "s:<nonce>" and "r:<nonce>". */
  datatype StorageKey = Q(d: string, n: string) | S(n: string) | R(n: string)

  datatype Content = Nothing | Request(env: Envelope) | Answer(text: string)
  datatype Entry = Entry(d: string, at: int, content: Content)

  type Store = map<StorageKey, Entry>
  type Keys = map<string, string>

  datatype Accepted = Accepted(env: Envelope, checkedAt: int, at: int)

  /** The stored state, every key list there has been, the latest time seen, and the log of envelopes taken in and handed
      over. */
  datatype State = State(keys: Keys, store: Store, alarm: Option<int>,
                         lists: set<Keys>, clock: int, accepted: seq<Accepted>, handed: seq<Envelope>)

  datatype ReplyItem = ReplyItem(n: string, d: string, reply: string)

  /** The key list may hold an empty key for a device; that counts as none. */
  predicate Allowed(keys: Keys, d: string) {
    d in keys && keys[d] != ""
  }

  function Queue(store: Store): set<StorageKey> {
    set k | k in store && k.Q?
  }

  function QueueOf(store: Store, d: string): set<StorageKey> {
    set k | k in store && k.Q? && k.d == d
  }

  function Skew(env: Envelope, now: int): int {
    var s := now - 1000 * env.seconds;
    if s < 0 then -s else s
  }

  /** The HTTP status a request is refused with, or 202 when it is taken in. */
  function SendStatus(keys: Keys, store: Store, posted: Posted, checkedAt: int): int {
    match posted
    case TooLarge => 413
    case Malformed => 400
    case Parsed(env) =>
      if !Allowed(keys, env.d) || env.signer != keys[env.d] then 403
      else if Skew(env, checkedAt) > SKEW then 401
      else if S(env.n) in store then 409
      else if |QueueOf(store, env.d)| >= PER_DEVICE then 429
      else 202
  }

  function Queued(store: Store, env: Envelope, at: int): Store {
    store[S(env.n) := Entry(env.d, at, Nothing)][Q(env.d, env.n) := Entry(env.d, at, Request(env))]
  }

  function ReplyFor(store: Store, d: string, n: string): Option<string> {
    if R(n) in store && store[R(n)].d == d && store[R(n)].content.Answer? then Some(store[R(n)].content.text) else None
  }

  /** `read` is the key list as it was before the signature was checked; others are served during that check. */
  function Sent(st: State, posted: Posted, read: Keys, checkedAt: int, at: int): State {
    if SendStatus(read, st.store, posted, checkedAt) != 202 then st.(clock := at)
    else
      PickedUp(TakenIn(st, posted.env, checkedAt, at), posted.env.d, posted.env.n)
  }

  function TakenIn(st: State, env: Envelope, checkedAt: int, at: int): State {
    st.(store := Queued(st.store, env, at), alarm := if st.alarm.Some? then st.alarm else Some(at + TTL),
        clock := at, accepted := st.accepted + [Accepted(env, checkedAt, at)])
  }

  function PickedUp(st: State, d: string, n: string): State {
    if ReplyFor(st.store, d, n).Some? then st.(store := st.store - {R(n)}) else st
  }

  function Dropped(store: Store, keys: Keys): set<StorageKey> {
    set k | k in store && k.Q? && !Allowed(keys, k.d)
  }

  function KeysPut(st: State, keys: Keys): State {
    st.(keys := keys, store := st.store - Dropped(st.store, keys), lists := st.lists + {keys})
  }

  predicate IsBatch(store: Store, batch: seq<StorageKey>) {
    && (forall i, j :: 0 <= i < j < |batch| ==> batch[i] != batch[j])
    && (forall k <- batch :: k in Queue(store) && store[k].content.Request?)
    && |batch| == Min(PULL_BATCH, |Queue(store)|)
  }

  function Envelopes(store: Store, batch: seq<StorageKey>): seq<Envelope>
    requires forall k <- batch :: k in store && store[k].content.Request?
  {
    seq(|batch|, i requires 0 <= i < |batch| => store[batch[i]].content.env)
  }

  function Pulled(st: State, batch: seq<StorageKey>): State
    requires IsBatch(st.store, batch)
  {
    st.(store := st.store - (set k | k in batch), handed := st.handed + Envelopes(st.store, batch))
  }

  predicate IsFor(store: Store, r: ReplyItem) {
    |r.reply| <= MAX_ENVELOPE && S(r.n) in store && store[S(r.n)].d == r.d
  }

  function Replied(store: Store, replies: seq<ReplyItem>, at: int): Store {
    if replies == [] then store
    else
      var before := Replied(store, replies[..|replies| - 1], at);
      var r := replies[|replies| - 1];
      if IsFor(before, r) then before[R(r.n) := Entry(r.d, at, Answer(r.reply))] else before
  }

  function Old(store: Store, now: int): set<StorageKey> {
    set k | k in store && store[k].at < now - TTL
  }

  /** The platform clears the alarm before it runs the handler. */
  function Rang(st: State, now: int): State {
    var left := st.store - Old(st.store, now);
    st.(store := left, alarm := if left == map[] then None else Some(now + TTL), clock := now)
  }

  // ── What holds in every reachable state ──

  ghost predicate WasAccepted(st: State, d: string, n: string, at: int) {
    exists a <- st.accepted :: a.env.d == d && a.env.n == n && a.at == at
  }

  /** A key list once held the device with the key that signed the request. */
  ghost predicate WasListed(lists: set<Keys>, env: Envelope) {
    exists list <- lists :: Allowed(list, env.d) && list[env.d] == env.signer
  }

  ghost predicate GoodEntry(st: State, k: StorageKey)
    requires k in st.store
  {
    var e := st.store[k];
    && e.at <= st.clock
    && st.alarm.Some? && st.alarm.value <= e.at + 2 * TTL
    && match k
       case Q(d, n) =>
         && e.d == d
         && S(n) in st.store && st.store[S(n)] == Entry(d, e.at, Nothing)
         && e.content.Request? && e.content.env.d == d && e.content.env.n == n && WasListed(st.lists, e.content.env)
         && (exists a <- st.accepted :: a.env == e.content.env)
         && e.content.env !in st.handed
       case S(n) => WasAccepted(st, e.d, n, e.at)
       case R(n) => e.content.Answer? && exists a <- st.accepted :: a.env.n == n && a.env.d == e.d
  }

  /** Its tombstone is still there, or so much time has passed that its timestamp no longer passes. */
  ghost predicate Remembered(st: State, a: Accepted) {
    && Skew(a.env, a.checkedAt) <= SKEW && a.checkedAt <= a.at <= st.clock
    && ((S(a.env.n) in st.store && st.store[S(a.env.n)].at == a.at) || st.clock > a.at + TTL)
  }

  ghost predicate Inv(st: State) {
    && (forall k <- st.store :: GoodEntry(st, k))
    && (forall d :: |QueueOf(st.store, d)| <= PER_DEVICE)
    && (st.alarm.Some? ==> st.alarm.value <= st.clock + TTL)
    && (forall a <- st.accepted :: Remembered(st, a))
    && (forall i, j :: 0 <= i < j < |st.accepted| ==> st.accepted[i].env != st.accepted[j].env)
    && (forall i, j :: 0 <= i < j < |st.handed| ==> st.handed[i] != st.handed[j])
    && (forall h <- st.handed :: exists a <- st.accepted :: a.env == h)
  }

  /** Time passes, and nothing else changes. */
  function At(st: State, now: int): State {
    st.(clock := now)
  }

  lemma TimeKeepsInv(st: State, now: int)
    requires Inv(st) && st.clock <= now
    ensures Inv(At(st, now))
  {
    var st' := At(st, now);
    forall k <- st'.store ensures GoodEntry(st', k) {
      assert GoodEntry(st, k);
    }
    forall a <- st'.accepted ensures Remembered(st', a) {
      assert Remembered(st, a);
    }
    assert forall d :: QueueOf(st'.store, d) == QueueOf(st.store, d);
  }

  /** A timestamp that still passes has a tombstone: the same envelope is never taken in twice. */
  lemma AcceptedIsNew(st: State, env: Envelope, read: Keys, checkedAt: int)
    requires Inv(st) && st.clock <= checkedAt
    requires SendStatus(read, st.store, Parsed(env), checkedAt) == 202
    ensures forall a <- st.accepted :: a.env != env
  {
    forall a <- st.accepted ensures a.env != env {
      assert Remembered(st, a);
    }
  }

  lemma TakenInEntry(st: State, env: Envelope, read: Keys, checkedAt: int, at: int, k: StorageKey)
    requires Inv(st) && st.clock <= checkedAt <= at && read in st.lists
    requires SendStatus(read, st.store, Parsed(env), checkedAt) == 202
    requires k in TakenIn(st, env, checkedAt, at).store
    ensures GoodEntry(TakenIn(st, env, checkedAt, at), k)
  {
    var st' := TakenIn(st, env, checkedAt, at);
    assert Accepted(env, checkedAt, at) in st'.accepted && forall a <- st.accepted :: a in st'.accepted;
    if k in st.store {
      assert GoodEntry(st, k);
    } else if k == Q(env.d, env.n) && env in st.handed {
      AcceptedIsNew(st, env, read, checkedAt);
    }
  }

  lemma TakenInQueue(st: State, env: Envelope, at: int, d: string)
    requires |QueueOf(st.store, env.d)| < PER_DEVICE && |QueueOf(st.store, d)| <= PER_DEVICE
    ensures |QueueOf(Queued(st.store, env, at), d)| <= PER_DEVICE
  {
    assert QueueOf(Queued(st.store, env, at), d) == QueueOf(st.store, d) + if d == env.d then {Q(env.d, env.n)} else {};
  }

  lemma TakenInRemembered(st: State, env: Envelope, read: Keys, checkedAt: int, at: int, a: Accepted)
    requires Inv(st) && st.clock <= checkedAt <= at
    requires SendStatus(read, st.store, Parsed(env), checkedAt) == 202
    requires a in TakenIn(st, env, checkedAt, at).accepted
    ensures Remembered(TakenIn(st, env, checkedAt, at), a)
  {
    assert a in st.accepted ==> Remembered(st, a);
  }

  lemma TakenInHanded(st: State, env: Envelope, checkedAt: int, at: int, h: Envelope)
    requires Inv(st) && h in st.handed
    ensures exists a <- TakenIn(st, env, checkedAt, at).accepted :: a.env == h
  {
    var a :| a in st.accepted && a.env == h;
    assert a in TakenIn(st, env, checkedAt, at).accepted;
  }

  lemma TakenInKeepsInv(st: State, env: Envelope, read: Keys, checkedAt: int, at: int)
    requires Inv(st) && st.clock <= checkedAt <= at && read in st.lists
    requires SendStatus(read, st.store, Parsed(env), checkedAt) == 202
    ensures Inv(TakenIn(st, env, checkedAt, at))
  {
    AcceptedIsNew(st, env, read, checkedAt);
    var st' := TakenIn(st, env, checkedAt, at);
    forall k <- st'.store ensures GoodEntry(st', k) { TakenInEntry(st, env, read, checkedAt, at, k); }
    forall d ensures |QueueOf(st'.store, d)| <= PER_DEVICE { TakenInQueue(st, env, at, d); }
    forall a <- st'.accepted ensures Remembered(st', a) { TakenInRemembered(st, env, read, checkedAt, at, a); }
    forall h <- st'.handed ensures exists a <- st'.accepted :: a.env == h { TakenInHanded(st, env, checkedAt, at, h); }
  }

  /** Taking entries out keeps the invariant, as long as a queued request keeps its tombstone. */
  lemma RemovalKeepsInv(st: State, gone: set<StorageKey>)
    requires Inv(st) && forall k <- gone :: !k.S?
    ensures Inv(st.(store := st.store - gone))
  {
    var st' := st.(store := st.store - gone);
    forall k <- st'.store ensures GoodEntry(st', k) {
      assert GoodEntry(st, k);
    }
    forall a <- st'.accepted ensures Remembered(st', a) {
      assert Remembered(st, a);
    }
    forall d ensures |QueueOf(st'.store, d)| <= PER_DEVICE {
      SubsetSize(QueueOf(st'.store, d), QueueOf(st.store, d));
    }
  }

  lemma KeysPutKeepsInv(st: State, keys: Keys)
    requires Inv(st)
    ensures Inv(KeysPut(st, keys))
  {
    var mid, st' := st.(store := st.store - Dropped(st.store, keys)), KeysPut(st, keys);
    RemovalKeepsInv(st, Dropped(st.store, keys));
    forall k <- st'.store ensures GoodEntry(st', k) {
      assert GoodEntry(mid, k);
    }
    forall a <- st'.accepted ensures Remembered(st', a) {
      assert Remembered(mid, a);
    }
  }

  lemma BatchIsOfDistinctRequests(st: State, batch: seq<StorageKey>, i: nat)
    requires Inv(st) && IsBatch(st.store, batch) && i < |batch|
    ensures var env := Envelopes(st.store, batch)[i];
            batch[i] == Q(env.d, env.n) && env !in st.handed && exists a <- st.accepted :: a.env == env
  {
    assert batch[i] in Queue(st.store);
    assert GoodEntry(st, batch[i]);
  }

  lemma PulledKeepsInv(st: State, batch: seq<StorageKey>)
    requires Inv(st) && IsBatch(st.store, batch)
    ensures Inv(Pulled(st, batch))
  {
    var gone := set k | k in batch;
    var mid, st' := st.(store := st.store - gone), Pulled(st, batch);
    RemovalKeepsInv(st, gone);
    forall i | 0 <= i < |batch|
      ensures var env := Envelopes(st.store, batch)[i];
              batch[i] == Q(env.d, env.n) && env !in st.handed && exists a <- st.accepted :: a.env == env
    {
      BatchIsOfDistinctRequests(st, batch, i);
    }
    forall k <- st'.store ensures GoodEntry(st', k) {
      assert GoodEntry(mid, k);
    }
    forall a <- st'.accepted ensures Remembered(st', a) {
      assert Remembered(mid, a);
    }
  }

  lemma StoredReplyKeepsInv(st: State, r: ReplyItem)
    requires Inv(st) && IsFor(st.store, r)
    ensures Inv(st.(store := st.store[R(r.n) := Entry(r.d, st.clock, Answer(r.reply))]))
  {
    var st' := st.(store := st.store[R(r.n) := Entry(r.d, st.clock, Answer(r.reply))]);
    assert GoodEntry(st, S(r.n));
    forall k <- st'.store ensures GoodEntry(st', k) {
      assert k in st.store ==> GoodEntry(st, k);
    }
    forall a <- st'.accepted ensures Remembered(st', a) {
      assert Remembered(st, a);
    }
    assert forall d :: QueueOf(st'.store, d) == QueueOf(st.store, d);
  }

  lemma {:induction false} RepliedKeepsInv(st: State, replies: seq<ReplyItem>)
    requires Inv(st)
    ensures Inv(st.(store := Replied(st.store, replies, st.clock)))
  {
    if replies == [] {
      assert st == st.(store := Replied(st.store, replies, st.clock));
    } else {
      RepliedKeepsInv(st, replies[..|replies| - 1]);
      var mid := st.(store := Replied(st.store, replies[..|replies| - 1], st.clock));
      if IsFor(mid.store, replies[|replies| - 1]) {
        StoredReplyKeepsInv(mid, replies[|replies| - 1]);
      }
    }
  }

  lemma RangKeepsInv(st: State, now: int)
    requires Inv(st) && st.clock <= now
    ensures Inv(Rang(st, now))
  {
    var st' := Rang(st, now);
    forall k <- st'.store ensures GoodEntry(st', k) {
      assert GoodEntry(st, k);
    }
    forall a <- st'.accepted ensures Remembered(st', a) {
      assert Remembered(st, a);
    }
    forall d ensures |QueueOf(st'.store, d)| <= PER_DEVICE {
      SubsetSize(QueueOf(st'.store, d), QueueOf(st.store, d));
    }
  }

  // ── Whole runs ──

  datatype Event =
    | SendEvent(posted: Posted, read: Keys, checkedAt: int, at: int)
    | PickUpEvent(d: string, n: string, at: int)
    | PutKeysEvent(keys: Keys, at: int)
    | PullEvent(batch: seq<StorageKey>, at: int)
    | ReplyEvent(replies: seq<ReplyItem>, at: int)
    | AlarmEvent(at: int)

  /** The clock never steps back, an alarm that is due rings at most `late` milliseconds late, and the list a request is
      checked against was the Worker's at some time. */
  ghost predicate CanHappen(st: State, e: Event, late: nat) {
    && st.clock <= e.at && (st.alarm.Some? ==> e.at <= st.alarm.value + late)
    && match e
       case SendEvent(_, read, checkedAt, at) => read in st.lists && st.clock <= checkedAt <= at
       case PullEvent(batch, _) => IsBatch(st.store, batch)
       case AlarmEvent(at) => st.alarm.Some? && at >= st.alarm.value
       case _ => true
  }

  function Step(st: State, e: Event): State {
    match e
    case SendEvent(posted, read, checkedAt, at) => Sent(st, posted, read, checkedAt, at)
    case PickUpEvent(d, n, at) => PickedUp(At(st, at), d, n)
    case PutKeysEvent(keys, at) => KeysPut(At(st, at), keys)
    case PullEvent(batch, at) => if IsBatch(st.store, batch) then Pulled(At(st, at), batch) else st
    case ReplyEvent(replies, at) => At(st, at).(store := Replied(st.store, replies, at))
    case AlarmEvent(at) => Rang(st, at)
  }

  lemma StepKeepsInv(st: State, e: Event, late: nat)
    requires Inv(st) && CanHappen(st, e, late)
    ensures Inv(Step(st, e))
  {
    TimeKeepsInv(st, e.at);
    var now := At(st, e.at);
    match e
    case SendEvent(posted, read, checkedAt, at) =>
      if SendStatus(read, st.store, posted, checkedAt) == 202 {
        TakenInKeepsInv(st, posted.env, read, checkedAt, at);
        RemovalKeepsInv(TakenIn(st, posted.env, checkedAt, at), {R(posted.env.n)});
      }
    case PickUpEvent(d, n, at) => RemovalKeepsInv(now, {R(n)});
    case PutKeysEvent(keys, at) => KeysPutKeepsInv(now, keys);
    case PullEvent(batch, at) => PulledKeepsInv(now, batch);
    case ReplyEvent(replies, at) => RepliedKeepsInv(now, replies);
    case AlarmEvent(at) => RangKeepsInv(st, at);
  }

  function Run(st: State, events: seq<Event>): State {
    if events == [] then st else Step(Run(st, events[..|events| - 1]), events[|events| - 1])
  }

  ghost predicate Feasible(st: State, events: seq<Event>, late: nat) {
    events == [] || (Feasible(st, events[..|events| - 1], late) &&
                     CanHappen(Run(st, events[..|events| - 1]), events[|events| - 1], late))
  }

  const EMPTY := State(map[], map[], None, {map[]}, 0, [], [])

  lemma {:induction false} RunKeepsInv(events: seq<Event>, late: nat)
    requires Feasible(EMPTY, events, late)
    ensures Inv(Run(EMPTY, events))
  {
    if events == [] {
      assert forall d :: QueueOf(EMPTY.store, d) == {};
    } else {
      RunKeepsInv(events[..|events| - 1], late);
      StepKeepsInv(Run(EMPTY, events[..|events| - 1]), events[|events| - 1], late);
    }
  }

  /** A nonce is taken in again only once its tombstone is gone, more than a TTL later. */
  lemma NonceIsFreeAgain(st: State, env: Envelope, read: Keys, checkedAt: int, a: Accepted)
    requires Inv(st) && st.clock <= checkedAt && a in st.accepted && a.env.n == env.n
    requires SendStatus(read, st.store, Parsed(env), checkedAt) == 202
    ensures checkedAt > a.at + TTL
  {
    assert Remembered(st, a);
  }

  ghost predicate Apart(accepted: seq<Accepted>, i: nat, j: nat) {
    i < j < |accepted| && accepted[i].env.n == accepted[j].env.n ==>
      accepted[j].checkedAt > accepted[i].at + TTL && accepted[j].env.seconds > accepted[i].env.seconds
  }

  /** Two requests with one nonce are taken in more than a TTL apart, and so never with one timestamp. */
  lemma {:induction false} NoncesAreApart(events: seq<Event>, late: nat)
    requires Feasible(EMPTY, events, late)
    ensures forall i: nat, j: nat :: Apart(Run(EMPTY, events).accepted, i, j)
  {
    if events != [] {
      var rest, e := events[..|events| - 1], events[|events| - 1];
      var before, after := Run(EMPTY, rest), Run(EMPTY, events);
      NoncesAreApart(rest, late);
      RunKeepsInv(rest, late);
      RunKeepsInv(events, late);
      forall i: nat, j: nat ensures Apart(after.accepted, i, j) {
        assert Apart(before.accepted, i, j);
        if i < j < |after.accepted| && j == |before.accepted| && after.accepted[i].env.n == after.accepted[j].env.n {
          assert e.SendEvent? && after.accepted == before.accepted + [Accepted(e.posted.env, e.checkedAt, e.at)];
          NonceIsFreeAgain(before, e.posted.env, e.read, e.checkedAt, before.accepted[i]);
          assert Remembered(after, after.accepted[i]) && Remembered(after, after.accepted[j]);
        }
      }
    }
  }

  /** Under each nonce and timestamp at most one request is taken in and at most one is handed to the server, and only
      what was taken in is handed. */
  lemma EachEnvelopeOnce(events: seq<Event>, late: nat)
    requires Feasible(EMPTY, events, late)
    ensures var st := Run(EMPTY, events);
            && (forall i, j :: 0 <= i < |st.accepted| && 0 <= j < |st.accepted| && SameStamp(st.accepted[i].env, st.accepted[j].env) ==> i == j)
            && (forall i, j :: 0 <= i < |st.handed| && 0 <= j < |st.handed| && SameStamp(st.handed[i], st.handed[j]) ==> i == j)
            && (forall h <- st.handed :: exists a <- st.accepted :: a.env == h)
  {
    var st := Run(EMPTY, events);
    RunKeepsInv(events, late);
    NoncesAreApart(events, late);
    forall i, j | 0 <= i < |st.accepted| && 0 <= j < |st.accepted| && SameStamp(st.accepted[i].env, st.accepted[j].env) ensures i == j {
      assert Apart(st.accepted, i, j) && Apart(st.accepted, j, i);
    }
    forall i, j | 0 <= i < |st.handed| && 0 <= j < |st.handed| && SameStamp(st.handed[i], st.handed[j]) ensures i == j {
      assert st.handed[i] in st.handed && st.handed[j] in st.handed;
      var a, b :| a in st.accepted && b in st.accepted && a.env == st.handed[i] && b.env == st.handed[j];
      assert a.env == b.env;
    }
  }

  lemma HandedWasTakenIn(st: State, i: nat) returns (p: nat)
    requires Inv(st) && i < |st.handed|
    ensures p < |st.accepted| && st.accepted[p].env == st.handed[i]
  {
    assert st.handed[i] in st.handed;
    var a :| a in st.accepted && a.env == st.handed[i];
    p :| p < |st.accepted| && st.accepted[p] == a;
  }

  /** The requests `p` and `q` taken in were more than a TTL apart. */
  ghost predicate FarApart(accepted: seq<Accepted>, p: nat, q: nat) {
    p < |accepted| && q < |accepted| &&
    (accepted[q].checkedAt > accepted[p].at + TTL || accepted[p].checkedAt > accepted[q].at + TTL)
  }

  /** Two requests handed over with one nonce were taken in more than a TTL apart. */
  lemma HandedWithOneNonce(events: seq<Event>, late: nat, i: nat, j: nat)
    requires Feasible(EMPTY, events, late) && i < |Run(EMPTY, events).handed| && j < |Run(EMPTY, events).handed|
    requires var handed := Run(EMPTY, events).handed; i != j && handed[i].n == handed[j].n
    ensures var st := Run(EMPTY, events);
            exists p: nat, q: nat :: FarApart(st.accepted, p, q) && st.accepted[p].env == st.handed[i] && st.accepted[q].env == st.handed[j]
  {
    var st := Run(EMPTY, events);
    RunKeepsInv(events, late);
    NoncesAreApart(events, late);
    var p := HandedWasTakenIn(st, i);
    var q := HandedWasTakenIn(st, j);
    assert Apart(st.accepted, p, q) && Apart(st.accepted, q, p);
    assert p != q;
    assert FarApart(st.accepted, p, q);
  }

  predicate SameStamp(e: Envelope, f: Envelope) {
    e.n == f.n && e.seconds == f.seconds
  }

  /** A queued request's device was listed with the key that signed it, and has at most twenty of them; a stored reply
      answers a request its device sent. */
  lemma QueueAndRepliesAreSound(events: seq<Event>, late: nat, k: StorageKey)
    requires Feasible(EMPTY, events, late) && k in Run(EMPTY, events).store
    ensures var st := Run(EMPTY, events);
            && (k.Q? ==> st.store[k].content.Request? && WasListed(st.lists, st.store[k].content.env)
                         && |QueueOf(st.store, k.d)| <= PER_DEVICE)
            && (k.R? ==> exists a <- st.accepted :: a.env.n == k.n && a.env.d == st.store[k].d)
  {
    RunKeepsInv(events, late);
    assert GoodEntry(Run(EMPTY, events), k);
  }

  /** A queued request of a device no longer listed. */
  predicate Unlisted(st: State, k: StorageKey) {
    k in st.store && k.Q? && !Allowed(st.keys, k.d)
  }

  /** A request is taken in whose device came off the list while its signature was checked. */
  predicate TakesUnlisted(st: State, e: Event, k: StorageKey) {
    && e.SendEvent? && SendStatus(e.read, st.store, e.posted, e.checkedAt) == 202
    && k == Q(e.posted.env.d, e.posted.env.n) && !Allowed(st.keys, k.d)
  }

  lemma {:induction false} RepliedKeepsQueue(store: Store, replies: seq<ReplyItem>, at: int, k: StorageKey)
    requires k.Q?
    ensures k in Replied(store, replies, at) <==> k in store
  {
    if replies != [] { RepliedKeepsQueue(store, replies[..|replies| - 1], at, k); }
  }

  /** A key list clears them all. */
  lemma StepUnlistedIff(st: State, e: Event, k: StorageKey)
    ensures Unlisted(Step(st, e), k) <==>
              TakesUnlisted(st, e, k) || (Unlisted(st, k) && !e.PutKeysEvent? && k in Step(st, e).store)
  {
    if e.ReplyEvent? && k.Q? { RepliedKeepsQueue(st.store, e.replies, e.at, k); }
  }

  ghost predicate UnlistedAfter(events: seq<Event>, n: nat, k: StorageKey) {
    n <= |events| && Unlisted(Run(EMPTY, events[..n]), k)
  }

  /** Event `i` took the request in after its device came off the list, and it waits ever since: no key list has come. */
  ghost predicate UnlistedSince(events: seq<Event>, i: nat, k: StorageKey) {
    && i < |events| && TakesUnlisted(Run(EMPTY, events[..i]), events[i], k)
    && forall n: nat :: i < n <= |events| ==> UnlistedAfter(events, n, k)
  }

  /** A queued request's device is listed, but for those taken in just after their device came off the list: these wait
      until they are pulled, swept, or dropped by the next list. */
  lemma QueuedIsListedIff(events: seq<Event>, k: StorageKey)
    requires k in Run(EMPTY, events).store && k.Q?
    ensures Allowed(Run(EMPTY, events).keys, k.d) <==> !exists i: nat :: UnlistedSince(events, i, k)
  {
    assert events[..|events|] == events;
    if i: nat :| UnlistedSince(events, i, k) {
      assert UnlistedAfter(events, |events|, k);
    }
    if !Allowed(Run(EMPTY, events).keys, k.d) { UnlistedHasCome(events, k); }
  }

  lemma {:induction false} UnlistedHasCome(events: seq<Event>, k: StorageKey)
    requires Unlisted(Run(EMPTY, events), k)
    ensures exists i: nat :: UnlistedSince(events, i, k)
  {
    var rest := events[..|events| - 1];
    assert events[..|events|] == events;
    StepUnlistedIff(Run(EMPTY, rest), events[|rest|], k);
    if TakesUnlisted(Run(EMPTY, rest), events[|rest|], k) {
      assert UnlistedSince(events, |rest|, k);
    } else {
      UnlistedHasCome(rest, k);
      var i: nat :| UnlistedSince(rest, i, k);
      StillUnlisted(events, i, k);
    }
  }

  lemma StillUnlisted(events: seq<Event>, i: nat, k: StorageKey)
    requires events != [] && UnlistedSince(events[..|events| - 1], i, k)
    requires Unlisted(Run(EMPTY, events), k)
    ensures UnlistedSince(events, i, k)
  {
    var rest := events[..|events| - 1];
    assert rest[..i] == events[..i] && rest[i] == events[i];
    forall n: nat | i < n <= |events| ensures UnlistedAfter(events, n, k) {
      if n < |events| {
        assert UnlistedAfter(rest, n, k) && rest[..n] == events[..n];
      } else {
        assert events[..n] == events;
      }
    }
  }

  /** It does happen: any PC is taken off the list while the signature of its request is checked. */
  lemma UnlistedCanWait(env: Envelope)
    requires env.signer != "" && Skew(env, 0) <= SKEW
    ensures var on := map[env.d := env.signer];
            var run := [PutKeysEvent(on, 0)] + [PutKeysEvent(map[], 0)] + [SendEvent(Parsed(env), on, 0, 0)];
            Feasible(EMPTY, run, 0) && Unlisted(Run(EMPTY, run), Q(env.d, env.n))
  {
    var on := map[env.d := env.signer];
    FeasibleExtends([], PutKeysEvent(on, 0), 0);
    assert [] + [PutKeysEvent(on, 0)] == [PutKeysEvent(on, 0)];
    FeasibleExtends([PutKeysEvent(on, 0)], PutKeysEvent(map[], 0), 0);
    var off := [PutKeysEvent(on, 0)] + [PutKeysEvent(map[], 0)];
    assert Run(EMPTY, off).store == map[] && on in Run(EMPTY, off).lists;
    assert QueueOf(map[], env.d) == {};
    FeasibleExtends(off, SendEvent(Parsed(env), on, 0, 0), 0);
  }

  /** While anything is stored an alarm is set, and nothing is ever older than twice the TTL (plus the alarm's lateness). */
  lemma NothingOutlivesTwiceTheTtl(events: seq<Event>, late: nat, next: Event, k: StorageKey)
    requires Feasible(EMPTY, events + [next], late) && k in Run(EMPTY, events).store
    ensures var st := Run(EMPTY, events);
            st.alarm.Some? && next.at - st.store[k].at <= 2 * TTL + late
  {
    assert (events + [next])[..|events|] == events;
    RunKeepsInv(events, late);
    assert GoodEntry(Run(EMPTY, events), k);
  }

  /** What the alarm takes: an entry stays exactly while it is at most one TTL old, and an alarm that rings on time takes it
      exactly when it was set for later than one TTL after the entry.  What stays is looked at again a TTL later. */
  lemma GoneAtTheAlarmIff(events: seq<Event>, late: nat, now: int, k: StorageKey)
    requires Feasible(EMPTY, events + [AlarmEvent(now)], late) && k in Run(EMPTY, events).store
    ensures var st, st' := Run(EMPTY, events), Run(EMPTY, events + [AlarmEvent(now)]);
            && (k in st'.store <==> now <= st.store[k].at + TTL)
            && st.alarm.Some? && (late == 0 ==> (k !in st'.store <==> st.alarm.value > st.store[k].at + TTL))
            && (k in st'.store ==> st'.store[k] == st.store[k] && st'.alarm == Some(now + TTL))
  {
    assert (events + [AlarmEvent(now)])[..|events|] == events;
  }

  lemma LastHappened(events: seq<Event>, e: Event, late: nat)
    requires Feasible(EMPTY, events + [e], late)
    ensures Feasible(EMPTY, events, late) && CanHappen(Run(EMPTY, events), e, late)
    ensures Run(EMPTY, events + [e]) == Step(Run(EMPTY, events), e)
  {
    assert (events + [e])[..|events|] == events;
  }

  /** So the request that finds the mailbox without an alarm, and sets one for exactly a TTL later, is still remembered
      when it rings on time. */
  lemma OwnAlarmLeavesTombstone(events: seq<Event>, send: Event, now: int)
    requires send.SendEvent? && Feasible(EMPTY, events + [send] + [AlarmEvent(now)], 0)
    requires var st := Run(EMPTY, events); st.alarm.None? && SendStatus(send.read, st.store, send.posted, send.checkedAt) == 202
    ensures S(send.posted.env.n) in Run(EMPTY, events + [send] + [AlarmEvent(now)]).store && now == send.at + TTL
  {
    var sent := events + [send];
    LastHappened(sent, AlarmEvent(now), 0);
    LastHappened(events, send, 0);
    SetsItsAlarm(Run(EMPTY, events), send.posted, send.read, send.checkedAt, send.at);
    GoneAtTheAlarmIff(sent, 0, now, S(send.posted.env.n));
  }

  lemma SetsItsAlarm(st: State, posted: Posted, read: Keys, checkedAt: int, at: int)
    requires st.alarm.None? && SendStatus(read, st.store, posted, checkedAt) == 202
    ensures var st' := Sent(st, posted, read, checkedAt, at);
            S(posted.env.n) in st'.store && st'.store[S(posted.env.n)].at == at && st'.alarm == Some(at + TTL)
  {
  }

  /** A PC is listed and sends one request. */
  function FirstRequest(env: Envelope): seq<Event> {
    [PutKeysEvent(map[env.d := env.signer], 0), SendEvent(Parsed(env), map[env.d := env.signer], 0, 0)]
  }

  lemma FirstIsTakenIn(env: Envelope)
    requires env.signer != "" && Skew(env, 0) <= SKEW
    ensures Feasible(EMPTY, FirstRequest(env), 0)
    ensures var st := Run(EMPTY, FirstRequest(env));
            st == State(map[env.d := env.signer], Queued(map[], env, 0), Some(TTL), {map[], map[env.d := env.signer]}, 0, [Accepted(env, 0, 0)], [])
  {
    var keys := PutKeysEvent(map[env.d := env.signer], 0);
    FeasibleExtends([], keys, 0);
    assert [] + [keys] == [keys];
    var st := Run(EMPTY, [keys]);
    assert Dropped(EMPTY.store, map[env.d := env.signer]) == {} && QueueOf(EMPTY.store, env.d) == {};
    assert st == EMPTY.(keys := map[env.d := env.signer], lists := {map[], map[env.d := env.signer]});
    FeasibleExtends([keys], SendEvent(Parsed(env), map[env.d := env.signer], 0, 0), 0);
    assert [keys] + [SendEvent(Parsed(env), map[env.d := env.signer], 0, 0)] == FirstRequest(env);
  }

  /** One TTL is not the bound: a PC's first request and an alarm on time leave an entry a whole TTL old, to stay for another. */
  lemma TtlOldEntriesStay(env: Envelope)
    requires env.signer != "" && Skew(env, 0) <= SKEW
    ensures var run := FirstRequest(env) + [AlarmEvent(TTL)];
            var st := Run(EMPTY, run);
            Feasible(EMPTY, run, 0) && S(env.n) in st.store && st.clock - st.store[S(env.n)].at == TTL && st.alarm == Some(2 * TTL)
  {
    FirstIsTakenIn(env);
    FeasibleExtends(FirstRequest(env), AlarmEvent(TTL), 0);
    GoneAtTheAlarmIff(FirstRequest(env), 0, TTL, S(env.n));
  }

  /** A request stays in the queue until it is pulled or swept, so handovers themselves may meet: the first is pulled
      just before its tombstone goes, and the nonce is sent and pulled again at once. */
  lemma HandoversMayMeet(env: Envelope, again: Envelope)
    requires env.signer != "" && Skew(env, 0) <= SKEW && Skew(again, TTL + 1) <= SKEW
    requires again.d == env.d && again.n == env.n && again.signer == env.signer
    ensures var pull := PullEvent([Q(env.d, env.n)], TTL + 1);
            var run := FirstRequest(env) + [pull] + [AlarmEvent(TTL + 1)] +
                       [SendEvent(Parsed(again), map[env.d := env.signer], TTL + 1, TTL + 1)] + [pull];
            Feasible(EMPTY, run, 1) && Run(EMPTY, run).handed == [env, again]
  {
    var batch, now := [Q(env.d, env.n)], TTL + 1;
    FirstIsTakenIn(env);
    MoreLate(FirstRequest(env));
    var first := FirstRequest(env);
    var taken := Run(EMPTY, first);
    OneQueued(taken.store, env, 0);
    FeasibleExtends(first, PullEvent(batch, now), 1);
    var pulled := first + [PullEvent(batch, now)];
    FeasibleExtends(pulled, AlarmEvent(now), 1);
    var rung := pulled + [AlarmEvent(now)];
    assert Run(EMPTY, rung).store == map[];
    assert QueueOf(map[], env.d) == {};
    FeasibleExtends(rung, SendEvent(Parsed(again), map[env.d := env.signer], now, now), 1);
    var sent := rung + [SendEvent(Parsed(again), map[env.d := env.signer], now, now)];
    assert Run(EMPTY, sent).store == Queued(map[], again, now);
    OneQueued(Run(EMPTY, sent).store, again, now);
    FeasibleExtends(sent, PullEvent(batch, now), 1);
  }

  lemma OneQueued(store: Store, env: Envelope, at: int)
    requires store == Queued(map[], env, at)
    ensures IsBatch(store, [Q(env.d, env.n)]) && Envelopes(store, [Q(env.d, env.n)]) == [env]
    ensures store - (set k | k in [Q(env.d, env.n)]) == map[S(env.n) := Entry(env.d, at, Nothing)]
  {
    assert Queue(store) == {Q(env.d, env.n)};
  }

  lemma {:induction false} MoreLate(events: seq<Event>)
    requires Feasible(EMPTY, events, 0)
    ensures Feasible(EMPTY, events, 1)
  {
    if events != [] { MoreLate(events[..|events| - 1]); }
  }

  lemma FeasibleExtends(events: seq<Event>, e: Event, late: nat)
    requires Feasible(EMPTY, events, late) && CanHappen(Run(EMPTY, events), e, late)
    ensures Feasible(EMPTY, events + [e], late) && Run(EMPTY, events + [e]) == Step(Run(EMPTY, events), e)
  {
    assert (events + [e])[..|events|] == events;
  }

  // ── What a PC gets back ──

  /** Item `j` is the last of the batch that is stored for its nonce. */
  ghost predicate LastFor(store: Store, replies: seq<ReplyItem>, n: string, j: nat) {
    && j < |replies| && replies[j].n == n && IsFor(store, replies[j])
    && forall k :: j < k < |replies| && replies[k].n == n ==> !IsFor(store, replies[k])
  }

  lemma {:induction false} RepliedKeepsTombstones(store: Store, replies: seq<ReplyItem>, at: int, r: ReplyItem)
    ensures IsFor(Replied(store, replies, at), r) <==> IsFor(store, r)
  {
    if replies != [] { RepliedKeepsTombstones(store, replies[..|replies| - 1], at, r); }
  }

  /** What a batch leaves under a nonce: its last item for it that a tombstone of the same device lets in, word for word, or
      what was there. */
  lemma {:induction false} RepliedIff(store: Store, replies: seq<ReplyItem>, at: int, n: string, e: Entry)
    ensures R(n) in Replied(store, replies, at) && Replied(store, replies, at)[R(n)] == e <==>
              || (exists j: nat :: LastFor(store, replies, n, j) && e == Entry(replies[j].d, at, Answer(replies[j].reply)))
              || (R(n) in store && store[R(n)] == e && forall j: nat :: !LastFor(store, replies, n, j))
  {
    if replies != [] {
      var rest, last := replies[..|replies| - 1], replies[|replies| - 1];
      RepliedIff(store, rest, at, n, e);
      RepliedKeepsTombstones(store, rest, at, last);
      if last.n == n && IsFor(store, last) {
        assert LastFor(store, replies, n, |rest|);
      } else {
        forall j: nat ensures LastFor(store, replies, n, j) <==> LastFor(store, rest, n, j) { LastForRest(store, replies, n, j); }
      }
    }
  }

  lemma LastForRest(store: Store, replies: seq<ReplyItem>, n: string, j: nat)
    requires replies != [] && !(replies[|replies| - 1].n == n && IsFor(store, replies[|replies| - 1]))
    ensures LastFor(store, replies, n, j) <==> LastFor(store, replies[..|replies| - 1], n, j)
  {
    var rest := replies[..|replies| - 1];
    assert forall k :: 0 <= k < |rest| ==> rest[k] == replies[k];
  }

  // ── What is in the store after a run, told by its events ──

  /** A post is taken in exactly when its device is on the list with the key that signed it, its time is within five minutes,
      its nonce has no tombstone and fewer than twenty of the device wait. */
  lemma TakenInIff(st: State, posted: Posted, read: Keys, checkedAt: int)
    ensures SendStatus(read, st.store, posted, checkedAt) == 202 <==>
              && posted.Parsed?
              && var env := posted.env;
                 && env.d in read && read[env.d] != "" && read[env.d] == env.signer
                 && checkedAt - 300_000 <= 1000 * env.seconds <= checkedAt + 300_000
                 && S(env.n) !in st.store && |set k | k in st.store && k.Q? && k.d == env.d| < 20
  {
    if posted.Parsed? {
      assert QueueOf(st.store, posted.env.d) == set k | k in st.store && k.Q? && k.d == posted.env.d;
    }
  }

  predicate TakesIn(st: State, e: Event) {
    e.SendEvent? && SendStatus(e.read, st.store, e.posted, e.checkedAt) == 202
  }

  /** The event stores this: a request taken in leaves a tombstone and waits in the queue; a reply is the last let in. */
  ghost predicate Puts(st: State, e: Event, k: StorageKey, entry: Entry) {
    match k
    case S(n) => TakesIn(st, e) && e.posted.env.n == n && entry == Entry(e.posted.env.d, e.at, Nothing)
    case Q(d, n) => TakesIn(st, e) && e.posted.env.d == d && e.posted.env.n == n && entry == Entry(d, e.at, Request(e.posted.env))
    case R(n) =>
      e.ReplyEvent? && exists j: nat :: LastFor(st.store, e.replies, n, j) && entry == Entry(e.replies[j].d, e.at, Answer(e.replies[j].reply))
  }

  /** The event takes it away: a reply goes when its PC picks it up or posts its nonce anew, or another takes its place; a queued
      request when it is pulled or its device is not on a new list; anything when it is swept. */
  ghost predicate Takes(st: State, e: Event, k: StorageKey, entry: Entry) {
    match e
    case PickUpEvent(d, n, _) => k == R(n) && d == entry.d
    case SendEvent(posted, _, _, _) => TakesIn(st, e) && k == R(posted.env.n) && posted.env.d == entry.d
    case PutKeysEvent(keys, _) => k.Q? && (k.d !in keys || keys[k.d] == "")
    case PullEvent(batch, _) => k in batch
    case ReplyEvent(replies, _) => k.R? && exists j: nat :: LastFor(st.store, replies, k.n, j)
    case AlarmEvent(now) => entry.at + 600_000 < now
  }

  predicate Stored(st: State, k: StorageKey, entry: Entry) {
    k in st.store && st.store[k] == entry
  }

  lemma {:induction false} RepliesLeaveTheRest(store: Store, replies: seq<ReplyItem>, at: int, k: StorageKey)
    requires !k.R?
    ensures k in Replied(store, replies, at) <==> k in store
    ensures k in store ==> Replied(store, replies, at)[k] == store[k]
  {
    if replies != [] { RepliesLeaveTheRest(store, replies[..|replies| - 1], at, k); }
  }

  lemma ReplyStoredIff(st: State, e: Event, k: StorageKey, entry: Entry)
    requires e.ReplyEvent?
    ensures Stored(Step(st, e), k, entry) <==> Puts(st, e, k, entry) || (Stored(st, k, entry) && !Takes(st, e, k, entry))
  {
    if k.R? { RepliedIff(st.store, e.replies, e.at, k.n, entry); } else { RepliesLeaveTheRest(st.store, e.replies, e.at, k); }
  }

  lemma SendStoredIff(st: State, e: Event, k: StorageKey, entry: Entry)
    requires Inv(st) && e.SendEvent?
    ensures Stored(Step(st, e), k, entry) <==> Puts(st, e, k, entry) || (Stored(st, k, entry) && !Takes(st, e, k, entry))
  {
    if k in st.store { assert GoodEntry(st, k); }
  }

  lemma StepStoredIff(st: State, e: Event, late: nat, k: StorageKey, entry: Entry)
    requires Inv(st) && CanHappen(st, e, late)
    ensures Stored(Step(st, e), k, entry) <==> Puts(st, e, k, entry) || (Stored(st, k, entry) && !Takes(st, e, k, entry))
  {
    if e.ReplyEvent? {
      ReplyStoredIff(st, e, k, entry);
    } else if e.SendEvent? {
      SendStoredIff(st, e, k, entry);
    } else if k in st.store {
      assert GoodEntry(st, k);
    }
  }

  ghost predicate LeftAlone(events: seq<Event>, m: nat, k: StorageKey, entry: Entry)
    requires m < |events|
  {
    !Takes(Run(EMPTY, events[..m]), events[m], k, entry)
  }

  /** Event `i` stored this, and nothing has taken it away since. */
  ghost predicate StoredSince(events: seq<Event>, i: nat, k: StorageKey, entry: Entry) {
    && i < |events| && Puts(Run(EMPTY, events[..i]), events[i], k, entry)
    && forall m: nat :: i < m < |events| ==> LeftAlone(events, m, k, entry)
  }

  lemma SinceOneMore(events: seq<Event>, i: nat, k: StorageKey, entry: Entry)
    requires i + 1 < |events|
    ensures var (rest, e) := (events[..|events| - 1], events[|events| - 1]);
            StoredSince(events, i, k, entry) <==> StoredSince(rest, i, k, entry) && !Takes(Run(EMPTY, rest), e, k, entry)
  {
    var rest := events[..|events| - 1];
    assert rest[..i] == events[..i];
    forall m: nat | m < |rest| ensures LeftAlone(events, m, k, entry) == LeftAlone(rest, m, k, entry) {
      assert rest[..m] == events[..m];
    }
    assert LeftAlone(events, |rest|, k, entry) == !Takes(Run(EMPTY, rest), events[|rest|], k, entry);
  }

  lemma StoredSinceIff(events: seq<Event>, k: StorageKey, entry: Entry)
    requires events != []
    ensures var (rest, e) := (events[..|events| - 1], events[|events| - 1]);
            (exists i: nat :: StoredSince(events, i, k, entry)) <==>
              Puts(Run(EMPTY, rest), e, k, entry) ||
              ((exists i: nat :: StoredSince(rest, i, k, entry)) && !Takes(Run(EMPTY, rest), e, k, entry))
  {
    var rest, e := events[..|events| - 1], events[|events| - 1];
    forall i: nat | i < |rest|
      ensures StoredSince(events, i, k, entry) <==> StoredSince(rest, i, k, entry) && !Takes(Run(EMPTY, rest), e, k, entry)
    {
      SinceOneMore(events, i, k, entry);
    }
    if Puts(Run(EMPTY, rest), e, k, entry) { assert StoredSince(events, |rest|, k, entry); }
  }

  /** After every run the mailbox holds exactly what some event stored and none has taken away since. */
  lemma {:induction false} StoredIff(events: seq<Event>, late: nat, k: StorageKey, entry: Entry)
    requires Feasible(EMPTY, events, late)
    ensures Stored(Run(EMPTY, events), k, entry) <==> exists i: nat :: StoredSince(events, i, k, entry)
  {
    if events != [] {
      var rest, e := events[..|events| - 1], events[|events| - 1];
      StoredIff(rest, late, k, entry);
      RunKeepsInv(rest, late);
      StepStoredIff(Run(EMPTY, rest), e, late, k, entry);
      StoredSinceIff(events, k, entry);
    }
  }

  /** What else an event changes: the log of what is taken in and of what is handed over, each request of a pull in turn; the
      key list; and the time. */
  lemma LogsAfter(st: State, e: Event, late: nat)
    requires CanHappen(st, e, late)
    ensures var st' := Step(st, e);
            && st'.clock == e.at
            && st'.accepted == st.accepted + (if TakesIn(st, e) then [Accepted(e.posted.env, e.checkedAt, e.at)] else [])
            && st'.keys == (if e.PutKeysEvent? then e.keys else st.keys)
            && st'.lists == (if e.PutKeysEvent? then st.lists + {e.keys} else st.lists)
            && (!e.PullEvent? ==> st'.handed == st.handed)
            && (e.PullEvent? ==>
                  && |e.batch| == Min(20, |set k | k in st.store && k.Q?|) && |st'.handed| == |st.handed| + |e.batch|
                  && st.handed <= st'.handed
                  && forall i :: 0 <= i < |e.batch| ==> st'.handed[|st.handed| + i] == st.store[e.batch[i]].content.env)
  {
    assert Queue(st.store) == set k | k in st.store && k.Q?;
  }

  /** The alarm: set when the first thing is stored and whenever it rings with something left, for a TTL later. */
  lemma AlarmAfter(st: State, e: Event)
    ensures Step(st, e).alarm ==
              if e.AlarmEvent? then (if Step(st, e).store == map[] then None else Some(e.at + 600_000))
              else if TakesIn(st, e) && st.alarm.None? then Some(e.at + 600_000) else st.alarm
  {
  }

  /** A reply is let in exactly when it is no longer than an envelope and a request of its device with its nonce was taken in
      and has not been swept since. */
  lemma LetInIff(events: seq<Event>, late: nat, r: ReplyItem)
    requires Feasible(EMPTY, events, late)
    ensures IsFor(Run(EMPTY, events).store, r) <==>
              |r.reply| <= 307_200 && exists i: nat, at: int :: StoredSince(events, i, S(r.n), Entry(r.d, at, Nothing))
  {
    var st := Run(EMPTY, events);
    RunKeepsInv(events, late);
    forall at: int { StoredIff(events, late, S(r.n), Entry(r.d, at, Nothing)); }
    if S(r.n) in st.store {
      TombstonesAreEmpty(events, late, r.n);
      var e := st.store[S(r.n)];
      if e.d == r.d {
        assert e == Entry(r.d, e.at, Nothing) && Stored(st, S(r.n), Entry(r.d, e.at, Nothing));
        var i: nat :| StoredSince(events, i, S(r.n), Entry(r.d, e.at, Nothing));
      }
    }
    if i: nat, at: int :| StoredSince(events, i, S(r.n), Entry(r.d, at, Nothing)) {
      assert Stored(st, S(r.n), Entry(r.d, at, Nothing));
    }
  }

  lemma TombstonesAreEmpty(events: seq<Event>, late: nat, n: string)
    requires Feasible(EMPTY, events, late) && S(n) in Run(EMPTY, events).store
    ensures Run(EMPTY, events).store[S(n)].content == Nothing
  {
    var entry := Run(EMPTY, events).store[S(n)];
    StoredIff(events, late, S(n), entry);
    assert Stored(Run(EMPTY, events), S(n), entry);
    var i: nat :| StoredSince(events, i, S(n), entry);
  }

  /** After every run, what a PC that asks for a nonce gets is the text of the last reply the server gave for that nonce and
      device, exactly when it is still there: not fetched, replaced or swept since.  Another device gets none of it. */
  lemma PickUpGetsTheReply(events: seq<Event>, late: nat, d: string, n: string, text: string)
    requires Feasible(EMPTY, events, late)
    ensures ReplyFor(Run(EMPTY, events).store, d, n) == Some(text) <==>
              exists i: nat, at: int :: StoredSince(events, i, R(n), Entry(d, at, Answer(text)))
  {
    var st := Run(EMPTY, events);
    RunKeepsInv(events, late);
    forall at: int { StoredIff(events, late, R(n), Entry(d, at, Answer(text))); }
    if ReplyFor(st.store, d, n) == Some(text) {
      assert GoodEntry(st, R(n));
      var entry := st.store[R(n)];
      assert entry == Entry(d, entry.at, Answer(text)) && Stored(st, R(n), entry);
      var i: nat :| StoredSince(events, i, R(n), entry);
    }
    if i: nat, at: int :| StoredSince(events, i, R(n), Entry(d, at, Answer(text))) {
      assert Stored(st, R(n), Entry(d, at, Answer(text)));
    }
  }

  /** The post itself is answered in the same way, and fetching takes nothing but the reply fetched. */
  lemma FetchingTakesOne(st: State, posted: Posted, read: Keys, checkedAt: int, at: int, d: string, n: string)
    ensures SendStatus(read, st.store, posted, checkedAt) == 202 ==>
              ReplyFor(TakenIn(st, posted.env, checkedAt, at).store, posted.env.d, posted.env.n) ==
              ReplyFor(st.store, posted.env.d, posted.env.n)
    ensures PickedUp(st, d, n).store == if ReplyFor(st.store, d, n).Some? then st.store - {R(n)} else st.store
    ensures PickedUp(st, d, n) == st.(store := PickedUp(st, d, n).store)
  {
  }

  /** A tombstone stands for as long as its envelope's timestamp still passes. */
  lemma TombstoneOutlivesTimestamp(events: seq<Event>, late: nat, a: Accepted, now: int)
    requires Feasible(EMPTY, events, late) && a in Run(EMPTY, events).accepted
    requires Run(EMPTY, events).clock <= now && Skew(a.env, now) <= SKEW
    ensures S(a.env.n) in Run(EMPTY, events).store
  {
    RunKeepsInv(events, late);
    assert Remembered(Run(EMPTY, events), a);
  }

  // ── The Durable Object ──

  class Box {
    var keys: Keys
    var store: Store
    var alarmAt: Option<int>

    ghost var lists: set<Keys>
    ghost var clock: int
    ghost var accepted: seq<Accepted>
    ghost var handed: seq<Envelope>

    ghost function View(): State
      reads this
    {
      State(keys, store, alarmAt, lists, clock, accepted, handed)
    }

    constructor ()
      ensures View() == EMPTY
    {
      keys, store, alarmAt, lists, clock, accepted, handed := map[], map[], None, {map[]}, 0, [], [];
    }

    /** In slices, as the storage takes only so many keys in one call. */
    method DeleteAll(gone: seq<StorageKey>)
      modifies this`store
      ensures store == old(store) - (set k | k in gone)
    {
      var i := 0;
      while i < |gone|
        invariant 0 <= i <= |gone|
        invariant store == old(store) - (set k | k in gone[..i])
      {
        var end := Min(i + DELETE_BATCH, |gone|);
        var slice := set k | k in gone[i..end];
        assert (set k | k in gone[..end]) == (set k | k in gone[..i]) + slice by {
          assert gone[..end] == gone[..i] + gone[i..end];
        }
        store := store - slice;
        i := end;
      }
      assert gone[..|gone|] == gone;
    }

    method Send(posted: Posted, read: Keys, checkedAt: int, at: int) returns (status: int, reply: Option<string>)
      modifies this
      ensures View() == Sent(old(View()), posted, read, checkedAt, at)
      ensures reply.None? ==> status == SendStatus(read, old(store), posted, checkedAt)
      ensures reply.Some? ==> status == 200 && SendStatus(read, old(store), posted, checkedAt) == 202
    {
      clock := at;
      reply := None;
      match posted {
        case TooLarge => status := 413;
        case Malformed => status := 400;
        case Parsed(env) =>
          if env.d !in read || read[env.d] == "" || env.signer != read[env.d] {
            return 403, None;
          }
          if Skew(env, checkedAt) > SKEW {
            return 401, None;
          }
          if S(env.n) in store {
            return 409, None;
          }
          var pending := QueueOf(store, env.d);
          if |pending| >= PER_DEVICE {
            return 429, None;
          }
          store := store[S(env.n) := Entry(env.d, at, Nothing)][Q(env.d, env.n) := Entry(env.d, at, Request(env))];
          accepted := accepted + [Accepted(env, checkedAt, at)];
          EnsureAlarm(at);
          reply := TakeReply(env.d, env.n);
          status := if reply.Some? then 200 else 202;
      }
    }

    method EnsureAlarm(now: int)
      modifies this`alarmAt
      ensures alarmAt == if old(alarmAt).Some? then old(alarmAt) else Some(now + TTL)
    {
      if alarmAt.None? {
        alarmAt := Some(now + TTL);
      }
    }

    method TakeReply(d: string, n: string) returns (reply: Option<string>)
      modifies this`store
      ensures reply == ReplyFor(old(store), d, n)
      ensures View() == PickedUp(old(View()), d, n)
    {
      if R(n) !in store || store[R(n)].d != d || !store[R(n)].content.Answer? {
        return None;
      }
      reply := Some(store[R(n)].content.text);
      store := store - {R(n)};
    }

    method PutKeys(newKeys: Keys)
      modifies this
      ensures View() == KeysPut(old(View()), newKeys)
    {
      keys, lists := newKeys, lists + {newKeys};
      var drop := ListOf(Dropped(store, keys));
      DeleteAll(drop);
    }

    method Pull() returns (batch: seq<StorageKey>, requests: seq<Envelope>)
      requires forall k <- Queue(store) :: store[k].content.Request?
      modifies this
      ensures IsBatch(old(store), batch)
      ensures View() == Pulled(old(View()), batch) && requests == Envelopes(old(store), batch)
    {
      batch := FirstOf(Queue(store));
      requests := Envelopes(store, batch);
      DeleteAll(batch);
      handed := handed + requests;
    }

    method Reply(replies: seq<ReplyItem>, now: int) returns (stored: nat)
      modifies this`store
      ensures store == Replied(old(store), replies, now)
    {
      stored := 0;
      for i := 0 to |replies|
        invariant store == Replied(old(store), replies[..i], now)
      {
        assert replies[..i + 1][..i] == replies[..i];
        var r := replies[i];
        if |r.reply| > MAX_ENVELOPE || S(r.n) !in store || store[S(r.n)].d != r.d {
          continue;
        }
        store := store[R(r.n) := Entry(r.d, now, Answer(r.reply))];
        stored := stored + 1;
      }
      assert replies[..|replies|] == replies;
    }

    /** Drops what is too old under one prefix; whether anything is left under it. */
    method Sweep(kind: nat, cutoff: int) returns (some: bool)
      modifies this`store
      ensures store == old(store) - (set k | k in old(store) && Kind(k) == kind && old(store)[k].at < cutoff)
      ensures some <==> exists k <- store :: Kind(k) == kind
    {
      var entries := set k | k in store && Kind(k) == kind;
      var gone := set k | k in entries && store[k].at < cutoff;
      var list := ListOf(gone);
      DeleteAll(list);
      some := entries != gone;
      assert forall k :: k in store && Kind(k) == kind <==> k in entries - gone;
    }

    method Alarm(now: int)
      modifies this
      ensures View() == Rang(old(View()), now)
    {
      clock, alarmAt := now, None;
      var more := false;
      for kind := 0 to 3
        invariant store == old(store) - (set k | k in old(store) && Kind(k) < kind && old(store)[k].at < now - TTL)
        invariant more <==> exists k <- store :: Kind(k) < kind
        invariant alarmAt == None && clock == now && keys == old(keys) && lists == old(lists)
        invariant accepted == old(accepted) && handed == old(handed)
      {
        var some := Sweep(kind, now - TTL);
        more := more || some;
      }
      assert store == old(store) - Old(old(store), now);
      if more {
        alarmAt := Some(now + TTL);
      } else {
        assert store.Keys == {};
      }
    }
  }

  /** The order in which the alarm visits the prefixes "q:", "r:" and "s:". */
  function Kind(k: StorageKey): nat {
    match k case Q(_, _) => 0 case R(_) => 1 case S(_) => 2
  }

  ghost predicate NoRepeats(list: seq<StorageKey>) {
    forall i, j :: 0 <= i < j < |list| ==> list[i] != list[j]
  }

  lemma StillNoRepeats(list: seq<StorageKey>, k: StorageKey)
    requires NoRepeats(list) && k !in list
    ensures NoRepeats(list + [k])
  {
  }

  method ListOf(keys: set<StorageKey>) returns (list: seq<StorageKey>)
    ensures (set k | k in list) == keys && |list| == |keys|
    ensures NoRepeats(list)
  {
    list := [];
    var left := keys;
    while left != {}
      invariant left <= keys && (forall k :: k in list <==> k in keys - left) && |list| + |left| == |keys|
      invariant NoRepeats(list)
      decreases |left|
    {
      var k :| k in left;
      StillNoRepeats(list, k);
      list, left := list + [k], left - {k};
    }
  }

  /** At most `PULL_BATCH` of them. */
  method FirstOf(keys: set<StorageKey>) returns (batch: seq<StorageKey>)
    ensures forall k <- batch :: k in keys
    ensures NoRepeats(batch) && |batch| == Min(PULL_BATCH, |keys|)
  {
    var all := ListOf(keys);
    batch := all[..Min(PULL_BATCH, |all|)];
  }
}
