/** Signed device requests (app/routes/pal.py, app/db.py, app/relay_collector.py, PalClient.cs): the same
    signed request may reach the server any number of times, over the LAN and through the relay.
    Times are seconds; a request's timestamp is a whole number of them. */
module Replay {
  import opened Wrappers

  const CLOCK_SKEW := 300.0
  const NONCE_TTL := 2.0 * CLOCK_SKEW

  /** What the device key signs: timestamp, nonce, and method, path and body digest.  The device's id is not among it. */
  datatype Part = Part(timestamp: int, nonce: string, content: string)

  /** A signed request: a signature names the key that made it and what it signs, and cannot be forged. */
  datatype Signature = Signature(key: string, part: Part)

  /** One copy of it, under the device id of its header, which no signature covers. */
  datatype Request = Request(device: string, part: Part, signature: Signature)

  /** A relay envelope: signed outside by the device key, the request sealed inside (None: it does not open). */
  datatype Envelope = Envelope(device: string, timestamp: int, nonce: string, signer: string, inner: Option<Request>)

  datatype Device = Device(publicKey: string, revoked: bool, remoteAllowed: bool)

  /** A handler that ran, for which device and signed request, with the clock readings of the skew check and of the
      nonce row. */
  datatype Execution = Execution(device: string, signed: Signature, checkedAt: real, recordedAt: real)

  datatype Verdict = Executes | Unknown | ClockWrong | Replayed | Revoked | RemoteOff | BadInner | Dropped

  type Nonces = map<(string, string), real>

  /** With the key of every device there ever was. */
  datatype State = State(devices: map<string, Device>, nonces: Nonces,
                         enrolled: map<string, string>, clock: real, log: seq<Execution>)

  const EMPTY := State(map[], map[], map[], 0.0, [])

  predicate Skewed(timestamp: int, now: real) {
    now - timestamp as real > CLOCK_SKEW || timestamp as real - now > CLOCK_SKEW
  }

  predicate WellFormed(r: Request) {
    |r.device| == 32 && r.part.timestamp >= 0 && IsNonce(r.part.nonce)
  }

  predicate IsNonce(nonce: string) {
    16 <= |nonce| <= 64 && forall c <- nonce :: NonceChar(c)
  }

  predicate NonceChar(c: char) {
    'A' <= c <= 'Z' || 'a' <= c <= 'z' || '0' <= c <= '9' || c == '-' || c == '_'
  }

  function Unexpired(nonces: Nonces, now: real): Nonces {
    map k | k in nonces && nonces[k] >= now :: nonces[k]
  }

  /** The copy verifies with the key of the device it names. */
  predicate Verifies(st: State, r: Request) {
    r.device in st.devices && r.signature == Signature(st.devices[r.device].publicKey, r.part)
  }

  /** What the server answers, before it touches anything: the checks in the order they are made. */
  function Judge(st: State, r: Request, checkedAt: real, recordedAt: real): Verdict {
    if r.device !in st.devices || !WellFormed(r) then Unknown
    else if !Verifies(st, r) then Unknown
    else if Skewed(r.part.timestamp, checkedAt) then ClockWrong
    else if (r.device, r.part.nonce) in Unexpired(st.nonces, recordedAt) then Replayed
    else if st.devices[r.device].revoked then Revoked
    else Executes
  }

  function Served(st: State, r: Request, checkedAt: real, recordedAt: real): State {
    var v := Judge(st, r, checkedAt, recordedAt);
    var used := Unexpired(st.nonces, recordedAt)[(r.device, r.part.nonce) := recordedAt + NONCE_TTL];
    match v
    case Replayed => st.(nonces := Unexpired(st.nonces, recordedAt), clock := recordedAt)
    case Revoked => st.(nonces := used, clock := recordedAt)
    case Executes => st.(nonces := used, clock := recordedAt, log := st.log + [Execution(r.device, r.signature, checkedAt, recordedAt)])
    case _ => st.(clock := recordedAt)
  }

  /** Opening a collected envelope: None when the request inside goes through `Served`. */
  function JudgeEnvelope(st: State, e: Envelope, now: real): Option<Verdict> {
    if e.device !in st.devices || st.devices[e.device].publicKey != e.signer then Some(Dropped)
    else if st.devices[e.device].revoked then Some(Revoked)
    else if !st.devices[e.device].remoteAllowed then Some(RemoteOff)
    else if Skewed(e.timestamp, now) then Some(ClockWrong)
    else if e.inner.None? || e.inner.value.device != e.device then Some(BadInner)
    else None
  }

  function Relayed(st: State, e: Envelope, openedAt: real, checkedAt: real, recordedAt: real): State {
    if JudgeEnvelope(st, e, openedAt).Some? then st.(clock := recordedAt)
    else Served(st, e.inner.value, checkedAt, recordedAt)
  }

  function Enrolled(st: State, id: string, device: Device): State {
    st.(devices := st.devices[id := device], enrolled := st.enrolled[id := device.publicKey])
  }

  function WithRevoked(st: State, id: string): State {
    if id in st.devices then st.(devices := st.devices[id := st.devices[id].(revoked := true)]) else st
  }

  function Forgotten(st: State, id: string): State {
    if id in st.devices && st.devices[id].revoked then
      st.(devices := st.devices - {id}, nonces := map k | k in st.nonces && k.0 != id :: st.nonces[k])
    else st
  }

  // ── Runs ──

  datatype Event =
    | Lan(request: Request, checkedAt: real, recordedAt: real)
    | Relay(envelope: Envelope, openedAt: real, checkedAt: real, recordedAt: real)
    | Enroll(id: string, device: Device)
    | RemoteSwitch(id: string, allowed: bool)
    | Revoke(id: string)
    | Delete(id: string)
    | DeleteCa(ids: set<string>)   // with the PCs connected to it
    | Restore          // a restored backup drops every pairing and nonce

  function Step(st: State, e: Event): State {
    match e
    case Lan(r, checkedAt, recordedAt) => Served(st, r, checkedAt, recordedAt)
    case Relay(env, openedAt, checkedAt, recordedAt) => Relayed(st, env, openedAt, checkedAt, recordedAt)
    case Enroll(id, device) => Enrolled(st, id, device)
    case RemoteSwitch(id, allowed) =>
      if id in st.devices && !st.devices[id].revoked
      then st.(devices := st.devices[id := st.devices[id].(remoteAllowed := allowed)]) else st
    case Revoke(id) => WithRevoked(st, id)
    case Delete(id) => Forgotten(st, id)
    case DeleteCa(ids) => st.(devices := st.devices - ids, nonces := map k | k in st.nonces && k.0 !in ids :: st.nonces[k])
    case Restore => st.(devices := map[], nonces := map[])
  }

  /** The clock never steps back and a new device's random id was never a device's before. */
  ghost predicate CanHappen(st: State, e: Event) {
    match e
    case Lan(_, checkedAt, recordedAt) => st.clock <= checkedAt <= recordedAt
    case Relay(_, openedAt, checkedAt, recordedAt) => st.clock <= openedAt <= checkedAt <= recordedAt
    case Enroll(id, _) => id !in st.enrolled
    case _ => true
  }

  /** The skew check and the nonce row use one reading of the clock. */
  ghost predicate OneReading(e: Event) {
    (e.Lan? || e.Relay?) ==> e.checkedAt == e.recordedAt
  }

  function RunOf(st: State, events: seq<Event>): State {
    if events == [] then st else Step(RunOf(st, events[..|events| - 1]), events[|events| - 1])
  }

  ghost predicate Feasible(events: seq<Event>) {
    events == [] || (Feasible(events[..|events| - 1]) && CanHappen(RunOf(EMPTY, events[..|events| - 1]), events[|events| - 1]))
  }

  /** An executed request was signed with its device's key, and the device is gone for good, or the nonce row stands, or
      it has stood long enough. */
  ghost predicate Guarded(st: State, x: Execution) {
    var part := x.signed.part;
    && !Skewed(part.timestamp, x.checkedAt) && x.checkedAt <= x.recordedAt <= st.clock
    && x.device in st.enrolled && st.enrolled[x.device] == x.signed.key
    && (|| x.device !in st.devices
        || st.clock > x.recordedAt + NONCE_TTL
        || ((x.device, part.nonce) in st.nonces && st.nonces[(x.device, part.nonce)] == x.recordedAt + NONCE_TTL))
  }

  ghost predicate Inv(st: State) {
    && (forall d <- st.devices :: d in st.enrolled && st.enrolled[d] == st.devices[d].publicKey)
    && (forall x <- st.log :: Guarded(st, x))
  }

  lemma ServedKeepsInv(st: State, r: Request, checkedAt: real, recordedAt: real)
    requires Inv(st) && st.clock <= checkedAt <= recordedAt
    ensures Inv(Served(st, r, checkedAt, recordedAt))
  {
    var st' := Served(st, r, checkedAt, recordedAt);
    forall x <- st'.log ensures Guarded(st', x) {
      assert x in st.log ==> Guarded(st, x);
    }
  }

  lemma StepKeepsInv(st: State, e: Event)
    requires Inv(st) && CanHappen(st, e)
    ensures Inv(Step(st, e))
  {
    var st' := Step(st, e);
    if e.Lan? {
      ServedKeepsInv(st, e.request, e.checkedAt, e.recordedAt);
    } else if e.Relay? && JudgeEnvelope(st, e.envelope, e.openedAt).None? {
      ServedKeepsInv(st, e.envelope.inner.value, e.checkedAt, e.recordedAt);
    } else {
      forall x <- st'.log ensures Guarded(st', x) {
        assert Guarded(st, x);
      }
    }
  }

  /** The copy is of that signed request, under the id of a live device whose key signed it. */
  ghost predicate IsCopy(st: State, x: Execution, r: Request) {
    Genuine(st, r) && r.signature == x.signed
  }

  /** The copy is well formed and verifies for the live device it names. */
  predicate Genuine(st: State, r: Request) {
    WellFormed(r) && Verifies(st, r) && !st.devices[r.device].revoked
  }

  /** A copy of an executed request runs again exactly when its timestamp still passes the one reading of the clock and, at
      the other, its nonce row has lapsed if it names the same device, and there is none if it names another. */
  lemma CopyRunsIff(st: State, x: Execution, r: Request, checkedAt: real, recordedAt: real)
    requires Inv(st) && x in st.log && st.clock <= checkedAt <= recordedAt && IsCopy(st, x, r)
    ensures Judge(st, r, checkedAt, recordedAt).Executes? <==>
              && !Skewed(r.part.timestamp, checkedAt)
              && if r.device == x.device then recordedAt > x.recordedAt + NONCE_TTL
                 else (r.device, r.part.nonce) !in Unexpired(st.nonces, recordedAt)
  {
    assert Guarded(st, x);
  }

  predicate SameForDevice(x: Execution, y: Execution) {
    x.device == y.device && x.signed.part == y.signed.part
  }

  ghost predicate NoneTwiceForDevice(log: seq<Execution>) {
    forall i, j :: 0 <= i < j < |log| ==> !SameForDevice(log[i], log[j])
  }

  ghost predicate NoneTwice(log: seq<Execution>) {
    forall i, j :: 0 <= i < j < |log| ==> log[i].signed != log[j].signed
  }

  /** What a device's key signed runs at most once for that device. */
  ghost predicate OncePerDevice(st: State) {
    NoneTwiceForDevice(st.log)
  }

  /** A signed request runs at most once, whichever devices it is brought to. */
  ghost predicate EachOnce(st: State) {
    NoneTwice(st.log)
  }

  lemma OneMore(log: seq<Execution>, y: Execution)
    ensures NoneTwiceForDevice(log + [y]) <==> NoneTwiceForDevice(log) && forall x <- log :: !SameForDevice(x, y)
    ensures NoneTwice(log + [y]) <==> NoneTwice(log) && forall x <- log :: x.signed != y.signed
  {
    var more := log + [y];
    assert forall i :: 0 <= i < |log| ==> more[i] == log[i] && log[i] in log;
    forall x <- log ensures exists i :: 0 <= i < |log| && more[i] == x {
      var i :| 0 <= i < |log| && log[i] == x;
      assert more[i] == x;
    }
    assert more[|log|] == y;
  }

  // ── At most once, over runs ──

  /** The copy an event brings to the device API, with its two readings of the clock. */
  function Delivered(st: State, e: Event): Option<(Request, real, real)> {
    match e
    case Lan(r, checkedAt, recordedAt) => Some((r, checkedAt, recordedAt))
    case Relay(env, openedAt, checkedAt, recordedAt) =>
      if JudgeEnvelope(st, env, openedAt).None? then Some((env.inner.value, checkedAt, recordedAt)) else None
    case _ => None
  }

  /** A copy for the same device whose timestamp passes the first reading and whose nonce row has lapsed at the second. */
  ghost predicate Straddles(x: Execution, r: Request, checkedAt: real, recordedAt: real) {
    r.device == x.device && r.part == x.signed.part && !Skewed(r.part.timestamp, checkedAt) && recordedAt > x.recordedAt + NONCE_TTL
  }

  ghost predicate RunsAgain(st: State, e: Event) {
    var d := Delivered(st, e);
    d.Some? && Genuine(st, d.value.0) && exists x <- st.log :: Straddles(x, d.value.0, d.value.1, d.value.2)
  }

  /** A copy in time for another device, enrolled with the same key, that has not just seen the nonce. */
  ghost predicate Crosses(st: State, x: Execution, r: Request, checkedAt: real, recordedAt: real) {
    && r.device != x.device && r.signature == x.signed && !Skewed(r.part.timestamp, checkedAt)
    && (r.device, r.part.nonce) !in Unexpired(st.nonces, recordedAt)
  }

  ghost predicate RunsElsewhere(st: State, e: Event) {
    var d := Delivered(st, e);
    d.Some? && Genuine(st, d.value.0) && exists x <- st.log :: Crosses(st, x, d.value.0, d.value.1, d.value.2)
  }

  lemma LogAfter(st: State, e: Event)
    ensures var d := Delivered(st, e);
            Step(st, e).log ==
              if d.Some? && Judge(st, d.value.0, d.value.1, d.value.2).Executes?
              then st.log + [Execution(d.value.0.device, d.value.0.signature, d.value.1, d.value.2)] else st.log
  {
  }

  lemma StraddlerRuns(st: State, r: Request, checkedAt: real, recordedAt: real, x: Execution)
    requires Inv(st) && x in st.log && st.clock <= checkedAt <= recordedAt && Genuine(st, r)
    ensures Straddles(x, r, checkedAt, recordedAt) <==>
              Judge(st, r, checkedAt, recordedAt).Executes? && r.device == x.device && r.part == x.signed.part
    ensures Crosses(st, x, r, checkedAt, recordedAt) <==>
              Judge(st, r, checkedAt, recordedAt).Executes? && r.device != x.device && r.signature == x.signed
    ensures r.device == x.device && r.part == x.signed.part ==> r.signature == x.signed
  {
    assert Guarded(st, x);
  }

  lemma StepRepeatsIff(st: State, e: Event)
    requires Inv(st) && CanHappen(st, e)
    ensures OncePerDevice(Step(st, e)) <==> OncePerDevice(st) && !RunsAgain(st, e)
    ensures EachOnce(Step(st, e)) <==> EachOnce(st) && !RunsAgain(st, e) && !RunsElsewhere(st, e)
  {
    var d := Delivered(st, e);
    LogAfter(st, e);
    if d.Some? && Genuine(st, d.value.0) {
      var (r, checkedAt, recordedAt) := d.value;
      ServedRepeatsIff(st, r, checkedAt, recordedAt);
    }
  }

  lemma ServedRepeatsIff(st: State, r: Request, checkedAt: real, recordedAt: real)
    requires Inv(st) && st.clock <= checkedAt <= recordedAt && Genuine(st, r)
    ensures var log := if Judge(st, r, checkedAt, recordedAt).Executes?
                       then st.log + [Execution(r.device, r.signature, checkedAt, recordedAt)] else st.log;
            var (again, elsewhere) := (exists x <- st.log :: Straddles(x, r, checkedAt, recordedAt),
                                       exists x <- st.log :: Crosses(st, x, r, checkedAt, recordedAt));
            && (NoneTwiceForDevice(log) <==> NoneTwiceForDevice(st.log) && !again)
            && (NoneTwice(log) <==> NoneTwice(st.log) && !again && !elsewhere)
  {
    var y := Execution(r.device, r.signature, checkedAt, recordedAt);
    forall x <- st.log { StraddlerRuns(st, r, checkedAt, recordedAt, x); }
    if Judge(st, r, checkedAt, recordedAt).Executes? {
      OneMore(st.log, y);
      assert forall x <- st.log :: SameForDevice(x, y) <==> Straddles(x, r, checkedAt, recordedAt);
      assert forall x <- st.log :: x.signed == y.signed <==> Straddles(x, r, checkedAt, recordedAt) || Crosses(st, x, r, checkedAt, recordedAt);
    }
  }

  lemma {:induction false} RunKeepsInv(events: seq<Event>)
    requires Feasible(events)
    ensures Inv(RunOf(EMPTY, events))
  {
    if events != [] {
      RunKeepsInv(events[..|events| - 1]);
      StepKeepsInv(RunOf(EMPTY, events[..|events| - 1]), events[|events| - 1]);
    }
  }

  /** No event of the run brings a device such a copy of what it had. */
  ghost predicate NoRepeats(events: seq<Event>) {
    events == [] || (NoRepeats(events[..|events| - 1]) && !RunsAgain(RunOf(EMPTY, events[..|events| - 1]), events[|events| - 1]))
  }

  /** No event of the run brings a device such a copy of what another device of its key had. */
  ghost predicate NoCrossings(events: seq<Event>) {
    events == [] || (NoCrossings(events[..|events| - 1]) && !RunsElsewhere(RunOf(EMPTY, events[..|events| - 1]), events[|events| - 1]))
  }

  /** However often, in whatever order and over whichever routes copies of signed requests arrive, the handler runs at most
      once for each device and what its key signed exactly when no event brings that device a copy whose timestamp passes
      the first reading of the clock and whose nonce row has lapsed at the second.  It runs at most once for each signed
      request exactly when, besides, no event brings one that ran to another live device enrolled with the same key, in time
      and with a nonce that device has not just seen. */
  lemma {:induction false} AtMostOnceIff(events: seq<Event>)
    requires Feasible(events)
    ensures OncePerDevice(RunOf(EMPTY, events)) <==> NoRepeats(events)
    ensures EachOnce(RunOf(EMPTY, events)) <==> NoRepeats(events) && NoCrossings(events)
  {
    if events != [] {
      var rest := events[..|events| - 1];
      AtMostOnceIff(rest);
      RunKeepsInv(rest);
      StepRepeatsIff(RunOf(EMPTY, rest), events[|events| - 1]);
    }
  }

  /** A second run of one signed request for one device needs a copy whose first reading is no later than its timestamp
      allows and whose second reading is later, more than the nonce's life after the first run; one for another device
      needs two devices enrolled with one key. */
  lemma {:induction false} SecondRunStraddles(events: seq<Event>, i: nat, j: nat)
    requires Feasible(events) && i < j < |RunOf(EMPTY, events).log|
    requires RunOf(EMPTY, events).log[i].signed == RunOf(EMPTY, events).log[j].signed
    ensures var (x, y) := (RunOf(EMPTY, events).log[i], RunOf(EMPTY, events).log[j]);
            if x.device == y.device then
              && y.recordedAt > x.recordedAt + NONCE_TTL
              && y.checkedAt <= y.signed.part.timestamp as real + CLOCK_SKEW < y.recordedAt
            else KeyOf(RunOf(EMPTY, events), x.device) == KeyOf(RunOf(EMPTY, events), y.device) == Some(x.signed.key)
  {
    var rest, e := events[..|events| - 1], events[|events| - 1];
    var before := RunOf(EMPTY, rest);
    LogAfter(before, e);
    RunKeepsInv(rest);
    RunKeepsInv(events);
    if j < |before.log| {
      SecondRunStraddles(rest, i, j);
      KeysStay(before, e);
    } else {
      assert Guarded(before, before.log[i]);
      assert Guarded(RunOf(EMPTY, events), RunOf(EMPTY, events).log[i]) && Guarded(RunOf(EMPTY, events), RunOf(EMPTY, events).log[j]);
    }
  }

  /** The key a device was enrolled with, however long ago. */
  function KeyOf(st: State, device: string): Option<string> {
    if device in st.enrolled then Some(st.enrolled[device]) else None
  }

  lemma KeysStay(st: State, e: Event)
    requires CanHappen(st, e)
    ensures forall d <- st.enrolled :: KeyOf(Step(st, e), d) == KeyOf(st, d)
  {
  }

  /** No two devices were ever enrolled with one key. */
  ghost predicate OwnKeys(st: State) {
    forall d, d' :: d in st.enrolled && d' in st.enrolled && st.enrolled[d] == st.enrolled[d'] ==> d == d'
  }

  lemma OwnKeysStayApart(st: State, e: Event)
    requires Inv(st) && OwnKeys(st)
    ensures !RunsElsewhere(st, e)
  {
    var d := Delivered(st, e);
    if d.Some? && Genuine(st, d.value.0) {
      forall x <- st.log ensures !Crosses(st, x, d.value.0, d.value.1, d.value.2) {
        assert Guarded(st, x);
      }
    }
  }

  lemma OwnKeysBefore(st: State, e: Event)
    requires CanHappen(st, e) && OwnKeys(Step(st, e))
    ensures OwnKeys(st)
  {
    KeysStay(st, e);
    forall d, d' | d in st.enrolled && d' in st.enrolled && st.enrolled[d] == st.enrolled[d'] ensures d == d' {
      assert KeyOf(Step(st, e), d) == KeyOf(Step(st, e), d');
    }
  }

  lemma {:induction false} OwnKeysNeverCross(events: seq<Event>)
    requires Feasible(events) && OwnKeys(RunOf(EMPTY, events))
    ensures NoCrossings(events)
  {
    if events != [] {
      var rest, e := events[..|events| - 1], events[|events| - 1];
      RunKeepsInv(rest);
      OwnKeysBefore(RunOf(EMPTY, rest), e);
      OwnKeysStayApart(RunOf(EMPTY, rest), e);
      OwnKeysNeverCross(rest);
    }
  }

  /** The event's readings lie on the same side of the last moment its request's timestamp is accepted. */
  ghost predicate NotBetween(st: State, e: Event) {
    var d := Delivered(st, e);
    d.Some? ==> !(d.value.1 <= d.value.0.part.timestamp as real + CLOCK_SKEW < d.value.2)
  }

  ghost predicate NeverBetween(events: seq<Event>) {
    events == [] || (NeverBetween(events[..|events| - 1]) && NotBetween(RunOf(EMPTY, events[..|events| - 1]), events[|events| - 1]))
  }

  lemma NotBetweenRunsOnce(st: State, e: Event)
    requires Inv(st) && NotBetween(st, e)
    ensures !RunsAgain(st, e)
  {
    var d := Delivered(st, e);
    if d.Some? {
      forall x <- st.log ensures !Straddles(x, d.value.0, d.value.1, d.value.2) {
        assert Guarded(st, x);
      }
    }
  }

  lemma {:induction false} NeverBetweenNoRepeats(events: seq<Event>)
    requires Feasible(events) && NeverBetween(events)
    ensures NoRepeats(events)
  {
    if events != [] {
      NeverBetweenNoRepeats(events[..|events| - 1]);
      RunKeepsInv(events[..|events| - 1]);
      NotBetweenRunsOnce(RunOf(EMPTY, events[..|events| - 1]), events[|events| - 1]);
    }
  }

  /** So in every run in which no request's last accepted moment falls between its two readings the handler runs at most
      once for each device and what its key signed, and at most once for each signed request exactly when none is brought
      from one device of a key to another; devices with keys of their own suffice. */
  lemma AtMostOnce(events: seq<Event>)
    requires Feasible(events) && NeverBetween(events)
    ensures OncePerDevice(RunOf(EMPTY, events))
    ensures EachOnce(RunOf(EMPTY, events)) <==> NoCrossings(events)
    ensures OwnKeys(RunOf(EMPTY, events)) ==> EachOnce(RunOf(EMPTY, events))
  {
    NeverBetweenNoRepeats(events);
    AtMostOnceIff(events);
    if OwnKeys(RunOf(EMPTY, events)) { OwnKeysNeverCross(events); }
  }

  lemma {:induction false} OneReadingIsNeverBetween(events: seq<Event>)
    requires forall e <- events :: OneReading(e)
    ensures NeverBetween(events)
  {
    if events != [] {
      assert OneReading(events[|events| - 1]);
      OneReadingIsNeverBetween(events[..|events| - 1]);
    }
  }

  /** In particular when one reading serves both checks. */
  lemma OneReadingRunsOnce(events: seq<Event>)
    requires Feasible(events) && forall e <- events :: OneReading(e)
    ensures OncePerDevice(RunOf(EMPTY, events))
    ensures EachOnce(RunOf(EMPTY, events)) <==> NoCrossings(events)
    ensures OwnKeys(RunOf(EMPTY, events)) ==> EachOnce(RunOf(EMPTY, events))
  {
    OneReadingIsNeverBetween(events);
    AtMostOnce(events);
  }

  lemma RunExtends(events: seq<Event>, e: Event)
    requires Feasible(events) && CanHappen(RunOf(EMPTY, events), e)
    ensures Feasible(events + [e]) && RunOf(EMPTY, events + [e]) == Step(RunOf(EMPTY, events), e)
  {
    assert (events + [e])[..|events|] == events;
  }

  /** With two readings any request can run twice: sent by a PC whose clock is 300 s ahead, it comes again, is checked at
      the last moment its timestamp passes and recorded half a second later. */
  lemma TwoReadingsCanRunTwice(device: string, part: Part, key: string)
    requires WellFormed(Request(device, part, Signature(key, part))) && part.timestamp >= 300
    ensures var (r, t) := (Request(device, part, Signature(key, part)), part.timestamp as real);
            var run := [Enroll(device, Device(key, false, false))] + [Lan(r, t - 300.0, t - 300.0)] + [Lan(r, t + 300.0, t + 300.5)];
            Feasible(run) && OwnKeys(RunOf(EMPTY, run)) && !OncePerDevice(RunOf(EMPTY, run))
  {
    var (r, t) := (Request(device, part, Signature(key, part)), part.timestamp as real);
    var enroll, send, copy := [Enroll(device, Device(key, false, false))], Lan(r, t - 300.0, t - 300.0), Lan(r, t + 300.0, t + 300.5);
    RunExtends([], enroll[0]);
    assert [] + [enroll[0]] == enroll;
    RunExtends(enroll, send);
    var once := RunOf(EMPTY, enroll + [send]);
    assert once.log == [Execution(device, r.signature, t - 300.0, t - 300.0)];
    RunExtends(enroll + [send], copy);
    RunKeepsInv(enroll + [send]);
    assert Straddles(once.log[0], r, t + 300.0, t + 300.5) && once.log[0] in once.log;
    StepRepeatsIff(once, copy);
  }

  /** With one key for two devices any request can run twice, each reading of the clock the same: it is brought to the one
      device and then, with the other id in its header, to the other. */
  lemma SharedKeyCanRunTwice(device: string, other: string, part: Part, key: string)
    requires WellFormed(Request(device, part, Signature(key, part))) && |other| == 32 && other != device
    ensures var (signed, t) := (Signature(key, part), part.timestamp as real);
            var run := [Enroll(device, Device(key, false, false))] + [Enroll(other, Device(key, false, false))] +
                       [Lan(Request(device, part, signed), t, t)] + [Lan(Request(other, part, signed), t, t)];
            Feasible(run) && (forall e <- run :: OneReading(e)) && !EachOnce(RunOf(EMPTY, run))
  {
    var (signed, t, pc) := (Signature(key, part), part.timestamp as real, Device(key, false, false));
    var both := [Enroll(device, pc)] + [Enroll(other, pc)];
    BothEnrolled(device, other, pc);
    BroughtToBoth(RunOf(EMPTY, both), device, other, part, key);
    RunExtends(both, Lan(Request(device, part, signed), t, t));
    RunExtends(both + [Lan(Request(device, part, signed), t, t)], Lan(Request(other, part, signed), t, t));
  }

  lemma BothEnrolled(device: string, other: string, pc: Device)
    requires device != other
    ensures var both := [Enroll(device, pc)] + [Enroll(other, pc)];
            && Feasible(both)
            && RunOf(EMPTY, both) == State(map[device := pc, other := pc], map[], map[device := pc.publicKey, other := pc.publicKey], 0.0, [])
  {
    RunExtends([], Enroll(device, pc));
    assert [] + [Enroll(device, pc)] == [Enroll(device, pc)];
    RunExtends([Enroll(device, pc)], Enroll(other, pc));
  }

  lemma BroughtToBoth(st: State, device: string, other: string, part: Part, key: string)
    requires WellFormed(Request(device, part, Signature(key, part))) && |other| == 32 && other != device
    requires st.nonces == map[] && st.log == [] && st.clock == 0.0
    requires device in st.devices && st.devices[device] == Device(key, false, false)
    requires other in st.devices && st.devices[other] == Device(key, false, false)
    ensures var (signed, t) := (Signature(key, part), part.timestamp as real);
            var once := Served(st, Request(device, part, signed), t, t);
            once.clock == t && !EachOnce(Served(once, Request(other, part, signed), t, t))
  {
    var (signed, t) := (Signature(key, part), part.timestamp as real);
    var once := Served(st, Request(device, part, signed), t, t);
    assert once.log == [Execution(device, signed, t, t)] && (other, part.nonce) !in once.nonces;
    var twice := Served(once, Request(other, part, signed), t, t);
    assert twice.log == [Execution(device, signed, t, t), Execution(other, signed, t, t)];
    assert twice.log[0].signed == twice.log[1].signed;
  }

  // ── Who gets through, and by which way ──

  /** In ASCII: a digit, a letter, a dash or an underscore. */
  predicate UrlCode(n: int) {
    47 < n < 58 || 64 < n < 91 || 96 < n < 123 || n == 45 || n == 95
  }

  lemma NonceIff(nonce: string)
    ensures IsNonce(nonce) <==> 15 < |nonce| < 65 && forall c <- nonce :: UrlCode(c as int)
  {
    forall c: char ensures NonceChar(c) <==> UrlCode(c as int) { }
  }

  /** A request runs exactly when it is its live device's own, in time, and its nonce has no unlapsed row there. */
  lemma ExecutesIff(st: State, r: Request, checkedAt: real, recordedAt: real)
    ensures Judge(st, r, checkedAt, recordedAt).Executes? <==>
              && |r.device| == 32 && r.part.timestamp >= 0
              && 15 < |r.part.nonce| < 65 && (forall c <- r.part.nonce :: UrlCode(c as int))
              && r.device in st.devices && !st.devices[r.device].revoked
              && r.signature.key == st.devices[r.device].publicKey && r.signature.part == r.part
              && r.part.timestamp as real - CLOCK_SKEW <= checkedAt <= r.part.timestamp as real + CLOCK_SKEW
              && ((r.device, r.part.nonce) in st.nonces ==> st.nonces[(r.device, r.part.nonce)] < recordedAt)
  {
    NonceIff(r.part.nonce);
  }

  /** The envelope may come by the relay: its device, alive and allowed to, signed it in time, and the request inside
      names the same device. */
  predicate MayRelay(st: State, e: Envelope, openedAt: real) {
    && e.device in st.devices && !st.devices[e.device].revoked && st.devices[e.device].remoteAllowed
    && e.signer == st.devices[e.device].publicKey
    && e.timestamp as real - CLOCK_SKEW <= openedAt <= e.timestamp as real + CLOCK_SKEW
    && e.inner.Some? && e.inner.value.device == e.device
  }

  /** What comes by the relay runs exactly when it may and would run over the LAN, and does then what it would do there;
      otherwise it only takes time. */
  lemma RelayRunsIff(st: State, e: Envelope, openedAt: real, checkedAt: real, recordedAt: real)
    ensures var st' := Step(st, Relay(e, openedAt, checkedAt, recordedAt));
            if MayRelay(st, e, openedAt) then st' == Step(st, Lan(e.inner.value, checkedAt, recordedAt))
            else st' == st.(clock := recordedAt)
    ensures RelayVerdict(st, e, openedAt, checkedAt, recordedAt).Executes? <==>
              MayRelay(st, e, openedAt) && Judge(st, e.inner.value, checkedAt, recordedAt).Executes?
  {
  }

  lemma {:induction false} FeasiblePrefix(events: seq<Event>, n: nat)
    requires Feasible(events) && n <= |events|
    ensures Feasible(events[..n])
    decreases |events|
  {
    if n == |events| {
      assert events[..n] == events;
    } else {
      assert events[..|events| - 1][..n] == events[..n];
      FeasiblePrefix(events[..|events| - 1], n);
    }
  }

  /** Something ran for the device at event `n`. */
  ghost predicate RanAt(events: seq<Event>, n: nat, device: string) {
    && n < |events|
    && var (before, after) := (RunOf(EMPTY, events[..n]).log, RunOf(EMPTY, events[..n + 1]).log);
       |after| > |before| && after[|before|].device == device
  }

  lemma OneEvent(events: seq<Event>, n: nat)
    requires n < |events|
    ensures RunOf(EMPTY, events[..n + 1]) == Step(RunOf(EMPTY, events[..n]), events[n])
  {
    assert events[..n + 1][..n] == events[..n];
  }

  /** In every run, whatever ran by the relay ran for a device that was then alive, allowed to use the relay, and had signed
      the envelope in time; nothing else ever runs but what the LAN brings. */
  lemma RelayedRunsAreAllowed(events: seq<Event>, n: nat, device: string)
    requires n < |events|
    ensures RanAt(events, n, device) ==> events[n].Lan? || events[n].Relay?
    ensures events[n].Relay? ==>
              var (st, e) := (RunOf(EMPTY, events[..n]), events[n]);
              RanAt(events, n, device) <==>
                && MayRelay(st, e.envelope, e.openedAt) && e.envelope.device == device
                && Judge(st, e.envelope.inner.value, e.checkedAt, e.recordedAt).Executes?
    ensures events[n].Lan? ==>
              var (st, e) := (RunOf(EMPTY, events[..n]), events[n]);
              RanAt(events, n, device) <==> e.request.device == device && Judge(st, e.request, e.checkedAt, e.recordedAt).Executes?
  {
    OneEvent(events, n);
    LogAfter(RunOf(EMPTY, events[..n]), events[n]);
  }

  /** What an event does to the devices: enrolling adds one, switching and revoking set their flag on a live one, deleting
      takes a revoked one, its CA's deletion and a restore take theirs; requests change none. */
  lemma DevicesAfter(st: State, e: Event, id: string)
    ensures id in Step(st, e).devices <==>
              || (e.Enroll? && e.id == id)
              || (id in st.devices && !(e.Delete? && e.id == id && st.devices[id].revoked)
                  && !(e.DeleteCa? && id in e.ids) && !e.Restore?)
    ensures id in Step(st, e).devices && !(e.Enroll? && e.id == id) ==>
              var (d, d') := (st.devices[id], Step(st, e).devices[id]);
              && d'.publicKey == d.publicKey
              && d'.revoked == (d.revoked || e == Revoke(id))
              && d'.remoteAllowed == if e.RemoteSwitch? && e.id == id && !d.revoked then e.allowed else d.remoteAllowed
    ensures e.Enroll? ==> Step(st, e).devices[e.id] == e.device && Step(st, e).enrolled == st.enrolled[e.id := e.device.publicKey]
    ensures !e.Enroll? ==> Step(st, e).enrolled == st.enrolled
  {
  }

  /** The request an event brings before the nonce table: its device is there, revoked or not, and signed it in time. */
  ghost predicate Presents(st: State, e: Event, r: Request) {
    && ((e.Lan? && e.request == r) || (e.Relay? && MayRelay(st, e.envelope, e.openedAt) && e.envelope.inner == Some(r)))
    && r.device in st.devices && WellFormed(r) && r.signature == Signature(st.devices[r.device].publicKey, r.part)
    && r.part.timestamp as real - CLOCK_SKEW <= e.checkedAt <= r.part.timestamp as real + CLOCK_SKEW
  }

  /** A request that gets so far clears what has lapsed of the table and leaves its nonce there for the TTL, unless a row of it
      stands; other requests leave the table alone. */
  lemma NoncesAfter(st: State, e: Event, r: Request, k: (string, string))
    requires e.Lan? || e.Relay?
    ensures Step(st, e).clock == e.recordedAt
    ensures (forall q :: !Presents(st, e, q)) ==> Step(st, e).nonces == st.nonces
    ensures Presents(st, e, r) ==>
              var (own, now, after) := ((r.device, r.part.nonce), e.recordedAt, Step(st, e).nonces);
              && (k in after <==> (k in st.nonces && st.nonces[k] >= now) || k == own)
              && (k in after ==> after[k] == if k in st.nonces && st.nonces[k] >= now then st.nonces[k] else now + NONCE_TTL)
  {
    if e.Lan? && Step(st, e).nonces != st.nonces { assert Presents(st, e, e.request); }
    if e.Relay? && Step(st, e).nonces != st.nonces { assert Presents(st, e, e.envelope.inner.value); }
  }

  /** A device's rows go with it, all go in a restore, and no other event touches the table or the clock. */
  lemma NoncesGo(st: State, e: Event, k: (string, string))
    requires !e.Lan? && !e.Relay?
    ensures k in Step(st, e).nonces <==>
              k in st.nonces && !(e == Delete(k.0) && k.0 in st.devices && st.devices[k.0].revoked)
              && !(e.DeleteCa? && k.0 in e.ids) && !e.Restore?
    ensures k in Step(st, e).nonces ==> Step(st, e).nonces[k] == st.nonces[k]
    ensures Step(st, e).clock == st.clock
  {
  }

  /** It is gone, revoked, or not allowed to use the relay. */
  predicate RelayIsOff(st: State, id: string) {
    id in st.devices && !st.devices[id].revoked ==> !st.devices[id].remoteAllowed
  }

  /** It was enrolled once and is revoked or gone. */
  predicate IsOut(st: State, id: string) {
    id in st.enrolled && (id in st.devices ==> st.devices[id].revoked)
  }

  lemma StepKeepsOff(st: State, e: Event, id: string)
    requires CanHappen(st, e) && id in st.enrolled
    ensures id in Step(st, e).enrolled
    ensures RelayIsOff(st, id) && e != RemoteSwitch(id, true) ==> RelayIsOff(Step(st, e), id)
    ensures IsOut(st, id) || e == Revoke(id) ==> IsOut(Step(st, e), id)
  {
    DevicesAfter(st, e, id);
  }

  lemma {:induction false} RelayStaysOff(events: seq<Event>, m: nat, id: string)
    requires Feasible(events) && m <= |events| && id in RunOf(EMPTY, events[..m]).enrolled && RelayIsOff(RunOf(EMPTY, events[..m]), id)
    requires forall k :: m <= k < |events| ==> events[k] != RemoteSwitch(id, true)
    ensures id in RunOf(EMPTY, events).enrolled && RelayIsOff(RunOf(EMPTY, events), id)
    decreases |events|
  {
    if m == |events| {
      assert events[..m] == events;
    } else {
      assert events[..|events| - 1][..m] == events[..m];
      RelayStaysOff(events[..|events| - 1], m, id);
      StepKeepsOff(RunOf(EMPTY, events[..|events| - 1]), events[|events| - 1], id);
    }
  }

  /** Once a device's remote access is switched off, nothing of it runs by the relay until it is switched on again. */
  lemma SwitchedOffStaysOff(events: seq<Event>, m: nat, n: nat, id: string)
    requires Feasible(events) && m < n < |events| && events[n].Relay? && RanAt(events, n, id)
    requires events[m] == RemoteSwitch(id, false) && id in RunOf(EMPTY, events[..m]).enrolled
    ensures exists k :: m < k < n && events[k] == RemoteSwitch(id, true)
  {
    if forall k :: m < k < n ==> events[k] != RemoteSwitch(id, true) {
      FeasiblePrefix(events, n);
      OneEvent(events, m);
      assert events[..n][..m + 1] == events[..m + 1];
      RelayStaysOff(events[..n], m + 1, id);
      RelayedRunsAreAllowed(events, n, id);
    }
  }

  lemma {:induction false} StaysOut(events: seq<Event>, m: nat, id: string)
    requires Feasible(events) && m <= |events| && IsOut(RunOf(EMPTY, events[..m]), id)
    ensures IsOut(RunOf(EMPTY, events), id)
    decreases |events|
  {
    if m == |events| {
      assert events[..m] == events;
    } else {
      assert events[..|events| - 1][..m] == events[..m];
      StaysOut(events[..|events| - 1], m, id);
      StepKeepsOff(RunOf(EMPTY, events[..|events| - 1]), events[|events| - 1], id);
    }
  }

  lemma IsOutAfter(events: seq<Event>, m: nat, id: string)
    requires Feasible(events) && m < |events| && events[m] == Revoke(id) && id in RunOf(EMPTY, events[..m]).enrolled
    ensures IsOut(RunOf(EMPTY, events[..m + 1]), id)
  {
    OneEvent(events, m);
    FeasiblePrefix(events, m + 1);
    assert events[..m + 1][..m] == events[..m];
    StepKeepsOff(RunOf(EMPTY, events[..m]), Revoke(id), id);
  }

  /** Once a device is revoked nothing of it ever runs again, by either way. */
  lemma RevokedNeverRuns(events: seq<Event>, m: nat, n: nat, id: string)
    requires Feasible(events) && m < n < |events| && events[m] == Revoke(id) && id in RunOf(EMPTY, events[..m]).enrolled
    ensures !RanAt(events, n, id)
  {
    IsOutAfter(events, m, id);
    FeasiblePrefix(events, n);
    assert events[..n][..m + 1] == events[..m + 1];
    StaysOut(events[..n], m + 1, id);
    RelayedRunsAreAllowed(events, n, id);
  }

  // ── The server ──

  class Server {
    var devices: map<string, Device>
    var nonces: Nonces

    ghost var enrolled: map<string, string>
    ghost var clock: real
    ghost var log: seq<Execution>

    ghost function View(): State
      reads this
    {
      State(devices, nonces, enrolled, clock, log)
    }

    constructor ()
      ensures View() == EMPTY
    {
      devices, nonces, enrolled, clock, log := map[], map[], map[], 0.0, [];
    }

    /** Records a nonce; false when this device's row for it still stands. */
    method UseNonce(device: string, nonce: string, now: real, ttl: real) returns (first: bool)
      modifies this`nonces
      ensures first <==> (device, nonce) !in Unexpired(old(nonces), now)
      ensures nonces == if first then Unexpired(old(nonces), now)[(device, nonce) := now + ttl] else Unexpired(old(nonces), now)
    {
      nonces := Unexpired(nonces, now);
      if (device, nonce) in nonces {
        return false;
      }
      nonces := nonces[(device, nonce) := now + ttl];
      return true;
    }

    /** Checks a signed request; the handler runs, once, exactly when the verdict is `Executes`. */
    method Handle(r: Request, checkedAt: real, recordedAt: real) returns (v: Verdict)
      modifies this
      ensures v == Judge(old(View()), r, checkedAt, recordedAt)
      ensures View() == Served(old(View()), r, checkedAt, recordedAt)
    {
      clock := recordedAt;
      if r.device !in devices || !WellFormed(r) {
        return Unknown;
      }
      var device := devices[r.device];
      if r.signature != Signature(device.publicKey, r.part) {
        return Unknown;
      }
      if Skewed(r.part.timestamp, checkedAt) {
        return ClockWrong;
      }
      var first := UseNonce(r.device, r.part.nonce, recordedAt, NONCE_TTL);
      if !first {
        return Replayed;
      }
      if device.revoked {
        return Revoked;
      }
      log := log + [Execution(r.device, r.signature, checkedAt, recordedAt)];
      return Executes;
    }

    method Dispatch(e: Envelope, openedAt: real, checkedAt: real, recordedAt: real) returns (v: Verdict)
      modifies this
      ensures View() == Relayed(old(View()), e, openedAt, checkedAt, recordedAt)
      ensures v == RelayVerdict(old(View()), e, openedAt, checkedAt, recordedAt)
    {
      clock := recordedAt;
      if e.device !in devices || devices[e.device].publicKey != e.signer {
        return Dropped;
      }
      var device := devices[e.device];
      if device.revoked {
        return Revoked;
      }
      if !device.remoteAllowed {
        return RemoteOff;
      }
      if Skewed(e.timestamp, openedAt) {
        return ClockWrong;
      }
      if e.inner.None? || e.inner.value.device != e.device {
        return BadInner;
      }
      v := Handle(e.inner.value, checkedAt, recordedAt);
    }

    /** The PCs the relay Worker is told to accept. */
    method AllowedKeys() returns (keys: map<string, string>)
      ensures forall d :: d in keys <==> d in devices && devices[d].remoteAllowed && !devices[d].revoked
      ensures forall d <- keys :: keys[d] == devices[d].publicKey
    {
      keys := map d | d in devices && devices[d].remoteAllowed && !devices[d].revoked :: devices[d].publicKey;
    }

    /** One pass of the collector: the key list goes to the Worker when it changed, and each item of the batch pulled is
        dispatched and answered, in order, unless it is malformed, over the limit or dropped. */
    method RunOnce(pushed: Option<map<string, string>>, batch: seq<Item>, now: real)
      returns (onWorker: map<string, string>, put: bool, replies: seq<Answered>)
      modifies this
      ensures View() == Collected(old(View()), batch, now) && replies == Replies(old(View()), batch, now)
      ensures put <==> pushed != Some(onWorker)
      ensures forall d :: d in onWorker <==> d in old(devices) && old(devices)[d].remoteAllowed && !old(devices)[d].revoked
      ensures forall d <- onWorker :: onWorker[d] == old(devices)[d].publicKey
    {
      onWorker := AllowedKeys();
      put := pushed != Some(onWorker);
      replies := [];
      for i := 0 to |batch|
        invariant View() == Collected(old(View()), batch[..i], now) && replies == Replies(old(View()), batch[..i], now)
      {
        assert batch[..i + 1][..i] == batch[..i];
        var item := batch[i];
        if item.Malformed? || !item.withinLimit || item.envelope.None? { continue; }
        var v := Dispatch(item.envelope.value, now, now, now);
        if v != Dropped {
          replies := replies + [Answered(item.n, item.d, v)];
        }
      }
      assert batch[..|batch|] == batch;
    }

    method RevokeDevice(id: string)
      modifies this`devices
      ensures View() == WithRevoked(old(View()), id)
    {
      if id in devices {
        devices := devices[id := devices[id].(revoked := true)];
      }
    }

    method DeleteDevice(id: string)
      modifies this`devices, this`nonces
      ensures View() == Forgotten(old(View()), id)
    {
      if id in devices && devices[id].revoked {
        devices := devices - {id};
        nonces := map k | k in nonces && k.0 != id :: nonces[k];
      }
    }
  }

  /** What the Worker hands over: the outer device and nonce, the envelope (None: it does not parse), and whether the
      collector's rate limiter allows it. */
  datatype Item = Malformed | Item(d: string, n: string, envelope: Option<Envelope>, withinLimit: bool)

  datatype Answered = Answered(n: string, d: string, verdict: Verdict)

  predicate Dispatched(item: Item) {
    item.Item? && item.withinLimit && item.envelope.Some?
  }

  function Collected(st: State, batch: seq<Item>, now: real): State {
    if batch == [] then st
    else
      var before, last := Collected(st, batch[..|batch| - 1], now), batch[|batch| - 1];
      if Dispatched(last) then Relayed(before, last.envelope.value, now, now, now) else before
  }

  function RelayVerdict(st: State, e: Envelope, openedAt: real, checkedAt: real, recordedAt: real): Verdict {
    var refused := JudgeEnvelope(st, e, openedAt);
    if refused.Some? then refused.value else Judge(st, e.inner.value, checkedAt, recordedAt)
  }

  function Replies(st: State, batch: seq<Item>, now: real): seq<Answered> {
    if batch == [] then []
    else
      var before, last := batch[..|batch| - 1], batch[|batch| - 1];
      var st' := Collected(st, before, now);
      Replies(st, before, now) + LastReply(st', last, now)
  }

  function LastReply(st: State, item: Item, now: real): seq<Answered> {
    if Dispatched(item) && RelayVerdict(st, item.envelope.value, now, now, now) != Dropped
    then [Answered(item.n, item.d, RelayVerdict(st, item.envelope.value, now, now, now))] else []
  }

  /** A pass comes to its items in order: each that is well formed and within the limit is an event of the relay in the state the
      earlier ones left, and answered unless it is dropped; the others come to nothing. */
  lemma ItemByItem(st: State, batch: seq<Item>, item: Item, now: real)
    ensures Collected(st, [], now) == st && Replies(st, [], now) == []
    ensures var goes, before := item.Item? && item.withinLimit && item.envelope.Some?, Collected(st, batch, now);
            && Collected(st, batch + [item], now) == (if goes then Step(before, Relay(item.envelope.value, now, now, now)) else before)
            && Replies(st, batch + [item], now) == Replies(st, batch, now) +
                 if goes && RelayVerdict(before, item.envelope.value, now, now, now) != Dropped
                 then [Answered(item.n, item.d, RelayVerdict(before, item.envelope.value, now, now, now))] else []
  {
    assert (batch + [item])[..|batch|] == batch;
  }

  // ── The PC: the LAN first, then the relay, with the same signed request ──

  datatype Route = Auto | LanOnly | RelayOnly

  datatype Copy = ByLan(request: Request) | ByRelay(envelope: Envelope)

  function Carried(c: Copy): Option<Request> {
    match c case ByLan(r) => Some(r) case ByRelay(e) => e.inner
  }

  /** What one HTTP request to the relay got back; `opens` is whether it is a reply sealed for this very request. */
  datatype Answer = Answer(status: int, opens: bool)

  datatype RelayFailure = NoAnswer | RelayRefused(status: int) | NotReadable

  const RELAY_WAIT := 90.0

  predicate Pending(a: Answer) {
    a.status == 202 || a.status == 204
  }

  /** The first answer from `i` on that is not "pending", unless the wait runs out or the network fails before it. */
  function Settled(answers: seq<Answer>, elapsed: seq<real>, i: nat): (k: Option<nat>)
    ensures k.Some? ==> i <= k.value < |answers| && !Pending(answers[k.value])
    ensures k.Some? ==> forall j :: i <= j < k.value ==> Pending(answers[j]) && j < |elapsed| && elapsed[j] <= RELAY_WAIT
    decreases |answers| - i
  {
    if i >= |answers| then None
    else if !Pending(answers[i]) then Some(i)
    else if i >= |elapsed| || elapsed[i] > RELAY_WAIT then None
    else Settled(answers, elapsed, i + 1)
  }

  lemma {:induction false} SettledIff(answers: seq<Answer>, elapsed: seq<real>, i: nat, k: nat)
    ensures Settled(answers, elapsed, i) == Some(k) <==>
              i <= k < |answers| && answers[k].status !in {202, 204} && forall j :: i <= j < k ==> StillWaits(answers, elapsed, j)
    decreases |answers| - i
  {
    if i < |answers| && StillWaits(answers, elapsed, i) {
      SettledIff(answers, elapsed, i + 1, k);
    } else if i < k < |answers| {
      assert !StillWaits(answers, elapsed, i);
    }
  }

  /** It is told to wait, and a minute and a half has not passed. */
  ghost predicate StillWaits(answers: seq<Answer>, elapsed: seq<real>, j: nat)
    requires j < |answers|
  {
    answers[j].status in {202, 204} && j < |elapsed| && elapsed[j] <= 90.0
  }

  predicate GotReply(answers: seq<Answer>, elapsed: seq<real>) {
    var k := Settled(answers, elapsed, 0);
    k.Some? && answers[k.value] == Answer(200, true)
  }

  lemma GotReplyIff(answers: seq<Answer>, elapsed: seq<real>)
    ensures GotReply(answers, elapsed) <==>
              exists k: nat :: k < |answers| && answers[k] == Answer(200, true) && forall j :: 0 <= j < k ==> StillWaits(answers, elapsed, j)
  {
    forall k: nat { SettledIff(answers, elapsed, 0, k); }
    if GotReply(answers, elapsed) { SettledIff(answers, elapsed, 0, Settled(answers, elapsed, 0).value); }
  }

  class PalClient {
    const route: Route
    const device: string
    const key: string
    const hasRelay: bool
    var lastRoute: Route

    constructor (route: Route, device: string, key: string, hasRelay: bool)
      ensures this.route == route && this.device == device && this.key == key && this.hasRelay == hasRelay
      ensures lastRoute == LanOnly
    {
      this.route, this.device, this.key, this.hasRelay := route, device, key, hasRelay;
      lastRoute := LanOnly;
    }

    /** Polls for the reply to the one envelope posted: `answers[0]` is the post's own answer, `answers[i]` that of the
        i-th poll (none left: the network failed), `elapsed[i]` the time waited when poll i + 1 is due. */
    method AwaitReply(answers: seq<Answer>, elapsed: seq<real>) returns (r: Outcome<nat, RelayFailure>)
      ensures var k := Settled(answers, elapsed, 0);
              r == if k.None? then Err(NoAnswer)
                   else if answers[k.value].status != 200 then Err(RelayRefused(answers[k.value].status))
                   else if !answers[k.value].opens then Err(NotReadable) else Ok(k.value)
    {
      if answers == [] { return Err(NoAnswer); }
      var polls := 0;
      while Pending(answers[polls])
        invariant polls < |answers| && Settled(answers, elapsed, polls) == Settled(answers, elapsed, 0)
        decreases |answers| - polls
      {
        if polls >= |elapsed| || elapsed[polls] > RELAY_WAIT || polls + 1 >= |answers| { return Err(NoAnswer); }
        polls := polls + 1;
      }
      if answers[polls].status != 200 { return Err(RelayRefused(answers[polls].status)); }
      if !answers[polls].opens { return Err(NotReadable); }
      return Ok(polls);
    }

    /** Signs once and sends; `lanAnswers` is whether the LAN gave any HTTP answer.  However long it polls, the
        request leaves the PC at most once each way. */
    method Signed(content: string, timestamp: int, nonce: string, sealedAt: int, outerNonce: string,
                  lanAnswers: bool, answers: seq<Answer>, elapsed: seq<real>) returns (sent: seq<Copy>)
      modifies this
      ensures |sent| <= 2 && forall i, j :: 0 <= i < j < |sent| ==> sent[i].ByLan? && sent[j].ByRelay?
      ensures forall c <- sent ::
                var part := Part(timestamp, nonce, content); Carried(c) == Some(Request(device, part, Signature(key, part)))
      ensures forall c <- sent :: c.ByRelay? ==> c.envelope == Envelope(device, sealedAt, outerNonce, key, Carried(c))
      ensures (exists c <- sent :: c.ByLan?) <==> !route.RelayOnly?
      ensures (exists c <- sent :: c.ByRelay?) <==> hasRelay && (route.RelayOnly? || (route.Auto? && !lanAnswers))
      ensures lastRoute == (if !route.RelayOnly? && lanAnswers then LanOnly
                            else if hasRelay && !route.LanOnly? && GotReply(answers, elapsed) then RelayOnly else old(lastRoute))
    {
      var part := Part(timestamp, nonce, content);
      var request := Request(device, part, Signature(key, part));
      sent := [];
      if !route.RelayOnly? {
        sent := sent + [ByLan(request)];
        assert sent[0].ByLan? && sent[0] in sent;
        if lanAnswers {
          lastRoute := LanOnly;
          return;
        }
        if !route.Auto? || !hasRelay {
          return;
        }
      }
      if !hasRelay {
        return;
      }
      sent := sent + [ByRelay(Envelope(device, sealedAt, outerNonce, key, Some(request)))];
      assert sent[|sent| - 1].ByRelay? && sent[|sent| - 1] in sent;
      assert !route.RelayOnly? ==> sent[0].ByLan? && sent[0] in sent;
      var reply := AwaitReply(answers, elapsed);
      if reply.Ok? {
        lastRoute := RelayOnly;
      }
    }
  }
}
