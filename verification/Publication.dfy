/** Revocation and published CRLs (app/crl_publisher.py, app/crl_worker.py, app/routes/pki.py,
    app/routes/pal.py, app/db.py): every handler that revokes, deletes, publishes, deploys or renews.

    Handlers are atomic steps.  Cloudflare is one map from script names to the CRL each Worker serves,
    written by this app alone; `reach` is the set of scripts a handler's upload succeeds for. */
module Publication {
  import opened Wrappers

  const HOUR := 3600
  const DAY := 24 * HOUR
  const RENEW_CHECK_SECONDS := HOUR
  const CRL_DAYS_CHOICES := {1, 2, 3, 7, 14}

  datatype Crl = Crl(serials: set<string>, number: int, issued: int, next: int)

  datatype Worker = Worker(script: string, pushed: bool, pushError: bool)

  datatype Ca = Ca(crlPublic: bool, worker: Option<Worker>, crl: Option<Crl>, days: int)

  /** `dp`: it has a distribution point, without which revoking is refused; `kind` is its template and main name. */
  datatype Cert = Cert(ca: nat, serial: string, revoked: bool, notAfter: int, dp: bool,
                       device: string, kind: string, present: Option<bool>)

  datatype State = State(
    cas: map<nat, Ca>, certs: map<nat, Cert>,
    deleted: map<(nat, string), int>,        // revoked, then deleted: kept until the certificate's expiry
    remote: map<string, Crl>,                // what each Worker serves
    astray: set<nat>,                        // restored with a Worker that serves something else, and not pushed since
    unlocked: bool, now: int, lastNumber: int, lastPass: int,
    usedSerials: set<string>, usedScripts: set<string>)

  datatype Refusal = NotFound | NotRevocable | Locked | HasWorker | NoWorker | NotMaintained | CloudflareError | BadDays

  type Result = Outcome<(), Refusal>

  const NEW_CA := Ca(false, None, None, 7)

  const EMPTY := State(map[], map[], map[], map[], {}, true, 0, 0, 0, {}, {})

  // ── Reading the tables ──

  predicate Maintained(ca: Ca) {
    ca.crlPublic || ca.worker.Some?
  }

  /** Every serial on a CRL of `ca` signed now. */
  function RevokedSerials(certs: map<nat, Cert>, deleted: map<(nat, string), int>, now: int, ca: nat): set<string> {
    (set id | id in certs && certs[id].ca == ca && certs[id].revoked :: certs[id].serial) +
    (set k | k in deleted && k.0 == ca && deleted[k] > now :: k.1)
  }

  function RevokedNow(st: State, ca: nat): set<string> {
    RevokedSerials(st.certs, st.deleted, st.now, ca)
  }

  function Revoked(certs: map<nat, Cert>, ids: set<nat>): map<nat, Cert> {
    map id <- certs :: if id in ids then certs[id].(revoked := true) else certs[id]
  }

  function CasOf(certs: map<nat, Cert>, ids: set<nat>): set<nat> {
    set id | id in ids && id in certs :: certs[id].ca
  }

  // ── Signing and pushing ──

  /** The clock in microseconds, or one more than the last number when the clock has not moved on. */
  function NextNumber(last: int, micros: int): int {
    Max(last + 1, micros)
  }

  function Signed(st: State, ca: nat): State
    requires ca in st.cas
  {
    var number := NextNumber(st.lastNumber, 1_000_000 * st.now);
    var crl := Crl(RevokedNow(st, ca), number, st.now, st.now + st.cas[ca].days * DAY);
    st.(cas := st.cas[ca := st.cas[ca].(crl := Some(crl))], lastNumber := number)
  }

  function Pushed(st: State, ca: nat, reach: set<string>): State
    requires ca in st.cas
  {
    var row := st.cas[ca];
    if row.worker.None? then st
    else
      var script := row.worker.value.script;
      if script in reach && st.unlocked && row.crl.Some?
      then st.(cas := st.cas[ca := row.(worker := Some(Worker(script, true, false)))], remote := st.remote[script := row.crl.value],
               astray := st.astray - {ca})
      else st.(cas := st.cas[ca := row.(worker := Some(row.worker.value.(pushError := true)))], astray := st.astray - {ca})
  }

  /** Nothing for a CA the app keeps no CRL for; refused, changing nothing, while the database is locked. */
  function Published(st: State, ca: nat, reach: set<string>): (Result, State) {
    if ca !in st.cas || !Maintained(st.cas[ca]) then (Ok(()), st)
    else if !st.unlocked then (Err(Locked), st)
    else (Ok(()), Pushed(Signed(st, ca), ca, reach))
  }

  function PublishedAll(st: State, cas: seq<nat>, reach: set<string>): State {
    if cas == [] then st
    else Published(PublishedAll(st, cas[..|cas| - 1], reach), cas[|cas| - 1], reach).1
  }

  predicate Due(crl: Option<Crl>, now: int) {
    crl.None? || 2 * (crl.value.next - now) <= crl.value.next - crl.value.issued
  }

  /** One CA's turn in a renewal pass; false when the pass stops because the database is locked. */
  function Renewed(st: State, ca: nat, reach: set<string>): (bool, State) {
    if ca !in st.cas then (true, st)
    else if !Due(st.cas[ca].crl, st.now) then
      (true, if st.cas[ca].worker.Some? && st.cas[ca].worker.value.pushError then Pushed(st, ca, reach) else st)
    else
      var (r, st') := Published(st, ca, reach);
      (r.Ok?, st')
  }

  function RenewedAll(st: State, cas: seq<nat>, reach: set<string>): (bool, State) {
    if cas == [] then (true, st)
    else
      var (on, before) := RenewedAll(st, cas[..|cas| - 1], reach);
      if on then Renewed(before, cas[|cas| - 1], reach) else (false, before)
  }

  // ── Handlers ──

  ghost predicate Lists(order: seq<nat>, cas: set<nat>) {
    (set ca | ca in order) == cas
  }

  function RevokeCert(st: State, id: nat, reach: set<string>): (Result, State) {
    if id !in st.certs || st.certs[id].ca !in st.cas || st.certs[id].revoked then (Err(NotFound), st)
    else if !st.certs[id].dp then (Err(NotRevocable), st)
    else if Maintained(st.cas[st.certs[id].ca]) && !st.unlocked then (Err(Locked), st)
    else (Ok(()), Published(st.(certs := Revoked(st.certs, {id})), st.certs[id].ca, reach).1)
  }

  /** Of a revoked one the serial and the expiry are left behind, for the CRLs to come. */
  function DeleteCert(st: State, id: nat): (Result, State) {
    if id !in st.certs then (Err(NotFound), st)
    else
      var c := st.certs[id];
      var key := (c.ca, c.serial);
      (Ok(()), st.(certs := st.certs - {id},
                   deleted := if c.revoked && key !in st.deleted then st.deleted[key := c.notAfter] else st.deleted))
  }

  function Removed(st: State, device: string, serials: set<string>): set<nat> {
    set id | id in st.certs && st.certs[id].device == device && st.certs[id].serial in serials && !st.certs[id].revoked
  }

  function Revocable(certs: map<nat, Cert>, ids: set<nat>): set<nat> {
    set id | id in ids && id in certs && certs[id].dp && !certs[id].revoked
  }

  function MarkedAbsent(certs: map<nat, Cert>, ids: set<nat>): map<nat, Cert> {
    map id <- certs :: if id in ids then certs[id].(present := Some(false)) else certs[id]
  }

  /** What the PC took out of its store is marked absent, and revoked too where a CRL could say so. */
  function RevokeOwn(st: State, device: string, serials: set<string>, order: seq<nat>, reach: set<string>): (Result, State) {
    var removed := Removed(st, device, serials);
    var certs := Revocable(st.certs, removed);
    if !st.unlocked && exists ca <- CasOf(st.certs, certs) :: ca in st.cas && Maintained(st.cas[ca]) then (Err(Locked), st)
    else (Ok(()), PublishedAll(st.(certs := MarkedAbsent(Revoked(st.certs, certs), removed)), order, reach))
  }

  function OfDevice(st: State, device: string): set<nat> {
    set id | id in st.certs && st.certs[id].device == device
  }

  function Disconnect(st: State, device: string, revokeCerts: bool, order: seq<nat>, reach: set<string>): (Result, State) {
    var certs := if revokeCerts then Revocable(st.certs, OfDevice(st, device)) else {};
    if certs != {} && !st.unlocked then (Err(Locked), st)
    else (Ok(()), PublishedAll(st.(certs := Revoked(st.certs, certs)), order, reach))
  }

  datatype Mode = NoCrl | Placeholder | ServerCrl | CloudflareCrl

  /** The device's live certificates like `c` that its last audit no longer found. */
  function Superseded(st: State, c: Cert): set<nat> {
    set id | id in st.certs && st.certs[id].device == c.device && st.certs[id].kind == c.kind && !st.certs[id].revoked
             && st.certs[id].notAfter > st.now && st.certs[id].present == Some(false) && st.certs[id].dp
  }

  /** The new certificate is saved and the copies it replaces are revoked; an admin's (no device) replaces none. */
  function Replaced(st: State, c: Cert): set<nat> {
    if c.device == "" then {} else Superseded(st, c)
  }

  function Saved(st: State, id: nat, c: Cert): State {
    st.(certs := Revoked(st.certs, Replaced(st, c))[id := c], usedSerials := st.usedSerials + {c.serial})
  }

  /** From the first certificate issued in this mode on, the server serves the CA's CRL. */
  function OptedIn(st: State, ca: nat, reach: set<string>): State {
    if ca !in st.cas then st
    else Published(st.(cas := st.cas[ca := st.cas[ca].(crlPublic := true)]), ca, reach).1
  }

  /** Signing needs the CA's key, so the database is unlocked. */
  function Issue(st: State, id: nat, c: Cert, mode: Mode, order: seq<nat>, reach: set<string>): (Result, State) {
    if c.ca !in st.cas then (Err(NotFound), st)
    else if !st.unlocked then (Err(Locked), st)
    else
      var worker := st.cas[c.ca].worker;
      var cleared := PublishedAll(Saved(st, id, c), order, reach);
      (Ok(()), if mode == ServerCrl then OptedIn(cleared, c.ca, reach)
               else if mode == CloudflareCrl && (worker.None? || !worker.value.pushed) then Published(cleared, c.ca, reach).1
               else cleared)
  }

  function SetDays(st: State, ca: nat, days: int, reach: set<string>): (Result, State) {
    if days !in CRL_DAYS_CHOICES then (Err(BadDays), st)
    else if ca !in st.cas then (Err(NotFound), st)
    else if Maintained(st.cas[ca]) && !st.unlocked then (Err(Locked), st)
    else (Ok(()), Published(st.(cas := st.cas[ca := st.cas[ca].(days := days)]), ca, reach).1)
  }

  function PublishNow(st: State, ca: nat, reach: set<string>): (Result, State) {
    if ca !in st.cas || !Maintained(st.cas[ca]) then (Err(NotMaintained), st) else Published(st, ca, reach)
  }

  /** How far setting up a Worker gets before Cloudflare fails it. */
  datatype Reached = BeforeUpload | AfterUpload(removed: bool) | Done

  function Deploy(st: State, ca: nat, script: string, reached: Reached): (Result, State) {
    if ca !in st.cas then (Err(NotFound), st)
    else if st.cas[ca].worker.Some? then (Err(HasWorker), st)
    else if !st.unlocked then (Err(Locked), st)
    else
      var signed := Signed(st.(usedScripts := st.usedScripts + {script}), ca);
      var row := signed.cas[ca];
      match reached
      case BeforeUpload => (Err(CloudflareError), signed)
      case AfterUpload(removed) =>
        (Err(CloudflareError), if removed then signed.(remote := signed.remote - {script})
                               else signed.(remote := signed.remote[script := row.crl.value]))
      case Done => (Ok(()), signed.(cas := signed.cas[ca := row.(worker := Some(Worker(script, true, false)))],
                                    remote := signed.remote[script := row.crl.value]))
  }

  function Teardown(st: State, ca: nat, deleted: bool): (Result, State) {
    if ca !in st.cas || st.cas[ca].worker.None? then (Err(NoWorker), st)
    else if !st.unlocked then (Err(Locked), st)
    else if !deleted then (Err(CloudflareError), st)
    else (Ok(()), st.(cas := st.cas[ca := st.cas[ca].(worker := None)], remote := st.remote - {st.cas[ca].worker.value.script},
                      astray := st.astray - {ca}))
  }

  /** A Worker no CA here uses is removed by name; a CA's own goes by its teardown. */
  function DropUnlinked(st: State, script: string, deleted: bool): (Result, State) {
    if !st.unlocked then (Err(Locked), st)
    else if exists ca <- st.cas :: st.cas[ca].worker.Some? && st.cas[ca].worker.value.script == script then (Err(HasWorker), st)
    else if script !in st.remote then (Err(NoWorker), st)
    else if !deleted then (Err(CloudflareError), st)
    else (Ok(()), st.(remote := st.remote - {script}))
  }

  /** Deleting a CA takes its intermediates with it, and is refused while any of them has a Worker. */
  function DeleteCas(st: State, ids: set<nat>): (Result, State) {
    if exists ca <- st.cas :: ca in ids && st.cas[ca].worker.Some? then (Err(HasWorker), st)
    else (Ok(()), st.(cas := st.cas - ids,
                      certs := map id | id in st.certs && st.certs[id].ca !in ids :: st.certs[id],
                      deleted := map k | k in st.deleted && k.0 !in ids :: st.deleted[k]))
  }

  /** What a PC's store audit found of its certificates. */
  function Audited(certs: map<nat, Cert>, found: map<nat, bool>): map<nat, Cert> {
    map id <- certs :: if id in found then certs[id].(present := Some(found[id])) else certs[id]
  }

  /** A backup's certificates come back without their pairing. */
  function Unpaired(certs: map<nat, Cert>): map<nat, Cert> {
    map id <- certs :: certs[id].(device := "", present := None)
  }

  /** The backup's tables replace the current ones, links to Workers and stored CRLs included; what the Workers serve and
      the number counter stay.  The last pass is the last these tables have seen. */
  function Restored(st: State, backup: State): (Result, State) {
    if !st.unlocked then (Err(Locked), st)
    else (Ok(()), st.(cas := backup.cas, certs := Unpaired(backup.certs), deleted := backup.deleted, lastPass := backup.lastPass,
                      astray := OutOfStep(backup.cas, st.remote),
                      usedSerials := st.usedSerials + backup.usedSerials, usedScripts := st.usedScripts + backup.usedScripts))
  }

  function OutOfStep(cas: map<nat, Ca>, remote: map<string, Crl>): set<nat> {
    set ca | ca in cas && !InStep(cas[ca], remote)
  }

  function MaintainedCas(st: State): set<nat> {
    set ca | ca in st.cas && Maintained(st.cas[ca])
  }

  function RenewDue(st: State, order: seq<nat>, reach: set<string>): State {
    var (_, st') := RenewedAll(st, order, reach);
    if st.unlocked then st'.(lastPass := st.now) else st'
  }

  // ── What holds after every handler ──

  /** The CRL the app keeps for `ca` lists every serial it should. */
  ghost predicate Complete(st: State, ca: nat)
    requires ca in st.cas
  {
    Maintained(st.cas[ca]) ==> st.cas[ca].crl.Some? && RevokedNow(st, ca) <= st.cas[ca].crl.value.serials
  }

  /** Its Worker serves exactly that CRL, or a failed push is on record. */
  predicate InStep(row: Ca, remote: map<string, Crl>) {
    row.worker.Some? ==>
      var w := row.worker.value;
      w.pushError || (w.script in remote && row.crl == Some(remote[w.script]))
  }

  ghost predicate KnownWorker(st: State, ca: nat)
    requires ca in st.cas
  {
    st.cas[ca].worker.Some? ==> st.cas[ca].worker.value.script in st.usedScripts
  }

  /** More than half the CRL's whole life was left at the last renewal pass made with the database unlocked. */
  ghost predicate Fresh(st: State, ca: nat)
    requires ca in st.cas
  {
    Maintained(st.cas[ca]) && st.cas[ca].crl.Some? ==>
      var crl := st.cas[ca].crl.value;
      && crl.issued <= st.now && crl.next - crl.issued == st.cas[ca].days * DAY
      && 2 * (crl.next - st.lastPass) > crl.next - crl.issued
  }

  ghost predicate GoodCa(st: State, ca: nat, dirty: set<nat>)
    requires ca in st.cas
  {
    && KnownWorker(st, ca) && (InStep(st.cas[ca], st.remote) <==> ca !in st.astray)
    && (ca !in dirty ==> Complete(st, ca) && Fresh(st, ca))
    && st.cas[ca].days in CRL_DAYS_CHOICES
  }

  ghost predicate SameWorker(st: State, ca: nat, other: nat)
    requires ca in st.cas && other in st.cas
  {
    st.cas[ca].worker.Some? && st.cas[other].worker.Some? && st.cas[ca].worker.value.script == st.cas[other].worker.value.script
  }

  /** Each serial is one certificate's, and a revoked one that was deleted is remembered with its expiry. */
  ghost predicate GoodSerials(st: State) {
    && (forall id <- st.certs :: st.certs[id].serial in st.usedSerials)
    && (forall id, other :: id in st.certs && other in st.certs && st.certs[id].serial == st.certs[other].serial ==> id == other)
    && (forall k <- st.deleted :: k.1 in st.usedSerials && forall id <- st.certs :: st.certs[id].serial != k.1)
  }

  /** The invariant, with the CRLs of `dirty` still to be signed anew. */
  ghost predicate InvBut(st: State, dirty: set<nat>) {
    && st.lastPass <= st.now && st.astray <= st.cas.Keys
    && (forall ca <- st.cas :: GoodCa(st, ca, dirty))
    && (forall ca, other :: ca in st.cas && other in st.cas && SameWorker(st, ca, other) ==> ca == other)
    && GoodSerials(st)
  }

  ghost predicate Inv(st: State) {
    InvBut(st, {})
  }

  // ── Signing, pushing and publishing keep it ──

  lemma PushedItself(st: State, ca: nat, reach: set<string>, dirty: set<nat>)
    requires InvBut(st, dirty) && ca in st.cas
    ensures GoodCa(Pushed(st, ca, reach), ca, dirty)
  {
    assert GoodCa(st, ca, dirty);
  }

  lemma PushedOther(st: State, ca: nat, reach: set<string>, dirty: set<nat>, c: nat)
    requires ca in st.cas && c in st.cas && c != ca && GoodCa(st, c, dirty) && !SameWorker(st, c, ca)
    ensures GoodCa(Pushed(st, ca, reach), c, dirty)
  {
    var st' := Pushed(st, ca, reach);
    assert st'.cas[c] == st.cas[c] && RevokedNow(st', c) == RevokedNow(st, c);
  }

  lemma PushedCa(st: State, ca: nat, reach: set<string>, dirty: set<nat>, c: nat)
    requires InvBut(st, dirty) && ca in st.cas && c in st.cas
    ensures GoodCa(Pushed(st, ca, reach), c, dirty)
  {
    assert GoodCa(st, c, dirty);
    if c == ca {
      PushedItself(st, ca, reach, dirty);
    } else {
      assert !SameWorker(st, c, ca);
      PushedOther(st, ca, reach, dirty, c);
    }
  }

  lemma PushedWorker(st: State, ca: nat, reach: set<string>, c: nat)
    requires ca in st.cas && c in st.cas && Pushed(st, ca, reach).cas[c].worker.Some?
    ensures st.cas[c].worker.Some? && Pushed(st, ca, reach).cas[c].worker.value.script == st.cas[c].worker.value.script
  {
  }

  lemma PushedKeepsInv(st: State, ca: nat, reach: set<string>, dirty: set<nat>)
    requires InvBut(st, dirty) && ca in st.cas
    ensures InvBut(Pushed(st, ca, reach), dirty)
  {
    var st' := Pushed(st, ca, reach);
    forall c <- st'.cas ensures GoodCa(st', c, dirty) {
      PushedCa(st, ca, reach, dirty, c);
    }
    forall c, other | c in st'.cas && other in st'.cas && SameWorker(st', c, other) ensures c == other {
      PushedWorker(st, ca, reach, c);
      PushedWorker(st, ca, reach, other);
      assert SameWorker(st, c, other);
    }
  }

  /** Signed but not yet pushed, the CA's Worker is behind: as if a push were owed. */
  function Owed(st: State, ca: nat): State
    requires ca in st.cas
  {
    var row := st.cas[ca];
    if row.worker.None? then st
    else st.(cas := st.cas[ca := row.(worker := Some(row.worker.value.(pushError := true)))], astray := st.astray - {ca})
  }

  lemma SignedItself(st: State, ca: nat, dirty: set<nat>)
    requires InvBut(st, dirty) && ca in st.cas
    ensures GoodCa(Owed(Signed(st, ca), ca), ca, dirty - {ca})
  {
    assert GoodCa(st, ca, dirty);
    assert RevokedNow(Owed(Signed(st, ca), ca), ca) == RevokedNow(st, ca);
  }

  lemma SignedOther(st: State, ca: nat, dirty: set<nat>, c: nat)
    requires ca in st.cas && c in st.cas && c != ca && GoodCa(st, c, dirty)
    ensures GoodCa(Owed(Signed(st, ca), ca), c, dirty - {ca})
  {
    var st' := Owed(Signed(st, ca), ca);
    assert st'.cas[c] == st.cas[c] && RevokedNow(st', c) == RevokedNow(st, c);
  }

  lemma SignedWorker(st: State, ca: nat, c: nat)
    requires ca in st.cas && c in st.cas && Owed(Signed(st, ca), ca).cas[c].worker.Some?
    ensures st.cas[c].worker.Some? && Owed(Signed(st, ca), ca).cas[c].worker.value.script == st.cas[c].worker.value.script
  {
  }

  lemma SignedKeepsInv(st: State, ca: nat, dirty: set<nat>)
    requires InvBut(st, dirty) && ca in st.cas
    ensures InvBut(Owed(Signed(st, ca), ca), dirty - {ca})
  {
    var st' := Owed(Signed(st, ca), ca);
    forall c <- st'.cas ensures GoodCa(st', c, dirty - {ca}) {
      assert GoodCa(st, c, dirty);
      if c == ca { SignedItself(st, ca, dirty); } else { SignedOther(st, ca, dirty, c); }
    }
    forall c, other | c in st'.cas && other in st'.cas && SameWorker(st', c, other) ensures c == other {
      SignedWorker(st, ca, c);
      SignedWorker(st, ca, other);
      assert SameWorker(st, c, other);
    }
  }

  lemma PushIgnoresWhatIsOwed(st: State, ca: nat, reach: set<string>)
    requires ca in st.cas
    ensures Pushed(Owed(st, ca), ca, reach) == Pushed(st, ca, reach)
  {
    if st.cas[ca].worker.Some? {
      assert st.cas[ca := st.cas[ca]] == st.cas;
      assert st.astray - {ca} - {ca} == st.astray - {ca};
    }
  }

  /** Publishing one CA's CRL brings that CA up to date and disturbs no other. */
  lemma PublishedKeepsInv(st: State, ca: nat, reach: set<string>, dirty: set<nat>)
    requires InvBut(st, dirty)
    ensures var (r, st') := Published(st, ca, reach);
            InvBut(st', if r.Ok? then dirty - {ca} else dirty) && (r.Err? ==> st' == st)
  {
    var (r, st') := Published(st, ca, reach);
    if r.Ok? && st' != st {
      SignedKeepsInv(st, ca, dirty);
      PushIgnoresWhatIsOwed(Signed(st, ca), ca, reach);
      PushedKeepsInv(Owed(Signed(st, ca), ca), ca, reach, dirty - {ca});
    } else if r.Ok? && ca in st.cas {
      assert GoodCa(st, ca, dirty);
    }
  }

  /** Revoking leaves the CRLs of the certificates' CAs to be signed anew, and nothing else. */
  lemma RevokingDirties(st: State, ids: set<nat>, absent: set<nat>)
    requires Inv(st)
    ensures InvBut(st.(certs := MarkedAbsent(Revoked(st.certs, ids), absent)), CasOf(st.certs, ids))
  {
    var certs', dirty := MarkedAbsent(Revoked(st.certs, ids), absent), CasOf(st.certs, ids);
    var st' := st.(certs := certs');
    forall ca <- st'.cas ensures GoodCa(st', ca, dirty) {
      RevokedCa(st, ids, absent, ca);
    }
    forall c, other | c in st'.cas && other in st'.cas && SameWorker(st', c, other) ensures c == other {
      assert SameWorker(st, c, other);
    }
  }

  lemma RevokedCa(st: State, ids: set<nat>, absent: set<nat>, ca: nat)
    requires Inv(st) && ca in st.cas
    ensures GoodCa(st.(certs := MarkedAbsent(Revoked(st.certs, ids), absent)), ca, CasOf(st.certs, ids))
  {
    assert GoodCa(st, ca, {});
    if ca !in CasOf(st.certs, ids) {
      RevokedElsewhere(st, MarkedAbsent(Revoked(st.certs, ids), absent), ca);
    }
  }

  /** A CA none of whose certificates changed lists what it listed. */
  lemma RevokedElsewhere(st: State, certs: map<nat, Cert>, ca: nat)
    requires certs.Keys == st.certs.Keys
    requires forall id <- certs :: certs[id].serial == st.certs[id].serial && certs[id].ca == st.certs[id].ca
    requires forall id <- certs :: certs[id].ca == ca ==> certs[id].revoked == st.certs[id].revoked
    ensures RevokedSerials(certs, st.deleted, st.now, ca) == RevokedNow(st, ca)
  {
  }

  /** Publishing touches the CRLs, the push state and what the Workers serve, and nothing else. */
  ghost predicate OnlyCrlsChanged(st: State, st': State) {
    && st'.certs == st.certs && st'.deleted == st.deleted && st'.unlocked == st.unlocked && st'.now == st.now
    && st'.lastPass == st.lastPass && st'.usedSerials == st.usedSerials && st'.usedScripts == st.usedScripts
    && st'.cas.Keys == st.cas.Keys && st'.astray <= st.astray
    && (forall ca <- st.cas :: Maintained(st'.cas[ca]) == Maintained(st.cas[ca]) && st'.cas[ca].days == st.cas[ca].days)
    && (forall ca <- st.cas :: st'.cas[ca].worker.Some? == st.cas[ca].worker.Some?)
  }

  lemma SignedFrame(st: State, ca: nat)
    requires ca in st.cas
    ensures OnlyCrlsChanged(st, Signed(st, ca))
  {
  }

  lemma PushedFrame(st: State, ca: nat, reach: set<string>)
    requires ca in st.cas
    ensures OnlyCrlsChanged(st, Pushed(st, ca, reach))
  {
  }

  lemma PublishedFrame(st: State, ca: nat, reach: set<string>)
    ensures OnlyCrlsChanged(st, Published(st, ca, reach).1)
  {
    if ca in st.cas {
      SignedFrame(st, ca);
      PushedFrame(Signed(st, ca), ca, reach);
      FrameComposes(st, Signed(st, ca), Pushed(Signed(st, ca), ca, reach));
    }
  }

  lemma FrameComposes(a: State, b: State, c: State)
    requires OnlyCrlsChanged(a, b) && OnlyCrlsChanged(b, c)
    ensures OnlyCrlsChanged(a, c)
  {
  }

  lemma {:induction false} PublishedAllFrame(st: State, order: seq<nat>, reach: set<string>)
    ensures OnlyCrlsChanged(st, PublishedAll(st, order, reach))
  {
    if order != [] {
      var before := PublishedAll(st, order[..|order| - 1], reach);
      PublishedAllFrame(st, order[..|order| - 1], reach);
      PublishedFrame(before, order[|order| - 1], reach);
      FrameComposes(st, before, Published(before, order[|order| - 1], reach).1);
    }
  }

  lemma {:induction false} PublishedAllKeepsInv(st: State, order: seq<nat>, reach: set<string>, dirty: set<nat>)
    requires InvBut(st, dirty)
    requires forall ca <- order :: st.unlocked || ca !in st.cas || !Maintained(st.cas[ca])
    ensures InvBut(PublishedAll(st, order, reach), dirty - (set ca | ca in order))
  {
    if order == [] {
      assert dirty - (set ca | ca in order) == dirty;
    } else {
      var rest, ca := order[..|order| - 1], order[|order| - 1];
      var before, left := PublishedAll(st, rest, reach), dirty - (set c | c in rest);
      PublishedAllKeepsInv(st, rest, reach, dirty);
      PublishedAllFrame(st, rest, reach);
      assert ca in order;
      assert Published(before, ca, reach).0.Ok?;
      PublishedKeepsInv(before, ca, reach, left);
      assert dirty - (set c | c in order) == left - {ca};
    }
  }

  lemma RevokeCertKeepsInv(st: State, id: nat, reach: set<string>)
    requires Inv(st)
    ensures Inv(RevokeCert(st, id, reach).1)
  {
    if RevokeCert(st, id, reach).0.Ok? {
      var ca := st.certs[id].ca;
      RevokingDirties(st, {id}, {});
      assert MarkedAbsent(Revoked(st.certs, {id}), {}) == Revoked(st.certs, {id});
      assert CasOf(st.certs, {id}) == {ca};
      PublishedKeepsInv(st.(certs := Revoked(st.certs, {id})), ca, reach, {ca});
      assert {ca} - {ca} == {};
    }
  }

  lemma RevokeOwnKeepsInv(st: State, device: string, serials: set<string>, order: seq<nat>, reach: set<string>)
    requires Inv(st) && Lists(order, CasOf(st.certs, Revocable(st.certs, Removed(st, device, serials))))
    ensures Inv(RevokeOwn(st, device, serials, order, reach).1)
  {
    var removed := Removed(st, device, serials);
    var certs := Revocable(st.certs, removed);
    if RevokeOwn(st, device, serials, order, reach).0.Ok? {
      RevokingDirties(st, certs, removed);
      var dirty := CasOf(st.certs, certs);
      forall ca <- order ensures st.unlocked || ca !in st.cas || !Maintained(st.cas[ca]) {
        assert ca in dirty;
      }
      PublishedAllKeepsInv(st.(certs := MarkedAbsent(Revoked(st.certs, certs), removed)), order, reach, dirty);
      assert dirty - (set ca | ca in order) == {};
    }
  }

  lemma DisconnectKeepsInv(st: State, device: string, revokeCerts: bool, order: seq<nat>, reach: set<string>)
    requires Inv(st)
    requires Lists(order, CasOf(st.certs, if revokeCerts then Revocable(st.certs, OfDevice(st, device)) else {}))
    ensures Inv(Disconnect(st, device, revokeCerts, order, reach).1)
  {
    var certs := if revokeCerts then Revocable(st.certs, OfDevice(st, device)) else {};
    if Disconnect(st, device, revokeCerts, order, reach).0.Ok? {
      RevokingDirties(st, certs, {});
      assert MarkedAbsent(Revoked(st.certs, certs), {}) == Revoked(st.certs, certs);
      var dirty := CasOf(st.certs, certs);
      forall ca <- order ensures st.unlocked {
        assert ca in dirty;
      }
      PublishedAllKeepsInv(st.(certs := Revoked(st.certs, certs)), order, reach, dirty);
      assert dirty - (set ca | ca in order) == {};
    }
  }

  lemma AddedCertKeepsInv(st: State, id: nat, c: Cert, dirty: set<nat>)
    requires InvBut(st, dirty) && id !in st.certs && !c.revoked && c.serial !in st.usedSerials
    ensures InvBut(st.(certs := st.certs[id := c], usedSerials := st.usedSerials + {c.serial}), dirty)
  {
    var st' := st.(certs := st.certs[id := c], usedSerials := st.usedSerials + {c.serial});
    forall ca <- st'.cas ensures GoodCa(st', ca, dirty) {
      assert GoodCa(st, ca, dirty);
      assert RevokedNow(st', ca) <= RevokedNow(st, ca);
    }
    forall c, other | c in st'.cas && other in st'.cas && SameWorker(st', c, other) ensures c == other {
      assert SameWorker(st, c, other);
    }
  }

  /** A CA whose settings change needs signing anew before anything can be said of its CRL. */
  lemma ChangedCaIsDirty(st: State, ca: nat, row: Ca)
    requires Inv(st) && ca in st.cas && row.days in CRL_DAYS_CHOICES
    requires row.worker == st.cas[ca].worker && row.crl == st.cas[ca].crl
    ensures InvBut(st.(cas := st.cas[ca := row]), {ca})
  {
    var st' := st.(cas := st.cas[ca := row]);
    forall c <- st'.cas ensures GoodCa(st', c, {ca}) {
      assert GoodCa(st, c, {});
    }
    forall c, other | c in st'.cas && other in st'.cas && SameWorker(st', c, other) ensures c == other {
      assert SameWorker(st, c, other);
    }
  }

  ghost predicate CanIssue(st: State, id: nat, c: Cert, order: seq<nat>) {
    && id !in st.certs && c.serial !in st.usedSerials && !c.revoked && c.present.None?
    && Lists(order, CasOf(st.certs, Replaced(st, c)))
  }

  lemma SavedAndCleared(st: State, id: nat, c: Cert, order: seq<nat>, reach: set<string>)
    requires Inv(st) && CanIssue(st, id, c, order) && st.unlocked
    ensures Inv(PublishedAll(Saved(st, id, c), order, reach))
  {
    var gone := Replaced(st, c);
    var dirty := CasOf(st.certs, gone);
    RevokingDirties(st, gone, {});
    assert MarkedAbsent(Revoked(st.certs, gone), {}) == Revoked(st.certs, gone);
    AddedCertKeepsInv(st.(certs := Revoked(st.certs, gone)), id, c, dirty);
    PublishedAllKeepsInv(Saved(st, id, c), order, reach, dirty);
    assert dirty - (set ca | ca in order) == {};
  }

  lemma OptingInKeepsInv(st: State, ca: nat, reach: set<string>)
    requires Inv(st) && st.unlocked
    ensures Inv(OptedIn(st, ca, reach))
  {
    if ca in st.cas {
      assert GoodCa(st, ca, {});
      ChangedCaIsDirty(st, ca, st.cas[ca].(crlPublic := true));
      PublishedKeepsInv(st.(cas := st.cas[ca := st.cas[ca].(crlPublic := true)]), ca, reach, {ca});
      assert {ca} - {ca} == {};
    }
  }

  lemma IssueKeepsInv(st: State, id: nat, c: Cert, mode: Mode, order: seq<nat>, reach: set<string>)
    requires Inv(st) && CanIssue(st, id, c, order)
    ensures Inv(Issue(st, id, c, mode, order, reach).1)
  {
    if c.ca in st.cas && st.unlocked {
      var cleared := PublishedAll(Saved(st, id, c), order, reach);
      SavedAndCleared(st, id, c, order, reach);
      PublishedAllFrame(Saved(st, id, c), order, reach);
      if mode == ServerCrl {
        OptingInKeepsInv(cleared, c.ca, reach);
      } else {
        PublishedKeepsInv(cleared, c.ca, reach, {});
        assert {} - {c.ca} == {};
      }
    }
  }

  lemma SetDaysKeepsInv(st: State, ca: nat, days: int, reach: set<string>)
    requires Inv(st)
    ensures Inv(SetDays(st, ca, days, reach).1)
  {
    if SetDays(st, ca, days, reach).0.Ok? {
      var st' := st.(cas := st.cas[ca := st.cas[ca].(days := days)]);
      ChangedCaIsDirty(st, ca, st'.cas[ca]);
      PublishedKeepsInv(st', ca, reach, {ca});
      assert {ca} - {ca} == {};
    }
  }

  lemma PublishNowKeepsInv(st: State, ca: nat, reach: set<string>)
    requires Inv(st)
    ensures Inv(PublishNow(st, ca, reach).1)
  {
    PublishedKeepsInv(st, ca, reach, {});
    assert {} - {ca} == {};
  }

  /** What a Worker no CA uses serves does not matter. */
  lemma UnusedRemoteKeepsInv(st: State, script: string, remote: map<string, Crl>, used: set<string>)
    requires Inv(st) && st.usedScripts <= used
    requires forall s :: s != script ==> (s in remote) == (s in st.remote) && (s in st.remote ==> remote[s] == st.remote[s])
    requires forall ca <- st.cas :: st.cas[ca].worker.Some? ==> st.cas[ca].worker.value.script != script
    ensures Inv(st.(remote := remote, usedScripts := used))
  {
    var st' := st.(remote := remote, usedScripts := used);
    forall c <- st'.cas ensures GoodCa(st', c, {}) {
      assert GoodCa(st, c, {});
    }
    forall c, other | c in st'.cas && other in st'.cas && SameWorker(st', c, other) ensures c == other {
      assert SameWorker(st, c, other);
    }
  }

  lemma LinkedCa(st: State, ca: nat, script: string, c: nat)
    requires Inv(st) && ca in st.cas && st.cas[ca].worker.None? && c in st.cas
    requires script in st.remote && st.cas[ca].crl == Some(st.remote[script]) && script in st.usedScripts
    requires Complete(st.(cas := st.cas[ca := st.cas[ca].(crlPublic := true)]), ca)
    requires Fresh(st.(cas := st.cas[ca := st.cas[ca].(crlPublic := true)]), ca)
    ensures GoodCa(st.(cas := st.cas[ca := st.cas[ca].(worker := Some(Worker(script, true, false)))]), c, {})
  {
    assert GoodCa(st, c, {});
  }

  lemma LinkingKeepsInv(st: State, ca: nat, script: string)
    requires Inv(st) && ca in st.cas && st.cas[ca].worker.None?
    requires script in st.remote && st.cas[ca].crl == Some(st.remote[script]) && script in st.usedScripts
    requires forall c <- st.cas :: st.cas[c].worker.Some? ==> st.cas[c].worker.value.script != script
    requires Complete(st.(cas := st.cas[ca := st.cas[ca].(crlPublic := true)]), ca)
    requires Fresh(st.(cas := st.cas[ca := st.cas[ca].(crlPublic := true)]), ca)
    ensures Inv(st.(cas := st.cas[ca := st.cas[ca].(worker := Some(Worker(script, true, false)))]))
  {
    var st' := st.(cas := st.cas[ca := st.cas[ca].(worker := Some(Worker(script, true, false)))]);
    forall c <- st'.cas ensures GoodCa(st', c, {}) { LinkedCa(st, ca, script, c); }
    forall c, other | c in st'.cas && other in st'.cas && SameWorker(st', c, other) ensures c == other {
      assert c != ca && other != ca ==> SameWorker(st, c, other);
    }
  }

  /** The CRL signed for a new Worker, before anything reaches Cloudflare. */
  lemma SignedForDeploy(st: State, ca: nat, script: string)
    requires Inv(st) && script !in st.usedScripts && ca in st.cas && st.cas[ca].worker.None?
    ensures var signed := Signed(st.(usedScripts := st.usedScripts + {script}), ca);
            && Inv(signed)
            && (forall c <- signed.cas :: signed.cas[c].worker.Some? ==> signed.cas[c].worker.value.script != script)
            && Complete(signed.(cas := signed.cas[ca := signed.cas[ca].(crlPublic := true)]), ca)
            && Fresh(signed.(cas := signed.cas[ca := signed.cas[ca].(crlPublic := true)]), ca)
  {
    var mid := st.(usedScripts := st.usedScripts + {script});
    forall c <- st.cas ensures st.cas[c].worker.Some? ==> st.cas[c].worker.value.script != script {
      assert GoodCa(st, c, {});
    }
    UnusedRemoteKeepsInv(st, script, st.remote, mid.usedScripts);
    assert GoodCa(mid, ca, {});
    SignedKeepsInv(mid, ca, {});
    assert {} - {ca} == {};
  }

  lemma DeployKeepsInv(st: State, ca: nat, script: string, reached: Reached)
    requires Inv(st) && script !in st.usedScripts
    ensures Inv(Deploy(st, ca, script, reached).1)
  {
    if ca in st.cas && st.cas[ca].worker.None? && st.unlocked {
      SignedForDeploy(st, ca, script);
      var signed := Signed(st.(usedScripts := st.usedScripts + {script}), ca);
      if reached != BeforeUpload {
        var remote := if reached == AfterUpload(true) then st.remote - {script} else st.remote[script := signed.cas[ca].crl.value];
        UnusedRemoteKeepsInv(signed, script, remote, signed.usedScripts);
        if reached == Done {
          LinkingKeepsInv(signed.(remote := remote), ca, script);
        }
      }
    }
  }

  lemma UnlinkedCa(st: State, ca: nat, c: nat)
    requires Inv(st) && ca in st.cas && st.cas[ca].worker.Some? && c in st.cas
    ensures GoodCa(Teardown(st, ca, true).1, c, {})
  {
    assert GoodCa(st, c, {});
    assert c != ca ==> !SameWorker(st, c, ca);
  }

  lemma TeardownKeepsInv(st: State, ca: nat, deleted: bool)
    requires Inv(st)
    ensures Inv(Teardown(st, ca, deleted).1)
  {
    if Teardown(st, ca, deleted).0.Ok? {
      var st' := Teardown(st, ca, deleted).1;
      forall c <- st'.cas ensures GoodCa(st', c, {}) {
        UnlinkedCa(st, ca, c);
      }
      forall c, other | c in st'.cas && other in st'.cas && SameWorker(st', c, other) ensures c == other {
        assert SameWorker(st, c, other);
      }
    }
  }

  lemma DeleteCertKeepsInv(st: State, id: nat)
    requires Inv(st)
    ensures Inv(DeleteCert(st, id).1)
  {
    var st' := DeleteCert(st, id).1;
    forall c <- st'.cas ensures GoodCa(st', c, {}) {
      assert GoodCa(st, c, {});
      assert RevokedNow(st', c) <= RevokedNow(st, c);
    }
    forall c, other | c in st'.cas && other in st'.cas && SameWorker(st', c, other) ensures c == other {
      assert SameWorker(st, c, other);
    }
  }

  lemma DeleteCasKeepsInv(st: State, ids: set<nat>)
    requires Inv(st)
    ensures Inv(DeleteCas(st, ids).1)
  {
    var st' := DeleteCas(st, ids).1;
    forall c <- st'.cas ensures GoodCa(st', c, {}) {
      assert GoodCa(st, c, {});
      assert RevokedNow(st', c) <= RevokedNow(st, c);
    }
    forall c, other | c in st'.cas && other in st'.cas && SameWorker(st', c, other) ensures c == other {
      assert SameWorker(st, c, other);
    }
  }

  lemma DropUnlinkedKeepsInv(st: State, script: string, deleted: bool)
    requires Inv(st)
    ensures Inv(DropUnlinked(st, script, deleted).1)
  {
    if DropUnlinked(st, script, deleted).0.Ok? {
      UnusedRemoteKeepsInv(st, script, st.remote - {script}, st.usedScripts);
      assert st.(remote := st.remote - {script}, usedScripts := st.usedScripts) == DropUnlinked(st, script, deleted).1;
    }
  }

  lemma AddCaKeepsInv(st: State, ca: nat)
    requires Inv(st) && ca !in st.cas
    ensures Inv(st.(cas := st.cas[ca := NEW_CA]))
  {
    var st' := st.(cas := st.cas[ca := NEW_CA]);
    forall c <- st'.cas ensures GoodCa(st', c, {}) {
      assert c != ca ==> GoodCa(st, c, {});
    }
    forall c, other | c in st'.cas && other in st'.cas && SameWorker(st', c, other) ensures c == other {
      assert SameWorker(st, c, other);
    }
  }

  lemma AuditKeepsInv(st: State, found: map<nat, bool>)
    requires Inv(st)
    ensures Inv(st.(certs := Audited(st.certs, found)))
  {
    var st' := st.(certs := Audited(st.certs, found));
    forall c <- st'.cas ensures GoodCa(st', c, {}) {
      assert GoodCa(st, c, {});
      RevokedElsewhere(st, st'.certs, c);
    }
    forall c, other | c in st'.cas && other in st'.cas && SameWorker(st', c, other) ensures c == other {
      assert SameWorker(st, c, other);
    }
  }

  /** The clock, the key and the number counter move; a deleted certificate may expire and leave the CRL. */
  lemma TimeKeepsInv(st: State, now: int, unlocked: bool, lastNumber: int)
    requires Inv(st) && st.now <= now
    ensures Inv(st.(now := now, unlocked := unlocked, lastNumber := lastNumber))
  {
    var st' := st.(now := now, unlocked := unlocked, lastNumber := lastNumber);
    forall c <- st'.cas ensures GoodCa(st', c, {}) {
      assert GoodCa(st, c, {});
      assert RevokedNow(st', c) <= RevokedNow(st, c);
    }
    forall c, other | c in st'.cas && other in st'.cas && SameWorker(st', c, other) ensures c == other {
      assert SameWorker(st, c, other);
    }
  }

  // ── Restoring a backup ──

  /** The tables are those of a good state, whatever the Workers then served. */
  ghost predicate GoodBackup(b: State) {
    Inv(b.(astray := OutOfStep(b.cas, b.remote))) && SoundCrls(b)
  }

  /** Every state a run reaches can be backed up. */
  lemma GoodStateIsGoodBackup(st: State)
    requires Inv(st) && SoundCrls(st)
    ensures GoodBackup(st)
  {
    forall ca <- st.cas ensures ca in st.astray <==> ca in OutOfStep(st.cas, st.remote) { assert GoodCa(st, ca, {}); }
    assert st.astray == OutOfStep(st.cas, st.remote);
  }

  lemma RestoredCa(st: State, b: State, ca: nat)
    requires GoodBackup(b) && b.now <= st.now && st.unlocked && ca in b.cas
    ensures GoodCa(Restored(st, b).1, ca, {})
  {
    var b', st' := b.(astray := OutOfStep(b.cas, b.remote)), Restored(st, b).1;
    assert GoodCa(b', ca, {});
    RestoredLists(b, st.now, ca);
  }

  /** Nothing comes on a list by waiting or by losing a pairing. */
  lemma RestoredLists(b: State, now: int, ca: nat)
    requires b.now <= now
    ensures RevokedSerials(Unpaired(b.certs), b.deleted, now, ca) <= RevokedNow(b, ca)
  {
    assert forall id <- b.certs :: Unpaired(b.certs)[id].ca == b.certs[id].ca && Unpaired(b.certs)[id].serial == b.certs[id].serial;
  }

  lemma RestoredSerials(st: State, b: State)
    requires GoodBackup(b) && st.unlocked
    ensures GoodSerials(Restored(st, b).1)
  {
    var b', st' := b.(astray := OutOfStep(b.cas, b.remote)), Restored(st, b).1;
    assert GoodSerials(b');
    assert forall id <- b.certs :: st'.certs[id].serial == b'.certs[id].serial;
  }

  lemma RestoredKeepsInv(st: State, backup: State)
    requires Inv(st) && GoodBackup(backup) && backup.now <= st.now
    ensures Inv(Restored(st, backup).1)
  {
    if st.unlocked {
      var b, st' := backup.(astray := OutOfStep(backup.cas, backup.remote)), Restored(st, backup).1;
      forall c <- st'.cas ensures GoodCa(st', c, {}) { RestoredCa(st, backup, c); }
      forall c, other | c in st'.cas && other in st'.cas && SameWorker(st', c, other) ensures c == other {
        assert SameWorker(b, c, other);
      }
      RestoredSerials(st, backup);
    }
  }

  // ── Renewal ──

  lemma RenewedFrame(st: State, ca: nat, reach: set<string>)
    ensures OnlyCrlsChanged(st, Renewed(st, ca, reach).1)
  {
    PublishedFrame(st, ca, reach);
    if ca in st.cas { PushedFrame(st, ca, reach); }
  }

  lemma RenewedKeepsInv(st: State, ca: nat, reach: set<string>)
    requires Inv(st)
    ensures Inv(Renewed(st, ca, reach).1)
  {
    PublishedKeepsInv(st, ca, reach, {});
    assert {} - {ca} == {};
    if ca in st.cas { PushedKeepsInv(st, ca, reach, {}); }
  }

  lemma {:induction false} RenewedAllKeepsInv(st: State, order: seq<nat>, reach: set<string>)
    requires Inv(st)
    ensures var st' := RenewedAll(st, order, reach).1; Inv(st') && OnlyCrlsChanged(st, st')
  {
    if order != [] {
      var (on, before) := RenewedAll(st, order[..|order| - 1], reach);
      RenewedAllKeepsInv(st, order[..|order| - 1], reach);
      if on {
        RenewedKeepsInv(before, order[|order| - 1], reach);
        RenewedFrame(before, order[|order| - 1], reach);
        FrameComposes(st, before, Renewed(before, order[|order| - 1], reach).1);
      }
    }
  }

  /** More than half of the CRL's life is left now. */
  ghost predicate Renewable(st: State, ca: nat) {
    ca in st.cas && Maintained(st.cas[ca]) ==> !Due(st.cas[ca].crl, st.now)
  }

  /** With the database unlocked a pass never stops early, and leaves no CRL it was given with half its life or less. */
  lemma {:induction false} UnlockedPassRenewsAll(st: State, order: seq<nat>, reach: set<string>)
    requires Inv(st) && st.unlocked
    ensures var (on, st') := RenewedAll(st, order, reach); on && forall ca <- order :: Renewable(st', ca)
  {
    if order != [] {
      var rest, last := order[..|order| - 1], order[|order| - 1];
      var (on, before) := RenewedAll(st, rest, reach);
      UnlockedPassRenewsAll(st, rest, reach);
      RenewedAllKeepsInv(st, rest, reach);
      RenewsItself(before, last, reach);
      var st' := Renewed(before, last, reach).1;
      forall ca <- order ensures Renewable(st', ca) {
        if ca != last {
          assert ca in rest;
          assert Renewable(before, ca);
        }
      }
    }
  }

  /** Only the CA's own row changes, and it keeps the CRL it was signed. */
  ghost predicate OnlyRowChanged(st: State, st': State, ca: nat) {
    st'.now == st.now && st'.cas.Keys == st.cas.Keys && forall c <- st.cas :: c != ca ==> st'.cas[c] == st.cas[c]
  }

  lemma PushedRow(st: State, ca: nat, reach: set<string>)
    requires ca in st.cas
    ensures var st' := Pushed(st, ca, reach);
            OnlyRowChanged(st, st', ca) && st'.cas[ca].crl == st.cas[ca].crl && Maintained(st'.cas[ca]) == Maintained(st.cas[ca])
  {
  }

  lemma SignedRow(st: State, ca: nat)
    requires ca in st.cas && st.cas[ca].days in CRL_DAYS_CHOICES
    ensures OnlyRowChanged(st, Signed(st, ca), ca) && !Due(Signed(st, ca).cas[ca].crl, st.now)
  {
  }

  lemma RenewsItself(st: State, ca: nat, reach: set<string>)
    requires Inv(st) && st.unlocked
    ensures var (on, st') := Renewed(st, ca, reach); on && Renewable(st', ca) && OnlyRowChanged(st, st', ca)
  {
    if ca in st.cas {
      assert GoodCa(st, ca, {});
      if !Due(st.cas[ca].crl, st.now) {
        PushedRow(st, ca, reach);
      } else if Maintained(st.cas[ca]) {
        SignedRow(st, ca);
        PushedRow(Signed(st, ca), ca, reach);
      }
    }
  }

  /** The CA has a CRL and no push to retry. */
  ghost predicate Served(st: State, ca: nat) {
    ca in st.cas && st.cas[ca].worker.Some? ==> !st.cas[ca].worker.value.pushError && st.cas[ca].crl.Some?
  }

  ghost predicate Reaches(st: State, reach: set<string>) {
    forall ca <- st.cas :: st.cas[ca].worker.Some? ==> st.cas[ca].worker.value.script in reach
  }

  lemma PushedIsServed(st: State, ca: nat, reach: set<string>)
    requires ca in st.cas && st.cas[ca].worker.Some? && st.cas[ca].worker.value.script in reach && st.unlocked && st.cas[ca].crl.Some?
    ensures var st' := Pushed(st, ca, reach); Served(st', ca) && st'.cas[ca].worker.Some? && st'.cas[ca].worker.value.script in reach
  {
  }

  lemma RenewedIsServed(st: State, ca: nat, reach: set<string>)
    requires Inv(st) && st.unlocked && Reaches(st, reach)
    ensures var st' := Renewed(st, ca, reach).1;
            Served(st', ca) && OnlyRowChanged(st, st', ca) && (ca in st.cas && st'.cas[ca].worker.Some? ==> st'.cas[ca].worker.value.script in reach)
  {
    RenewsItself(st, ca, reach);
    if ca in st.cas && st.cas[ca].worker.Some? {
      assert GoodCa(st, ca, {});
      if Due(st.cas[ca].crl, st.now) {
        PushedIsServed(Signed(st, ca), ca, reach);
      } else if st.cas[ca].worker.value.pushError {
        PushedIsServed(st, ca, reach);
      }
    }
  }

  /** An unlocked pass that can reach every Worker retries every failed push: none is left on record. */
  lemma {:induction false} PassRetriesPushes(st: State, order: seq<nat>, reach: set<string>)
    requires Inv(st) && st.unlocked && Reaches(st, reach)
    ensures var st' := RenewedAll(st, order, reach).1; Reaches(st', reach) && forall ca <- order :: Served(st', ca)
  {
    if order != [] {
      var rest, last := order[..|order| - 1], order[|order| - 1];
      var before := RenewedAll(st, rest, reach).1;
      PassRetriesPushes(st, rest, reach);
      UnlockedPassRenewsAll(st, rest, reach);
      RenewedAllKeepsInv(st, rest, reach);
      RenewedIsServed(before, last, reach);
      var st' := Renewed(before, last, reach).1;
      forall ca <- order ensures Served(st', ca) {
        if ca != last {
          assert ca in rest;
          assert Served(before, ca);
        }
      }
    }
  }

  /** A pass over every maintained CA puts all their CRLs back above half their life. */
  lemma RenewDueKeepsInv(st: State, order: seq<nat>, reach: set<string>)
    requires Inv(st) && Lists(order, MaintainedCas(st))
    ensures Inv(RenewDue(st, order, reach))
  {
    var st' := RenewedAll(st, order, reach).1;
    RenewedAllKeepsInv(st, order, reach);
    if st.unlocked {
      UnlockedPassRenewsAll(st, order, reach);
      forall ca <- st'.cas ensures GoodCa(st'.(lastPass := st.now), ca, {}) {
        assert GoodCa(st', ca, {});
        if Maintained(st'.cas[ca]) {
          assert ca in MaintainedCas(st);
          assert Renewable(st', ca);
        }
      }
      forall c, other | c in st'.cas && other in st'.cas && SameWorker(st'.(lastPass := st.now), c, other) ensures c == other {
        assert SameWorker(st', c, other);
      }
    }
  }

  // ── Runs of handlers ──

  datatype Event =
    | RevokeIt(id: nat, reach: set<string>)
    | DeleteIt(id: nat)
    | PalRemoves(device: string, serials: set<string>, order: seq<nat>, reach: set<string>)
    | DisconnectPal(device: string, revokeCerts: bool, order: seq<nat>, reach: set<string>)
    | IssueIt(id: nat, cert: Cert, mode: Mode, order: seq<nat>, reach: set<string>)
    | SetLifetime(ca: nat, days: int, reach: set<string>)
    | PublishCrl(ca: nat, reach: set<string>)
    | DeployWorker(ca: nat, script: string, reached: Reached)
    | TeardownWorker(ca: nat, removed: bool)
    | DropWorker(script: string, removed: bool)
    | AddCa(ca: nat)
    | DeleteCa(tree: set<nat>)
    | Audit(found: map<nat, bool>)
    | Renew(order: seq<nat>, reach: set<string>)
    | Clock(now: int)
    | Unlock
    | Restart(locked: bool)
    | Restore(backup: State)

  function Handled(st: State, e: Event): (Result, State) {
    match e
    case RevokeIt(id, reach) => RevokeCert(st, id, reach)
    case DeleteIt(id) => DeleteCert(st, id)
    case PalRemoves(device, serials, order, reach) => RevokeOwn(st, device, serials, order, reach)
    case DisconnectPal(device, revokeCerts, order, reach) => Disconnect(st, device, revokeCerts, order, reach)
    case IssueIt(id, cert, mode, order, reach) => Issue(st, id, cert, mode, order, reach)
    case SetLifetime(ca, days, reach) => SetDays(st, ca, days, reach)
    case PublishCrl(ca, reach) => PublishNow(st, ca, reach)
    case DeployWorker(ca, script, reached) => Deploy(st, ca, script, reached)
    case TeardownWorker(ca, removed) => Teardown(st, ca, removed)
    case DropWorker(script, removed) => DropUnlinked(st, script, removed)
    case AddCa(ca) => (Ok(()), st.(cas := st.cas[ca := NEW_CA]))
    case DeleteCa(tree) => DeleteCas(st, tree)
    case Audit(found) => (Ok(()), st.(certs := Audited(st.certs, found)))
    case Renew(order, reach) => (Ok(()), RenewDue(st, order, reach))
    case Clock(now) => (Ok(()), st.(now := now))
    case Unlock => (Ok(()), st.(unlocked := true))
    case Restart(locked) => (Ok(()), st.(unlocked := !locked, lastNumber := 0))
    case Restore(backup) => Restored(st, backup)
  }

  function Step(st: State, e: Event): State {
    Handled(st, e).1
  }

  function Run(st: State, events: seq<Event>): State {
    if events == [] then st else Step(Run(st, events[..|events| - 1]), events[|events| - 1])
  }

  /** New rows and scripts have new ids, names and serials, loops cover the CAs they should, time does not go back, and a
      backup was taken, here or elsewhere, in a good state. */
  ghost predicate CanHappen(st: State, e: Event) {
    match e
    case PalRemoves(device, serials, order, _) => Lists(order, CasOf(st.certs, Revocable(st.certs, Removed(st, device, serials))))
    case DisconnectPal(device, revokeCerts, order, _) =>
      Lists(order, CasOf(st.certs, if revokeCerts then Revocable(st.certs, OfDevice(st, device)) else {}))
    case IssueIt(id, cert, _, order, _) => CanIssue(st, id, cert, order)
    case DeployWorker(_, script, _) => script !in st.usedScripts
    case AddCa(ca) => ca !in st.cas
    case Renew(order, _) => Lists(order, MaintainedCas(st))
    case Clock(now) => st.now <= now
    case Restore(backup) => GoodBackup(backup) && backup.now <= st.now
    case _ => true
  }

  ghost predicate Feasible(st: State, events: seq<Event>) {
    events != [] ==>
      Feasible(st, events[..|events| - 1]) && CanHappen(Run(st, events[..|events| - 1]), events[|events| - 1])
  }

  lemma RunMore(st: State, events: seq<Event>, e: Event)
    ensures Run(st, []) == st && Run(st, events + [e]) == Step(Run(st, events), e)
  {
    assert (events + [e])[..|events|] == events;
  }

  lemma StepKeepsInv(st: State, e: Event)
    requires Inv(st) && CanHappen(st, e)
    ensures Inv(Step(st, e))
  {
    match e
    case RevokeIt(id, reach) => RevokeCertKeepsInv(st, id, reach);
    case DeleteIt(id) => DeleteCertKeepsInv(st, id);
    case PalRemoves(device, serials, order, reach) => RevokeOwnKeepsInv(st, device, serials, order, reach);
    case DisconnectPal(device, revokeCerts, order, reach) => DisconnectKeepsInv(st, device, revokeCerts, order, reach);
    case IssueIt(id, cert, mode, order, reach) => IssueKeepsInv(st, id, cert, mode, order, reach);
    case SetLifetime(ca, days, reach) => SetDaysKeepsInv(st, ca, days, reach);
    case PublishCrl(ca, reach) => PublishNowKeepsInv(st, ca, reach);
    case DeployWorker(ca, script, reached) => DeployKeepsInv(st, ca, script, reached);
    case TeardownWorker(ca, removed) => TeardownKeepsInv(st, ca, removed);
    case DropWorker(script, removed) => DropUnlinkedKeepsInv(st, script, removed);
    case AddCa(ca) => AddCaKeepsInv(st, ca);
    case DeleteCa(tree) => DeleteCasKeepsInv(st, tree);
    case Audit(found) => AuditKeepsInv(st, found);
    case Renew(order, reach) => RenewDueKeepsInv(st, order, reach);
    case Clock(now) => TimeKeepsInv(st, now, st.unlocked, st.lastNumber);
    case Unlock => TimeKeepsInv(st, st.now, true, st.lastNumber);
    case Restart(locked) => TimeKeepsInv(st, st.now, !locked, 0);
    case Restore(backup) => RestoredKeepsInv(st, backup);
  }

  lemma {:induction false} RunKeepsInv(st: State, events: seq<Event>)
    requires Inv(st) && Feasible(st, events)
    ensures Inv(Run(st, events))
  {
    if events != [] {
      RunKeepsInv(st, events[..|events| - 1]);
      StepKeepsInv(Run(st, events[..|events| - 1]), events[|events| - 1]);
    }
  }

  /** After every run of handlers, restores included, each maintained CA's CRL lists every serial it should; and its Worker
      serves exactly that CRL, or a failed push is on record, exactly when no restore left it astray. */
  lemma PublishedCrlsAreComplete(events: seq<Event>, ca: nat)
    requires Feasible(EMPTY, events) && ca in Run(EMPTY, events).cas
    ensures var st := Run(EMPTY, events);
            && (Maintained(st.cas[ca]) ==> st.cas[ca].crl.Some? && RevokedNow(st, ca) <= st.cas[ca].crl.value.serials)
            && (InStep(st.cas[ca], st.remote) <==> !exists i: nat :: AstraySince(events, i, ca))
  {
    RunKeepsInv(EMPTY, events);
    assert GoodCa(Run(EMPTY, events), ca, {});
    assert events[..|events|] == events;
    if i: nat :| AstraySince(events, i, ca) {
      assert AstrayAfter(events, |events|, ca);
    }
    if ca in Run(EMPTY, events).astray { AstrayHasCome(events, ca); }
  }

  /** After `n` events the CA's Worker serves something else than its CRL, and no failed push is on record. */
  ghost predicate AstrayAfter(events: seq<Event>, n: nat, ca: nat) {
    && n <= |events|
    && var st := Run(EMPTY, events[..n]);
       ca in st.cas && !InStep(st.cas[ca], st.remote)
  }

  /** Event `i` restored a backup whose link left the CA astray, and it has been ever since. */
  ghost predicate AstraySince(events: seq<Event>, i: nat, ca: nat) {
    i < |events| && events[i].Restore? && forall n: nat :: i < n <= |events| ==> AstrayAfter(events, n, ca)
  }

  lemma AstrayShrinks(st: State, e: Event)
    requires !e.Restore?
    ensures Step(st, e).astray <= st.astray
  {
    match e
    case RevokeIt(id, reach) =>
      if Handled(st, e).0.Ok? { PublishedFrame(st.(certs := Revoked(st.certs, {id})), st.certs[id].ca, reach); }
    case PalRemoves(device, serials, order, reach) =>
      var removed := Removed(st, device, serials);
      PublishedAllFrame(st.(certs := MarkedAbsent(Revoked(st.certs, Revocable(st.certs, removed)), removed)), order, reach);
    case DisconnectPal(device, revokeCerts, order, reach) =>
      var certs := if revokeCerts then Revocable(st.certs, OfDevice(st, device)) else {};
      PublishedAllFrame(st.(certs := Revoked(st.certs, certs)), order, reach);
    case IssueIt(id, cert, mode, order, reach) => IssuingShrinks(st, id, cert, mode, order, reach);
    case SetLifetime(ca, days, reach) =>
      if Handled(st, e).0.Ok? { PublishedFrame(st.(cas := st.cas[ca := st.cas[ca].(days := days)]), ca, reach); }
    case PublishCrl(ca, reach) => PublishedFrame(st, ca, reach);
    case Renew(order, reach) => RenewedAllShrinks(st, order, reach);
    case _ =>
  }

  lemma IssuingShrinks(st: State, id: nat, c: Cert, mode: Mode, order: seq<nat>, reach: set<string>)
    ensures Issue(st, id, c, mode, order, reach).1.astray <= st.astray
  {
    var cleared := PublishedAll(Saved(st, id, c), order, reach);
    PublishedAllFrame(Saved(st, id, c), order, reach);
    PublishedFrame(cleared, c.ca, reach);
    if c.ca in cleared.cas {
      PublishedFrame(cleared.(cas := cleared.cas[c.ca := cleared.cas[c.ca].(crlPublic := true)]), c.ca, reach);
    }
  }

  lemma {:induction false} RenewedAllShrinks(st: State, order: seq<nat>, reach: set<string>)
    ensures RenewedAll(st, order, reach).1.astray <= st.astray
  {
    if order != [] {
      var (on, before) := RenewedAll(st, order[..|order| - 1], reach);
      RenewedAllShrinks(st, order[..|order| - 1], reach);
      RenewedFrame(before, order[|order| - 1], reach);
    }
  }

  lemma AstrayNow(events: seq<Event>, ca: nat)
    requires Feasible(EMPTY, events) && ca in Run(EMPTY, events).astray
    ensures AstrayAfter(events, |events|, ca)
  {
    RunKeepsInv(EMPTY, events);
    assert GoodCa(Run(EMPTY, events), ca, {});
    assert events[..|events|] == events;
  }

  lemma {:induction false} AstrayHasCome(events: seq<Event>, ca: nat)
    requires Feasible(EMPTY, events) && ca in Run(EMPTY, events).astray
    ensures exists i: nat :: AstraySince(events, i, ca)
  {
    var rest, e := events[..|events| - 1], events[|events| - 1];
    AstrayNow(events, ca);
    if e.Restore? {
      assert AstraySince(events, |rest|, ca);
    } else {
      AstrayShrinks(Run(EMPTY, rest), e);
      AstrayHasCome(rest, ca);
      var i: nat :| AstraySince(rest, i, ca);
      StillAstray(events, i, ca);
    }
  }

  lemma StillAstray(events: seq<Event>, i: nat, ca: nat)
    requires events != [] && AstraySince(events[..|events| - 1], i, ca) && AstrayAfter(events, |events|, ca)
    ensures AstraySince(events, i, ca)
  {
    var rest := events[..|events| - 1];
    assert rest[i] == events[i];
    forall n: nat | i < n <= |events| ensures AstrayAfter(events, n, ca) {
      if n < |events| {
        assert AstrayAfter(rest, n, ca) && rest[..n] == events[..n];
      }
    }
  }

  /** A restore brings exactly those CAs astray whose restored CRL is not what their Worker serves, without an error that
      was restored with it; publishing brings one back, and a pass that finds its CRL fresh does not. */
  lemma RestoredIsAstrayIff(st: State, backup: State, ca: nat, reach: set<string>)
    requires GoodBackup(backup) && backup.now <= st.now && st.unlocked && ca in backup.cas
    ensures var st' := Restored(st, backup).1;
            && (ca in st'.astray <==> st'.cas[ca].worker.Some? && !backup.cas[ca].worker.value.pushError
                                      && !(backup.cas[ca].worker.value.script in st.remote
                                           && backup.cas[ca].crl == Some(st.remote[backup.cas[ca].worker.value.script])))
            && (ca in st'.astray ==> ca !in Published(st', ca, reach).1.astray
                                     && (!Due(st'.cas[ca].crl, st'.now) ==> Renewed(st', ca, reach).1 == st'))
  {
    RestoredCa(st, backup, ca);
  }

  /** Renewal passes at most RENEW_CHECK_SECONDS apart keep more than 12 d - 1 hours on a d-day CRL. */
  lemma RenewalKeepsUp(events: seq<Event>, ca: nat)
    requires Feasible(EMPTY, events) && ca in Run(EMPTY, events).cas && Maintained(Run(EMPTY, events).cas[ca])
    requires Run(EMPTY, events).now <= Run(EMPTY, events).lastPass + RENEW_CHECK_SECONDS
    ensures var st := Run(EMPTY, events);
            st.cas[ca].crl.Some? && st.cas[ca].crl.value.next - st.now > (12 * st.cas[ca].days - 1) * HOUR
  {
    RunKeepsInv(EMPTY, events);
    assert GoodCa(Run(EMPTY, events), ca, {});
  }

  /** A failed deployment leaves only the CRL it signed, on a CA linked to no Worker. */
  lemma FailedDeployLinksNothing(st: State, ca: nat, script: string, reached: Reached)
    requires Deploy(st, ca, script, reached).0.Err?
    ensures var st' := Deploy(st, ca, script, reached).1;
            st' == st || (ca in st.cas && st.cas[ca].worker.None? && st'.certs == st.certs && st'.deleted == st.deleted &&
                          st'.cas == st.cas[ca := st.cas[ca].(crl := st'.cas[ca].crl)])
  {
  }

  /** Any other refused request changes nothing. */
  lemma RefusalsChangeNothing(st: State, e: Event)
    requires Handled(st, e).0.Err? && !e.DeployWorker?
    ensures Step(st, e) == st
  {
    match e
    case PublishCrl(ca, reach) =>
    case _ =>
  }

  // ── What each request does, and when it is refused ──

  /** A PC's own revoking needs the key only where a CRL is to be signed. */
  predicate PalMayRevoke(st: State, device: string, serials: set<string>) {
    st.unlocked || forall id <- st.certs ::
      var c := st.certs[id];
      c.device == device && c.serial in serials && !c.revoked && c.dp && c.ca in st.cas ==> !Maintained(st.cas[c.ca])
  }

  predicate NothingToRevoke(st: State, device: string) {
    forall id <- st.certs :: st.certs[id].device == device && st.certs[id].dp ==> st.certs[id].revoked
  }

  predicate NeedsNoKey(st: State, ca: nat) {
    st.unlocked || (ca in st.cas ==> !Maintained(st.cas[ca]))
  }

  predicate Used(st: State, script: string) {
    exists ca <- st.cas :: st.cas[ca].worker.Some? && st.cas[ca].worker.value.script == script
  }

  /** What a request needs to be granted. */
  predicate Grantable(st: State, e: Event) {
    match e
    case RevokeIt(id, _) =>
      id in st.certs && !st.certs[id].revoked && st.certs[id].dp && st.certs[id].ca in st.cas && NeedsNoKey(st, st.certs[id].ca)
    case DeleteIt(id) => id in st.certs
    case PalRemoves(device, serials, _, _) => PalMayRevoke(st, device, serials)
    case DisconnectPal(device, revokeCerts, _, _) => st.unlocked || !revokeCerts || NothingToRevoke(st, device)
    case IssueIt(_, cert, _, _, _) => st.unlocked && cert.ca in st.cas
    case SetLifetime(ca, days, _) => ca in st.cas && days in CRL_DAYS_CHOICES && NeedsNoKey(st, ca)
    case PublishCrl(ca, _) => st.unlocked && ca in st.cas && Maintained(st.cas[ca])
    case DeployWorker(ca, _, reached) => st.unlocked && ca in st.cas && st.cas[ca].worker.None? && reached.Done?
    case TeardownWorker(ca, removed) => st.unlocked && ca in st.cas && st.cas[ca].worker.Some? && removed
    case DropWorker(script, removed) => st.unlocked && script in st.remote && !Used(st, script) && removed
    case DeleteCa(tree) => forall ca <- st.cas :: ca in tree ==> st.cas[ca].worker.None?
    case Restore(_) => st.unlocked
    case _ => true
  }

  lemma GrantedIff(st: State, e: Event)
    ensures Handled(st, e).0.Ok? <==> Grantable(st, e)
  {
    match e
    case PalRemoves(device, serials, _, _) => PalGrantedIff(st, device, serials);
    case DisconnectPal(device, revokeCerts, _, _) => DisconnectGrantedIff(st, device);
    case PublishCrl(ca, reach) =>
    case _ =>
  }

  lemma PalGrantedIff(st: State, device: string, serials: set<string>)
    ensures PalMayRevoke(st, device, serials) <==>
              st.unlocked || forall ca <- CasOf(st.certs, Revocable(st.certs, Removed(st, device, serials))) ::
                               ca in st.cas ==> !Maintained(st.cas[ca])
  {
    var ids := Revocable(st.certs, Removed(st, device, serials));
    forall id <- ids ensures st.certs[id].ca in CasOf(st.certs, ids) { }
  }

  lemma DisconnectGrantedIff(st: State, device: string)
    ensures NothingToRevoke(st, device) <==> Revocable(st.certs, OfDevice(st, device)) == {}
  {
    forall id <- st.certs | st.certs[id].device == device && st.certs[id].dp && !st.certs[id].revoked
      ensures id in Revocable(st.certs, OfDevice(st, device)) { }
  }

  /** The requests that revoke a certificate: naming it, removing it from the PC, disconnecting its PC, or replacing it on a PC
      that no longer has it; and only where it has a distribution point. */
  predicate Revokes(st: State, e: Event, c: Cert) {
    && c.dp
    && match e
       case PalRemoves(device, serials, _, _) => c.device == device && c.serial in serials
       case DisconnectPal(device, revokeCerts, _, _) => c.device == device && revokeCerts
       case IssueIt(_, cert, _, _, _) =>
         c.device != "" && c.device == cert.device && c.kind == cert.kind && c.present == Some(false) && c.notAfter > st.now
       case _ => false
  }

  /** Where a certificate that a PC's request names is marked as removed. */
  predicate MarksAbsent(e: Event, c: Cert) {
    e.PalRemoves? && c.device == e.device && c.serial in e.serials && !c.revoked
  }

  function AfterAudit(e: Event, id: nat, c: Cert): Option<bool> {
    if e.Audit? && id in e.found then Some(e.found[id]) else c.present
  }

  lemma PalCertAfter(st: State, device: string, serials: set<string>, order: seq<nat>, reach: set<string>)
    ensures var removed := Removed(st, device, serials);
            Handled(st, PalRemoves(device, serials, order, reach)).0.Ok? ==>
              && Step(st, PalRemoves(device, serials, order, reach)).deleted == st.deleted
              && Step(st, PalRemoves(device, serials, order, reach)).certs ==
                 MarkedAbsent(Revoked(st.certs, Revocable(st.certs, removed)), removed)
  {
    var removed := Removed(st, device, serials);
    PublishedAllFrame(st.(certs := MarkedAbsent(Revoked(st.certs, Revocable(st.certs, removed)), removed)), order, reach);
  }

  lemma IssueFrame(st: State, id: nat, c: Cert, mode: Mode, order: seq<nat>, reach: set<string>)
    ensures c.ca in st.cas && st.unlocked ==>
              var st' := Issue(st, id, c, mode, order, reach).1;
              && st'.certs == Revoked(st.certs, Replaced(st, c))[id := c] && st'.deleted == st.deleted
              && st'.unlocked == st.unlocked && st'.now == st.now && st'.lastPass == st.lastPass
  {
    var cleared := PublishedAll(Saved(st, id, c), order, reach);
    PublishedAllFrame(Saved(st, id, c), order, reach);
    PublishedFrame(cleared, c.ca, reach);
    if c.ca in cleared.cas {
      PublishedFrame(cleared.(cas := cleared.cas[c.ca := cleared.cas[c.ca].(crlPublic := true)]), c.ca, reach);
    }
  }

  lemma {:induction false} RenewedAllFrame(st: State, order: seq<nat>, reach: set<string>)
    ensures OnlyCrlsChanged(st, RenewedAll(st, order, reach).1)
  {
    if order != [] {
      var (on, before) := RenewedAll(st, order[..|order| - 1], reach);
      RenewedAllFrame(st, order[..|order| - 1], reach);
      if on {
        RenewedFrame(before, order[|order| - 1], reach);
        FrameComposes(st, before, Renewed(before, order[|order| - 1], reach).1);
      }
    }
  }

  /** The certificates as a request that publishes leaves them. */
  ghost function CertsBy(st: State, e: Event): map<nat, Cert>
    requires RevokesOrPublishes(e)
  {
    match e
    case RevokeIt(id, _) => Revoked(st.certs, {id})
    case PalRemoves(device, serials, _, _) =>
      var removed := Removed(st, device, serials);
      MarkedAbsent(Revoked(st.certs, Revocable(st.certs, removed)), removed)
    case DisconnectPal(device, revokeCerts, _, _) => if revokeCerts then Revoked(st.certs, Revocable(st.certs, OfDevice(st, device))) else st.certs
    case IssueIt(id, cert, _, _, _) => Revoked(st.certs, Replaced(st, cert))[id := cert]
    case _ => st.certs
  }

  lemma PublishingLeavesCerts(st: State, e: Event)
    requires Grantable(st, e) && RevokesOrPublishes(e)
    ensures Step(st, e).certs == CertsBy(st, e) && Step(st, e).deleted == st.deleted
  {
    GrantedIff(st, e);
    match e
    case RevokeIt(i, reach) => PublishedFrame(st.(certs := Revoked(st.certs, {i})), st.certs[i].ca, reach);
    case PalRemoves(device, serials, order, reach) => PalCertAfter(st, device, serials, order, reach);
    case DisconnectPal(device, revokeCerts, order, reach) =>
      var ids := if revokeCerts then Revocable(st.certs, OfDevice(st, device)) else {};
      PublishedAllFrame(st.(certs := Revoked(st.certs, ids)), order, reach);
      assert Revoked(st.certs, {}) == st.certs;
    case IssueIt(i, cert, mode, order, reach) => IssueFrame(st, i, cert, mode, order, reach);
    case SetLifetime(ca, days, reach) => PublishedFrame(st.(cas := st.cas[ca := st.cas[ca].(days := days)]), ca, reach);
    case PublishCrl(ca, reach) => PublishedFrame(st, ca, reach);
    case Renew(order, reach) => RenewedAllFrame(st, order, reach);
  }

  lemma CertByAfter(st: State, e: Event, id: nat)
    requires CanHappen(st, e) && RevokesOrPublishes(e) && id in st.certs
    ensures var (c, c') := (st.certs[id], CertsBy(st, e)[id]);
            && c'.revoked == (c.revoked || (e.RevokeIt? && e.id == id) || Revokes(st, e, c))
            && c'.present == (if MarksAbsent(e, c) then Some(false) else c.present)
            && c'.(revoked := c.revoked, present := c.present) == c
  {
  }

  lemma OtherCertAfter(st: State, e: Event, id: nat)
    requires !RevokesOrPublishes(e) && !e.Restore? && id in st.certs && id in Step(st, e).certs
    ensures Step(st, e).certs[id] == st.certs[id].(present := AfterAudit(e, id, st.certs[id]))
  {
  }

  /** A granted request leaves each certificate exactly as it was, but revoked if it is one to revoke, and marked as the
      request says. */
  lemma CertAfter(st: State, e: Event, id: nat)
    requires CanHappen(st, e) && Grantable(st, e) && !e.Restore?
    requires id in st.certs && id in Step(st, e).certs
    ensures var (c, c') := (st.certs[id], Step(st, e).certs[id]);
            && c'.revoked == (c.revoked || (e.RevokeIt? && e.id == id) || Revokes(st, e, c))
            && c'.present == (if MarksAbsent(e, c) then Some(false) else AfterAudit(e, id, c))
            && c'.(revoked := c.revoked, present := c.present) == c
  {
    if RevokesOrPublishes(e) {
      PublishingLeavesCerts(st, e);
      CertByAfter(st, e, id);
    } else {
      OtherCertAfter(st, e, id);
    }
  }

  /** Certificates come by issuing and go by being deleted, alone or with their CA, or in a restore. */
  lemma CertsGoAndCome(st: State, e: Event, id: nat)
    requires CanHappen(st, e) && Grantable(st, e) && !e.Restore?
    ensures id in Step(st, e).certs <==>
              || (e.IssueIt? && e.id == id)
              || (id in st.certs && e != DeleteIt(id) && !(e.DeleteCa? && st.certs[id].ca in e.tree))
    ensures e.IssueIt? ==> e.id in Step(st, e).certs && Step(st, e).certs[e.id] == e.cert
  {
    if RevokesOrPublishes(e) { PublishingLeavesCerts(st, e); }
  }

  /** A deleted revocation comes with the deletion of a revoked certificate, and goes with the CA. */
  lemma DeletedAfter(st: State, e: Event, k: (nat, string))
    requires Inv(st) && CanHappen(st, e) && Grantable(st, e) && !e.Restore?
    ensures k in Step(st, e).deleted <==>
              || (k in st.deleted && !(e.DeleteCa? && k.0 in e.tree))
              || (e.DeleteIt? && st.certs[e.id].revoked && k == (st.certs[e.id].ca, st.certs[e.id].serial))
    ensures k in Step(st, e).deleted ==>
              Step(st, e).deleted[k] == if k in st.deleted then st.deleted[k] else st.certs[e.id].notAfter
  {
    if RevokesOrPublishes(e) { PublishingLeavesCerts(st, e); }
  }

  /** A restore leaves the backup's CAs, deleted revocations and certificates, the last of no PC; the Workers, the clock and the
      process's counter stay. */
  lemma RestoreLeaves(st: State, backup: State, id: nat)
    requires st.unlocked
    ensures var st' := Step(st, Restore(backup));
            && st'.cas == backup.cas && st'.deleted == backup.deleted && st'.certs.Keys == backup.certs.Keys
            && (id in backup.certs ==>
                  var c := backup.certs[id]; st'.certs[id] == Cert(c.ca, c.serial, c.revoked, c.notAfter, c.dp, "", c.kind, None))
            && (st'.remote, st'.unlocked, st'.now, st'.lastNumber) == (st.remote, true, st.now, st.lastNumber)
  {
  }

  // ── What each request does to the CAs ──

  /** Whether the server serves the CA's CRL, for how long it is valid, and which Worker is linked. */
  ghost predicate RowLike(row: Ca, crlPublic: bool, days: int, script: Option<string>) {
    row.crlPublic == crlPublic && row.days == days && Script(row) == script
  }

  function Script(row: Ca): Option<string> {
    if row.worker.Some? then Some(row.worker.value.script) else None
  }

  ghost predicate RowsKept(st: State, st': State) {
    st'.cas.Keys == st.cas.Keys && forall ca <- st.cas :: RowLike(st'.cas[ca], st.cas[ca].crlPublic, st.cas[ca].days, Script(st.cas[ca]))
  }

  lemma PublishedKeepsRows(st: State, ca: nat, reach: set<string>)
    ensures RowsKept(st, Published(st, ca, reach).1)
  {
  }

  lemma {:induction false} PublishedAllKeepsRows(st: State, order: seq<nat>, reach: set<string>)
    ensures RowsKept(st, PublishedAll(st, order, reach))
  {
    if order != [] {
      PublishedAllKeepsRows(st, order[..|order| - 1], reach);
      PublishedKeepsRows(PublishedAll(st, order[..|order| - 1], reach), order[|order| - 1], reach);
    }
  }

  lemma {:induction false} RenewedAllKeepsRows(st: State, order: seq<nat>, reach: set<string>)
    ensures RowsKept(st, RenewedAll(st, order, reach).1)
  {
    if order != [] {
      var before, ca := RenewedAll(st, order[..|order| - 1], reach).1, order[|order| - 1];
      RenewedAllKeepsRows(st, order[..|order| - 1], reach);
      PublishedKeepsRows(before, ca, reach);
      if ca in before.cas { PushedKeepsRows(before, ca, reach); }
    }
  }

  lemma PushedKeepsRows(st: State, ca: nat, reach: set<string>)
    requires ca in st.cas
    ensures RowsKept(st, Pushed(st, ca, reach))
  {
  }

  lemma RevokingKeepsRows(st: State, e: Event)
    requires e.RevokeIt? || e.PalRemoves? || e.DisconnectPal? || e.PublishCrl? || e.Renew?
    ensures RowsKept(st, Step(st, e))
  {
    match e
    case RevokeIt(id, reach) =>
      if Handled(st, e).0.Ok? { PublishedKeepsRows(st.(certs := Revoked(st.certs, {id})), st.certs[id].ca, reach); }
    case PalRemoves(device, serials, order, reach) =>
      var removed := Removed(st, device, serials);
      PublishedAllKeepsRows(st.(certs := MarkedAbsent(Revoked(st.certs, Revocable(st.certs, removed)), removed)), order, reach);
    case DisconnectPal(device, revokeCerts, order, reach) =>
      var ids := if revokeCerts then Revocable(st.certs, OfDevice(st, device)) else {};
      PublishedAllKeepsRows(st.(certs := Revoked(st.certs, ids)), order, reach);
    case PublishCrl(ca, reach) => PublishedKeepsRows(st, ca, reach);
    case Renew(order, reach) => RenewedAllKeepsRows(st, order, reach);
  }

  lemma IssuingRows(st: State, id: nat, c: Cert, mode: Mode, order: seq<nat>, reach: set<string>)
    requires c.ca in st.cas && st.unlocked
    ensures var st' := Issue(st, id, c, mode, order, reach).1;
            st'.cas.Keys == st.cas.Keys && forall ca <- st.cas ::
              RowLike(st'.cas[ca], st.cas[ca].crlPublic || (mode == ServerCrl && ca == c.ca), st.cas[ca].days, Script(st.cas[ca]))
  {
    var cleared := PublishedAll(Saved(st, id, c), order, reach);
    PublishedAllKeepsRows(Saved(st, id, c), order, reach);
    PublishedKeepsRows(cleared, c.ca, reach);
    PublishedKeepsRows(cleared.(cas := cleared.cas[c.ca := cleared.cas[c.ca].(crlPublic := true)]), c.ca, reach);
  }

  /** A granted request leaves each CA's settings exactly as they were, but that issuing for the server's CRL makes it public,
      setting its lifetime sets it, and deploying and tearing down link and unlink its Worker. */
  lemma CaAfter(st: State, e: Event, ca: nat)
    requires Grantable(st, e) && !e.Restore? && ca in st.cas && ca in Step(st, e).cas && !(e.AddCa? && e.ca == ca)
    ensures RowLike(Step(st, e).cas[ca],
                    st.cas[ca].crlPublic || (e.IssueIt? && e.mode == ServerCrl && e.cert.ca == ca),
                    if e.SetLifetime? && e.ca == ca then e.days else st.cas[ca].days,
                    if e.DeployWorker? && e.ca == ca then Some(e.script) else if e.TeardownWorker? && e.ca == ca then None
                    else Script(st.cas[ca]))
  {
    GrantedIff(st, e);
    if e.IssueIt? {
      IssuingRows(st, e.id, e.cert, e.mode, e.order, e.reach);
    } else if e.SetLifetime? {
      PublishedKeepsRows(st.(cas := st.cas[e.ca := st.cas[e.ca].(days := e.days)]), e.ca, e.reach);
    } else if RevokesOrPublishes(e) {
      RevokingKeepsRows(st, e);
    }
  }

  /** CAs come by being added and go by being deleted or in a restore; the key, the clock and the process's counter change
      only where they should. */
  lemma TheRestAfter(st: State, e: Event, ca: nat)
    requires Grantable(st, e) && !e.Restore?
    ensures ca in Step(st, e).cas <==> (ca in st.cas && !(e.DeleteCa? && ca in e.tree)) || (e.AddCa? && e.ca == ca)
    ensures e.AddCa? ==> e.ca in Step(st, e).cas && Step(st, e).cas[e.ca] == Ca(false, None, None, 7)
    ensures Step(st, e).unlocked == if e.Unlock? then true else if e.Restart? then !e.locked else st.unlocked
    ensures Step(st, e).now == if e.Clock? then e.now else st.now
  {
    GrantedIff(st, e);
    if e.IssueIt? {
      IssuingRows(st, e.id, e.cert, e.mode, e.order, e.reach);
    } else if e.SetLifetime? {
      PublishedKeepsRows(st.(cas := st.cas[e.ca := st.cas[e.ca].(days := e.days)]), e.ca, e.reach);
    } else if RevokesOrPublishes(e) {
      RevokingKeepsRows(st, e);
    }
    KeyAndClock(st, e);
  }

  // ── What is signed and served, and when ──

  /** The CRLs kept and served are the same. */
  ghost predicate SameCrls(st: State, st': State) {
    st'.remote == st.remote && forall ca <- st.cas :: ca in st'.cas ==> st'.cas[ca].crl == st.cas[ca].crl
  }

  lemma {:induction false} LockedPublishesNone(st: State, order: seq<nat>, reach: set<string>)
    requires !st.unlocked
    ensures PublishedAll(st, order, reach) == st
  {
    if order != [] { LockedPublishesNone(st, order[..|order| - 1], reach); }
  }

  lemma {:induction false} LockedRenewsNone(st: State, order: seq<nat>, reach: set<string>)
    requires !st.unlocked
    ensures var st' := RenewedAll(st, order, reach).1; !st'.unlocked && SameCrls(st, st') && st'.cas.Keys == st.cas.Keys
  {
    if order != [] { LockedRenewsNone(st, order[..|order| - 1], reach); }
  }

  lemma LockedRevokingSignsNothing(st: State, e: Event)
    requires !st.unlocked && (e.PalRemoves? || e.DisconnectPal? || e.Renew?)
    ensures SameCrls(st, Step(st, e))
  {
    match e
    case PalRemoves(device, serials, order, reach) =>
      var removed := Removed(st, device, serials);
      LockedPublishesNone(st.(certs := MarkedAbsent(Revoked(st.certs, Revocable(st.certs, removed)), removed)), order, reach);
    case DisconnectPal(device, revokeCerts, order, reach) =>
      LockedPublishesNone(st.(certs := Revoked(st.certs, {})), order, reach);
    case Renew(order, reach) => LockedRenewsNone(st, order, reach);
  }

  /** While the database is locked nothing is signed and no Worker is touched, whatever is asked for. */
  lemma LockedSignsNothing(st: State, e: Event)
    requires !st.unlocked && !(e.AddCa? && e.ca in st.cas)
    ensures SameCrls(st, Step(st, e))
  {
    if e.PalRemoves? || e.DisconnectPal? || e.Renew? {
      LockedRevokingSignsNothing(st, e);
    } else if e.RevokeIt? || e.SetLifetime? || e.PublishCrl? {
      assert Step(st, e).remote == st.remote;
    }
  }

  /** What takes a Worker out of Cloudflare: tearing it down, deleting it by name, or undoing its own failed deployment. */
  predicate RemovesWorker(st: State, e: Event, script: string) {
    match e
    case TeardownWorker(ca, removed) => Grantable(st, e) && Script(st.cas[ca]) == Some(script)
    case DropWorker(name, removed) => Grantable(st, e) && name == script
    case DeployWorker(ca, name, reached) =>
      ca in st.cas && st.cas[ca].worker.None? && st.unlocked && reached == AfterUpload(true) && name == script
    case _ => false
  }

  lemma {:induction false} PublishedAllServes(st: State, order: seq<nat>, reach: set<string>)
    ensures st.remote.Keys <= PublishedAll(st, order, reach).remote.Keys
  {
    if order != [] { PublishedAllServes(st, order[..|order| - 1], reach); }
  }

  lemma {:induction false} RenewedAllServes(st: State, order: seq<nat>, reach: set<string>)
    ensures st.remote.Keys <= RenewedAll(st, order, reach).1.remote.Keys
  {
    if order != [] { RenewedAllServes(st, order[..|order| - 1], reach); }
  }

  lemma RevokingServes(st: State, e: Event)
    requires e.PalRemoves? || e.DisconnectPal? || e.Renew?
    ensures st.remote.Keys <= Step(st, e).remote.Keys
  {
    match e
    case PalRemoves(device, serials, order, reach) =>
      var removed := Removed(st, device, serials);
      PublishedAllServes(st.(certs := MarkedAbsent(Revoked(st.certs, Revocable(st.certs, removed)), removed)), order, reach);
    case DisconnectPal(device, revokeCerts, order, reach) =>
      var ids := if revokeCerts then Revocable(st.certs, OfDevice(st, device)) else {};
      PublishedAllServes(st.(certs := Revoked(st.certs, ids)), order, reach);
    case Renew(order, reach) => RenewedAllServes(st, order, reach);
  }

  lemma PublishedServes(st: State, ca: nat, reach: set<string>)
    ensures st.remote.Keys <= Published(st, ca, reach).1.remote.Keys
  {
  }

  lemma IssuingServes(st: State, e: Event)
    requires e.IssueIt?
    ensures st.remote.Keys <= Step(st, e).remote.Keys
  {
    var cleared := PublishedAll(Saved(st, e.id, e.cert), e.order, e.reach);
    PublishedAllServes(Saved(st, e.id, e.cert), e.order, e.reach);
    PublishedServes(cleared, e.cert.ca, e.reach);
    if e.cert.ca in cleared.cas {
      PublishedServes(cleared.(cas := cleared.cas[e.cert.ca := cleared.cas[e.cert.ca].(crlPublic := true)]), e.cert.ca, e.reach);
    }
  }

  lemma SingleServes(st: State, e: Event)
    requires e.RevokeIt? || e.SetLifetime? || e.PublishCrl?
    ensures st.remote.Keys <= Step(st, e).remote.Keys
  {
    match e
    case RevokeIt(id, reach) =>
      if Handled(st, e).0.Ok? { PublishedServes(st.(certs := Revoked(st.certs, {id})), st.certs[id].ca, reach); }
    case SetLifetime(ca, days, reach) =>
      if Handled(st, e).0.Ok? { PublishedServes(st.(cas := st.cas[ca := st.cas[ca].(days := days)]), ca, reach); }
    case PublishCrl(ca, reach) => PublishedServes(st, ca, reach);
  }

  /** A Worker serves on through every step but those. */
  lemma WorkerGoesIff(st: State, e: Event, script: string)
    requires script in st.remote
    ensures script !in Step(st, e).remote <==> RemovesWorker(st, e, script)
  {
    if e.PalRemoves? || e.DisconnectPal? || e.Renew? {
      RevokingServes(st, e);
    } else if e.IssueIt? {
      IssuingServes(st, e);
    } else if e.RevokeIt? || e.SetLifetime? || e.PublishCrl? {
      SingleServes(st, e);
    } else if e.DeployWorker? || e.TeardownWorker? || e.DropWorker? {
      GrantedIff(st, e);
    }
  }

  lemma KeyAndClock(st: State, e: Event)
    requires Grantable(st, e) && !e.Restore?
    ensures Step(st, e).unlocked == if e.Unlock? then true else if e.Restart? then !e.locked else st.unlocked
    ensures Step(st, e).now == if e.Clock? then e.now else st.now
    ensures Step(st, e).lastPass == if e.Renew? && st.unlocked then st.now else st.lastPass
    ensures e.Restart? ==> Step(st, e).lastNumber == 0
  {
    GrantedIff(st, e);
    match e
    case RevokeIt(i, reach) => PublishedFrame(st.(certs := Revoked(st.certs, {i})), st.certs[i].ca, reach);
    case PalRemoves(device, serials, order, reach) =>
      var removed := Removed(st, device, serials);
      PublishedAllFrame(st.(certs := MarkedAbsent(Revoked(st.certs, Revocable(st.certs, removed)), removed)), order, reach);
    case DisconnectPal(device, revokeCerts, order, reach) =>
      var ids := if revokeCerts then Revocable(st.certs, OfDevice(st, device)) else {};
      PublishedAllFrame(st.(certs := Revoked(st.certs, ids)), order, reach);
    case IssueIt(i, cert, mode, order, reach) => IssueFrame(st, i, cert, mode, order, reach);
    case SetLifetime(ca, days, reach) => PublishedFrame(st.(cas := st.cas[ca := st.cas[ca].(days := days)]), ca, reach);
    case PublishCrl(ca, reach) => PublishedFrame(st, ca, reach);
    case Renew(order, reach) => RenewedAllFrame(st, order, reach);
    case _ =>
  }

  /** The CA's CRL is signed now, for its lifetime, over all there is to list. */
  ghost predicate IsFresh(st: State, ca: nat) {
    && ca in st.cas && st.cas[ca].crl.Some?
    && var crl := st.cas[ca].crl.value;
       crl.issued == st.now && crl.next == st.now + st.cas[ca].days * DAY && crl.serials == RevokedNow(st, ca)
  }

  /** The CAs whose CRLs an event signs: those of the certificates it revokes; the one it is about; for a new certificate the one
      that issues it, when it is the first to need the Worker or the server serves the CRL; in a pass those at half their life. */
  predicate Concerns(st: State, e: Event, ca: nat) {
    match e
    case RevokeIt(id, _) => id in st.certs && st.certs[id].ca == ca
    case PalRemoves(_, _, order, _) => ca in order
    case DisconnectPal(_, _, order, _) => ca in order
    case IssueIt(_, cert, mode, order, _) => ca in order || (cert.ca == ca && ca in st.cas && NeedsCrl(st.cas[ca], mode))
    case SetLifetime(c, _, _) => c == ca
    case PublishCrl(c, _) => c == ca
    case DeployWorker(c, _, _) => c == ca
    case Renew(order, _) => ca in order && ca in st.cas && Due(st.cas[ca].crl, st.now)
    case _ => false
  }

  predicate NeedsCrl(row: Ca, mode: Mode) {
    mode == ServerCrl || (mode == CloudflareCrl && (row.worker.None? || !row.worker.value.pushed))
  }

  lemma FreshlySigned(st: State, ca: nat, reach: set<string>)
    requires ca in st.cas && Maintained(st.cas[ca]) && st.unlocked
    ensures IsFresh(Published(st, ca, reach).1, ca)
  {
  }

  lemma OtherStays(st: State, other: nat, reach: set<string>, ca: nat)
    requires other != ca && ca in st.cas
    ensures ca in Published(st, other, reach).1.cas && Published(st, other, reach).1.cas[ca] == st.cas[ca]
  {
  }

  lemma StaysFresh(st: State, other: nat, reach: set<string>, ca: nat)
    requires IsFresh(st, ca)
    ensures IsFresh(Published(st, other, reach).1, ca)
  {
    PublishedFrame(st, other, reach);
    if other != ca {
      OtherStays(st, other, reach, ca);
    } else if Maintained(st.cas[ca]) && st.unlocked {
      FreshlySigned(st, ca, reach);
    }
  }

  lemma {:induction false} AllFresh(st: State, order: seq<nat>, reach: set<string>, ca: nat)
    requires st.unlocked && ca in st.cas && Maintained(st.cas[ca]) && ca in order
    ensures IsFresh(PublishedAll(st, order, reach), ca)
  {
    var rest, last := order[..|order| - 1], order[|order| - 1];
    var before := PublishedAll(st, rest, reach);
    PublishedAllFrame(st, rest, reach);
    if last == ca {
      FreshlySigned(before, ca, reach);
    } else {
      AllFresh(st, rest, reach, ca);
      StaysFresh(before, last, reach, ca);
    }
  }

  lemma {:induction false} AllOthersStay(st: State, order: seq<nat>, reach: set<string>, ca: nat)
    requires ca in st.cas && ca !in order
    ensures ca in PublishedAll(st, order, reach).cas && PublishedAll(st, order, reach).cas[ca] == st.cas[ca]
  {
    if order != [] {
      var before := PublishedAll(st, order[..|order| - 1], reach);
      AllOthersStay(st, order[..|order| - 1], reach, ca);
      assert order[|order| - 1] in order;
      OtherStays(before, order[|order| - 1], reach, ca);
    }
  }

  lemma RenewedOne(st: State, other: nat, reach: set<string>, ca: nat)
    requires st.unlocked && ca in st.cas && Maintained(st.cas[ca])
    ensures Renewed(st, other, reach).0
    ensures IsFresh(st, ca) || (other == ca && Due(st.cas[ca].crl, st.now)) ==> IsFresh(Renewed(st, other, reach).1, ca)
    ensures other != ca || !Due(st.cas[ca].crl, st.now) ==>
              ca in Renewed(st, other, reach).1.cas && Renewed(st, other, reach).1.cas[ca].crl == st.cas[ca].crl
  {
    if other in st.cas && Due(st.cas[other].crl, st.now) {
      if other == ca { FreshlySigned(st, ca, reach); } else { OtherStays(st, other, reach, ca); }
      if IsFresh(st, ca) { StaysFresh(st, other, reach, ca); }
    }
  }

  /** A pass signs exactly what is due. */
  lemma {:induction false} PassSigns(st: State, order: seq<nat>, reach: set<string>, ca: nat)
    requires st.unlocked && ca in st.cas && Maintained(st.cas[ca])
    ensures RenewedAll(st, order, reach).0
    ensures var st' := RenewedAll(st, order, reach).1;
            if ca in order && Due(st.cas[ca].crl, st.now) then IsFresh(st', ca) else ca in st'.cas && st'.cas[ca].crl == st.cas[ca].crl
  {
    if order != [] {
      var rest, last := order[..|order| - 1], order[|order| - 1];
      var before := RenewedAll(st, rest, reach).1;
      PassSigns(st, rest, reach, ca);
      RenewedAllFrame(st, rest, reach);
      RenewedOne(before, last, reach, ca);
      assert order == rest + [last];
    }
  }

  /** Whenever a request is granted and the key is loaded, each CA it concerns that keeps a CRL has it signed then. */
  lemma AskedForIsPublished(st: State, e: Event, ca: nat)
    requires Grantable(st, e) && st.unlocked && ca in st.cas && Concerns(st, e, ca)
    requires ca in Step(st, e).cas && Maintained(Step(st, e).cas[ca])
    ensures IsFresh(Step(st, e), ca)
  {
    GrantedIff(st, e);
    match e
    case RevokeIt(id, reach) => FreshlySigned(st.(certs := Revoked(st.certs, {id})), ca, reach);
    case PalRemoves(_, _, _, _) => RevokingSigns(st, e, ca);
    case DisconnectPal(_, _, _, _) => RevokingSigns(st, e, ca);
    case SetLifetime(_, days, reach) => FreshlySigned(st.(cas := st.cas[ca := st.cas[ca].(days := days)]), ca, reach);
    case PublishCrl(_, reach) => FreshlySigned(st, ca, reach);
    case DeployWorker(_, _, _) =>
    case IssueIt(id, cert, mode, order, reach) => IssuingSigns(st, id, cert, mode, order, reach, ca);
    case Renew(order, reach) => RenewedAllFrame(st, order, reach); PassSigns(st, order, reach, ca);
  }

  lemma RevokingSigns(st: State, e: Event, ca: nat)
    requires (e.PalRemoves? || e.DisconnectPal?) && st.unlocked && ca in st.cas && ca in e.order
    requires ca in Step(st, e).cas && Maintained(Step(st, e).cas[ca])
    ensures IsFresh(Step(st, e), ca)
  {
    var revoked := if e.PalRemoves? then MarkedAbsent(Revoked(st.certs, Revocable(st.certs, Removed(st, e.device, e.serials))),
                                                      Removed(st, e.device, e.serials))
                   else Revoked(st.certs, if e.revokeCerts then Revocable(st.certs, OfDevice(st, e.device)) else {});
    var mid := st.(certs := revoked);
    PublishedAllFrame(mid, e.order, e.reach);
    AllFresh(mid, e.order, e.reach, ca);
  }

  lemma IssuingSigns(st: State, id: nat, c: Cert, mode: Mode, order: seq<nat>, reach: set<string>, ca: nat)
    requires c.ca in st.cas && st.unlocked && ca in st.cas && Concerns(st, IssueIt(id, c, mode, order, reach), ca)
    requires var st' := Issue(st, id, c, mode, order, reach).1; ca in st'.cas && Maintained(st'.cas[ca])
    ensures IsFresh(Issue(st, id, c, mode, order, reach).1, ca)
  {
    var saved := Saved(st, id, c);
    var cleared := PublishedAll(saved, order, reach);
    PublishedAllFrame(saved, order, reach);
    var made := if mode == ServerCrl then cleared.(cas := cleared.cas[c.ca := cleared.cas[c.ca].(crlPublic := true)]) else cleared;
    PublishedFrame(made, c.ca, reach);
    if c.ca == ca && NeedsCrl(st.cas[ca], mode) {
      FreshlySigned(made, ca, reach);
    } else if Maintained(saved.cas[ca]) {
      AllFresh(saved, order, reach, ca);
      if c.ca == ca && mode == ServerCrl { FreshlySigned(made, ca, reach); } else { StaysFresh(made, c.ca, reach, ca); }
    }
  }

  lemma RevokingLeaves(st: State, e: Event, ca: nat)
    requires (e.PalRemoves? || e.DisconnectPal? || e.RevokeIt?) && ca in st.cas && !Concerns(st, e, ca)
    ensures ca in Step(st, e).cas && Step(st, e).cas[ca].crl == st.cas[ca].crl
  {
    match e
    case RevokeIt(id, reach) =>
      if id in st.certs { OtherStays(st.(certs := Revoked(st.certs, {id})), st.certs[id].ca, reach, ca); }
    case PalRemoves(device, serials, order, reach) =>
      var removed := Removed(st, device, serials);
      AllOthersStay(st.(certs := MarkedAbsent(Revoked(st.certs, Revocable(st.certs, removed)), removed)), order, reach, ca);
    case DisconnectPal(device, revokeCerts, order, reach) =>
      AllOthersStay(st.(certs := Revoked(st.certs, if revokeCerts then Revocable(st.certs, OfDevice(st, device)) else {})), order, reach, ca);
  }

  lemma QuietStepLeaves(st: State, e: Event, ca: nat)
    requires !RevokesOrPublishes(e) && ca in st.cas && !Concerns(st, e, ca)
    requires ca in Step(st, e).cas && !e.Restore? && !(e.AddCa? && e.ca == ca)
    ensures Step(st, e).cas[ca].crl == st.cas[ca].crl
  {
  }

  /** No other CRL is signed. */
  lemma OthersAreNotSigned(st: State, e: Event, ca: nat)
    requires st.unlocked && ca in st.cas && !Concerns(st, e, ca) && ca in Step(st, e).cas && !e.Restore? && !(e.AddCa? && e.ca == ca)
    requires e.Renew? ==> Maintained(st.cas[ca])
    ensures Step(st, e).cas[ca].crl == st.cas[ca].crl
  {
    if e.PalRemoves? || e.DisconnectPal? || e.RevokeIt? {
      RevokingLeaves(st, e, ca);
    } else if e.IssueIt? {
      IssuingLeaves(st, e.id, e.cert, e.mode, e.order, e.reach, ca);
    } else if e.Renew? {
      PassSigns(st, e.order, e.reach, ca);
    } else if e.SetLifetime? || e.PublishCrl? {
      SettingLeaves(st, e, ca);
    } else {
      QuietStepLeaves(st, e, ca);
    }
  }

  lemma SettingLeaves(st: State, e: Event, ca: nat)
    requires (e.SetLifetime? || e.PublishCrl?) && ca in st.cas && !Concerns(st, e, ca)
    ensures ca in Step(st, e).cas && Step(st, e).cas[ca].crl == st.cas[ca].crl
  {
    match e
    case SetLifetime(c, days, reach) =>
      if c in st.cas { OtherStays(st.(cas := st.cas[c := st.cas[c].(days := days)]), c, reach, ca); }
    case PublishCrl(c, reach) => OtherStays(st, c, reach, ca);
  }

  lemma IssuingLeaves(st: State, id: nat, c: Cert, mode: Mode, order: seq<nat>, reach: set<string>, ca: nat)
    requires ca in st.cas && !Concerns(st, IssueIt(id, c, mode, order, reach), ca)
    ensures ca in Issue(st, id, c, mode, order, reach).1.cas && Issue(st, id, c, mode, order, reach).1.cas[ca].crl == st.cas[ca].crl
  {
    if c.ca in st.cas && st.unlocked {
      var saved := Saved(st, id, c);
      var cleared := PublishedAll(saved, order, reach);
      PublishedAllFrame(saved, order, reach);
      AllOthersStay(saved, order, reach, ca);
      if c.ca != ca {
        OtherStays(cleared, c.ca, reach, ca);
        OtherStays(cleared.(cas := cleared.cas[c.ca := cleared.cas[c.ca].(crlPublic := true)]), c.ca, reach, ca);
      }
    }
  }

  /** How far a deployment gets decides what the new Worker serves and whether the CA is linked to it; the CRL is signed anyway. */
  lemma DeployedServes(st: State, ca: nat, script: string, reached: Reached)
    requires ca in st.cas && st.cas[ca].worker.None? && st.unlocked
    ensures var st' := Deploy(st, ca, script, reached).1;
            && IsFresh(st', ca)
            && st'.cas[ca].worker == (if reached.Done? then Some(Worker(script, true, false)) else None)
            && st'.remote == (if reached.BeforeUpload? then st.remote
                              else if reached == AfterUpload(true) then st.remote - {script}
                              else st.remote[script := st'.cas[ca].crl.value])
  {
  }

  // ── CRL numbers ──

  /** A CRL is either the one the CA had, or numbered above every number given out before. */
  ghost predicate NumberedAnew(st: State, st': State, ca: nat)
    requires ca in st'.cas
  {
    var crl := st'.cas[ca].crl;
    crl.Some? ==> (ca in st.cas && crl == st.cas[ca].crl) || st.lastNumber < crl.value.number <= st'.lastNumber
  }

  ghost predicate NumbersGrow(st: State, st': State) {
    st.lastNumber <= st'.lastNumber && forall ca <- st'.cas :: NumberedAnew(st, st', ca)
  }

  lemma GrowthComposes(a: State, b: State, c: State)
    requires NumbersGrow(a, b) && NumbersGrow(b, c)
    ensures NumbersGrow(a, c)
  {
    forall ca <- c.cas ensures NumberedAnew(a, c, ca) {
      assert NumberedAnew(b, c, ca);
      assert ca in b.cas ==> NumberedAnew(a, b, ca);
    }
  }

  /** Whatever the clock reads. */
  lemma SigningGrows(st: State, ca: nat)
    requires ca in st.cas
    ensures NumbersGrow(st, Signed(st, ca))
  {
  }

  lemma PushingGrows(st: State, ca: nat, reach: set<string>)
    requires ca in st.cas
    ensures NumbersGrow(st, Pushed(st, ca, reach))
  {
  }

  lemma PublishingGrows(st: State, ca: nat, reach: set<string>)
    ensures NumbersGrow(st, Published(st, ca, reach).1)
  {
    if ca in st.cas {
      SigningGrows(st, ca);
      PushingGrows(Signed(st, ca), ca, reach);
      GrowthComposes(st, Signed(st, ca), Pushed(Signed(st, ca), ca, reach));
    }
  }

  lemma {:induction false} PublishingAllGrows(st: State, order: seq<nat>, reach: set<string>)
    ensures NumbersGrow(st, PublishedAll(st, order, reach))
  {
    if order != [] {
      var before := PublishedAll(st, order[..|order| - 1], reach);
      PublishingAllGrows(st, order[..|order| - 1], reach);
      PublishingGrows(before, order[|order| - 1], reach);
      GrowthComposes(st, before, Published(before, order[|order| - 1], reach).1);
    }
  }

  lemma {:induction false} RenewingAllGrows(st: State, order: seq<nat>, reach: set<string>)
    ensures NumbersGrow(st, RenewedAll(st, order, reach).1)
  {
    if order != [] {
      var (on, before) := RenewedAll(st, order[..|order| - 1], reach);
      RenewingAllGrows(st, order[..|order| - 1], reach);
      if on {
        PublishingGrows(before, order[|order| - 1], reach);
        if order[|order| - 1] in before.cas { PushingGrows(before, order[|order| - 1], reach); }
        GrowthComposes(st, before, Renewed(before, order[|order| - 1], reach).1);
      }
    }
  }

  lemma IssuingGrows(st: State, id: nat, c: Cert, mode: Mode, order: seq<nat>, reach: set<string>)
    ensures NumbersGrow(st, Issue(st, id, c, mode, order, reach).1)
  {
    var saved := Saved(st, id, c);
    var cleared := PublishedAll(saved, order, reach);
    PublishingAllGrows(saved, order, reach);
    GrowthComposes(st, saved, cleared);
    PublishingGrows(cleared, c.ca, reach);
    GrowthComposes(st, cleared, Published(cleared, c.ca, reach).1);
    if c.ca in cleared.cas {
      var opted := cleared.(cas := cleared.cas[c.ca := cleared.cas[c.ca].(crlPublic := true)]);
      PublishingGrows(opted, c.ca, reach);
      GrowthComposes(st, cleared, opted);
      GrowthComposes(st, opted, Published(opted, c.ca, reach).1);
    }
  }

  lemma DeployingGrows(st: State, ca: nat, script: string, reached: Reached)
    ensures NumbersGrow(st, Deploy(st, ca, script, reached).1)
  {
  }

  lemma RevokingGrows(st: State, certs: map<nat, Cert>, order: seq<nat>, reach: set<string>)
    ensures NumbersGrow(st, PublishedAll(st.(certs := certs), order, reach))
  {
    PublishingAllGrows(st.(certs := certs), order, reach);
    GrowthComposes(st, st.(certs := certs), PublishedAll(st.(certs := certs), order, reach));
  }

  lemma ChangingGrows(st: State, mid: State, ca: nat, reach: set<string>)
    requires NumbersGrow(st, mid)
    ensures NumbersGrow(st, Published(mid, ca, reach).1)
  {
    PublishingGrows(mid, ca, reach);
    GrowthComposes(st, mid, Published(mid, ca, reach).1);
  }

  /** Steps that sign nothing. */
  lemma QuietStepGrows(st: State, e: Event)
    requires e.DeleteIt? || e.TeardownWorker? || e.DropWorker? || e.AddCa? || e.DeleteCa? || e.Audit? || e.Clock? || e.Unlock?
    ensures NumbersGrow(st, Step(st, e))
  {
  }

  lemma StepGrows(st: State, e: Event)
    requires !e.Restart? && !e.Restore?
    ensures NumbersGrow(st, Step(st, e))
  {
    match e
    case RevokeIt(id, reach) =>
      if Handled(st, e).0.Ok? { ChangingGrows(st, st.(certs := Revoked(st.certs, {id})), st.certs[id].ca, reach); }
    case PalRemoves(device, serials, order, reach) =>
      var removed := Removed(st, device, serials);
      RevokingGrows(st, MarkedAbsent(Revoked(st.certs, Revocable(st.certs, removed)), removed), order, reach);
    case DisconnectPal(device, revokeCerts, order, reach) =>
      var certs := if revokeCerts then Revocable(st.certs, OfDevice(st, device)) else {};
      RevokingGrows(st, Revoked(st.certs, certs), order, reach);
    case IssueIt(id, cert, mode, order, reach) => IssuingGrows(st, id, cert, mode, order, reach);
    case SetLifetime(ca, days, reach) =>
      if Handled(st, e).0.Ok? { ChangingGrows(st, st.(cas := st.cas[ca := st.cas[ca].(days := days)]), ca, reach); }
    case PublishCrl(ca, reach) => PublishingGrows(st, ca, reach);
    case DeployWorker(ca, script, reached) => DeployingGrows(st, ca, script, reached);
    case Renew(order, reach) => RenewingAllGrows(st, order, reach);
    case _ => QuietStepGrows(st, e);
  }

  /** The CRL came with a backup. */
  predicate CameBack(events: seq<Event>, ca: nat, crl: Crl) {
    exists e <- events :: e.Restore? && ca in e.backup.cas && e.backup.cas[ca].crl == Some(crl)
  }

  lemma {:induction false} RunGrows(st: State, events: seq<Event>, ca: nat)
    requires forall e <- events :: !e.Restart?
    ensures var st' := Run(st, events);
            st.lastNumber <= st'.lastNumber &&
            (ca in st'.cas ==> NumberedAnew(st, st', ca) || CameBack(events, ca, st'.cas[ca].crl.value))
  {
    if events != [] {
      var rest, e := events[..|events| - 1], events[|events| - 1];
      var before, after := Run(st, rest), Run(st, events);
      RunGrows(st, rest, ca);
      assert e in events && forall f <- rest :: f in events;
      if !e.Restore? {
        StepGrows(before, e);
        assert ca in after.cas ==> NumberedAnew(before, after, ca);
      }
    }
  }

  /** Within one process, however the clock moves, a CA's later CRL is the same one or has a greater number, unless one of
      them came back with a backup. */
  lemma LaterCrlsHaveGreaterNumbers(before: seq<Event>, after: seq<Event>, ca: nat)
    requires forall e <- before + after :: !e.Restart?
    requires var a := Run(EMPTY, before); ca in a.cas && a.cas[ca].crl.Some?
    requires var b := Run(Run(EMPTY, before), after); ca in b.cas && b.cas[ca].crl.Some?
    ensures var a, b := Run(EMPTY, before).cas[ca].crl.value, Run(Run(EMPTY, before), after).cas[ca].crl.value;
            a == b || a.number < b.number || CameBack(before, ca, a) || CameBack(after, ca, b)
  {
    forall e <- before ensures !e.Restart? { assert e in before + after; }
    forall e <- after ensures !e.Restart? { assert e in before + after; }
    RunGrows(EMPTY, before, ca);
    RunGrows(Run(EMPTY, before), after, ca);
  }

  // ── A revocation is never forgotten ──

  predicate IsRevoked(c: Cert, ca: nat, serial: string, expiry: int) {
    c.revoked && c.ca == ca && c.serial == serial && c.notAfter == expiry
  }

  ghost predicate Remembered(st: State, ca: nat, serial: string, expiry: int) {
    || (exists id :: id in st.certs && IsRevoked(st.certs[id], ca, serial, expiry))
    || ((ca, serial) in st.deleted && st.deleted[(ca, serial)] == expiry)
  }

  /** No certificate lost, none made valid again. */
  ghost predicate CertsKept(st: State, st': State) {
    && st'.deleted == st.deleted
    && forall id <- st.certs :: id in st'.certs && var (c, c') := (st.certs[id], st'.certs[id]);
         c'.ca == c.ca && c'.serial == c.serial && c'.notAfter == c.notAfter && (c.revoked ==> c'.revoked)
  }

  lemma KeptIsRemembered(st: State, st': State, ca: nat, serial: string, expiry: int)
    requires CertsKept(st, st') && Remembered(st, ca, serial, expiry)
    ensures Remembered(st', ca, serial, expiry)
  {
    if (ca, serial) !in st.deleted || st.deleted[(ca, serial)] != expiry {
      var id :| id in st.certs && IsRevoked(st.certs[id], ca, serial, expiry);
      assert IsRevoked(st'.certs[id], ca, serial, expiry);
    }
  }

  lemma IssueKeepsCerts(st: State, id: nat, c: Cert, mode: Mode, order: seq<nat>, reach: set<string>)
    requires id !in st.certs
    ensures CertsKept(st, Issue(st, id, c, mode, order, reach).1)
  {
    var saved := Saved(st, id, c);
    var cleared := PublishedAll(saved, order, reach);
    PublishedAllFrame(saved, order, reach);
    assert CertsKept(st, cleared);
    PublishingKeepsCerts(st, cleared, c.ca, reach);
    if c.ca in cleared.cas {
      PublishingKeepsCerts(st, cleared.(cas := cleared.cas[c.ca := cleared.cas[c.ca].(crlPublic := true)]), c.ca, reach);
    }
  }

  lemma RevokeOwnKeepsCerts(st: State, device: string, serials: set<string>, order: seq<nat>, reach: set<string>)
    ensures CertsKept(st, RevokeOwn(st, device, serials, order, reach).1)
  {
    var removed := Removed(st, device, serials);
    PublishedAllFrame(st.(certs := MarkedAbsent(Revoked(st.certs, Revocable(st.certs, removed)), removed)), order, reach);
  }

  lemma DisconnectKeepsCerts(st: State, device: string, revokeCerts: bool, order: seq<nat>, reach: set<string>)
    ensures CertsKept(st, Disconnect(st, device, revokeCerts, order, reach).1)
  {
    var certs := if revokeCerts then Revocable(st.certs, OfDevice(st, device)) else {};
    PublishedAllFrame(st.(certs := Revoked(st.certs, certs)), order, reach);
  }

  lemma PublishingKeepsCerts(st: State, mid: State, ca: nat, reach: set<string>)
    requires CertsKept(st, mid)
    ensures CertsKept(st, Published(mid, ca, reach).1)
  {
    PublishedFrame(mid, ca, reach);
  }

  lemma RevokeCertKeepsCerts(st: State, id: nat, reach: set<string>)
    ensures CertsKept(st, RevokeCert(st, id, reach).1)
  {
    if RevokeCert(st, id, reach).0.Ok? {
      PublishingKeepsCerts(st, st.(certs := Revoked(st.certs, {id})), st.certs[id].ca, reach);
    }
  }

  lemma SetDaysKeepsCerts(st: State, ca: nat, days: int, reach: set<string>)
    ensures CertsKept(st, SetDays(st, ca, days, reach).1)
  {
    if SetDays(st, ca, days, reach).0.Ok? {
      PublishingKeepsCerts(st, st.(cas := st.cas[ca := st.cas[ca].(days := days)]), ca, reach);
    }
  }

  predicate RevokesOrPublishes(e: Event) {
    e.RevokeIt? || e.PalRemoves? || e.DisconnectPal? || e.IssueIt? || e.SetLifetime? || e.PublishCrl? || e.Renew?
  }

  lemma StepKeepsCerts(st: State, e: Event)
    requires CanHappen(st, e) && Inv(st) && RevokesOrPublishes(e)
    ensures CertsKept(st, Step(st, e))
  {
    match e
    case RevokeIt(id, reach) => RevokeCertKeepsCerts(st, id, reach);
    case PalRemoves(device, serials, order, reach) => RevokeOwnKeepsCerts(st, device, serials, order, reach);
    case DisconnectPal(device, revokeCerts, order, reach) => DisconnectKeepsCerts(st, device, revokeCerts, order, reach);
    case IssueIt(id, cert, mode, order, reach) => IssueKeepsCerts(st, id, cert, mode, order, reach);
    case SetLifetime(ca, days, reach) => SetDaysKeepsCerts(st, ca, days, reach);
    case PublishCrl(ca, reach) => PublishingKeepsCerts(st, st, ca, reach);
    case Renew(order, reach) => RenewedAllKeepsInv(st, order, reach);
  }

  lemma OtherStepsKeepCerts(st: State, e: Event)
    requires !RevokesOrPublishes(e) && !e.DeleteIt? && !e.DeleteCa? && !e.Restore?
    ensures CertsKept(st, Step(st, e))
  {
    if e.DeployWorker? {
      assert Step(st, e).certs == st.certs && Step(st, e).deleted == st.deleted;
    } else if e.TeardownWorker? {
      assert Step(st, e).certs == st.certs && Step(st, e).deleted == st.deleted;
    }
  }

  lemma DeletingRemembers(st: State, id: nat, ca: nat, serial: string, expiry: int)
    requires Inv(st) && Remembered(st, ca, serial, expiry)
    ensures Remembered(DeleteCert(st, id).1, ca, serial, expiry)
  {
    if (ca, serial) !in st.deleted || st.deleted[(ca, serial)] != expiry {
      var held :| held in st.certs && IsRevoked(st.certs[held], ca, serial, expiry);
      if held != id {
        assert IsRevoked(DeleteCert(st, id).1.certs[held], ca, serial, expiry);
      }
    }
  }

  lemma DeletingOthersRemembers(st: State, tree: set<nat>, ca: nat, serial: string, expiry: int)
    requires Remembered(st, ca, serial, expiry) && ca !in tree
    ensures Remembered(DeleteCas(st, tree).1, ca, serial, expiry)
  {
    var st' := DeleteCas(st, tree).1;
    if st' != st && ((ca, serial) !in st.deleted || st.deleted[(ca, serial)] != expiry) {
      var id :| id in st.certs && IsRevoked(st.certs[id], ca, serial, expiry);
      assert IsRevoked(st'.certs[id], ca, serial, expiry);
    }
  }

  /** A restore remembers exactly what the backup does. */
  lemma RestoreRemembersIff(st: State, backup: State, ca: nat, serial: string, expiry: int)
    requires st.unlocked
    ensures Remembered(Restored(st, backup).1, ca, serial, expiry) <==> Remembered(backup, ca, serial, expiry)
  {
    var st' := Restored(st, backup).1;
    forall id <- backup.certs
      ensures IsRevoked(st'.certs[id], ca, serial, expiry) <==> IsRevoked(backup.certs[id], ca, serial, expiry)
    {
    }
  }

  /** It does not take the CA away, nor back to before the revocation. */
  predicate Spares(e: Event, ca: nat, serial: string, expiry: int) {
    match e
    case DeleteCa(tree) => ca !in tree
    case Restore(backup) => InBackup(backup, ca, serial, expiry)
    case _ => true
  }

  predicate InBackup(b: State, ca: nat, serial: string, expiry: int) {
    || (exists id <- b.certs :: IsRevoked(b.certs[id], ca, serial, expiry))
    || ((ca, serial) in b.deleted && b.deleted[(ca, serial)] == expiry)
  }

  lemma StepRemembers(st: State, e: Event, ca: nat, serial: string, expiry: int)
    requires Inv(st) && CanHappen(st, e) && Remembered(st, ca, serial, expiry) && Spares(e, ca, serial, expiry)
    ensures Remembered(Step(st, e), ca, serial, expiry)
  {
    match e
    case DeleteIt(id) => DeletingRemembers(st, id, ca, serial, expiry);
    case DeleteCa(tree) => DeletingOthersRemembers(st, tree, ca, serial, expiry);
    case Restore(backup) => if st.unlocked { RestoreRemembersIff(st, backup, ca, serial, expiry); }
    case _ =>
      MostStepsKeepCerts(st, e);
      KeptIsRemembered(st, Step(st, e), ca, serial, expiry);
  }

  lemma MostStepsKeepCerts(st: State, e: Event)
    requires Inv(st) && CanHappen(st, e) && !e.DeleteIt? && !e.DeleteCa? && !e.Restore?
    ensures CertsKept(st, Step(st, e))
  {
    if RevokesOrPublishes(e) { StepKeepsCerts(st, e); } else { OtherStepsKeepCerts(st, e); }
  }

  /** From every reachable state, through every run that keeps its CA and restores no backup from before the revocation, a
      revoked serial stays on the list until the certificate expires, and on the CRL the app publishes for that CA. */
  lemma {:induction false} RevocationPersists(st: State, events: seq<Event>, ca: nat, serial: string, expiry: int)
    requires Inv(st) && Feasible(st, events) && Remembered(st, ca, serial, expiry)
    requires forall e <- events :: Spares(e, ca, serial, expiry)
    ensures var st' := Run(st, events);
            && Remembered(st', ca, serial, expiry)
            && (st'.now < expiry ==> serial in RevokedNow(st', ca))
            && (st'.now < expiry && ca in st'.cas && Maintained(st'.cas[ca]) ==>
                  st'.cas[ca].crl.Some? && serial in st'.cas[ca].crl.value.serials)
  {
    var st' := Run(st, events);
    if events != [] {
      var rest, e := events[..|events| - 1], events[|events| - 1];
      RevocationPersists(st, rest, ca, serial, expiry);
      RunKeepsInv(st, rest);
      assert e in events;
      StepRemembers(Run(st, rest), e, ca, serial, expiry);
    }
    RunKeepsInv(st, events);
    if st'.now < expiry { RememberedIsListed(st', ca, serial, expiry); }
    if ca in st'.cas { assert GoodCa(st', ca, {}); }
  }

  lemma RememberedIsListed(st: State, ca: nat, serial: string, expiry: int)
    requires Remembered(st, ca, serial, expiry) && st.now < expiry
    ensures serial in RevokedNow(st, ca)
  {
    if (ca, serial) !in st.deleted || st.deleted[(ca, serial)] != expiry {
      var id :| id in st.certs && IsRevoked(st.certs[id], ca, serial, expiry);
      assert st.certs[id].serial == serial;
    } else {
      assert (ca, serial).1 == serial;
    }
  }

  // ── Nothing else is published as revoked ──

  /** A certificate of the CA with this serial is revoked, or was when it was deleted. */
  predicate OnRecord(st: State, ca: nat, serial: string) {
    (exists id <- st.certs :: st.certs[id].ca == ca && st.certs[id].serial == serial && st.certs[id].revoked)
    || (ca, serial) in st.deleted
  }

  ghost predicate SoundCrl(st: State, ca: nat)
    requires ca in st.cas
  {
    st.cas[ca].crl.Some? ==> forall serial <- st.cas[ca].crl.value.serials :: OnRecord(st, ca, serial)
  }

  ghost predicate SoundCrls(st: State) {
    forall ca <- st.cas :: SoundCrl(st, ca)
  }

  /** No CRL is new, and what was on record for a CA still is. */
  ghost predicate OnlyMoreRecord(st: State, st': State) {
    && (forall ca <- st'.cas :: st'.cas[ca].crl.Some? ==> ca in st.cas && st'.cas[ca].crl == st.cas[ca].crl)
    && forall ca, serial :: ca in st'.cas && OnRecord(st, ca, serial) ==> OnRecord(st', ca, serial)
  }

  lemma MoreRecordIsSound(st: State, st': State)
    requires SoundCrls(st) && OnlyMoreRecord(st, st')
    ensures SoundCrls(st')
  {
    forall ca <- st'.cas ensures SoundCrl(st', ca) {
      assert ca in st.cas ==> SoundCrl(st, ca);
    }
  }

  lemma SignedIsSound(st: State, ca: nat)
    requires SoundCrls(st) && ca in st.cas
    ensures SoundCrls(Signed(st, ca))
  {
    var st' := Signed(st, ca);
    forall c <- st'.cas ensures SoundCrl(st', c) {
      assert SoundCrl(st, c);
      SameRecord(st, st');
    }
  }

  lemma SameRecord(st: State, st': State)
    requires st'.certs == st.certs && st'.deleted == st.deleted
    ensures forall ca, serial :: OnRecord(st', ca, serial) == OnRecord(st, ca, serial)
  {
  }

  lemma PushedIsSound(st: State, ca: nat, reach: set<string>)
    requires SoundCrls(st) && ca in st.cas
    ensures SoundCrls(Pushed(st, ca, reach))
  {
    SameRecord(st, Pushed(st, ca, reach));
    MoreRecordIsSound(st, Pushed(st, ca, reach));
  }

  lemma PublishedIsSound(st: State, ca: nat, reach: set<string>)
    requires SoundCrls(st)
    ensures SoundCrls(Published(st, ca, reach).1)
  {
    if ca in st.cas {
      SignedIsSound(st, ca);
      PushedIsSound(Signed(st, ca), ca, reach);
    }
  }

  lemma {:induction false} PublishedAllIsSound(st: State, order: seq<nat>, reach: set<string>)
    requires SoundCrls(st)
    ensures SoundCrls(PublishedAll(st, order, reach))
  {
    if order != [] {
      PublishedAllIsSound(st, order[..|order| - 1], reach);
      PublishedIsSound(PublishedAll(st, order[..|order| - 1], reach), order[|order| - 1], reach);
    }
  }

  lemma {:induction false} RenewedAllIsSound(st: State, order: seq<nat>, reach: set<string>)
    requires SoundCrls(st)
    ensures SoundCrls(RenewedAll(st, order, reach).1)
  {
    if order != [] {
      var before, ca := RenewedAll(st, order[..|order| - 1], reach).1, order[|order| - 1];
      RenewedAllIsSound(st, order[..|order| - 1], reach);
      PublishedIsSound(before, ca, reach);
      if ca in before.cas { PushedIsSound(before, ca, reach); }
    }
  }

  /** Revoking more, and marking what is gone, puts more on record and signs nothing. */
  lemma CertsChangeIsSound(st: State, certs: map<nat, Cert>)
    requires SoundCrls(st) && CertsKept(st, st.(certs := certs))
    ensures SoundCrls(st.(certs := certs))
  {
    var st' := st.(certs := certs);
    forall ca, serial | ca in st'.cas && OnRecord(st, ca, serial) ensures OnRecord(st', ca, serial) {
      if (ca, serial) !in st.deleted {
        var id :| id in st.certs && st.certs[id].ca == ca && st.certs[id].serial == serial && st.certs[id].revoked;
        assert st'.certs[id].revoked;
      }
    }
    MoreRecordIsSound(st, st');
  }

  lemma RowChangeIsSound(st: State, ca: nat, row: Ca)
    requires SoundCrls(st) && ca in st.cas && row.crl == st.cas[ca].crl
    ensures SoundCrls(st.(cas := st.cas[ca := row]))
  {
    SameRecord(st, st.(cas := st.cas[ca := row]));
    MoreRecordIsSound(st, st.(cas := st.cas[ca := row]));
  }

  lemma IssuedIsSound(st: State, id: nat, c: Cert, mode: Mode, order: seq<nat>, reach: set<string>)
    requires SoundCrls(st) && id !in st.certs
    ensures SoundCrls(Issue(st, id, c, mode, order, reach).1)
  {
    var saved := Saved(st, id, c);
    CertsChangeIsSound(st, saved.certs);
    SameRecord(st.(certs := saved.certs), saved);
    MoreRecordIsSound(st.(certs := saved.certs), saved);
    var cleared := PublishedAll(saved, order, reach);
    PublishedAllIsSound(saved, order, reach);
    PublishedIsSound(cleared, c.ca, reach);
    if c.ca in cleared.cas {
      RowChangeIsSound(cleared, c.ca, cleared.cas[c.ca].(crlPublic := true));
      PublishedIsSound(cleared.(cas := cleared.cas[c.ca := cleared.cas[c.ca].(crlPublic := true)]), c.ca, reach);
    }
  }

  lemma DeployedIsSound(st: State, ca: nat, script: string, reached: Reached)
    requires SoundCrls(st)
    ensures SoundCrls(Deploy(st, ca, script, reached).1)
  {
    if ca in st.cas {
      var mid := st.(usedScripts := st.usedScripts + {script});
      SameRecord(st, mid);
      MoreRecordIsSound(st, mid);
      SignedIsSound(mid, ca);
      SameRecord(Signed(mid, ca), Deploy(st, ca, script, reached).1);
      if st.cas[ca].worker.None? && st.unlocked { MoreRecordIsSound(Signed(mid, ca), Deploy(st, ca, script, reached).1); }
    }
  }

  lemma DeletedIsSound(st: State, id: nat)
    requires SoundCrls(st)
    ensures SoundCrls(DeleteCert(st, id).1)
  {
    var st' := DeleteCert(st, id).1;
    forall ca, serial | ca in st'.cas && OnRecord(st, ca, serial) ensures OnRecord(st', ca, serial) {
      if (ca, serial) !in st.deleted {
        var held :| held in st.certs && st.certs[held].ca == ca && st.certs[held].serial == serial && st.certs[held].revoked;
        assert held != id ==> held in st'.certs && st'.certs[held] == st.certs[held];
      }
    }
    MoreRecordIsSound(st, st');
  }

  lemma DeletedCasAreSound(st: State, ids: set<nat>)
    requires SoundCrls(st)
    ensures SoundCrls(DeleteCas(st, ids).1)
  {
    var st' := DeleteCas(st, ids).1;
    if st' != st {
      forall ca, serial | ca in st'.cas && OnRecord(st, ca, serial) ensures OnRecord(st', ca, serial) {
        if (ca, serial) !in st.deleted {
          var held :| held in st.certs && st.certs[held].ca == ca && st.certs[held].serial == serial && st.certs[held].revoked;
          assert st'.certs[held] == st.certs[held];
        }
      }
      MoreRecordIsSound(st, st');
    }
  }

  lemma RestoredIsSound(st: State, backup: State)
    requires SoundCrls(st) && GoodBackup(backup)
    ensures SoundCrls(Restored(st, backup).1)
  {
    var st' := Restored(st, backup).1;
    if st.unlocked {
      forall ca: nat, serial | OnRecord(backup, ca, serial) ensures OnRecord(st', ca, serial) {
        if (ca, serial) !in backup.deleted {
          var held :| held in backup.certs && backup.certs[held].ca == ca && backup.certs[held].serial == serial && backup.certs[held].revoked;
          assert st'.certs[held].revoked;
        }
      }
      MoreRecordIsSound(backup, st');
    }
  }

  /** Steps that leave the CRLs and what is on record alone. */
  lemma QuietStepIsSound(st: State, e: Event)
    requires SoundCrls(st) && (e.TeardownWorker? || e.DropWorker? || e.AddCa? || e.Clock? || e.Unlock? || e.Restart?)
    ensures SoundCrls(Step(st, e))
  {
    SameRecord(st, Step(st, e));
    MoreRecordIsSound(st, Step(st, e));
  }

  lemma RevokingIsSound(st: State, ids: set<nat>, absent: set<nat>)
    requires SoundCrls(st)
    ensures SoundCrls(st.(certs := MarkedAbsent(Revoked(st.certs, ids), absent)))
    ensures SoundCrls(st.(certs := Revoked(st.certs, ids)))
  {
    CertsChangeIsSound(st, MarkedAbsent(Revoked(st.certs, ids), absent));
    CertsChangeIsSound(st, Revoked(st.certs, ids));
  }

  /** Steps that revoke first and then publish. */
  lemma RevokingStepIsSound(st: State, e: Event)
    requires SoundCrls(st) && (e.RevokeIt? || e.PalRemoves? || e.DisconnectPal?)
    ensures SoundCrls(Step(st, e))
  {
    match e
    case RevokeIt(id, reach) =>
      if Handled(st, e).0.Ok? {
        RevokingIsSound(st, {id}, {});
        PublishedIsSound(st.(certs := Revoked(st.certs, {id})), st.certs[id].ca, reach);
      }
    case PalRemoves(device, serials, order, reach) =>
      var removed := Removed(st, device, serials);
      var ids := Revocable(st.certs, removed);
      RevokingIsSound(st, ids, removed);
      PublishedAllIsSound(st.(certs := MarkedAbsent(Revoked(st.certs, ids), removed)), order, reach);
    case DisconnectPal(device, revokeCerts, order, reach) =>
      var ids := if revokeCerts then Revocable(st.certs, OfDevice(st, device)) else {};
      RevokingIsSound(st, ids, {});
      PublishedAllIsSound(st.(certs := Revoked(st.certs, ids)), order, reach);
  }

  lemma LifetimeIsSound(st: State, ca: nat, days: int, reach: set<string>)
    requires SoundCrls(st)
    ensures SoundCrls(SetDays(st, ca, days, reach).1)
  {
    if ca in st.cas {
      RowChangeIsSound(st, ca, st.cas[ca].(days := days));
      PublishedIsSound(st.(cas := st.cas[ca := st.cas[ca].(days := days)]), ca, reach);
    }
  }

  lemma StepIsSound(st: State, e: Event)
    requires SoundCrls(st) && CanHappen(st, e)
    ensures SoundCrls(Step(st, e))
  {
    match e
    case RevokeIt(_, _) => RevokingStepIsSound(st, e);
    case PalRemoves(_, _, _, _) => RevokingStepIsSound(st, e);
    case DisconnectPal(_, _, _, _) => RevokingStepIsSound(st, e);
    case DeleteIt(id) => DeletedIsSound(st, id);
    case IssueIt(id, cert, mode, order, reach) => IssuedIsSound(st, id, cert, mode, order, reach);
    case SetLifetime(ca, days, reach) => LifetimeIsSound(st, ca, days, reach);
    case PublishCrl(ca, reach) => PublishedIsSound(st, ca, reach);
    case DeployWorker(ca, script, reached) => DeployedIsSound(st, ca, script, reached);
    case DeleteCa(tree) => DeletedCasAreSound(st, tree);
    case Audit(found) => CertsChangeIsSound(st, Audited(st.certs, found));
    case Renew(order, reach) => RenewedSound(st, order, reach);
    case Restore(backup) => RestoredIsSound(st, backup);
    case _ => QuietStepIsSound(st, e);
  }

  lemma RenewedSound(st: State, order: seq<nat>, reach: set<string>)
    requires SoundCrls(st)
    ensures SoundCrls(RenewDue(st, order, reach))
  {
    RenewedAllIsSound(st, order, reach);
    SameRecord(RenewedAll(st, order, reach).1, RenewDue(st, order, reach));
    MoreRecordIsSound(RenewedAll(st, order, reach).1, RenewDue(st, order, reach));
  }

  lemma {:induction false} RunIsSound(st: State, events: seq<Event>)
    requires SoundCrls(st) && Feasible(st, events)
    ensures SoundCrls(Run(st, events))
  {
    if events != [] {
      RunIsSound(st, events[..|events| - 1]);
      StepIsSound(Run(st, events[..|events| - 1]), events[|events| - 1]);
    }
  }

  /** In every run, restores included, each serial on a stored CRL is remembered as revoked for its CA; so no certificate that
      is not revoked is on any CRL, nor on what a Worker in step serves. */
  lemma OnlyRevokedIsPublished(events: seq<Event>, ca: nat, serial: string)
    requires Feasible(EMPTY, events) && ca in Run(EMPTY, events).cas
    ensures var (st, row) := (Run(EMPTY, events), Run(EMPTY, events).cas[ca]);
            && (row.crl.Some? && serial in row.crl.value.serials ==>
                  (exists expiry :: Remembered(st, ca, serial, expiry))
                  && forall id <- st.certs :: st.certs[id].serial == serial ==> st.certs[id].revoked && st.certs[id].ca == ca)
            && (row.worker.Some? && !row.worker.value.pushError && InStep(row, st.remote)
                && serial in st.remote[row.worker.value.script].serials ==>
                  forall id <- st.certs :: st.certs[id].serial == serial ==> st.certs[id].revoked && st.certs[id].ca == ca)
  {
    var st := Run(EMPTY, events);
    RunIsSound(EMPTY, events);
    RunKeepsInv(EMPTY, events);
    assert SoundCrl(st, ca);
    if OnRecord(st, ca, serial) { RecordIsRemembered(st, ca, serial); }
  }

  lemma RecordIsRemembered(st: State, ca: nat, serial: string)
    requires OnRecord(st, ca, serial) && GoodSerials(st)
    ensures exists expiry :: Remembered(st, ca, serial, expiry)
    ensures forall id <- st.certs :: st.certs[id].serial == serial ==> st.certs[id].revoked && st.certs[id].ca == ca
  {
    if (ca, serial) in st.deleted {
      assert Remembered(st, ca, serial, st.deleted[(ca, serial)]);
      assert (ca, serial).1 == serial;
    } else {
      var id :| id in st.certs && st.certs[id].ca == ca && st.certs[id].serial == serial && st.certs[id].revoked;
      assert IsRevoked(st.certs[id], ca, serial, st.certs[id].notAfter);
      assert Remembered(st, ca, serial, st.certs[id].notAfter);
    }
  }

  /** Right after a CRL is published it lists a serial exactly when a revoked certificate of the CA carries it, or one did that
      was deleted and would not have expired; it is dated now, for the CA's lifetime, and on the Worker if that was reached. */
  lemma PublishedListsExactly(st: State, ca: nat, reach: set<string>, serial: string)
    requires ca in st.cas && Maintained(st.cas[ca]) && st.unlocked
    ensures var (r, st') := Published(st, ca, reach);
            && r.Ok? && ca in st'.cas && st'.cas[ca].crl.Some?
            && var crl := st'.cas[ca].crl.value;
               && (serial in crl.serials <==>
                     || (exists id <- st.certs :: st.certs[id].ca == ca && st.certs[id].revoked && st.certs[id].serial == serial)
                     || ((ca, serial) in st.deleted && st.now < st.deleted[(ca, serial)]))
               && crl.issued == st.now && crl.next == st.now + st.cas[ca].days * DAY
               && (st.cas[ca].worker.Some? ==>
                     var script := st.cas[ca].worker.value.script;
                     if script in reach then script in st'.remote && st'.remote[script] == crl
                     else st'.remote == st.remote && st'.cas[ca].worker.value.pushError)
  {
    assert (ca, serial).1 == serial;
  }

  /** Every way to revoke ends up remembered: once a certificate's row is revoked, its serial is. */
  lemma RevokingIsRemembered(st: State, id: nat, reach: set<string>)
    requires RevokeCert(st, id, reach).0.Ok?
    ensures var c := st.certs[id]; Remembered(RevokeCert(st, id, reach).1, c.ca, c.serial, c.notAfter)
  {
    var c := st.certs[id];
    PublishedFrame(st.(certs := Revoked(st.certs, {id})), c.ca, reach);
    assert IsRevoked(RevokeCert(st, id, reach).1.certs[id], c.ca, c.serial, c.notAfter);
  }

  // ── The server's tables, updated in place ──

  function Linked(st: State, ca: nat, w: Worker): State
    requires ca in st.cas
  {
    st.(cas := st.cas[ca := st.cas[ca].(worker := Some(w))])
  }

  lemma RelinkedCas(st: State, ca: nat, w: Worker, w': Worker)
    requires ca in st.cas
    ensures var linked := Linked(st, ca, w).cas; linked[ca := linked[ca].(worker := Some(w'))] == Linked(st, ca, w').cas
  {
  }

  class Publisher {
    var cas: map<nat, Ca>
    var certs: map<nat, Cert>
    var deleted: map<(nat, string), int>
    var remote: map<string, Crl>
    var unlocked: bool
    var now: int
    var lastNumber: int
    ghost var astray: set<nat>
    ghost var lastPass: int
    ghost var usedSerials: set<string>
    ghost var usedScripts: set<string>

    ghost function View(): State
      reads this
    {
      State(cas, certs, deleted, remote, astray, unlocked, now, lastNumber, lastPass, usedSerials, usedScripts)
    }

    constructor (now: int)
      ensures View() == EMPTY.(now := now, lastPass := now)
    {
      cas, certs, deleted, remote := map[], map[], map[], map[];
      unlocked, this.now, lastNumber, lastPass := true, now, 0, now;
      usedSerials, usedScripts, astray := {}, {}, {};
    }

    method NextCrlNumber(micros: int) returns (number: int)
      modifies `lastNumber
      ensures number == lastNumber == NextNumber(old(lastNumber), micros)
    {
      lastNumber := Max(lastNumber + 1, micros);
      number := lastNumber;
    }

    /** A new CRL of what is revoked now; false, changing nothing, for a CA without one. */
    method Sign(ca: nat) returns (signed: bool)
      requires ca in cas && Maintained(cas[ca]) ==> unlocked
      modifies `cas, `lastNumber
      ensures signed == (ca in old(cas) && Maintained(old(cas[ca])))
      ensures View() == if signed then Signed(old(View()), ca) else old(View())
    {
      signed := ca in cas && Maintained(cas[ca]);
      if signed {
        var serials := RevokedSerials(certs, deleted, now, ca);
        var number := NextCrlNumber(1_000_000 * now);
        cas := cas[ca := cas[ca].(crl := Some(Crl(serials, number, now, now + cas[ca].days * DAY)))];
      }
    }

    /** Send the CA's stored CRL to its Worker and record how that went. */
    method Push(ca: nat, reach: set<string>) returns (ok: bool)
      modifies `cas, `remote, `astray
      ensures View() == if ca in old(cas) then Pushed(old(View()), ca, reach) else old(View())
      ensures ca in cas && cas[ca].worker.Some? ==> ok == !cas[ca].worker.value.pushError
    {
      ok := true;
      if ca in cas && cas[ca].worker.Some? {
        var row := cas[ca];
        var script := row.worker.value.script;
        ok := script in reach && unlocked && row.crl.Some?;
        astray := astray - {ca};
        if ok {
          remote := remote[script := row.crl.value];
          cas := cas[ca := row.(worker := Some(Worker(script, true, false)))];
        } else {
          cas := cas[ca := row.(worker := Some(row.worker.value.(pushError := true)))];
        }
      }
    }

    method Publish(ca: nat, reach: set<string>) returns (r: Result)
      modifies `cas, `remote, `astray, `lastNumber
      ensures (r, View()) == Published(old(View()), ca, reach)
    {
      r := Ok(());
      if ca in cas && Maintained(cas[ca]) {
        if !unlocked { return Err(Locked); }
        var signed := Sign(ca);
        var pushed := Push(ca, reach);
      }
    }

    method PublishEach(order: seq<nat>, reach: set<string>)
      modifies `cas, `remote, `astray, `lastNumber
      ensures View() == PublishedAll(old(View()), order, reach)
    {
      for i := 0 to |order|
        invariant View() == PublishedAll(old(View()), order[..i], reach)
      {
        assert order[..i + 1][..i] == order[..i];
        var r := Publish(order[i], reach);
      }
      assert order[..|order|] == order;
    }

    method RevokeEach(ids: set<nat>)
      requires ids <= certs.Keys
      modifies `certs
      ensures certs == Revoked(old(certs), ids)
    {
      var todo := ids;
      while todo != {}
        invariant todo <= ids
        invariant certs == Revoked(old(certs), ids - todo)
        decreases |todo|
      {
        var id :| id in todo;
        todo := todo - {id};
        certs := certs[id := certs[id].(revoked := true)];
      }
      assert ids - {} == ids;
    }

    /** One renewal pass; it stops at the first CA it cannot sign for. */
    method RenewDuePass(order: seq<nat>, reach: set<string>)
      modifies this
      ensures View() == RenewDue(old(View()), order, reach)
    {
      var i, on := 0, true;
      while on && i < |order|
        invariant 0 <= i <= |order|
        invariant (on, View()) == RenewedAll(old(View()), order[..i], reach)
      {
        assert order[..i + 1][..i] == order[..i];
        var ca := order[i];
        if ca in cas {
          if !Due(cas[ca].crl, now) {
            if cas[ca].worker.Some? && cas[ca].worker.value.pushError {
              var ok := Push(ca, reach);
            }
          } else {
            var r := Publish(ca, reach);
            on := r.Ok?;
          }
        }
        i := i + 1;
      }
      if on {
        assert order[..i] == order;
      } else {
        StoppedPass(old(View()), order, i, reach);
      }
      PassKeepsLock(old(View()), order, reach);
      if unlocked { lastPass := now; }
    }

    method RevokeIt(id: nat, reach: set<string>) returns (r: Result)
      modifies this
      ensures (r, View()) == RevokeCert(old(View()), id, reach)
    {
      if id !in certs || certs[id].ca !in cas || certs[id].revoked { return Err(NotFound); }
      if !certs[id].dp { return Err(NotRevocable); }
      if Maintained(cas[certs[id].ca]) && !unlocked { return Err(Locked); }
      RevokeEach({id});
      var published := Publish(certs[id].ca, reach);
      r := Ok(());
    }

    method DeleteIt(id: nat) returns (r: Result)
      modifies `certs, `deleted
      ensures (r, View()) == DeleteCert(old(View()), id)
    {
      if id in certs && certs[id].revoked && (certs[id].ca, certs[id].serial) !in deleted {
        deleted := deleted[(certs[id].ca, certs[id].serial) := certs[id].notAfter];
      }
      if id !in certs { return Err(NotFound); }
      certs := certs - {id};
      r := Ok(());
    }

    method RevokeOwnCerts(device: string, serials: set<string>, order: seq<nat>, reach: set<string>) returns (r: Result)
      modifies this
      ensures (r, View()) == RevokeOwn(old(View()), device, serials, order, reach)
    {
      var removed := set id | id in certs && certs[id].device == device && certs[id].serial in serials && !certs[id].revoked;
      var ids := set id | id in removed && certs[id].dp;
      assert removed == Removed(View(), device, serials) && ids == Revocable(certs, removed);
      var issuers := set id | id in ids :: certs[id].ca;
      assert issuers == CasOf(certs, ids);
      if !unlocked && exists ca <- issuers :: ca in cas && Maintained(cas[ca]) { return Err(Locked); }
      RevokeEach(ids);
      certs := MarkedAbsent(certs, removed);
      PublishEach(order, reach);
      r := Ok(());
    }

    method DisconnectPal(device: string, revokeCerts: bool, order: seq<nat>, reach: set<string>) returns (r: Result)
      modifies this
      ensures (r, View()) == Disconnect(old(View()), device, revokeCerts, order, reach)
    {
      var ids := if revokeCerts then set id | id in certs && certs[id].device == device && !certs[id].revoked && certs[id].dp else {};
      assert ids == if revokeCerts then Revocable(certs, OfDevice(View(), device)) else {};
      if ids != {} && !unlocked { return Err(Locked); }
      RevokeEach(ids);
      PublishEach(order, reach);
      r := Ok(());
    }

    /** Save a signed certificate and revoke the copies it replaces; their CAs are still to be published. */
    method SaveCert(id: nat, c: Cert)
      requires id !in certs
      modifies `certs, `usedSerials
      ensures View() == Saved(old(View()), id, c)
    {
      var gone := set copy | copy in certs && c.device != "" && certs[copy].device == c.device && certs[copy].kind == c.kind &&
                             !certs[copy].revoked && certs[copy].notAfter > now && certs[copy].present == Some(false) && certs[copy].dp;
      assert gone == Replaced(View(), c);
      certs := certs[id := c];
      usedSerials := usedSerials + {c.serial};
      RevokeEach(gone);
      assert certs == Revoked(old(certs), gone)[id := c];
    }

    method OptIn(ca: nat, reach: set<string>)
      modifies `cas, `remote, `astray, `lastNumber
      ensures View() == OptedIn(old(View()), ca, reach)
    {
      if ca in cas {
        cas := cas[ca := cas[ca].(crlPublic := true)];
        var published := Publish(ca, reach);
      }
    }

    method IssueCert(id: nat, c: Cert, mode: Mode, order: seq<nat>, reach: set<string>) returns (r: Result)
      requires id !in certs
      modifies this
      ensures (r, View()) == Issue(old(View()), id, c, mode, order, reach)
    {
      if c.ca !in cas { return Err(NotFound); }
      if !unlocked { return Err(Locked); }
      var pushed := cas[c.ca].worker.Some? && cas[c.ca].worker.value.pushed;
      SaveCert(id, c);
      PublishEach(order, reach);
      if mode == ServerCrl {
        OptIn(c.ca, reach);
      } else if mode == CloudflareCrl && !pushed {
        var published := Publish(c.ca, reach);
      }
      r := Ok(());
    }

    method SetLifetime(ca: nat, days: int, reach: set<string>) returns (r: Result)
      modifies this
      ensures (r, View()) == SetDays(old(View()), ca, days, reach)
    {
      if days !in CRL_DAYS_CHOICES { return Err(BadDays); }
      if ca !in cas { return Err(NotFound); }
      var maintained := Maintained(cas[ca]);
      if maintained && !unlocked { return Err(Locked); }
      cas := cas[ca := cas[ca].(days := days)];
      if maintained {
        var published := Publish(ca, reach);
      }
      r := Ok(());
    }

    method LinkAndSign(ca: nat, script: string)
      requires ca in cas && cas[ca].worker.None? && unlocked
      modifies `cas, `lastNumber, `usedScripts
      ensures View() == Linked(Signed(old(View()).(usedScripts := old(usedScripts) + {script}), ca), ca, Worker(script, false, false))
    {
      usedScripts := usedScripts + {script};
      cas := cas[ca := cas[ca].(worker := Some(Worker(script, false, false)))];
      var signed := Sign(ca);
      ghost var unlinked := Signed(old(View()).(usedScripts := usedScripts), ca);
      assert cas == unlinked.cas[ca := unlinked.cas[ca].(worker := Some(Worker(script, false, false)))];
    }

    method UndoDeploy(ca: nat, ghost linked: Worker, ghost signed: State)
      requires ca in signed.cas && signed.cas[ca].worker.None? && cas == Linked(signed, ca, linked).cas
      modifies `cas
      ensures cas == signed.cas
    {
      cas := cas[ca := cas[ca].(worker := None)];
    }

    /** The CA is linked to its new Worker before the CRL is signed, and unlinked again if Cloudflare fails. */
    method DeployWorker(ca: nat, script: string, reached: Reached) returns (r: Result)
      modifies this
      ensures (r, View()) == Deploy(old(View()), ca, script, reached)
    {
      if ca !in cas { return Err(NotFound); }
      if cas[ca].worker.Some? { return Err(HasWorker); }
      if !unlocked { return Err(Locked); }
      LinkAndSign(ca, script);
      ghost var linked, signed := Worker(script, false, false), Signed(old(View()).(usedScripts := usedScripts), ca);
      if reached != BeforeUpload { remote := remote[script := cas[ca].crl.value]; }
      if reached == Done {
        RelinkedCas(signed, ca, linked, Worker(script, true, false));
        cas := cas[ca := cas[ca].(worker := Some(Worker(script, true, false)))];
        return Ok(());
      }
      if reached == AfterUpload(true) {
        remote := remote - {script};
        assert remote == old(remote) - {script};
      }
      UndoDeploy(ca, linked, signed);
      r := Err(CloudflareError);
    }

    method TeardownWorker(ca: nat, removed: bool) returns (r: Result)
      modifies this
      ensures (r, View()) == Teardown(old(View()), ca, removed)
    {
      if ca !in cas || cas[ca].worker.None? { return Err(NoWorker); }
      if !unlocked { return Err(Locked); }
      if !removed { return Err(CloudflareError); }
      remote := remote - {cas[ca].worker.value.script};
      cas := cas[ca := cas[ca].(worker := None)];
      astray := astray - {ca};
      r := Ok(());
    }

    /** The tables of a backup, in place of the current ones. */
    method ImportTables(backup: State) returns (r: Result)
      modifies this
      ensures (r, View()) == Restored(old(View()), backup)
    {
      if !unlocked { return Err(Locked); }
      cas, certs, deleted := backup.cas, Unpaired(backup.certs), backup.deleted;
      astray, lastPass := OutOfStep(cas, remote), backup.lastPass;
      usedSerials, usedScripts := usedSerials + backup.usedSerials, usedScripts + backup.usedScripts;
      r := Ok(());
    }
  }

  lemma {:induction false} StoppedPass(st: State, order: seq<nat>, i: nat, reach: set<string>)
    requires i <= |order| && !RenewedAll(st, order[..i], reach).0
    ensures RenewedAll(st, order, reach) == RenewedAll(st, order[..i], reach)
  {
    if i < |order| {
      assert order[..|order| - 1][..i] == order[..i];
      StoppedPass(st, order[..|order| - 1], i, reach);
    } else {
      assert order[..i] == order;
    }
  }

  lemma {:induction false} PassKeepsLock(st: State, order: seq<nat>, reach: set<string>)
    ensures var st' := RenewedAll(st, order, reach).1; st'.unlocked == st.unlocked && st'.now == st.now
  {
    if order != [] {
      PassKeepsLock(st, order[..|order| - 1], reach);
      RenewedFrame(RenewedAll(st, order[..|order| - 1], reach).1, order[|order| - 1], reach);
    }
  }
}
