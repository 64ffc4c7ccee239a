/** Certificate requests of connected PCs (app/routes/pal.py, app/db.py): approvers, deniers, failures and
    device revocation interleave between the steps of `_issue`; a pairing code connects one PC. */
module Issuance {
  import opened Wrappers

  datatype Status = Pending | Issuing | Issued | Denied

  datatype Row = Row(device: string, status: Status, cert: Option<nat>)

  /** Where one run of `_issue` is: it claimed the request, read its row and CA, or saved the certificate. */
  datatype Phase = Claimed(request: nat) | Loaded(request: nat) | Saved(request: nat, cert: nat)

  datatype Code = Code(used: bool, revoked: bool, expires: int)

  datatype State = State(
    rows: map<nat, Row>, nextRow: nat,
    devices: map<string, bool>,              // revoked?
    codes: map<string, Code>,
    certs: set<nat>, nextCert: nat,
    runs: map<nat, Phase>,                   // the runs of `_issue` going on
    saved: map<nat, nat>,                    // every certificate ever saved for a request, and which
    knownCodes: set<string>, pairings: seq<(string, string)>)

  const EMPTY := State(map[], 0, map[], map[], {}, 0, map[], map[], {}, [])

  predicate InStatus(rows: map<nat, Row>, id: nat, status: Status) {
    id in rows && rows[id].status == status
  }

  /** Moves a request on, if it is still where the caller saw it; a certificate once named stays named. */
  function Moved(rows: map<nat, Row>, id: nat, from: Status, to: Status, cert: Option<nat>): map<nat, Row> {
    if InStatus(rows, id, from)
    then rows[id := rows[id].(status := to, cert := if cert.Some? then cert else rows[id].cert)]
    else rows
  }

  function PendingDenied(rows: map<nat, Row>, device: string): map<nat, Row> {
    map id <- rows :: if rows[id].device == device && rows[id].status == Pending then rows[id].(status := Denied) else rows[id]
  }

  datatype Event =
    | Create(device: string)
    | Claim(run: nat, request: nat)
    | Load(run: nat, caThere: bool)
    | SaveCert(run: nat)
    | Fail(run: nat)
    | Finish(run: nat)
    | Crash(run: nat)
    | Deny(request: nat)
    | RevokeDevice(device: string)
    | DeleteDevice(device: string, code: string)
    | NewCode(code: string, expires: int)
    | RevokeCode(code: string)
    | Enroll(code: string, device: string, now: int)
    | DeleteCert(cert: nat)
    | DeleteCa(devices: set<string>, codes: set<string>, certs: set<nat>)   // its PCs, codes and certificates go with it
    | Restore(certs: set<nat>)         // a backup: every pairing goes, with its requests and codes

  function Failed(st: State, run: nat): State
    requires run in st.runs
  {
    st.(rows := Moved(st.rows, st.runs[run].request, Issuing, Pending, None), runs := st.runs - {run})
  }

  function CertSaved(st: State, run: nat): State
    requires run in st.runs
  {
    var request := st.runs[run].request;
    st.(certs := st.certs + {st.nextCert}, nextCert := st.nextCert + 1, saved := st.saved[st.nextCert := request],
        runs := st.runs[run := Saved(request, st.nextCert)])
  }

  function Finished(st: State, run: nat): State
    requires run in st.runs && st.runs[run].Saved?
  {
    st.(rows := Moved(st.rows, st.runs[run].request, Issuing, Issued, Some(st.runs[run].cert)), runs := st.runs - {run})
  }

  function Enrolled(st: State, code: string, device: string, now: int): State {
    if code in st.codes && !st.codes[code].used && !st.codes[code].revoked && st.codes[code].expires > now then
      st.(codes := st.codes[code := st.codes[code].(used := true)],
          devices := st.devices[device := false], pairings := st.pairings + [(code, device)])
    else st
  }

  function Step(st: State, e: Event): State {
    match e
    case Create(device) =>
      if device !in st.devices then st
      else st.(rows := st.rows[st.nextRow := Row(device, Pending, None)], nextRow := st.nextRow + 1)
    case Claim(run, request) =>
      if run in st.runs || !InStatus(st.rows, request, Pending) then st
      else st.(rows := Moved(st.rows, request, Pending, Issuing, None), runs := st.runs[run := Claimed(request)])
    case Load(run, caThere) =>
      if run !in st.runs || !st.runs[run].Claimed? then st
      else if !caThere || st.runs[run].request !in st.rows then Failed(st, run)
      else st.(runs := st.runs[run := Loaded(st.runs[run].request)])
    case SaveCert(run) =>
      if run !in st.runs || !st.runs[run].Loaded? then st
      else CertSaved(st, run)
    case Fail(run) => if run !in st.runs || st.runs[run].Saved? then st else Failed(st, run)
    case Finish(run) =>
      if run !in st.runs || !st.runs[run].Saved? then st
      else Finished(st, run)
    case Crash(run) => st.(runs := st.runs - {run})
    case Deny(request) => st.(rows := Moved(st.rows, request, Pending, Denied, None))
    case RevokeDevice(device) =>
      if device !in st.devices || st.devices[device] then st
      else st.(devices := st.devices[device := true], rows := PendingDenied(st.rows, device))
    case DeleteDevice(device, code) =>
      if device !in st.devices || !st.devices[device] then st
      else st.(devices := st.devices - {device}, codes := st.codes - {code},
               rows := map id | id in st.rows && st.rows[id].device != device :: st.rows[id])
    case NewCode(code, expires) =>
      if code in st.knownCodes then st
      else st.(codes := st.codes[code := Code(false, false, expires)], knownCodes := st.knownCodes + {code})
    case RevokeCode(code) =>
      if code in st.codes && !st.codes[code].used then st.(codes := st.codes[code := st.codes[code].(revoked := true)]) else st
    case Enroll(code, device, now) => Enrolled(st, code, device, now)
    case DeleteCert(cert) => st.(certs := st.certs - {cert})
    case DeleteCa(devices, codes, certs) =>
      st.(devices := st.devices - devices, codes := st.codes - codes, certs := st.certs - certs,
          rows := map id | id in st.rows && st.rows[id].device !in devices :: st.rows[id])
    case Restore(certs) => st.(rows := map[], devices := map[], codes := map[], certs := certs)
  }

  function Run(events: seq<Event>): State {
    if events == [] then EMPTY else Step(Run(events[..|events| - 1]), events[|events| - 1])
  }

  // ── The invariant ──

  ghost predicate NoneSaved(st: State, request: nat) {
    forall c <- st.saved :: st.saved[c] != request
  }

  ghost predicate NotHeld(st: State, request: nat) {
    forall t <- st.runs :: st.runs[t].request != request
  }

  ghost predicate GoodRow(st: State, id: nat)
    requires id in st.rows
  {
    var row := st.rows[id];
    && id < st.nextRow
    && match row.status
       case Pending => NoneSaved(st, id) && NotHeld(st, id) && row.cert == None
       case Issuing => row.cert == None
       case Issued => NotHeld(st, id) && row.cert.Some? && row.cert.value in st.saved && st.saved[row.cert.value] == id
       case Denied => NoneSaved(st, id) && NotHeld(st, id) && row.cert == None
  }

  ghost predicate GoodRun(st: State, t: nat)
    requires t in st.runs
  {
    var p := st.runs[t];
    && p.request < st.nextRow
    && (p.request in st.rows ==> st.rows[p.request].status == Issuing)
    && (forall u <- st.runs :: u != t ==> st.runs[u].request != p.request)
    && if p.Saved? then p.cert in st.saved && st.saved[p.cert] == p.request else NoneSaved(st, p.request)
  }

  ghost predicate SameRequest(saved: map<nat, nat>, c: nat, d: nat) {
    c in saved && d in saved && saved[c] == saved[d]
  }

  ghost predicate SameCode(pairings: seq<(string, string)>, i: nat, j: nat) {
    i < |pairings| && j < |pairings| && pairings[i].0 == pairings[j].0
  }

  ghost predicate OneCertEach(st: State) {
    forall c, d :: SameRequest(st.saved, c, d) ==> c == d
  }

  ghost predicate CodesUsedOnce(st: State) {
    && st.codes.Keys <= st.knownCodes
    && (forall p <- st.pairings :: p.0 in st.knownCodes && (p.0 in st.codes ==> st.codes[p.0].used))
    && (forall i, j :: SameCode(st.pairings, i, j) ==> i == j)
  }

  ghost predicate Inv(st: State) {
    && (forall id <- st.rows :: GoodRow(st, id))
    && (forall t <- st.runs :: GoodRun(st, t))
    && (forall c <- st.saved :: c < st.nextCert && st.saved[c] < st.nextRow)
    && OneCertEach(st) && CodesUsedOnce(st)
  }

  lemma ClaimedRow(st: State, run: nat, request: nat, id: nat)
    requires Inv(st) && run !in st.runs && InStatus(st.rows, request, Pending) && id in st.rows
    ensures GoodRow(Step(st, Claim(run, request)), id)
  {
    assert GoodRow(st, id);
  }

  lemma ClaimedRun(st: State, run: nat, request: nat, t: nat)
    requires Inv(st) && run !in st.runs && InStatus(st.rows, request, Pending) && (t in st.runs || t == run)
    ensures GoodRun(Step(st, Claim(run, request)), t)
  {
    assert GoodRow(st, request);
    assert t in st.runs ==> GoodRun(st, t);
  }

  lemma ClaimKeepsInv(st: State, run: nat, request: nat)
    requires Inv(st)
    ensures Inv(Step(st, Claim(run, request)))
  {
    var st' := Step(st, Claim(run, request));
    if run !in st.runs && InStatus(st.rows, request, Pending) {
      forall id <- st'.rows ensures GoodRow(st', id) { ClaimedRow(st, run, request, id); }
      forall t <- st'.runs ensures GoodRun(st', t) { ClaimedRun(st, run, request, t); }
    }
  }

  lemma CrashKeepsInv(st: State, run: nat)
    requires Inv(st)
    ensures Inv(Step(st, Crash(run)))
  {
    var st' := Step(st, Crash(run));
    forall id <- st'.rows ensures GoodRow(st', id) { assert GoodRow(st, id); }
    forall t <- st'.runs ensures GoodRun(st', t) { assert GoodRun(st, t); }
  }

  lemma FailedRow(st: State, run: nat, id: nat)
    requires Inv(st) && run in st.runs && !st.runs[run].Saved? && id in Failed(st, run).rows
    ensures GoodRow(Failed(st, run), id)
  {
    assert GoodRow(st, id) && GoodRun(st, run);
  }

  lemma FailedKeepsInv(st: State, run: nat)
    requires Inv(st) && run in st.runs && !st.runs[run].Saved?
    ensures Inv(Failed(st, run))
  {
    var st' := Failed(st, run);
    forall id <- st'.rows ensures GoodRow(st', id) {
      FailedRow(st, run, id);
    }
    forall t <- st'.runs ensures GoodRun(st', t) {
      assert GoodRun(st, t);
    }
  }

  lemma LoadedKeepsInv(st: State, run: nat)
    requires Inv(st) && run in st.runs && st.runs[run].Claimed?
    ensures Inv(st.(runs := st.runs[run := Loaded(st.runs[run].request)]))
  {
    var st' := st.(runs := st.runs[run := Loaded(st.runs[run].request)]);
    forall id <- st'.rows ensures GoodRow(st', id) {
      assert GoodRow(st, id) && GoodRun(st, run);
    }
    forall t <- st'.runs ensures GoodRun(st', t) {
      assert GoodRun(st, t);
    }
  }

  lemma SavedRow(st: State, run: nat, id: nat)
    requires Inv(st) && run in st.runs && st.runs[run].Loaded? && id in st.rows
    ensures GoodRow(CertSaved(st, run), id)
  {
    assert GoodRow(st, id) && GoodRun(st, run);
  }

  lemma SavedRun(st: State, run: nat, t: nat)
    requires Inv(st) && run in st.runs && st.runs[run].Loaded? && t in st.runs
    ensures GoodRun(CertSaved(st, run), t)
  {
    assert GoodRun(st, t) && GoodRun(st, run);
  }

  lemma SaveKeepsInv(st: State, run: nat)
    requires Inv(st) && run in st.runs && st.runs[run].Loaded?
    ensures Inv(CertSaved(st, run))
  {
    var st' := CertSaved(st, run);
    forall id <- st'.rows ensures GoodRow(st', id) { SavedRow(st, run, id); }
    forall t <- st'.runs ensures GoodRun(st', t) { SavedRun(st, run, t); }
    assert GoodRun(st, run);
    forall c, d | SameRequest(st'.saved, c, d) ensures c == d {
      if c != st.nextCert && d != st.nextCert { assert SameRequest(st.saved, c, d); }
    }
  }

  lemma FinishedRow(st: State, run: nat, id: nat)
    requires Inv(st) && run in st.runs && st.runs[run].Saved? && id in Finished(st, run).rows
    ensures GoodRow(Finished(st, run), id)
  {
    assert GoodRow(st, id) && GoodRun(st, run);
  }

  lemma FinishKeepsInv(st: State, run: nat)
    requires Inv(st) && run in st.runs && st.runs[run].Saved?
    ensures Inv(Finished(st, run))
  {
    var st' := Finished(st, run);
    forall id <- st'.rows ensures GoodRow(st', id) { FinishedRow(st, run, id); }
    forall t <- st'.runs ensures GoodRun(st', t) { assert GoodRun(st, t) && GoodRun(st, run); }
  }

  lemma DeleteCertKeepsInv(st: State, certs: set<nat>)
    requires Inv(st)
    ensures Inv(st.(certs := certs))
  {
    var st' := st.(certs := certs);
    forall id <- st'.rows ensures GoodRow(st', id) { assert GoodRow(st, id); }
    forall t <- st'.runs ensures GoodRun(st', t) { assert GoodRun(st, t); }
  }

  lemma DeleteCaKeepsInv(st: State, devices: set<string>, codes: set<string>, certs: set<nat>)
    requires Inv(st)
    ensures Inv(Step(st, DeleteCa(devices, codes, certs)))
  {
    var st' := Step(st, DeleteCa(devices, codes, certs));
    forall id <- st'.rows ensures GoodRow(st', id) { assert GoodRow(st, id); }
    forall t <- st'.runs ensures GoodRun(st', t) { assert GoodRun(st, t); }
  }

  lemma RestoreKeepsInv(st: State, certs: set<nat>)
    requires Inv(st)
    ensures Inv(Step(st, Restore(certs)))
  {
    var st' := Step(st, Restore(certs));
    forall t <- st'.runs ensures GoodRun(st', t) { assert GoodRun(st, t); }
  }

  lemma RowStepsKeepInv(st: State, e: Event)
    requires Inv(st) && (e.Create? || e.Deny?)
    ensures Inv(Step(st, e))
  {
    var st' := Step(st, e);
    forall id <- st'.rows ensures GoodRow(st', id) {
      assert id in st.rows ==> GoodRow(st, id);
    }
    forall t <- st'.runs ensures GoodRun(st', t) {
      assert t in st.runs ==> GoodRun(st, t);
    }
  }

  lemma DeviceStepsKeepInv(st: State, e: Event)
    requires Inv(st) && (e.RevokeDevice? || e.DeleteDevice?)
    ensures Inv(Step(st, e))
  {
    var st' := Step(st, e);
    forall id <- st'.rows ensures GoodRow(st', id) {
      assert id in st.rows ==> GoodRow(st, id);
    }
    forall t <- st'.runs ensures GoodRun(st', t) {
      assert t in st.runs ==> GoodRun(st, t);
    }
  }

  lemma CodeStepsKeepCodes(st: State, e: Event)
    requires CodesUsedOnce(st) && (e.NewCode? || e.RevokeCode? || e.Enroll?)
    ensures CodesUsedOnce(Step(st, e))
  {
    var pairings := Step(st, e).pairings;
    forall i: nat, j: nat | SameCode(pairings, i, j) ensures i == j {
      assert i < |st.pairings| ==> st.pairings[i] in st.pairings;
      assert j < |st.pairings| ==> st.pairings[j] in st.pairings;
      assert i < |st.pairings| && j < |st.pairings| ==> SameCode(st.pairings, i, j);
    }
  }

  lemma OnlyCodesChanged(st: State, st': State)
    requires Inv(st) && CodesUsedOnce(st')
    requires st'.rows == st.rows && st'.runs == st.runs && st'.saved == st.saved
    requires st'.nextRow == st.nextRow && st'.nextCert == st.nextCert
    ensures Inv(st')
  {
    forall id <- st'.rows ensures GoodRow(st', id) { assert GoodRow(st, id); }
    forall t <- st'.runs ensures GoodRun(st', t) { assert GoodRun(st, t); }
  }

  lemma CodeStepsKeepInv(st: State, e: Event)
    requires Inv(st) && (e.NewCode? || e.RevokeCode? || e.Enroll?)
    ensures Inv(Step(st, e))
  {
    CodeStepsKeepCodes(st, e);
    OnlyCodesChanged(st, Step(st, e));
  }

  lemma StepKeepsInv(st: State, e: Event)
    requires Inv(st)
    ensures Inv(Step(st, e))
  {
    match e
    case Claim(run, request) => ClaimKeepsInv(st, run, request);
    case Crash(run) => CrashKeepsInv(st, run);
    case Load(run, caThere) =>
      if run in st.runs && st.runs[run].Claimed? {
        if caThere && st.runs[run].request in st.rows { LoadedKeepsInv(st, run); } else { FailedKeepsInv(st, run); }
      }
    case Fail(run) =>
      if run in st.runs && !st.runs[run].Saved? { FailedKeepsInv(st, run); }
    case SaveCert(run) =>
      if run in st.runs && st.runs[run].Loaded? { SaveKeepsInv(st, run); }
    case Finish(run) =>
      if run in st.runs && st.runs[run].Saved? { FinishKeepsInv(st, run); }
    case DeleteCert(cert) => DeleteCertKeepsInv(st, st.certs - {cert});
    case DeleteCa(devices, codes, certs) => DeleteCaKeepsInv(st, devices, codes, certs);
    case Restore(certs) => RestoreKeepsInv(st, certs);
    case Create(_) => RowStepsKeepInv(st, e);
    case Deny(_) => RowStepsKeepInv(st, e);
    case RevokeDevice(_) => DeviceStepsKeepInv(st, e);
    case DeleteDevice(_, _) => DeviceStepsKeepInv(st, e);
    case NewCode(_, _) => CodeStepsKeepInv(st, e);
    case RevokeCode(_) => CodeStepsKeepInv(st, e);
    case Enroll(_, _, _) => CodeStepsKeepInv(st, e);
  }

  lemma {:induction false} RunKeepsInv(events: seq<Event>)
    ensures Inv(Run(events))
  {
    if events != [] {
      RunKeepsInv(events[..|events| - 1]);
      StepKeepsInv(Run(events[..|events| - 1]), events[|events| - 1]);
    }
  }

  // ── What the protocol is for ──

  /** Under every interleaving a request gets at most one certificate, and an issued request names it. */
  lemma OneCertificatePerRequest(events: seq<Event>, c: nat, d: nat)
    requires c in Run(events).saved && d in Run(events).saved && Run(events).saved[c] == Run(events).saved[d]
    ensures c == d
    ensures var id := Run(events).saved[c];
            InStatus(Run(events).rows, id, Issued) ==> Run(events).rows[id].cert == Some(c)
    ensures var id := Run(events).saved[c];
            !InStatus(Run(events).rows, id, Pending) && !InStatus(Run(events).rows, id, Denied)
  {
    var st := Run(events);
    RunKeepsInv(events);
    assert SameRequest(st.saved, c, d);
    assert st.saved[c] in st.rows ==> GoodRow(st, st.saved[c]);
    forall held | held in st.saved && st.saved[held] == st.saved[c] ensures held == c { assert SameRequest(st.saved, c, held); }
  }

  lemma IssuedNamesItsCertificate(events: seq<Event>, id: nat)
    requires InStatus(Run(events).rows, id, Issued)
    ensures Run(events).rows[id].cert.Some? && Run(events).rows[id].cert.value in Run(events).saved
    ensures Run(events).saved[Run(events).rows[id].cert.value] == id
  {
    RunKeepsInv(events);
    assert GoodRow(Run(events), id);
  }

  /** What can take a request out of "issuing": its run ending, or its device, its CA or the whole table going. */
  predicate TakesOut(st: State, e: Event, id: nat)
    requires id in st.rows
  {
    var device := st.rows[id].device;
    || (e.DeleteDevice? && e.device == device) || (e.DeleteCa? && device in e.devices) || e.Restore?
    || ((e.Load? || e.Fail? || e.Finish?) && e.run in st.runs && st.runs[e.run].request == id)
  }

  lemma IssuingStays(st: State, e: Event, id: nat)
    requires InStatus(st.rows, id, Issuing) && id < st.nextRow && !TakesOut(st, e, id)
    ensures InStatus(Step(st, e).rows, id, Issuing)
  {
  }

  /** A request being issued leaves that state only by the run that claimed it, or goes with its whole device, its CA or in a
      restore. */
  lemma OnlyTheClaimerLeavesIssuing(events: seq<Event>, e: Event, id: nat)
    requires InStatus(Run(events).rows, id, Issuing) && !InStatus(Step(Run(events), e).rows, id, Issuing)
    ensures TakesOut(Run(events), e, id)
    ensures e.DeleteDevice? || e.DeleteCa? || e.Restore? ==> id !in Step(Run(events), e).rows
  {
    RunKeepsInv(events);
    assert GoodRow(Run(events), id);
    if !TakesOut(Run(events), e, id) { IssuingStays(Run(events), e, id); }
  }

  /** No two runs hold the same request, and what a run holds is being issued (or gone). */
  lemma ClaimsAreExclusive(events: seq<Event>, t: nat, u: nat)
    requires t in Run(events).runs && u in Run(events).runs
    requires Run(events).runs[t].request == Run(events).runs[u].request
    ensures t == u && !InStatus(Run(events).rows, Run(events).runs[t].request, Pending)
  {
    RunKeepsInv(events);
    assert GoodRun(Run(events), t);
  }

  predicate Decided(st: State, id: nat) {
    InStatus(st.rows, id, Issued) || InStatus(st.rows, id, Denied)
  }

  lemma DecidedRowStays(st: State, e: Event, id: nat)
    requires Decided(st, id) && id < st.nextRow && NotHeld(st, id) && id in Step(st, e).rows
    ensures Step(st, e).rows[id] == st.rows[id]
  {
  }

  /** An issued or denied request never changes again. */
  lemma DecisionsAreFinal(events: seq<Event>, e: Event, id: nat)
    requires Decided(Run(events), id) && id in Step(Run(events), e).rows
    ensures Step(Run(events), e).rows[id] == Run(events).rows[id]
  {
    RunKeepsInv(events);
    assert GoodRow(Run(events), id);
    DecidedRowStays(Run(events), e, id);
  }

  /** A pairing code never connects two PCs. */
  lemma ACodeConnectsOnePC(events: seq<Event>, i: nat, j: nat)
    requires i < |Run(events).pairings| && j < |Run(events).pairings|
    requires Run(events).pairings[i].0 == Run(events).pairings[j].0
    ensures i == j
  {
    RunKeepsInv(events);
    assert SameCode(Run(events).pairings, i, j);
  }

  // ── What a revocation leaves ──

  /** The event that ends, without a certificate, the run that holds the request. */
  predicate EndsWithout(st: State, e: Event, request: nat) {
    match e
    case Fail(run) => run in st.runs && !st.runs[run].Saved? && st.runs[run].request == request
    case Load(run, caThere) => run in st.runs && st.runs[run] == Claimed(request) && !caThere
    case _ => false
  }

  /** A request that is not waiting waits again exactly when the run that holds it ends without a certificate, whatever
      became of its device meanwhile. */
  lemma WaitsAgainIff(events: seq<Event>, e: Event, id: nat)
    requires id in Run(events).rows && !InStatus(Run(events).rows, id, Pending)
    ensures InStatus(Step(Run(events), e).rows, id, Pending) <==> EndsWithout(Run(events), e, id)
  {
    RunKeepsInv(events);
    assert GoodRow(Run(events), id);
    assert EndsWithout(Run(events), e, id) ==> GoodRun(Run(events), e.run);
  }

  predicate IsRevoked(st: State, device: string) {
    device in st.devices && st.devices[device]
  }

  /** After the first `n` events the request waits although its device is revoked: denying it works, approving it not. */
  ghost predicate WaitsRevoked(events: seq<Event>, n: nat, id: nat) {
    n <= |events| && InStatus(Run(events[..n]).rows, id, Pending) && IsRevoked(Run(events[..n]), Run(events[..n]).rows[id].device)
  }

  /** At event `i`, its device already revoked, the request came back from its run or came in. */
  ghost predicate ComesBackAt(events: seq<Event>, i: nat, id: nat) {
    && i < |events| && !WaitsRevoked(events, i, id) && WaitsRevoked(events, i + 1, id)
    && IsRevoked(Run(events[..i]), Run(events[..i + 1]).rows[id].device)
    && (EndsWithout(Run(events[..i]), events[i], id) || (events[i].Create? && id == Run(events[..i]).nextRow))
  }

  /** Since then it has waited. */
  ghost predicate WaitsSince(events: seq<Event>, i: nat, id: nat) {
    ComesBackAt(events, i, id) && forall n: nat :: i < n <= |events| ==> WaitsRevoked(events, n, id)
  }

  lemma WaitsAfter(st: State, e: Event, id: nat)
    requires InStatus(Step(st, e).rows, id, Pending) && IsRevoked(Step(st, e), Step(st, e).rows[id].device)
    requires !(InStatus(st.rows, id, Pending) && IsRevoked(st, st.rows[id].device))
    ensures IsRevoked(st, Step(st, e).rows[id].device)
    ensures EndsWithout(st, e, id) || (e.Create? && id == st.nextRow)
  {
  }

  lemma ComesBack(events: seq<Event>, id: nat)
    requires events != [] && WaitsRevoked(events, |events|, id) && !WaitsRevoked(events, |events| - 1, id)
    ensures ComesBackAt(events, |events| - 1, id)
  {
    assert events[..|events|] == events;
    WaitsAfter(Run(events[..|events| - 1]), events[|events| - 1], id);
  }

  /** A revoked PC's request waits only where its run ended without a certificate, or it came in, after the revocation,
      which itself leaves none waiting. */
  lemma {:induction false} RevokedWaitsOnlyInFlight(events: seq<Event>, id: nat)
    requires WaitsRevoked(events, |events|, id)
    ensures exists i: nat :: WaitsSince(events, i, id)
  {
    assert events[..|events|] == events;
    var rest := events[..|events| - 1];
    if WaitsRevoked(events, |rest|, id) {
      assert rest[..|rest|] == rest;
      RevokedWaitsOnlyInFlight(rest, id);
      var i: nat :| WaitsSince(rest, i, id);
      StillWaits(events, i, id);
    } else {
      ComesBack(events, id);
      assert WaitsSince(events, |rest|, id);
    }
  }

  lemma StillWaits(events: seq<Event>, i: nat, id: nat)
    requires events != [] && WaitsSince(events[..|events| - 1], i, id) && WaitsRevoked(events, |events|, id)
    ensures WaitsSince(events, i, id)
  {
    var rest := events[..|events| - 1];
    assert rest[..i] == events[..i] && rest[..i + 1] == events[..i + 1];
    forall n: nat | i < n <= |events| ensures WaitsRevoked(events, n, id) {
      if n < |events| {
        assert WaitsRevoked(rest, n, id);
        assert rest[..n] == events[..n];
      }
    }
  }

  lemma RunMore(events: seq<Event>, e: Event)
    ensures Run(events + [e]) == Step(Run(events), e)
  {
    assert (events + [e])[..|events|] == events;
  }

  lemma ClaimedRevokedFailed(st: State, run: nat, id: nat, device: string)
    requires InStatus(st.rows, id, Pending) && st.rows[id].device == device && run !in st.runs
    requires device in st.devices && !st.devices[device]
    ensures var st' := Step(Step(Step(st, Claim(run, id)), RevokeDevice(device)), Fail(run));
            InStatus(st'.rows, id, Pending) && st'.rows[id].device == device && IsRevoked(st', device)
  {
    var claimed := Step(st, Claim(run, id));
    assert claimed.runs[run] == Claimed(id) && claimed.rows[id] == st.rows[id].(status := Issuing);
    assert Step(claimed, RevokeDevice(device)).rows[id] == claimed.rows[id];
  }

  /** After any run, every waiting request of a connected PC can come to that: it is claimed, its PC revoked, its run fails. */
  lemma RevokedRequestCanWait(events: seq<Event>, run: nat, id: nat)
    requires InStatus(Run(events).rows, id, Pending) && run !in Run(events).runs
    requires var device := Run(events).rows[id].device; device in Run(events).devices && !Run(events).devices[device]
    ensures var more := [Claim(run, id), RevokeDevice(Run(events).rows[id].device), Fail(run)];
            WaitsRevoked(events + more, |events| + 3, id)
  {
    var device := Run(events).rows[id].device;
    ClaimedRevokedFailed(Run(events), run, id, device);
    RunMore(events, Claim(run, id));
    RunMore(events + [Claim(run, id)], RevokeDevice(device));
    RunMore(events + [Claim(run, id)] + [RevokeDevice(device)], Fail(run));
    var all := events + [Claim(run, id), RevokeDevice(device), Fail(run)];
    assert all[..|events| + 3] == all == events + [Claim(run, id)] + [RevokeDevice(device)] + [Fail(run)];
  }

  // ── What each event does ──

  /** The run holds the request and has no certificate for it. */
  predicate IsTrying(st: State, run: nat, request: nat) {
    run in st.runs && (st.runs[run] == Claimed(request) || st.runs[run] == Loaded(request))
  }

  predicate CaGone(st: State, e: Event, request: nat) {
    e.Load? && !e.caThere && e.run in st.runs && st.runs[e.run] == Claimed(request)
  }

  predicate GetsIssued(st: State, e: Event, request: nat) {
    e.Finish? && e.run in st.runs && st.runs[e.run].Saved? && st.runs[e.run].request == request
  }

  /** Where a request goes: claimed or denied while it is pending, back or issued while its run holds it, and else nowhere. */
  function NextStatus(st: State, e: Event, id: nat): Status
    requires id in st.rows
  {
    var (device, status) := (st.rows[id].device, st.rows[id].status);
    if status == Pending && e.Claim? && e.request == id && e.run !in st.runs then Issuing
    else if status == Pending && (e == Deny(id) || (e == RevokeDevice(device) && IsConnected(st, device))) then Denied
    else if status == Issuing && ((e.Fail? && IsTrying(st, e.run, id)) || CaGone(st, e, id)) then Pending
    else if status == Issuing && GetsIssued(st, e, id) then Issued
    else status
  }

  ghost predicate GoesRight(st: State, e: Event, id: nat)
    requires id in st.rows
  {
    id in Step(st, e).rows ==>
      var (row, row') := (st.rows[id], Step(st, e).rows[id]);
      && row'.device == row.device && row'.status == NextStatus(st, e, id)
      && row'.cert == if GetsIssued(st, e, id) then Some(st.runs[e.run].cert) else row.cert
  }

  lemma RunStepGoesRight(st: State, e: Event, id: nat)
    requires Inv(st) && id in st.rows && (e.Load? || e.Fail? || e.Finish?)
    ensures GoesRight(st, e, id)
  {
    assert GoodRow(st, id);
    assert e.run in st.runs ==> GoodRun(st, e.run);
  }

  lemma DecidingGoesRight(st: State, e: Event, id: nat)
    requires id in st.rows && (e.Claim? || e.Deny? || e.RevokeDevice?)
    ensures GoesRight(st, e, id)
  {
  }

  lemma OtherStepGoesRight(st: State, e: Event, id: nat)
    requires Inv(st) && id in st.rows && !e.Claim? && !e.Deny? && !e.RevokeDevice? && !e.Load? && !e.Fail? && !e.Finish?
    ensures id in Step(st, e).rows ==> Step(st, e).rows[id] == st.rows[id]
  {
    assert GoodRow(st, id);
  }

  lemma StatusAfter(st: State, e: Event, id: nat)
    requires Inv(st) && id in st.rows
    ensures GoesRight(st, e, id)
  {
    if e.Load? || e.Fail? || e.Finish? {
      RunStepGoesRight(st, e, id);
    } else if e.Claim? || e.Deny? || e.RevokeDevice? {
      DecidingGoesRight(st, e, id);
    } else {
      OtherStepGoesRight(st, e, id);
    }
  }

  predicate IsConnected(st: State, device: string) {
    device in st.devices && !st.devices[device]
  }

  /** Requests come from PCs there are, pending, and go with their PC. */
  lemma RowsComeAndGo(st: State, e: Event, id: nat)
    requires Inv(st)
    ensures id in Step(st, e).rows <==>
              || (e.Create? && e.device in st.devices && id == st.nextRow)
              || (id in st.rows && !e.Restore? && !(e.DeleteCa? && st.rows[id].device in e.devices)
                  && !(e.DeleteDevice? && e.device == st.rows[id].device && e.device in st.devices && st.devices[e.device]))
    ensures e.Create? && e.device in st.devices ==>
              Step(st, e).rows[st.nextRow] == Row(e.device, Pending, None) && Step(st, e).nextRow == st.nextRow + 1
  {
    if id in st.rows { assert GoodRow(st, id); }
  }

  /** The phase a run comes into. */
  predicate Enters(st: State, e: Event, t: nat, p: Phase) {
    match e
    case Claim(run, request) => run == t && t !in st.runs && InStatus(st.rows, request, Pending) && p == Claimed(request)
    case Load(run, caThere) =>
      run == t && caThere && t in st.runs && st.runs[t].Claimed? && st.runs[t].request in st.rows && p == Loaded(st.runs[t].request)
    case SaveCert(run) => run == t && t in st.runs && st.runs[t].Loaded? && p == Saved(st.runs[t].request, st.nextCert)
    case _ => false
  }

  predicate InPhase(st: State, t: nat, p: Phase) {
    t in st.runs && st.runs[t] == p
  }

  lemma EndedRun(st: State, e: Event, t: nat, p: Phase)
    requires e.Fail? || e.Finish? || e.Crash?
    ensures InPhase(Step(st, e), t, p) <==> InPhase(st, t, p) && !Moves(e, t, p)
  {
  }

  lemma MovedRun(st: State, e: Event, t: nat, p: Phase)
    requires e.Claim? || e.Load? || e.SaveCert?
    ensures InPhase(Step(st, e), t, p) <==> Enters(st, e, t, p) || (InPhase(st, t, p) && !Moves(e, t, p))
  {
  }

  lemma OtherStepKeepsRuns(st: State, e: Event)
    requires !e.Claim? && !e.Load? && !e.SaveCert? && !e.Fail? && !e.Finish? && !e.Crash?
    ensures Step(st, e).runs == st.runs
  {
  }

  /** A run of `_issue` goes from its claim to its certificate and no further, unless it fails, ends or dies. */
  lemma RunAfter(st: State, e: Event, t: nat, p: Phase)
    ensures InPhase(Step(st, e), t, p) <==> Enters(st, e, t, p) || (InPhase(st, t, p) && !Moves(e, t, p))
  {
    if e.Fail? || e.Finish? || e.Crash? {
      EndedRun(st, e, t, p);
    } else if e.Claim? || e.Load? || e.SaveCert? {
      MovedRun(st, e, t, p);
    } else {
      OtherStepKeepsRuns(st, e);
    }
  }

  /** Takes a run out of the phase it is in. */
  predicate Moves(e: Event, t: nat, p: Phase) {
    match e
    case Load(run, _) => run == t && p.Claimed?
    case SaveCert(run) => run == t && p.Loaded?
    case Fail(run) => run == t && !p.Saved?
    case Finish(run) => run == t && p.Saved?
    case Crash(run) => run == t
    case _ => false
  }

  predicate Comes(st: State, e: Event, d: string) {
    e.Enroll? && e.device == d && IsOpen(st, e.code, ExpiryOf(st, e.code)) && e.now < ExpiryOf(st, e.code)
  }

  /** PCs come by a code, revoked or not as revoking left them, and go when a revoked one is deleted, with their CA, or in a
      restore. */
  lemma DevicesAfter(st: State, e: Event, d: string)
    ensures d in Step(st, e).devices <==>
              || Comes(st, e, d)
              || (d in st.devices && !e.Restore? && !(e.DeleteCa? && d in e.devices) && !(e.DeleteDevice? && e.device == d && IsRevoked(st, d)))
    ensures d in Step(st, e).devices ==> Step(st, e).devices[d] == (!Comes(st, e, d) && (st.devices[d] || e == RevokeDevice(d)))
  {
    if e.Enroll? {
      EnrollingAdds(st, e, d);
    }
  }

  lemma EnrollingAdds(st: State, e: Event, d: string)
    requires e.Enroll?
    ensures Step(st, e).devices == if Comes(st, e, e.device) then st.devices[e.device := false] else st.devices
  {
  }

  function ExpiryOf(st: State, code: string): int {
    if code in st.codes then st.codes[code].expires else 0
  }

  /** A code that stays keeps its expiry; connecting a PC uses it, and revoking revokes one that is not used. */
  lemma CodeAfter(st: State, e: Event, c: string)
    requires Inv(st) && c in st.codes && c in Step(st, e).codes
    ensures var (code, code') := (st.codes[c], Step(st, e).codes[c]);
            && code'.expires == code.expires
            && code'.used == (code.used || (e.Enroll? && e.code == c && !code.revoked && e.now < code.expires))
            && code'.revoked == (code.revoked || (e == RevokeCode(c) && !code.used))
  {
  }

  /** A certificate is saved for the request its run holds; certificates go by deletion, their own or their CA's, or in a restore. */
  lemma CertsAfter(st: State, e: Event, c: nat)
    requires Inv(st)
    ensures var (saves, st') := (e.SaveCert? && e.run in st.runs && st.runs[e.run].Loaded?, Step(st, e));
            && (c in st'.certs <==>
                  if e.Restore? then c in e.certs
                  else (saves && c == st.nextCert) || (c in st.certs && e != DeleteCert(c) && !(e.DeleteCa? && c in e.certs)))
            && st'.saved == (if saves then st.saved[st.nextCert := st.runs[e.run].request] else st.saved)
            && st'.nextCert == if saves then st.nextCert + 1 else st.nextCert
  {
  }

  /** From the end of every run, a pending request that a free run takes through its steps is issued, with a new certificate. */
  lemma PendingCanBeIssued(events: seq<Event>, run: nat, id: nat)
    requires InStatus(Run(events).rows, id, Pending) && run !in Run(events).runs
    ensures var (st, st') := (Run(events), Run(events + [Claim(run, id), Load(run, true), SaveCert(run), Finish(run)]));
            && id in st'.rows && st'.rows[id] == Row(st.rows[id].device, Issued, Some(st.nextCert))
            && st.nextCert in st'.certs && st'.saved == st.saved[st.nextCert := id] && st'.runs == st.runs
  {
    var st := Run(events);
    RunMore(events, Claim(run, id));
    RunMore(events + [Claim(run, id)], Load(run, true));
    RunMore(events + [Claim(run, id)] + [Load(run, true)], SaveCert(run));
    RunMore(events + [Claim(run, id)] + [Load(run, true)] + [SaveCert(run)], Finish(run));
    assert events + [Claim(run, id)] + [Load(run, true)] + [SaveCert(run)] + [Finish(run)] ==
           events + [Claim(run, id), Load(run, true), SaveCert(run), Finish(run)];
    FourSteps(st, run, id);
  }

  lemma FourSteps(st: State, run: nat, id: nat)
    requires InStatus(st.rows, id, Pending) && run !in st.runs
    ensures var st' := Step(Step(Step(Step(st, Claim(run, id)), Load(run, true)), SaveCert(run)), Finish(run));
            && id in st'.rows && st'.rows[id] == Row(st.rows[id].device, Issued, Some(st.nextCert))
            && st.nextCert in st'.certs && st'.saved == st.saved[st.nextCert := id] && st'.runs == st.runs
  {
    var loaded := Step(Step(st, Claim(run, id)), Load(run, true));
    assert loaded.runs == st.runs[run := Loaded(id)];
    var saved := Step(loaded, SaveCert(run));
    assert saved.runs == st.runs[run := Saved(id, st.nextCert)] && saved.runs - {run} == st.runs;
  }

  // ── Which codes connect ──

  /** The code was made, with this expiry, and is neither used nor revoked nor gone. */
  predicate IsOpen(st: State, code: string, expires: int) {
    code in st.codes && st.codes[code].expires == expires && !st.codes[code].used && !st.codes[code].revoked
  }

  /** A code is made once. */
  predicate Makes(st: State, e: Event, code: string, expires: int) {
    e == NewCode(code, expires) && code !in st.knownCodes
  }

  /** What ends a code: revoking it, connecting a PC with it in time, deleting that PC or the CA, or a restore. */
  predicate Ends(st: State, e: Event, code: string, expires: int) {
    match e
    case RevokeCode(c) => c == code
    case Enroll(c, _, now) => c == code && now < expires
    case DeleteDevice(device, c) => c == code && IsRevoked(st, device)
    case DeleteCa(_, codes, _) => code in codes
    case Restore(_) => true
    case _ => false
  }

  lemma StepOpenIff(st: State, e: Event, code: string, expires: int)
    requires CodesUsedOnce(st)
    ensures IsOpen(Step(st, e), code, expires) <==>
              Makes(st, e, code, expires) || (IsOpen(st, code, expires) && !Ends(st, e, code, expires))
  {
  }

  /** Event `i` made the code, and nothing has ended it since. */
  ghost predicate OpenSince(events: seq<Event>, i: nat, code: string, expires: int) {
    && i < |events| && Makes(Run(events[..i]), events[i], code, expires)
    && forall j: nat :: i < j < |events| ==> LeftAlone(events, j, code, expires)
  }

  ghost predicate LeftAlone(events: seq<Event>, j: nat, code: string, expires: int)
    requires j < |events|
  {
    !Ends(Run(events[..j]), events[j], code, expires)
  }

  lemma {:induction false} OpenIff(events: seq<Event>, code: string, expires: int)
    ensures IsOpen(Run(events), code, expires) <==> exists i: nat :: OpenSince(events, i, code, expires)
  {
    if events != [] {
      var rest, e := events[..|events| - 1], events[|events| - 1];
      OpenIff(rest, code, expires);
      RunKeepsInv(rest);
      StepOpenIff(Run(rest), e, code, expires);
      OpenSinceIff(events, code, expires);
    }
  }

  lemma OpenSinceIff(events: seq<Event>, code: string, expires: int)
    requires events != []
    ensures var (rest, e) := (events[..|events| - 1], events[|events| - 1]);
            (exists i: nat :: OpenSince(events, i, code, expires)) <==>
              Makes(Run(rest), e, code, expires) ||
              ((exists i: nat :: OpenSince(rest, i, code, expires)) && !Ends(Run(rest), e, code, expires))
  {
    var rest, e := events[..|events| - 1], events[|events| - 1];
    forall i: nat | i < |rest|
      ensures OpenSince(events, i, code, expires) <==> OpenSince(rest, i, code, expires) && !Ends(Run(rest), e, code, expires)
    {
      SinceOneMore(events, i, code, expires);
    }
    if Makes(Run(rest), e, code, expires) { assert OpenSince(events, |rest|, code, expires); }
  }

  lemma SinceOneMore(events: seq<Event>, i: nat, code: string, expires: int)
    requires i + 1 < |events|
    ensures var (rest, e) := (events[..|events| - 1], events[|events| - 1]);
            OpenSince(events, i, code, expires) <==> OpenSince(rest, i, code, expires) && !Ends(Run(rest), e, code, expires)
  {
    var rest := events[..|events| - 1];
    assert rest[..i] == events[..i];
    forall j: nat | j < |rest| ensures LeftAlone(events, j, code, expires) == LeftAlone(rest, j, code, expires) {
      assert rest[..j] == events[..j];
    }
    assert LeftAlone(events, |rest|, code, expires) == !Ends(Run(rest), events[|rest|], code, expires);
  }

  /** A PC is connected exactly by a code that was made earlier with a later expiry and has not been ended since; then it is
      connected and not revoked, and the code is used up. */
  lemma ConnectsIff(events: seq<Event>, code: string, device: string, now: int)
    ensures var (st, st') := (Run(events), Step(Run(events), Enroll(code, device, now)));
            if exists i: nat, expires: int :: OpenSince(events, i, code, expires) && now < expires then
              && st'.pairings == st.pairings + [(code, device)]
              && device in st'.devices && !IsRevoked(st', device)
              && (forall d :: d != device ==> (d in st'.devices <==> d in st.devices) && IsRevoked(st', d) == IsRevoked(st, d))
              && (forall expires :: !IsOpen(st', code, expires))
              && st' == st.(pairings := st'.pairings, devices := st'.devices, codes := st'.codes)
            else st' == st
  {
    var st, st' := Run(events), Step(Run(events), Enroll(code, device, now));
    forall expires: int { OpenIff(events, code, expires); }
    if st' == st {
      forall i: nat, expires: int | OpenSince(events, i, code, expires) ensures now >= expires {
        assert IsOpen(st, code, expires);
      }
    } else {
      var expires := st.codes[code].expires;
      assert IsOpen(st, code, expires);
      var i: nat :| OpenSince(events, i, code, expires);
      assert OpenSince(events, i, code, expires) && now < expires;
    }
  }

  /** In every run a PC that is connected came with such a code. */
  lemma {:induction false} EveryPairingHadAnOpenCode(events: seq<Event>, p: nat)
    requires p < |Run(events).pairings|
    ensures exists n: nat :: PairsAt(events, n, p)
  {
    var rest, e := events[..|events| - 1], events[|events| - 1];
    if p < |Run(rest).pairings| {
      EveryPairingHadAnOpenCode(rest, p);
      var n: nat :| PairsAt(rest, n, p);
      PairsLater(events, n, p);
    } else {
      PairsNow(events, p);
    }
  }

  lemma OnlyEnrollingPairs(st: State, e: Event)
    ensures e.Enroll? || Step(st, e).pairings == st.pairings
  {
  }

  lemma PairsNow(events: seq<Event>, p: nat)
    requires events != [] && |Run(events[..|events| - 1]).pairings| <= p < |Run(events).pairings|
    ensures PairsAt(events, |events| - 1, p)
  {
    var rest, e := events[..|events| - 1], events[|events| - 1];
    OnlyEnrollingPairs(Run(rest), e);
    ConnectsIff(rest, e.code, e.device, e.now);
    assert events[..|rest|] == rest;
  }

  /** Event `n` connected pairing `p`'s PC with its code, good at that time. */
  ghost predicate PairsAt(events: seq<Event>, n: nat, p: nat) {
    && n < |events| && events[n].Enroll? && p < |Run(events).pairings|
    && Run(events).pairings[p] == (events[n].code, events[n].device)
    && exists i: nat, expires: int :: OpenSince(events[..n], i, events[n].code, expires) && events[n].now < expires
  }

  lemma PairsLater(events: seq<Event>, n: nat, p: nat)
    requires events != [] && PairsAt(events[..|events| - 1], n, p)
    ensures PairsAt(events, n, p)
  {
    assert events[..|events| - 1][..n] == events[..n];
    PairingsStay(Run(events[..|events| - 1]), events[|events| - 1], p);
  }

  lemma PairingsStay(st: State, e: Event, p: nat)
    requires p < |st.pairings|
    ensures p < |Step(st, e).pairings| && Step(st, e).pairings[p] == st.pairings[p]
  {
  }

  // ── The tables ──

  class Server {
    var rows: map<nat, Row>
    var nextRow: nat
    var devices: map<string, bool>
    var codes: map<string, Code>
    var certs: set<nat>
    var nextCert: nat

    ghost var runs: map<nat, Phase>
    ghost var saved: map<nat, nat>
    ghost var knownCodes: set<string>
    ghost var pairings: seq<(string, string)>

    ghost function View(): State
      reads this
    {
      State(rows, nextRow, devices, codes, certs, nextCert, runs, saved, knownCodes, pairings)
    }

    constructor ()
      ensures View() == EMPTY
    {
      rows, nextRow, devices, codes, certs, nextCert := map[], 0, map[], map[], {}, 0;
      runs, saved, knownCodes, pairings := map[], map[], {}, [];
    }

    method Transition(id: nat, from: Status, to: Status, cert: Option<nat>) returns (moved: bool)
      modifies this`rows
      ensures rows == Moved(old(rows), id, from, to, cert)
      ensures moved <==> InStatus(old(rows), id, from)
    {
      if id !in rows || rows[id].status != from {
        return false;
      }
      var row := rows[id].(status := to);
      if cert.Some? {
        row := row.(cert := cert);
      }
      rows := rows[id := row];
      return true;
    }

    /** The steps of `_issue`, as run `run` takes them; other requests are served in between. */
    method ClaimRequest(ghost run: nat, request: nat) returns (claimed: bool)
      requires run !in runs
      modifies this
      ensures View() == Step(old(View()), Claim(run, request))
      ensures claimed <==> InStatus(old(rows), request, Pending)
    {
      claimed := Transition(request, Pending, Issuing, None);
      if claimed {
        runs := runs[run := Claimed(request)];
      }
    }

    method LoadRequest(ghost run: nat, request: nat, caThere: bool) returns (loaded: bool)
      requires run in runs && runs[run] == Claimed(request)
      modifies this
      ensures View() == Step(old(View()), Load(run, caThere))
      ensures loaded <==> caThere && request in old(rows)
    {
      loaded := caThere && request in rows;
      if loaded {
        runs := runs[run := Loaded(request)];
      } else {
        PutBack(run, request);
      }
    }

    method PutBack(ghost run: nat, request: nat)
      requires run in runs && !runs[run].Saved? && runs[run].request == request
      modifies this
      ensures View() == Failed(old(View()), run)
    {
      var moved := Transition(request, Issuing, Pending, None);
      runs := runs - {run};
    }

    method SaveIssued(ghost run: nat, request: nat) returns (cert: nat)
      requires run in runs && runs[run] == Loaded(request)
      modifies this
      ensures View() == Step(old(View()), SaveCert(run))
      ensures cert == old(nextCert) && runs[run] == Saved(request, cert)
    {
      cert := nextCert;
      certs, nextCert := certs + {cert}, nextCert + 1;
      saved := saved[cert := request];
      runs := runs[run := Saved(request, cert)];
    }

    method FinishRequest(ghost run: nat, request: nat, cert: nat)
      requires run in runs && runs[run] == Saved(request, cert)
      modifies this
      ensures View() == Step(old(View()), Finish(run))
    {
      var moved := Transition(request, Issuing, Issued, Some(cert));
      runs := runs - {run};
    }

    /** Denies the device's waiting requests, one row after the other. */
    method RevokePc(device: string) returns (done: bool)
      modifies this
      ensures View() == Step(old(View()), RevokeDevice(device))
      ensures done <==> device in old(devices) && !old(devices)[device]
      ensures done ==> forall id <- rows :: rows[id].device == device ==> rows[id].status != Pending
    {
      if device !in devices || devices[device] {
        return false;
      }
      devices := devices[device := true];
      var left := rows.Keys;
      while left != {}
        invariant left <= rows.Keys == old(rows).Keys
        invariant forall id <- left :: rows[id] == old(rows)[id]
        invariant forall id <- rows.Keys - left :: rows[id] == PendingDenied(old(rows), device)[id]
        invariant devices == old(devices)[device := true] && unchanged(`nextRow, `codes, `certs, `nextCert)
        invariant runs == old(runs) && saved == old(saved) && knownCodes == old(knownCodes) && pairings == old(pairings)
        decreases |left|
      {
        var id :| id in left;
        if rows[id].device == device && rows[id].status == Pending {
          rows := rows[id := rows[id].(status := Denied)];
        }
        left := left - {id};
      }
      assert rows == PendingDenied(old(rows), device);
      return true;
    }

    /** Uses the code and creates its device in one transaction. */
    method EnrollPc(code: string, device: string, now: int) returns (paired: bool)
      modifies this
      ensures View() == Step(old(View()), Enroll(code, device, now))
      ensures paired <==> pairings == old(pairings) + [(code, device)]
    {
      if code !in codes || codes[code].used || codes[code].revoked || codes[code].expires <= now {
        return false;
      }
      codes := codes[code := codes[code].(used := true)];
      devices := devices[device := false];
      pairings := pairings + [(code, device)];
      return true;
    }
  }
}
