/** Which certificates a PC still holds (app/db.py, app/routes/pal.py): store audits by several Windows accounts
    of one PC, removals, and the copies a new certificate supersedes. */
module Presence {
  import opened Wrappers

  const USER_TEMPLATES := {"user", "code-signing"}

  /** A Windows account name, with its case-folded form. */
  datatype Account = Account(name: string, folded: string)

  datatype Cert = Cert(device: string, serial: string, template: string, name: string, notAfter: int, dp: bool,
                       revoked: bool, owner: Option<Account>, present: Option<bool>)

  datatype State = State(certs: map<nat, Cert>, nextId: nat, now: int)

  const EMPTY := State(map[], 0, 0)

  /** Account names are compared without regard to case. */
  predicate SameAccount(a: Option<Account>, b: Option<Account>) {
    a.Some? && b.Some? && a.value.folded == b.value.folded
  }

  // ── One certificate's turn in a store audit ──

  /** Only its own account can tell that a certificate in a user store is missing. */
  predicate AbsenceSaysNothing(c: Cert, found: set<string>, user: Option<Account>) {
    c.template in USER_TEMPLATES && c.serial !in found && !SameAccount(c.owner, user)
  }

  function MarkedOne(c: Cert, found: set<string>, user: Option<Account>): Cert {
    if AbsenceSaysNothing(c, found, user) then c
    else c.(present := Some(c.serial in found),
            owner := if c.template in USER_TEMPLATES && c.serial in found && c.owner.None? then user else c.owner)
  }

  function Marked(certs: map<nat, Cert>, device: string, found: set<string>, user: Option<Account>): map<nat, Cert> {
    map id <- certs :: if certs[id].device == device then MarkedOne(certs[id], found, user) else certs[id]
  }

  /** Unrevoked, and gone now though the last check had it. */
  function Gone(certs: map<nat, Cert>, device: string, found: set<string>, user: Option<Account>): set<nat> {
    set id | id in certs && certs[id].device == device && certs[id].present == Some(true) && !certs[id].revoked
             && certs[id].serial !in found && !AbsenceSaysNothing(certs[id], found, user)
  }

  // ── The handlers ──

  predicate Live(c: Cert, device: string, template: string, name: string, now: int) {
    c.device == device && c.template == template && c.name == name && !c.revoked && c.notAfter > now
  }

  /** Live copies that count as gone; only what has a distribution point is revoked. */
  function Superseded(st: State, c: Cert): set<nat> {
    set id | id in st.certs && Live(st.certs[id], c.device, c.template, c.name, st.now)
             && st.certs[id].present == Some(false) && st.certs[id].dp
  }

  function Revoked(certs: map<nat, Cert>, ids: set<nat>): map<nat, Cert> {
    map id <- certs :: if id in ids then certs[id].(revoked := true) else certs[id]
  }

  function RemovedByPc(st: State, device: string, serials: set<string>): set<nat> {
    set id | id in st.certs && st.certs[id].device == device && st.certs[id].serial in serials && !st.certs[id].revoked
  }

  function MarkedRemoved(certs: map<nat, Cert>, ids: set<nat>): map<nat, Cert> {
    map id <- certs :: if id in ids then certs[id].(present := Some(false)) else certs[id]
  }

  predicate WellNumbered(st: State) {
    forall id <- st.certs :: id < st.nextId
  }

  type Backup = st: State | WellNumbered(st) witness EMPTY

  /** The backup's certificates replace the current ones, without their device, owner and presence. */
  function Restored(st: State, backup: Backup): State {
    st.(certs := map id <- backup.certs :: backup.certs[id].(device := "", owner := None, present := None),
        nextId := Max(st.nextId, backup.nextId))
  }

  datatype Event =
    | Issue(cert: Cert)
    | Audit(device: string, found: set<string>, user: Option<Account>)
    | Remove(device: string, serials: set<string>)
    | AdminRevoke(ids: set<nat>)
    | Delete(id: nat)
    | Clock(now: int)
    | Restore(backup: Backup)

  function Step(st: State, e: Event): State {
    match e
    case Issue(cert) =>
      st.(certs := Revoked(st.certs, Superseded(st, cert))[st.nextId := cert.(revoked := false, present := None)],
          nextId := st.nextId + 1)
    case Audit(device, found, user) => st.(certs := Marked(st.certs, device, found, user))
    case Remove(device, serials) =>
      var ids := RemovedByPc(st, device, serials);
      st.(certs := MarkedRemoved(Revoked(st.certs, set id | id in ids && st.certs[id].dp), ids))
    case AdminRevoke(ids) => st.(certs := Revoked(st.certs, ids))
    case Delete(id) => st.(certs := st.certs - {id})
    case Clock(now) => st.(now := now)
    case Restore(backup) => Restored(st, backup)
  }

  function Run(events: seq<Event>): (st: State)
    ensures WellNumbered(st)
  {
    if events == [] then EMPTY else Step(Run(events[..|events| - 1]), events[|events| - 1])
  }

  // ── What a PC's accounts can do to one another's certificates ──

  /** Only the certificate's revocation, owner and presence ever change; a recorded owner never does. */
  ghost predicate SameCert(c: Cert, c': Cert) {
    && c'.(revoked := c.revoked, owner := c.owner, present := c.present) == c
    && (c.revoked ==> c'.revoked) && (c.owner.Some? ==> c'.owner == c.owner)
  }

  lemma StepKeepsCert(st: State, e: Event, id: nat)
    requires id in st.certs && id < st.nextId && id in Step(st, e).certs && !e.Restore?
    ensures SameCert(st.certs[id], Step(st, e).certs[id])
  {
  }

  // ── What each event does to each row ──

  predicate Owns(user: Option<Account>, c: Cert) {
    match (user, c.owner)
    case (Some(u), Some(owner)) => u.folded == owner.folded
    case _ => false
  }

  predicate OfAUser(c: Cert) {
    c.template == "user" || c.template == "code-signing"
  }

  /** An audit tells of each of its device's certificates whether it is there, but of a user's missing one only to its owner;
      a user's certificate that is found and has no owner gets one.  It touches nothing else. */
  lemma AuditedRow(st: State, e: Event, id: nat)
    requires e.Audit? && id in st.certs
    ensures Step(st, e).certs.Keys == st.certs.Keys && Step(st, e) == st.(certs := Step(st, e).certs)
    ensures var (c, c') := (st.certs[id], Step(st, e).certs[id]);
            && c' == c.(present := c'.present, owner := c'.owner)
            && c'.present == (if c.device != e.device then c.present
                              else if c.serial in e.found then Some(true)
                              else if OfAUser(c) && !Owns(e.user, c) then c.present else Some(false))
            && c'.owner == if c.device == e.device && c.serial in e.found && OfAUser(c) && c.owner.None? then e.user else c.owner
  {
  }

  /** What an audit reports gone is what it turns from there to gone, but for what is revoked. */
  lemma ReportedGoneIff(st: State, device: string, found: set<string>, user: Option<Account>, id: nat)
    requires id in st.certs
    ensures var (c, c') := (st.certs[id], Step(st, Audit(device, found, user)).certs[id]);
            id in Gone(st.certs, device, found, user) <==>
              c.device == device && !c.revoked && c.present == Some(true) && c'.present == Some(false)
  {
  }

  /** A new certificate gets a row of its own, and revokes exactly the live copies of it that count as gone and can be revoked. */
  lemma IssuedRow(st: State, cert: Cert, id: nat)
    requires WellNumbered(st) && id in st.certs
    ensures var st' := Step(st, Issue(cert));
            && st'.certs.Keys == st.certs.Keys + {st.nextId} && st'.certs[st.nextId] == cert.(revoked := false, present := None)
            && st' == st.(certs := st'.certs, nextId := st.nextId + 1)
            && var (c, c') := (st.certs[id], st'.certs[id]);
               && c' == c.(revoked := c'.revoked)
               && c'.revoked == (c.revoked || (c.device == cert.device && c.template == cert.template && c.name == cert.name
                                               && st.now < c.notAfter && c.present == Some(false) && c.dp))
  {
  }

  /** A PC's removal marks exactly its unrevoked certificates that it names, and revokes those that can be; an admin revokes
      what is named; deleting, the clock and a restore do that and no more. */
  lemma OtherRow(st: State, e: Event, id: nat)
    requires !e.Audit? && !e.Issue? && !e.Restore?
    ensures id in Step(st, e).certs <==> id in st.certs && e != Delete(id)
    ensures id in Step(st, e).certs ==>
              var (c, c') := (st.certs[id], Step(st, e).certs[id]);
              var named := e.Remove? && c.device == e.device && c.serial in e.serials && !c.revoked;
              && c' == c.(present := c'.present, revoked := c'.revoked)
              && c'.present == (if named then Some(false) else c.present)
              && c'.revoked == (c.revoked || (named && c.dp) || (e.AdminRevoke? && id in e.ids))
    ensures Step(st, e) == st.(certs := Step(st, e).certs, now := if e.Clock? then e.now else st.now)
  {
  }

  lemma RestoredRow(st: State, backup: Backup, id: nat)
    ensures var st' := Step(st, Restore(backup));
            && (id in st'.certs <==> id in backup.certs)
            && (id in st'.certs ==>
                  var (c, c') := (backup.certs[id], st'.certs[id]);
                  c'.(device := c.device, owner := c.owner, present := c.present) == c
                  && c'.device == "" && c'.owner.None? && c'.present.None?)
  {
  }

  lemma RunMore(events: seq<Event>, e: Event)
    ensures Run([]) == EMPTY && Run(events + [e]) == Step(Run(events), e)
  {
    assert (events + [e])[..|events|] == events;
  }

  /** The owner's own audit did not find it, or the PC said it removed it. */
  ghost predicate ReportsAbsent(e: Event, c: Cert) {
    || (e.Audit? && e.device == c.device && c.serial !in e.found && SameAccount(c.owner, e.user))
    || (e.Remove? && e.device == c.device && c.serial in e.serials)
  }

  predicate InUserStore(c: Cert) {
    c.template in USER_TEMPLATES
  }

  lemma AbsenceComesFromAReport(st: State, e: Event, id: nat)
    requires id in st.certs && id < st.nextId && id in Step(st, e).certs && InUserStore(st.certs[id])
    requires st.certs[id].present != Some(false) && Step(st, e).certs[id].present == Some(false)
    ensures ReportsAbsent(e, Step(st, e).certs[id])
  {
  }

  /** After the first `n` events the row is there and counts as gone. */
  ghost predicate GoneAfter(events: seq<Event>, n: nat, id: nat) {
    n <= |events| && id in Run(events[..n]).certs && Run(events[..n]).certs[id].present == Some(false)
  }

  /** Event `i` reports the row's certificate gone, which until then it was not. */
  ghost predicate GoesAt(events: seq<Event>, i: nat, id: nat) {
    && i < |events| && id in Run(events[..i]).certs && Run(events[..i]).certs[id].present != Some(false)
    && GoneAfter(events, i + 1, id) && ReportsAbsent(events[i], Run(events[..i + 1]).certs[id])
  }

  /** Event `i` is the report the row counts as gone for: until then it did not, and ever since it has. */
  ghost predicate GoneSince(events: seq<Event>, i: nat, id: nat) {
    GoesAt(events, i, id) && forall n: nat :: i < n <= |events| ==> GoneAfter(events, n, id)
  }

  /** Between two restores a row stays one certificate's, and its owner, once recorded, the owner. */
  lemma {:induction false} OwnerIsWriteOnce(events: seq<Event>, n: nat, id: nat)
    requires n <= |events| && id in Run(events[..n]).certs && id in Run(events).certs
    requires forall m :: n <= m < |events| ==> !events[m].Restore?
    ensures SameCert(Run(events[..n]).certs[id], Run(events).certs[id])
    decreases |events|
  {
    if n == |events| {
      assert events[..n] == events;
    } else {
      var rest := events[..|events| - 1];
      assert rest[..n] == events[..n];
      StayedThere(events, n, id);
      OwnerIsWriteOnce(rest, n, id);
      StepKeepsCert(Run(rest), events[|events| - 1], id);
    }
  }

  /** A row that goes never comes back: ids are not used twice. */
  lemma {:induction false} StayedThere(events: seq<Event>, n: nat, id: nat)
    requires n < |events| && id in Run(events[..n]).certs && id in Run(events).certs && !events[|events| - 1].Restore?
    ensures id in Run(events[..|events| - 1]).certs
  {
    var rest := events[..|events| - 1];
    assert events[..n] == rest[..n];
    IdsGrow(rest, n);
  }

  lemma {:induction false} IdsGrow(events: seq<Event>, n: nat)
    requires n <= |events|
    ensures Run(events[..n]).nextId <= Run(events).nextId
    decreases |events|
  {
    if n == |events| {
      assert events[..n] == events;
    } else {
      assert events[..|events| - 1][..n] == events[..n];
      IdsGrow(events[..|events| - 1], n);
    }
  }

  /** Whenever a user's certificate counts as gone, the event that made it so was its owner's own audit missing it, or its
      removal, and nothing since has found it. */
  lemma {:induction false} AbsentOnlyByItsOwner(events: seq<Event>, id: nat)
    requires var st := Run(events); id in st.certs && InUserStore(st.certs[id]) && st.certs[id].present == Some(false)
    ensures exists i: nat :: GoneSince(events, i, id)
  {
    var rest, e := events[..|events| - 1], events[|events| - 1];
    var st := Run(rest);
    if id in st.certs && st.certs[id].present == Some(false) {
      AbsentOnlyByItsOwner(rest, id);
      var i: nat :| GoneSince(rest, i, id);
      StillGone(events, i, id);
    } else {
      assert id in st.certs;
      AbsenceComesFromAReport(st, e, id);
      assert events[..|events|] == events;
      assert GoneSince(events, |rest|, id);
    }
  }

  lemma StillGone(events: seq<Event>, i: nat, id: nat)
    requires events != [] && GoneSince(events[..|events| - 1], i, id)
    requires id in Run(events).certs && Run(events).certs[id].present == Some(false)
    ensures GoneSince(events, i, id)
  {
    var rest := events[..|events| - 1];
    WentAt(events, i, id);
    forall n: nat | i < n <= |events| ensures GoneAfter(events, n, id) {
      if n < |events| {
        assert GoneAfter(rest, n, id);
        assert rest[..n] == events[..n];
      } else {
        assert events[..n] == events;
      }
    }
  }

  lemma WentAt(events: seq<Event>, i: nat, id: nat)
    requires events != [] && GoesAt(events[..|events| - 1], i, id)
    ensures GoesAt(events, i, id)
  {
    var rest := events[..|events| - 1];
    assert rest[..i] == events[..i];
    assert rest[..i + 1] == events[..i + 1];
  }

  /** A new certificate gets a user's copy revoked only while such a report stands. */
  lemma SupersededOnlyByItsOwner(events: seq<Event>, id: nat, newer: Cert)
    requires var st := Run(events); id in st.certs && InUserStore(st.certs[id]) && !st.certs[id].revoked
    requires Step(Run(events), Issue(newer)).certs[id].revoked
    ensures exists i: nat :: GoneSince(events, i, id)
    ensures Live(Run(events).certs[id], newer.device, newer.template, newer.name, Run(events).now)
  {
    AbsentOnlyByItsOwner(events, id);
  }

  /** The PC holds a live copy, so no second one is issued. */
  predicate Holds(st: State, id: nat, device: string, template: string, name: string) {
    id in st.certs && Live(st.certs[id], device, template, name, st.now) && st.certs[id].present != Some(false)
  }

  /** A new certificate holds its name for its own PC until it expires, is revoked, or counts as gone; it holds no other. */
  lemma HoldsItsNameUntil(st: State, cert: Cert, now: int, present: Option<bool>, revoked: bool, device: string, template: string, name: string)
    ensures var issued := Step(st, Issue(cert));
            var later := issued.(now := now, certs := issued.certs[st.nextId := issued.certs[st.nextId].(present := present, revoked := revoked)]);
            Holds(later, st.nextId, device, template, name) <==>
              (device, template, name) == (cert.device, cert.template, cert.name)
              && now < cert.notAfter && !revoked && present != Some(false)
  {
  }

  /** Another account's audit leaves a user's certificate holding its name, and its owner's. */
  lemma CheckInFreesNoName(st: State, id: nat, device: string, found: set<string>, user: Option<Account>)
    requires id in st.certs && InUserStore(st.certs[id]) && !SameAccount(st.certs[id].owner, user)
    requires var c := st.certs[id]; Holds(st, id, c.device, c.template, c.name)
    ensures var (c, st') := (st.certs[id], Step(st, Audit(device, found, user)));
            Holds(st', id, c.device, c.template, c.name) && (c.owner.Some? ==> st'.certs[id].owner == c.owner)
  {
  }

  /** Whoever's audit first finds an ownerless certificate keeps it: no other account's audit, then or
      later, makes it count as gone. */
  lemma FirstFinderKeepsIt(st: State, id: nat, found: set<string>, finder: Account, events: seq<Event>)
    requires id in st.certs && id < st.nextId && InUserStore(st.certs[id]) && st.certs[id].owner.None? && st.certs[id].serial in found
    requires forall e <- events :: e.Audit? && !SameAccount(Some(finder), e.user)
    ensures var first := Step(st, Audit(st.certs[id].device, found, Some(finder)));
            var last := Audited(first, events);
            && id in last.certs && InUserStore(last.certs[id])
            && last.certs[id].owner == Some(finder) && last.certs[id].present == Some(true)
  {
    var first := Step(st, Audit(st.certs[id].device, found, Some(finder)));
    if events != [] {
      FirstFinderKeepsIt(st, id, found, finder, events[..|events| - 1]);
      assert events[|events| - 1] in events;
    }
  }

  function Audited(st: State, events: seq<Event>): State {
    if events == [] then st else Step(Audited(st, events[..|events| - 1]), events[|events| - 1])
  }

  lemma {:induction false} AuditedRuns(before: seq<Event>, events: seq<Event>)
    ensures Audited(Run(before), events) == Run(before + events)
  {
    if events == [] {
      assert before + [] == before;
    } else {
      AuditedRuns(before, events[..|events| - 1]);
      assert (before + events)[..|before + events| - 1] == before + events[..|events| - 1];
    }
  }

  // ── The table, changed in place ──

  class Certificates {
    var certs: map<nat, Cert>

    constructor ()
      ensures certs == map[]
    {
      certs := map[];
    }

    /** One row of a store audit. */
    method MarkRow(id: nat, found: set<string>, user: Option<Account>) returns (gone: bool)
      requires id in certs
      modifies `certs
      ensures certs == old(certs)[id := MarkedOne(old(certs)[id], found, user)]
      ensures gone <==> id in Gone(old(certs), old(certs)[id].device, found, user)
    {
      var row := certs[id];
      var present := row.serial in found;
      gone := false;
      if row.template in USER_TEMPLATES {
        if present && row.owner.None? && user.Some? {
          certs := certs[id := certs[id].(owner := user)];
        }
        if !present && !(row.owner.Some? && user.Some? && row.owner.value.folded == user.value.folded) {
          return;
        }
      }
      gone := row.present == Some(true) && !present && !row.revoked;
      certs := certs[id := certs[id].(present := Some(present))];
    }

    /** One store audit, row by row. */
    method MarkPalPresence(device: string, found: set<string>, user: Option<Account>) returns (gone: set<nat>)
      modifies `certs
      ensures certs == Marked(old(certs), device, found, user)
      ensures gone == Gone(old(certs), device, found, user)
    {
      gone := {};
      ghost var before := certs;
      var rows := set id | id in certs && certs[id].device == device;
      var todo := rows;
      while todo != {}
        invariant todo <= rows && certs.Keys == before.Keys
        invariant forall id <- before :: certs[id] == if id in rows - todo then MarkedOne(before[id], found, user) else before[id]
        invariant gone == Gone(before, device, found, user) - todo
        decreases todo
      {
        var id :| id in todo;
        todo := todo - {id};
        var missing := MarkRow(id, found, user);
        if missing { gone := gone + {id}; }
      }
    }

    method MarkPalRemoved(ids: seq<nat>)
      modifies `certs
      ensures certs == MarkedRemoved(old(certs), set id | id in ids)
    {
      for i := 0 to |ids|
        invariant certs == MarkedRemoved(old(certs), set id | id in ids[..i])
      {
        if ids[i] in certs { certs := certs[ids[i] := certs[ids[i]].(present := Some(false))]; }
      }
      assert ids[..|ids|] == ids;
    }
  }
}
