/** Backup and restore (app/db.py): every table is exported with its secrets in plain, and restored into a database
    that may be sealed under another data key or none.  `rest` stands for the columns copied as they are. */
module Backup {
  import opened Wrappers
  import opened KeyHierarchy

  datatype CaRow = CaRow(parent: Option<nat>, serial: string, key: Blob, crlDays: int, rest: string)

  /** What a certificate says of itself: its CRL distribution points. */
  datatype Pem = Pem(points: seq<string>, text: string)

  datatype CertRow = CertRow(ca: nat, serial: string, pem: Pem, key: Blob, revoked: bool, revokedAt: Option<string>,
                             createdAt: string, crlDpUrl: string, pal: Option<string>, rest: string)

  datatype SshRow = SshRow(key: Blob, rest: string)

  datatype Revocation = Revocation(revokedAt: string, notAfter: int)

  /** A TOTP secret is text in a plain database and sealed bytes in an encrypted one. */
  datatype Totp = NoTotp | Text(text: string) | Bytes(blob: Blob)

  datatype UserRow = UserRow(name: string, totp: Totp, lastStep: int, sessionVersion: int, rest: string)

  datatype Db = Db(cas: map<nat, CaRow>, certs: map<nat, CertRow>, ssh: map<nat, SshRow>,
                   deleted: map<(nat, string), Revocation>, users: map<nat, UserRow>, pairings: set<string>)

  // ── The backup: one record a row, secrets in plain ──

  datatype CaRec = CaRec(id: nat, parent: Option<nat>, serial: string, key: string, crlDays: Option<int>, rest: string)

  datatype CertRec = CertRec(id: nat, ca: nat, serial: string, pem: Pem, key: string, revoked: bool,
                             revokedAt: Option<string>, createdAt: string, rest: string)

  datatype SshRec = SshRec(id: nat, key: string, rest: string)

  datatype DeletedRec = DeletedRec(ca: nat, serial: string, revocation: Revocation)

  datatype UserRec = UserRec(id: nat, name: string, totp: Option<string>, rest: string)

  datatype Data = Data(version: int, cas: seq<CaRec>, certs: seq<CertRec>, ssh: seq<SshRec>,
                       deleted: seq<DeletedRec>, users: seq<UserRec>)

  datatype BackupError = UnsupportedVersion | DatabaseLocked | DoesNotMatch

  // ── Exporting ──

  predicate Readable(b: Blob, key: Option<Key>) {
    DecryptWith(b, key).Ok? && DecryptWith(b, key).value.Plain?
  }

  function TextOf(b: Blob, key: Option<Key>): string
    requires Readable(b, key)
  {
    DecryptWith(b, key).value.bytes
  }

  predicate TotpReadable(t: Totp, key: Option<Key>) {
    t.Bytes? ==> Readable(t.blob, key)
  }

  function TotpText(t: Totp, key: Option<Key>): Option<string>
    requires TotpReadable(t, key)
  {
    match t
    case NoTotp => None
    case Text(text) => Some(text)
    case Bytes(blob) => Some(TextOf(blob, key))
  }

  /** The order the rows are listed in: by id, for tables that have one. */
  datatype Order = Order(cas: seq<nat>, certs: seq<nat>, ssh: seq<nat>, deleted: seq<(nat, string)>, users: seq<nat>)

  ghost predicate Once<T(!new)>(s: seq<T>, all: set<T>) {
    && First(s, |s|) == all && (forall i :: 0 <= i < |s| ==> s[i] in all)
    && (forall i, j :: Apart(s, i, j))
  }

  ghost predicate Apart<T>(s: seq<T>, i: int, j: int) {
    0 <= i < j < |s| ==> s[i] != s[j]
  }

  ghost predicate Rising(s: seq<nat>) {
    forall i, j :: 0 <= i < j < |s| ==> s[i] < s[j]
  }

  ghost predicate Orders(db: Db, o: Order) {
    && Once(o.cas, db.cas.Keys) && Rising(o.cas) && Once(o.certs, db.certs.Keys) && Once(o.ssh, db.ssh.Keys)
    && Once(o.deleted, db.deleted.Keys) && Once(o.users, db.users.Keys)
  }

  /** The first `n` rows listed. */
  ghost function First<T(!new)>(s: seq<T>, n: nat): set<T>
    requires n <= |s|
  {
    set i | 0 <= i < n :: s[i]
  }

  lemma FirstGrows<T(!new)>(s: seq<T>, all: set<T>, n: nat)
    requires Once(s, all) && 0 < n <= |s|
    ensures First(s, n) == First(s, n - 1) + {s[n - 1]} && s[n - 1] !in First(s, n - 1) && s[n - 1] in all
  {
    forall i | 0 <= i < n - 1 ensures s[i] != s[n - 1] { assert Apart(s, i, n - 1); }
  }

  ghost predicate AllReadable(db: Db, key: Option<Key>) {
    && CasReadable(db.cas, key) && CertsReadable(db.certs, key) && SshReadable(db.ssh, key) && UsersReadable(db.users, key)
  }

  ghost predicate CasReadable(cas: map<nat, CaRow>, key: Option<Key>) {
    forall id <- cas :: Readable(cas[id].key, key)
  }

  ghost predicate CertsReadable(certs: map<nat, CertRow>, key: Option<Key>) {
    forall id <- certs :: Readable(certs[id].key, key)
  }

  ghost predicate SshReadable(ssh: map<nat, SshRow>, key: Option<Key>) {
    forall id <- ssh :: Readable(ssh[id].key, key)
  }

  ghost predicate UsersReadable(users: map<nat, UserRow>, key: Option<Key>) {
    forall id <- users :: TotpReadable(users[id].totp, key)
  }

  function CaRecOf(id: nat, c: CaRow, key: Option<Key>): CaRec
    requires Readable(c.key, key)
  {
    CaRec(id, c.parent, c.serial, TextOf(c.key, key), Some(c.crlDays), c.rest)
  }

  function CertRecOf(id: nat, c: CertRow, key: Option<Key>): CertRec
    requires Readable(c.key, key)
  {
    CertRec(id, c.ca, c.serial, c.pem, TextOf(c.key, key), c.revoked, c.revokedAt, c.createdAt, c.rest)
  }

  function UserRecOf(id: nat, u: UserRow, key: Option<Key>): UserRec
    requires TotpReadable(u.totp, key)
  {
    UserRec(id, u.name, TotpText(u.totp, key), u.rest)
  }

  ghost function CaRecs(cas: map<nat, CaRow>, order: seq<nat>, key: Option<Key>): seq<CaRec>
    requires Once(order, cas.Keys) && CasReadable(cas, key)
  {
    seq(|order|, i requires 0 <= i < |order| => CaRecOf(order[i], cas[order[i]], key))
  }

  ghost function CertRecs(certs: map<nat, CertRow>, order: seq<nat>, key: Option<Key>): seq<CertRec>
    requires Once(order, certs.Keys) && CertsReadable(certs, key)
  {
    seq(|order|, i requires 0 <= i < |order| => CertRecOf(order[i], certs[order[i]], key))
  }

  ghost function SshRecs(ssh: map<nat, SshRow>, order: seq<nat>, key: Option<Key>): seq<SshRec>
    requires Once(order, ssh.Keys) && SshReadable(ssh, key)
  {
    seq(|order|, i requires 0 <= i < |order| => SshRec(order[i], TextOf(ssh[order[i]].key, key), ssh[order[i]].rest))
  }

  ghost function DeletedRecs(deleted: map<(nat, string), Revocation>, order: seq<(nat, string)>): seq<DeletedRec>
    requires Once(order, deleted.Keys)
  {
    seq(|order|, i requires 0 <= i < |order| => DeletedRec(order[i].0, order[i].1, deleted[order[i]]))
  }

  ghost function UserRecs(users: map<nat, UserRow>, order: seq<nat>, key: Option<Key>): seq<UserRec>
    requires Once(order, users.Keys) && UsersReadable(users, key)
  {
    seq(|order|, i requires 0 <= i < |order| => UserRecOf(order[i], users[order[i]], key))
  }

  ghost function Export(db: Db, key: Option<Key>, o: Order): Data
    requires Orders(db, o) && AllReadable(db, key)
  {
    Data(1, CaRecs(db.cas, o.cas, key), CertRecs(db.certs, o.certs, key), SshRecs(db.ssh, o.ssh, key),
         DeletedRecs(db.deleted, o.deleted), UserRecs(db.users, o.users, key))
  }

  // ── Restoring, one row at a time ──

  /** Restoring is refused while an encrypted database is locked, so no key means a plain database. */
  function Stored(text: string, key: Option<Key>): Blob {
    if key.Some? then EncryptColumn(Plain(text), key.value) else Plain(text)
  }

  function RestoredCrlDays(days: Option<int>): int {
    if days.Some? && 1 <= days.value <= 14 then days.value else 7
  }

  function CaRowOf(r: CaRec, key: Option<Key>): CaRow {
    CaRow(r.parent, r.serial, Stored(r.key, key), RestoredCrlDays(r.crlDays), r.rest)
  }

  /** None when the insert breaks a rule of the table: ids and serials are unique and a parent must be there. */
  function InsertCa(cas: map<nat, CaRow>, r: CaRec, key: Option<Key>): Option<map<nat, CaRow>> {
    if r.id in cas || (exists id <- cas :: cas[id].serial == r.serial) || (r.parent.Some? && r.parent.value !in cas && r.parent != Some(r.id))
    then None
    else Some(cas[r.id := CaRowOf(r, key)])
  }

  /** The distribution point is read back out of the certificate. */
  function CertRowOf(r: CertRec, key: Option<Key>): CertRow {
    CertRow(r.ca, r.serial, r.pem, Stored(r.key, key), r.revoked, r.revokedAt, r.createdAt,
            if r.pem.points == [] then "" else r.pem.points[0], None, r.rest)
  }

  function InsertCert(cas: map<nat, CaRow>, certs: map<nat, CertRow>, r: CertRec, key: Option<Key>): Option<map<nat, CertRow>> {
    if r.id in certs || (exists id <- certs :: certs[id].serial == r.serial) || r.ca !in cas then None
    else Some(certs[r.id := CertRowOf(r, key)])
  }

  function InsertSsh(ssh: map<nat, SshRow>, r: SshRec, key: Option<Key>): Option<map<nat, SshRow>> {
    if r.id in ssh then None else Some(ssh[r.id := SshRow(Stored(r.key, key), r.rest)])
  }

  function InsertDeleted(cas: map<nat, CaRow>, deleted: map<(nat, string), Revocation>, r: DeletedRec)
    : Option<map<(nat, string), Revocation>>
  {
    if (r.ca, r.serial) in deleted || r.ca !in cas then None else Some(deleted[(r.ca, r.serial) := r.revocation])
  }

  /** A user of the same name or id gives way. */
  function ReplaceUser(users: map<nat, UserRow>, r: UserRec, key: Option<Key>): map<nat, UserRow> {
    var totp := if r.totp.None? then NoTotp else if key.Some? then Bytes(Stored(r.totp.value, key)) else Text(r.totp.value);
    (map id | id in users && users[id].name != r.name :: users[id])[r.id := UserRow(r.name, totp, 0, 0, r.rest)]
  }

  function RestoreCas(rows: seq<CaRec>, n: nat, key: Option<Key>): Option<map<nat, CaRow>>
    requires n <= |rows|
  {
    if n == 0 then Some(map[])
    else
      var cas := RestoreCas(rows, n - 1, key);
      if cas.None? then None else InsertCa(cas.value, rows[n - 1], key)
  }

  function RestoreCerts(cas: map<nat, CaRow>, rows: seq<CertRec>, n: nat, key: Option<Key>): Option<map<nat, CertRow>>
    requires n <= |rows|
  {
    if n == 0 then Some(map[])
    else
      var certs := RestoreCerts(cas, rows, n - 1, key);
      if certs.None? then None else InsertCert(cas, certs.value, rows[n - 1], key)
  }

  function RestoreSsh(rows: seq<SshRec>, n: nat, key: Option<Key>): Option<map<nat, SshRow>>
    requires n <= |rows|
  {
    if n == 0 then Some(map[])
    else
      var ssh := RestoreSsh(rows, n - 1, key);
      if ssh.None? then None else InsertSsh(ssh.value, rows[n - 1], key)
  }

  function RestoreDeleted(cas: map<nat, CaRow>, rows: seq<DeletedRec>, n: nat): Option<map<(nat, string), Revocation>>
    requires n <= |rows|
  {
    if n == 0 then Some(map[])
    else
      var deleted := RestoreDeleted(cas, rows, n - 1);
      if deleted.None? then None else InsertDeleted(cas, deleted.value, rows[n - 1])
  }

  function RestoreUsers(users: map<nat, UserRow>, rows: seq<UserRec>, n: nat, key: Option<Key>): map<nat, UserRow>
    requires n <= |rows|
  {
    if n == 0 then users else ReplaceUser(RestoreUsers(users, rows, n - 1, key), rows[n - 1], key)
  }

  /** Every session ends. */
  function SessionsEnded(users: map<nat, UserRow>): map<nat, UserRow> {
    map id <- users :: users[id].(sessionVersion := users[id].sessionVersion + 1)
  }

  /** The tables a backup fills, or None when a row breaks a rule; the users here stay unless theirs replace them. */
  function Rebuilt(users: map<nat, UserRow>, key: Option<Key>, b: Data): Option<Db> {
    var cas := RestoreCas(b.cas, |b.cas|, key);
    if cas.None? then None
    else
      var certs := RestoreCerts(cas.value, b.certs, |b.certs|, key);
      if certs.None? then None
      else
        var deleted := RestoreDeleted(cas.value, b.deleted, |b.deleted|);
        if deleted.None? then None
        else
          var ssh := RestoreSsh(b.ssh, |b.ssh|, key);
          if ssh.None? then None
          else Some(Db(cas.value, certs.value, ssh.value, deleted.value,
                       SessionsEnded(RestoreUsers(users, b.users, |b.users|, key)), {}))
  }

  /** A restore that fails anywhere changes nothing. */
  function Import(db: Db, key: Option<Key>, encrypted: bool, b: Data): (Outcome<(), BackupError>, Db) {
    if b.version != 1 then (Err(UnsupportedVersion), db)
    else if key.None? && encrypted then (Err(DatabaseLocked), db)
    else
      var rebuilt := Rebuilt(db.users, key, b);
      if rebuilt.None? then (Err(DoesNotMatch), db) else (Ok(()), rebuilt.value)
  }

  // ── The round trip ──

  ghost predicate Unprefixed(b: Blob, key: Option<Key>) {
    Readable(b, key) && !HasPrefix(TextOf(b, key))
  }

  ghost predicate GoodCas(cas: map<nat, CaRow>, key: Option<Key>) {
    && CasReadable(cas, key)
    && (forall id <- cas :: GoodCa(cas, id, key))
    && (forall id, other :: SameCaSerial(cas, id, other) ==> id == other)
  }

  ghost predicate SameCaSerial(cas: map<nat, CaRow>, id: nat, other: nat) {
    id in cas && other in cas && cas[id].serial == cas[other].serial
  }

  ghost predicate GoodCa(cas: map<nat, CaRow>, id: nat, key: Option<Key>)
    requires id in cas
  {
    && Unprefixed(cas[id].key, key) && 1 <= cas[id].crlDays <= 14
    && (cas[id].parent.Some? ==> cas[id].parent.value in cas && cas[id].parent.value < id)
  }

  ghost predicate GoodCerts(certs: map<nat, CertRow>, cas: set<nat>, key: Option<Key>) {
    && CertsReadable(certs, key)
    && (forall id <- certs :: GoodCert(certs, id, cas, key))
    && (forall id, other :: SameCertSerial(certs, id, other) ==> id == other)
  }

  ghost predicate SameCertSerial(certs: map<nat, CertRow>, id: nat, other: nat) {
    id in certs && other in certs && certs[id].serial == certs[other].serial
  }

  ghost predicate GoodCert(certs: map<nat, CertRow>, id: nat, cas: set<nat>, key: Option<Key>)
    requires id in certs
  {
    var c := certs[id];
    Unprefixed(c.key, key) && c.ca in cas && c.crlDpUrl == if c.pem.points == [] then "" else c.pem.points[0]
  }

  ghost predicate GoodSsh(ssh: map<nat, SshRow>, key: Option<Key>) {
    forall id <- ssh :: Unprefixed(ssh[id].key, key)
  }

  lemma SshIsReadable(ssh: map<nat, SshRow>, key: Option<Key>)
    requires GoodSsh(ssh, key)
    ensures SshReadable(ssh, key)
  {
  }

  ghost predicate GoodUsers(users: map<nat, UserRow>, key: Option<Key>) {
    && UsersReadable(users, key)
    && (forall id <- users :: GoodTotp(users[id].totp, key))
    && (forall id, other :: SameName(users, id, other) ==> id == other)
  }

  ghost predicate SameName(users: map<nat, UserRow>, id: nat, other: nat) {
    id in users && other in users && users[id].name == users[other].name
  }

  ghost predicate GoodTotp(t: Totp, key: Option<Key>) {
    TotpReadable(t, key) && (TotpText(t, key).Some? ==> !HasPrefix(TotpText(t, key).value))
  }

  /** What the app keeps true of its tables: parents before children, references that lead somewhere, unique serials
      and names, secrets that do not look encrypted, and the distribution point the certificate itself names. */
  ghost predicate Consistent(db: Db, key: Option<Key>) {
    && GoodCas(db.cas, key) && GoodCerts(db.certs, db.cas.Keys, key) && GoodSsh(db.ssh, key) && GoodUsers(db.users, key)
    && forall k <- db.deleted :: k.0 in db.cas
  }

  /** The same secret, sealed under `key` or in plain when there is none. */
  ghost predicate Resealed(b': Blob, key': Option<Key>, b: Blob, key: Option<Key>) {
    && Readable(b, key) && Readable(b', key') && TextOf(b', key') == TextOf(b, key)
    && (key'.Some? ==> b'.Sealed? && b'.key == key'.value) && (key'.None? ==> b'.Plain?)
  }

  lemma StoredIsResealed(b: Blob, key: Option<Key>, key': Option<Key>)
    requires Unprefixed(b, key)
    ensures Resealed(Stored(TextOf(b, key), key'), key', b, key)
  {
  }

  ghost predicate SameCa(c': CaRow, key': Option<Key>, c: CaRow, key: Option<Key>) {
    c'.(key := c.key) == c && Resealed(c'.key, key', c.key, key)
  }

  /** All but what belongs to a pairing. */
  ghost predicate SameCert(c': CertRow, key': Option<Key>, c: CertRow, key: Option<Key>) {
    c'.(key := c.key, pal := c.pal) == c && c'.pal.None? && Resealed(c'.key, key', c.key, key)
  }

  ghost predicate CasBack(r: Option<map<nat, CaRow>>, key': Option<Key>, cas: map<nat, CaRow>, key: Option<Key>, ids: set<nat>) {
    r.Some? && r.value.Keys == ids && ids <= cas.Keys && forall id <- ids :: SameCa(r.value[id], key', cas[id], key)
  }

  lemma {:induction false} RestoredCas(cas: map<nat, CaRow>, key: Option<Key>, order: seq<nat>, n: nat, key': Option<Key>)
    requires GoodCas(cas, key) && Once(order, cas.Keys) && Rising(order) && n <= |order|
    ensures CasBack(RestoreCas(CaRecs(cas, order, key), n, key'), key', cas, key, First(order, n))
  {
    if n == 0 {
      assert First(order, 0) == {};
    } else {
      RestoredCas(cas, key, order, n - 1, key');
      NextCaBack(cas, key, order, n, key');
    }
  }

  lemma NextCaBack(cas: map<nat, CaRow>, key: Option<Key>, order: seq<nat>, n: nat, key': Option<Key>)
    requires GoodCas(cas, key) && Once(order, cas.Keys) && Rising(order) && 0 < n <= |order|
    requires CasBack(RestoreCas(CaRecs(cas, order, key), n - 1, key'), key', cas, key, First(order, n - 1))
    ensures CasBack(RestoreCas(CaRecs(cas, order, key), n, key'), key', cas, key, First(order, n))
  {
    var rows, id := CaRecs(cas, order, key), order[n - 1];
    FirstGrows(order, cas.Keys, n);
    ParentCameBefore(cas, key, order, n - 1);
    assert rows[n - 1] == CaRecOf(id, cas[id], key);
    InsertedCa(cas, key, First(order, n - 1), id, key', RestoreCas(rows, n - 1, key'));
  }

  lemma InsertedCa(cas: map<nat, CaRow>, key: Option<Key>, ids: set<nat>, id: nat, key': Option<Key>, before: Option<map<nat, CaRow>>)
    requires GoodCas(cas, key) && id in cas && id !in ids && CasBack(before, key', cas, key, ids)
    requires cas[id].parent.Some? ==> cas[id].parent.value in ids
    ensures CasBack(InsertCa(before.value, CaRecOf(id, cas[id], key), key'), key', cas, key, ids + {id})
  {
    assert GoodCa(cas, id, key);
    StoredIsResealed(cas[id].key, key, key');
    forall other <- before.value ensures before.value[other].serial != cas[id].serial {
      assert SameCa(before.value[other], key', cas[other], key) && !SameCaSerial(cas, id, other);
    }
  }

  lemma ParentCameBefore(cas: map<nat, CaRow>, key: Option<Key>, order: seq<nat>, i: nat)
    requires GoodCas(cas, key) && Once(order, cas.Keys) && Rising(order) && i < |order|
    ensures cas[order[i]].parent.Some? ==> cas[order[i]].parent.value in First(order, i)
  {
    assert GoodCa(cas, order[i], key);
    if cas[order[i]].parent.Some? {
      var j :| 0 <= j < |order| && order[j] == cas[order[i]].parent.value;
    }
  }

  ghost predicate CertsBack(r: Option<map<nat, CertRow>>, key': Option<Key>, certs: map<nat, CertRow>, key: Option<Key>, ids: set<nat>) {
    r.Some? && r.value.Keys == ids && ids <= certs.Keys && forall id <- ids :: SameCert(r.value[id], key', certs[id], key)
  }

  lemma NextCertBack(certs: map<nat, CertRow>, key: Option<Key>, order: seq<nat>, n: nat, key': Option<Key>, cas: map<nat, CaRow>)
    requires GoodCerts(certs, cas.Keys, key) && Once(order, certs.Keys) && 0 < n <= |order|
    requires CertsBack(RestoreCerts(cas, CertRecs(certs, order, key), n - 1, key'), key', certs, key, First(order, n - 1))
    ensures CertsBack(RestoreCerts(cas, CertRecs(certs, order, key), n, key'), key', certs, key, First(order, n))
  {
    var rows, id := CertRecs(certs, order, key), order[n - 1];
    FirstGrows(order, certs.Keys, n);
    assert rows[n - 1] == CertRecOf(id, certs[id], key);
    InsertedCert(certs, key, First(order, n - 1), id, key', cas, RestoreCerts(cas, rows, n - 1, key'));
  }

  lemma {:induction false} RestoredCerts(certs: map<nat, CertRow>, key: Option<Key>, order: seq<nat>, n: nat, key': Option<Key>, cas: map<nat, CaRow>)
    requires GoodCerts(certs, cas.Keys, key) && Once(order, certs.Keys) && n <= |order|
    ensures CertsBack(RestoreCerts(cas, CertRecs(certs, order, key), n, key'), key', certs, key, First(order, n))
  {
    if n == 0 {
      assert First(order, 0) == {};
    } else {
      RestoredCerts(certs, key, order, n - 1, key', cas);
      NextCertBack(certs, key, order, n, key', cas);
    }
  }

  lemma InsertedCert(certs: map<nat, CertRow>, key: Option<Key>, ids: set<nat>, id: nat, key': Option<Key>,
                     cas: map<nat, CaRow>, before: Option<map<nat, CertRow>>)
    requires GoodCerts(certs, cas.Keys, key) && id in certs && id !in ids && CertsBack(before, key', certs, key, ids)
    ensures CertsBack(InsertCert(cas, before.value, CertRecOf(id, certs[id], key), key'), key', certs, key, ids + {id})
  {
    assert GoodCert(certs, id, cas.Keys, key);
    StoredIsResealed(certs[id].key, key, key');
    forall other <- before.value ensures before.value[other].serial != certs[id].serial {
      assert SameCert(before.value[other], key', certs[other], key) && !SameCertSerial(certs, id, other);
    }
  }

  ghost predicate SameSsh(k': SshRow, key': Option<Key>, k: SshRow, key: Option<Key>) {
    k'.rest == k.rest && Resealed(k'.key, key', k.key, key)
  }

  ghost predicate SshBack(r: Option<map<nat, SshRow>>, key': Option<Key>, ssh: map<nat, SshRow>, key: Option<Key>, ids: set<nat>) {
    r.Some? && r.value.Keys == ids && ids <= ssh.Keys && forall id <- ids :: SameSsh(r.value[id], key', ssh[id], key)
  }

  lemma {:induction false} RestoredSsh(ssh: map<nat, SshRow>, key: Option<Key>, order: seq<nat>, n: nat, key': Option<Key>)
    requires GoodSsh(ssh, key) && SshReadable(ssh, key) && Once(order, ssh.Keys) && n <= |order|
    ensures SshBack(RestoreSsh(SshRecs(ssh, order, key), n, key'), key', ssh, key, First(order, n))
  {
    var rows := SshRecs(ssh, order, key);
    if n > 0 {
      RestoredSsh(ssh, key, order, n - 1, key');
      FirstGrows(order, ssh.Keys, n);
      InsertedSsh(ssh, key, First(order, n - 1), order[n - 1], key', RestoreSsh(rows, n - 1, key'));
      assert rows[n - 1] == SshRec(order[n - 1], TextOf(ssh[order[n - 1]].key, key), ssh[order[n - 1]].rest);
    }
  }

  lemma InsertedSsh(ssh: map<nat, SshRow>, key: Option<Key>, ids: set<nat>, id: nat, key': Option<Key>, before: Option<map<nat, SshRow>>)
    requires id in ssh && Unprefixed(ssh[id].key, key) && id !in ids && SshBack(before, key', ssh, key, ids)
    ensures SshBack(InsertSsh(before.value, SshRec(id, TextOf(ssh[id].key, key), ssh[id].rest), key'), key', ssh, key, ids + {id})
  {
    StoredIsResealed(ssh[id].key, key, key');
  }

  ghost predicate DeletedBack(r: Option<map<(nat, string), Revocation>>, deleted: map<(nat, string), Revocation>, ks: set<(nat, string)>) {
    r.Some? && r.value.Keys == ks && ks <= deleted.Keys && forall k <- ks :: r.value[k] == deleted[k]
  }

  lemma {:induction false} RestoredDeleted(deleted: map<(nat, string), Revocation>, order: seq<(nat, string)>, n: nat, cas: map<nat, CaRow>)
    requires (forall k <- deleted :: k.0 in cas) && Once(order, deleted.Keys) && n <= |order|
    ensures DeletedBack(RestoreDeleted(cas, DeletedRecs(deleted, order), n), deleted, First(order, n))
  {
    var rows := DeletedRecs(deleted, order);
    if n > 0 {
      RestoredDeleted(deleted, order, n - 1, cas);
      FirstGrows(order, deleted.Keys, n);
      InsertedDeleted(deleted, First(order, n - 1), order[n - 1], cas, RestoreDeleted(cas, rows, n - 1));
      assert rows[n - 1] == DeletedRec(order[n - 1].0, order[n - 1].1, deleted[order[n - 1]]);
    }
  }

  lemma InsertedDeleted(deleted: map<(nat, string), Revocation>, ks: set<(nat, string)>, k: (nat, string), cas: map<nat, CaRow>,
                        before: Option<map<(nat, string), Revocation>>)
    requires k in deleted && k.0 in cas && k !in ks && DeletedBack(before, deleted, ks)
    ensures DeletedBack(InsertDeleted(cas, before.value, DeletedRec(k.0, k.1, deleted[k])), deleted, ks + {k})
  {
    assert (k.0, k.1) == k;
  }

  ghost predicate SameUser(u': UserRow, key': Option<Key>, u: UserRow, key: Option<Key>) {
    && u'.name == u.name && u'.rest == u.rest && u'.lastStep == 0
    && TotpReadable(u.totp, key) && TotpReadable(u'.totp, key') && TotpText(u'.totp, key') == TotpText(u.totp, key)
  }

  ghost predicate UsersBack(r: map<nat, UserRow>, key': Option<Key>, users: map<nat, UserRow>, key: Option<Key>, ids: set<nat>) {
    ids <= users.Keys && ids <= r.Keys && forall id <- ids :: SameUser(r[id], key', users[id], key)
  }

  lemma {:induction false} RestoredUsers(users: map<nat, UserRow>, key: Option<Key>, order: seq<nat>, n: nat, key': Option<Key>,
                                         kept: map<nat, UserRow>)
    requires GoodUsers(users, key) && Once(order, users.Keys) && n <= |order|
    ensures UsersBack(RestoreUsers(kept, UserRecs(users, order, key), n, key'), key', users, key, First(order, n))
  {
    var rows := UserRecs(users, order, key);
    if n > 0 {
      var before, id := RestoreUsers(kept, rows, n - 1, key'), order[n - 1];
      RestoredUsers(users, key, order, n - 1, key', kept);
      FirstGrows(order, users.Keys, n);
      assert rows[n - 1] == UserRecOf(id, users[id], key);
      assert RestoreUsers(kept, rows, n, key') == ReplaceUser(before, rows[n - 1], key');
      ReplacedUser(users, key, First(order, n - 1), id, key', before);
    }
  }

  /** No user already restored has the next one's name, so none gives way to it. */
  lemma ReplacedUser(users: map<nat, UserRow>, key: Option<Key>, ids: set<nat>, id: nat, key': Option<Key>, before: map<nat, UserRow>)
    requires GoodUsers(users, key) && id in users && id !in ids && UsersBack(before, key', users, key, ids)
    ensures UsersBack(ReplaceUser(before, UserRecOf(id, users[id], key), key'), key', users, key, ids + {id})
  {
    assert GoodTotp(users[id].totp, key);
    TotpRestored(users[id].totp, key, key');
    forall other <- ids ensures before[other].name != users[id].name {
      assert SameUser(before[other], key', users[other], key) && !SameName(users, id, other);
    }
  }

  lemma TotpRestored(t: Totp, key: Option<Key>, key': Option<Key>)
    requires GoodTotp(t, key)
    ensures var text := TotpText(t, key);
            var t' := if text.None? then NoTotp else if key'.Some? then Bytes(Stored(text.value, key')) else Text(text.value);
            TotpReadable(t', key') && TotpText(t', key') == text
  {
  }

  /** A backup of a consistent database restores into any unlocked database, whatever it holds and whatever key it is
      sealed under: every CA, certificate, SSH key, deleted revocation and user comes back with the same plain secret. */
  lemma BackupRoundTrip(db: Db, key: Option<Key>, o: Order, target: Db, key': Option<Key>, encrypted: bool)
    requires Consistent(db, key) && Orders(db, o) && (encrypted ==> key'.Some?)
    ensures AllReadable(db, key)
    ensures var (r, db') := Import(target, key', encrypted, Export(db, key, o));
            && r.Ok?
            && db'.cas.Keys == db.cas.Keys && (forall id <- db.cas :: SameCa(db'.cas[id], key', db.cas[id], key))
            && db'.certs.Keys == db.certs.Keys && (forall id <- db.certs :: SameCert(db'.certs[id], key', db.certs[id], key))
            && db'.ssh.Keys == db.ssh.Keys && (forall id <- db.ssh :: SameSsh(db'.ssh[id], key', db.ssh[id], key))
            && db'.deleted == db.deleted
            && (forall id <- db.users :: id in db'.users && SameUser(db'.users[id], key', db.users[id], key))
  {
    CasCameBack(db.cas, key, o.cas, key');
    var cas := RestoreCas(CaRecs(db.cas, o.cas, key), |o.cas|, key').value;
    RestoredCerts(db.certs, key, o.certs, |o.certs|, key', cas);
    SshIsReadable(db.ssh, key);
    RestoredSsh(db.ssh, key, o.ssh, |o.ssh|, key');
    DeletedCameBack(db.deleted, o.deleted, cas);
    UsersCameBack(db.users, key, o.users, key', target.users);
  }

  lemma CasCameBack(cas: map<nat, CaRow>, key: Option<Key>, order: seq<nat>, key': Option<Key>)
    requires GoodCas(cas, key) && Once(order, cas.Keys) && Rising(order)
    ensures CasBack(RestoreCas(CaRecs(cas, order, key), |order|, key'), key', cas, key, cas.Keys)
  {
    RestoredCas(cas, key, order, |order|, key');
  }

  lemma DeletedCameBack(deleted: map<(nat, string), Revocation>, order: seq<(nat, string)>, cas: map<nat, CaRow>)
    requires (forall k <- deleted :: k.0 in cas) && Once(order, deleted.Keys)
    ensures RestoreDeleted(cas, DeletedRecs(deleted, order), |order|) == Some(deleted)
  {
    RestoredDeleted(deleted, order, |order|, cas);
    assert RestoreDeleted(cas, DeletedRecs(deleted, order), |order|).value == deleted;
  }

  lemma UsersCameBack(users: map<nat, UserRow>, key: Option<Key>, order: seq<nat>, key': Option<Key>, kept: map<nat, UserRow>)
    requires GoodUsers(users, key) && Once(order, users.Keys)
    ensures var r := SessionsEnded(RestoreUsers(kept, UserRecs(users, order, key), |order|, key'));
            forall id <- users :: id in r && SameUser(r[id], key', users[id], key)
  {
    RestoredUsers(users, key, order, |order|, key', kept);
    SessionsOnly(users, key, RestoreUsers(kept, UserRecs(users, order, key), |order|, key'), key');
  }

  lemma SessionsOnly(users: map<nat, UserRow>, key: Option<Key>, users': map<nat, UserRow>, key': Option<Key>)
    requires forall id <- users :: id in users' && SameUser(users'[id], key', users[id], key)
    ensures forall id <- users :: id in SessionsEnded(users') && SameUser(SessionsEnded(users')[id], key', users[id], key)
  {
  }

  // ── What depends on the restored rows ──

  /** (serial, time) for a CA's CRL, as listed at `now`. */
  function ListRevoked(certs: map<nat, CertRow>, deleted: map<(nat, string), Revocation>, ca: nat, now: int): set<(string, string)> {
    (set id | id in certs && certs[id].ca == ca && certs[id].revoked ::
       (certs[id].serial, if certs[id].revokedAt.Some? then certs[id].revokedAt.value else certs[id].createdAt)) +
    (set k | k in deleted && k.0 == ca && deleted[k].notAfter > now :: (k.1, deleted[k].revokedAt))
  }

  /** The restored CAs list the same revoked serials, with the same times. */
  lemma RestoreKeepsRevoked(db: Db, key: Option<Key>, o: Order, target: Db, key': Option<Key>, encrypted: bool, ca: nat, now: int)
    requires Consistent(db, key) && Orders(db, o) && (encrypted ==> key'.Some?)
    ensures AllReadable(db, key)
    ensures var db' := Import(target, key', encrypted, Export(db, key, o)).1;
            ListRevoked(db'.certs, db'.deleted, ca, now) == ListRevoked(db.certs, db.deleted, ca, now)
  {
    BackupRoundTrip(db, key, o, target, key', encrypted);
    SameCertsListTheSame(db.certs, key, Import(target, key', encrypted, Export(db, key, o)).1.certs, key', db.deleted, ca, now);
  }

  /** A serial is listed exactly with the time its revoked certificate was revoked, or issued where that is not known, or with
      the one kept of a deleted certificate that would not have expired. */
  lemma ListedIff(certs: map<nat, CertRow>, deleted: map<(nat, string), Revocation>, ca: nat, now: int, serial: string, time: string)
    ensures (serial, time) in ListRevoked(certs, deleted, ca, now) <==>
              || (exists id <- certs :: (certs[id].ca, certs[id].revoked, certs[id].serial) == (ca, true, serial)
                                        && certs[id].revokedAt in {Some(time), None} && (certs[id].revokedAt.None? ==> certs[id].createdAt == time))
              || ((ca, serial) in deleted && now < deleted[(ca, serial)].notAfter && deleted[(ca, serial)].revokedAt == time)
  {
    assert (ca, serial) in deleted ==> ((ca, serial).0, (ca, serial).1) == (ca, serial);
    forall k <- deleted | k.0 == ca && k.1 == serial ensures k == (ca, serial) { }
  }

  lemma SameCertsListTheSame(certs: map<nat, CertRow>, key: Option<Key>, certs': map<nat, CertRow>, key': Option<Key>,
                             deleted: map<(nat, string), Revocation>, ca: nat, now: int)
    requires certs'.Keys == certs.Keys && forall id <- certs :: SameCert(certs'[id], key', certs[id], key)
    ensures ListRevoked(certs', deleted, ca, now) == ListRevoked(certs, deleted, ca, now)
  {
    forall id <- certs ensures certs'[id].ca == certs[id].ca && certs'[id].revoked == certs[id].revoked
                               && certs'[id].serial == certs[id].serial && certs'[id].revokedAt == certs[id].revokedAt
                               && certs'[id].createdAt == certs[id].createdAt {
      assert SameCert(certs'[id], key', certs[id], key);
    }
  }

  /** Whether listings call a key present survives one restored column exactly when the key is not empty, or is sealed
      on both sides or on neither: a restore seals the empty key of a certificate whose real key stays on the PC, where
      saving it had left it bare. */
  lemma BlobKeepsHasKeyIff(b: Blob, key: Option<Key>, key': Option<Key>)
    requires Unprefixed(b, key)
    ensures HasKey(Stored(TextOf(b, key), key')) == HasKey(b) <==> TextOf(b, key) != "" || key'.Some? == b.Sealed?
  {
    StoredIsResealed(b, key, key');
  }

  /** The same of the restored table: exactly these certificates are listed as they were. */
  lemma RestoreKeepsHasKeyIff(db: Db, key: Option<Key>, o: Order, target: Db, key': Option<Key>, encrypted: bool, id: nat)
    requires Consistent(db, key) && Orders(db, o) && (encrypted ==> key'.Some?) && id in db.certs
    ensures AllReadable(db, key)
    ensures var db' := Import(target, key', encrypted, Export(db, key, o)).1;
            && id in db'.certs
            && (HasKey(db'.certs[id].key) == HasKey(db.certs[id].key) <==>
                  TextOf(db.certs[id].key, key) != "" || key'.Some? == db.certs[id].key.Sealed?)
  {
    BackupRoundTrip(db, key, o, target, key', encrypted);
    var db' := Import(target, key', encrypted, Export(db, key, o)).1;
    assert SameCert(db'.certs[id], key', db.certs[id], key);
    assert GoodCert(db.certs, id, db.cas.Keys, key);
    BlobKeepsHasKeyIff(db.certs[id].key, key, key');
  }

  // ── Which backups fit, and what any of them leaves ──

  ghost predicate HasCaId(rows: seq<CaRec>, n: nat, id: nat)
    requires n <= |rows|
  {
    exists j :: 0 <= j < n && rows[j].id == id
  }

  ghost predicate HasCaSerial(rows: seq<CaRec>, n: nat, serial: string)
    requires n <= |rows|
  {
    exists j :: 0 <= j < n && rows[j].serial == serial
  }

  /** Among the CAs listed, ids and serials are unique and each parent is listed before, or is the CA itself. */
  ghost predicate CaFits(rows: seq<CaRec>, i: nat)
    requires i < |rows|
  {
    var r := rows[i];
    && !HasCaId(rows, i, r.id) && !HasCaSerial(rows, i, r.serial)
    && (r.parent.Some? && r.parent != Some(r.id) ==> HasCaId(rows, i, r.parent.value))
  }

  ghost predicate CasFit(rows: seq<CaRec>, n: nat)
    requires n <= |rows|
  {
    forall i: nat :: i < n ==> CaFits(rows, i)
  }

  /** The row a record became: its key is sealed as the database now seals, and an odd lifetime becomes a week. */
  ghost predicate CaCameOf(c: CaRow, r: CaRec, key: Option<Key>) {
    && c == CaRow(r.parent, r.serial, c.key, c.crlDays, r.rest) && c.key == Stored(r.key, key)
    && c.crlDays == match r.crlDays case Some(days) => (if days < 1 || days > 14 then 7 else days) case None => 7
  }

  ghost predicate CasAre(cas: map<nat, CaRow>, rows: seq<CaRec>, n: nat, key: Option<Key>)
    requires n <= |rows|
  {
    && (forall id <- cas :: HasCaId(rows, n, id))
    && (forall i :: 0 <= i < n ==> rows[i].id in cas && CaCameOf(cas[rows[i].id], rows[i], key))
  }

  lemma {:induction false} CasFitIff(rows: seq<CaRec>, n: nat, key: Option<Key>)
    requires n <= |rows|
    ensures RestoreCas(rows, n, key).Some? <==> CasFit(rows, n)
    ensures RestoreCas(rows, n, key).Some? ==> CasAre(RestoreCas(rows, n, key).value, rows, n, key)
  {
    if n > 0 {
      CasFitIff(rows, n - 1, key);
      var before := RestoreCas(rows, n - 1, key);
      CasFitMore(rows, n);
      if before.Some? { CaInsertsIff(before.value, rows, n - 1, key); }
    }
  }

  lemma CasFitMore(rows: seq<CaRec>, n: nat)
    requires 0 < n <= |rows|
    ensures CasFit(rows, n) <==> CasFit(rows, n - 1) && CaFits(rows, n - 1)
  {
  }

  lemma CaInsertsIff(cas: map<nat, CaRow>, rows: seq<CaRec>, n: nat, key: Option<Key>)
    requires n < |rows| && CasAre(cas, rows, n, key)
    ensures InsertCa(cas, rows[n], key).Some? <==> CaFits(rows, n)
    ensures InsertCa(cas, rows[n], key).Some? ==> CasAre(InsertCa(cas, rows[n], key).value, rows, n + 1, key)
  {
    var r := rows[n];
    CaTakenIff(cas, rows, n, key, r.id, r.serial);
    if r.parent.Some? { CaTakenIff(cas, rows, n, key, r.parent.value, r.serial); }
    if CaFits(rows, n) { CaInserted(cas, rows, n, key); }
  }

  lemma CaInserted(cas: map<nat, CaRow>, rows: seq<CaRec>, n: nat, key: Option<Key>)
    requires n < |rows| && CasAre(cas, rows, n, key) && CaFits(rows, n)
    ensures CasAre(cas[rows[n].id := CaRowOf(rows[n], key)], rows, n + 1, key)
  {
    var cas' := cas[rows[n].id := CaRowOf(rows[n], key)];
    forall id <- cas' ensures HasCaId(rows, n + 1, id) { assert id in cas ==> HasCaId(rows, n, id); }
    forall i | 0 <= i < n ensures rows[i].id != rows[n].id { assert !HasCaId(rows, n, rows[n].id); }
    assert CaCameOf(CaRowOf(rows[n], key), rows[n], key);
  }

  lemma CaTakenIff(cas: map<nat, CaRow>, rows: seq<CaRec>, n: nat, key: Option<Key>, id: nat, serial: string)
    requires n <= |rows| && CasAre(cas, rows, n, key)
    ensures id in cas <==> HasCaId(rows, n, id)
    ensures (exists c <- cas :: cas[c].serial == serial) <==> HasCaSerial(rows, n, serial)
  {
    forall i | 0 <= i < n ensures rows[i].id in cas && cas[rows[i].id].serial == rows[i].serial {
      assert CaCameOf(cas[rows[i].id], rows[i], key);
    }
    if c :| c in cas && cas[c].serial == serial {
      assert HasCaId(rows, n, c);
    }
  }

  ghost predicate HasCertId(rows: seq<CertRec>, n: nat, id: nat)
    requires n <= |rows|
  {
    exists j :: 0 <= j < n && rows[j].id == id
  }

  ghost predicate HasCertSerial(rows: seq<CertRec>, n: nat, serial: string)
    requires n <= |rows|
  {
    exists j :: 0 <= j < n && rows[j].serial == serial
  }

  ghost predicate CertFits(cas: map<nat, CaRow>, rows: seq<CertRec>, i: nat)
    requires i < |rows|
  {
    rows[i].ca in cas && !HasCertId(rows, i, rows[i].id) && !HasCertSerial(rows, i, rows[i].serial)
  }

  ghost predicate CertsFit(cas: map<nat, CaRow>, rows: seq<CertRec>, n: nat)
    requires n <= |rows|
  {
    forall i: nat :: i < n ==> CertFits(cas, rows, i)
  }

  /** The row a record became: as it was, of no PC, with the first distribution point its certificate names. */
  ghost predicate CertCameOf(c: CertRow, r: CertRec, key: Option<Key>) {
    && c == CertRow(r.ca, r.serial, r.pem, Stored(r.key, key), r.revoked, r.revokedAt, r.createdAt, c.crlDpUrl, None, r.rest)
    && (r.pem.points == [] ==> c.crlDpUrl == "") && (r.pem.points != [] ==> c.crlDpUrl == r.pem.points[0])
  }

  ghost predicate CertsAre(certs: map<nat, CertRow>, rows: seq<CertRec>, n: nat, key: Option<Key>)
    requires n <= |rows|
  {
    && (forall id <- certs :: HasCertId(rows, n, id))
    && (forall i :: 0 <= i < n ==> rows[i].id in certs && CertCameOf(certs[rows[i].id], rows[i], key))
  }

  lemma {:induction false} CertsFitIff(cas: map<nat, CaRow>, rows: seq<CertRec>, n: nat, key: Option<Key>)
    requires n <= |rows|
    ensures RestoreCerts(cas, rows, n, key).Some? <==> CertsFit(cas, rows, n)
    ensures RestoreCerts(cas, rows, n, key).Some? ==> CertsAre(RestoreCerts(cas, rows, n, key).value, rows, n, key)
  {
    if n > 0 {
      CertsFitIff(cas, rows, n - 1, key);
      var before := RestoreCerts(cas, rows, n - 1, key);
      CertsFitMore(cas, rows, n);
      if before.Some? { CertInsertsIff(cas, before.value, rows, n - 1, key); }
    }
  }

  lemma CertsFitMore(cas: map<nat, CaRow>, rows: seq<CertRec>, n: nat)
    requires 0 < n <= |rows|
    ensures CertsFit(cas, rows, n) <==> CertsFit(cas, rows, n - 1) && CertFits(cas, rows, n - 1)
  {
  }

  lemma CertInsertsIff(cas: map<nat, CaRow>, certs: map<nat, CertRow>, rows: seq<CertRec>, n: nat, key: Option<Key>)
    requires n < |rows| && CertsAre(certs, rows, n, key)
    ensures InsertCert(cas, certs, rows[n], key).Some? <==> CertFits(cas, rows, n)
    ensures InsertCert(cas, certs, rows[n], key).Some? ==> CertsAre(InsertCert(cas, certs, rows[n], key).value, rows, n + 1, key)
  {
    CertTakenIff(certs, rows, n, key, rows[n].id, rows[n].serial);
    if CertFits(cas, rows, n) { CertInserted(certs, rows, n, key); }
  }

  lemma CertInserted(certs: map<nat, CertRow>, rows: seq<CertRec>, n: nat, key: Option<Key>)
    requires n < |rows| && CertsAre(certs, rows, n, key) && !HasCertId(rows, n, rows[n].id)
    ensures CertsAre(certs[rows[n].id := CertRowOf(rows[n], key)], rows, n + 1, key)
  {
    var certs' := certs[rows[n].id := CertRowOf(rows[n], key)];
    forall id <- certs' ensures HasCertId(rows, n + 1, id) { assert id in certs ==> HasCertId(rows, n, id); }
    assert CertCameOf(CertRowOf(rows[n], key), rows[n], key);
  }

  lemma CertTakenIff(certs: map<nat, CertRow>, rows: seq<CertRec>, n: nat, key: Option<Key>, id: nat, serial: string)
    requires n <= |rows| && CertsAre(certs, rows, n, key)
    ensures id in certs <==> HasCertId(rows, n, id)
    ensures (exists c <- certs :: certs[c].serial == serial) <==> HasCertSerial(rows, n, serial)
  {
    forall i | 0 <= i < n ensures rows[i].id in certs && certs[rows[i].id].serial == rows[i].serial {
      assert CertCameOf(certs[rows[i].id], rows[i], key);
    }
    if c :| c in certs && certs[c].serial == serial {
      assert HasCertId(rows, n, c);
    }
  }

  ghost predicate SshFits(rows: seq<SshRec>, i: nat)
    requires i < |rows|
  {
    forall j :: 0 <= j < i ==> rows[j].id != rows[i].id
  }

  ghost predicate SshFit(rows: seq<SshRec>, n: nat)
    requires n <= |rows|
  {
    forall i: nat :: i < n ==> SshFits(rows, i)
  }

  ghost predicate SshAre(ssh: map<nat, SshRow>, rows: seq<SshRec>, n: nat, key: Option<Key>)
    requires n <= |rows|
  {
    && (forall id <- ssh :: exists i :: 0 <= i < n && rows[i].id == id)
    && (forall i :: 0 <= i < n ==> rows[i].id in ssh && ssh[rows[i].id] == SshRow(Stored(rows[i].key, key), rows[i].rest))
  }

  lemma {:induction false} SshFitIff(rows: seq<SshRec>, n: nat, key: Option<Key>)
    requires n <= |rows|
    ensures RestoreSsh(rows, n, key).Some? <==> SshFit(rows, n)
    ensures RestoreSsh(rows, n, key).Some? ==> SshAre(RestoreSsh(rows, n, key).value, rows, n, key)
  {
    if n > 0 {
      SshFitIff(rows, n - 1, key);
      SshFitMore(rows, n);
      var before := RestoreSsh(rows, n - 1, key);
      if before.Some? { SshInsertsIff(before.value, rows, n - 1, key); }
    }
  }

  lemma SshFitMore(rows: seq<SshRec>, n: nat)
    requires 0 < n <= |rows|
    ensures SshFit(rows, n) <==> SshFit(rows, n - 1) && SshFits(rows, n - 1)
  {
  }

  lemma SshInsertsIff(ssh: map<nat, SshRow>, rows: seq<SshRec>, n: nat, key: Option<Key>)
    requires n < |rows| && SshAre(ssh, rows, n, key)
    ensures InsertSsh(ssh, rows[n], key).Some? <==> SshFits(rows, n)
    ensures InsertSsh(ssh, rows[n], key).Some? ==> SshAre(InsertSsh(ssh, rows[n], key).value, rows, n + 1, key)
  {
    if rows[n].id in ssh {
      var j :| 0 <= j < n && rows[j].id == rows[n].id;
    }
  }

  ghost predicate DeletedFits(cas: map<nat, CaRow>, rows: seq<DeletedRec>, i: nat)
    requires i < |rows|
  {
    rows[i].ca in cas && forall j :: 0 <= j < i ==> (rows[j].ca, rows[j].serial) != (rows[i].ca, rows[i].serial)
  }

  ghost predicate DeletedFit(cas: map<nat, CaRow>, rows: seq<DeletedRec>, n: nat)
    requires n <= |rows|
  {
    forall i: nat :: i < n ==> DeletedFits(cas, rows, i)
  }

  ghost predicate DeletedAre(deleted: map<(nat, string), Revocation>, rows: seq<DeletedRec>, n: nat)
    requires n <= |rows|
  {
    && (forall k <- deleted :: exists i :: 0 <= i < n && (rows[i].ca, rows[i].serial) == k)
    && (forall i :: 0 <= i < n ==> (rows[i].ca, rows[i].serial) in deleted && deleted[(rows[i].ca, rows[i].serial)] == rows[i].revocation)
  }

  lemma {:induction false} DeletedFitIff(cas: map<nat, CaRow>, rows: seq<DeletedRec>, n: nat)
    requires n <= |rows|
    ensures RestoreDeleted(cas, rows, n).Some? <==> DeletedFit(cas, rows, n)
    ensures RestoreDeleted(cas, rows, n).Some? ==> DeletedAre(RestoreDeleted(cas, rows, n).value, rows, n)
  {
    if n > 0 {
      DeletedFitIff(cas, rows, n - 1);
      DeletedFitMore(cas, rows, n);
      var before := RestoreDeleted(cas, rows, n - 1);
      if before.Some? { DeletedInsertsIff(cas, before.value, rows, n - 1); }
    }
  }

  lemma DeletedFitMore(cas: map<nat, CaRow>, rows: seq<DeletedRec>, n: nat)
    requires 0 < n <= |rows|
    ensures DeletedFit(cas, rows, n) <==> DeletedFit(cas, rows, n - 1) && DeletedFits(cas, rows, n - 1)
  {
  }

  lemma DeletedInsertsIff(cas: map<nat, CaRow>, deleted: map<(nat, string), Revocation>, rows: seq<DeletedRec>, n: nat)
    requires n < |rows| && DeletedAre(deleted, rows, n)
    ensures InsertDeleted(cas, deleted, rows[n]).Some? <==> DeletedFits(cas, rows, n)
    ensures InsertDeleted(cas, deleted, rows[n]).Some? ==> DeletedAre(InsertDeleted(cas, deleted, rows[n]).value, rows, n + 1)
  {
    if (rows[n].ca, rows[n].serial) in deleted {
      var j :| 0 <= j < n && (rows[j].ca, rows[j].serial) == (rows[n].ca, rows[n].serial);
    }
  }

  /** No user record has the id or the name. */
  predicate LeavesUser(rows: seq<UserRec>, n: nat, id: nat, name: string)
    requires n <= |rows|
  {
    forall i :: 0 <= i < n ==> rows[i].id != id && rows[i].name != name
  }

  lemma {:induction false} OwnUsersStay(users: map<nat, UserRow>, rows: seq<UserRec>, n: nat, key: Option<Key>, id: nat)
    requires n <= |rows| && id in users
    ensures var after := RestoreUsers(users, rows, n, key);
            if LeavesUser(rows, n, id, users[id].name) then id in after && after[id] == users[id]
            else id in after ==> exists i :: 0 <= i < n && rows[i].id == id && after[id].name == rows[i].name
  {
    if n > 0 { OwnUsersStay(users, rows, n - 1, key, id); }
  }

  lemma {:induction false} UsersCome(users: map<nat, UserRow>, rows: seq<UserRec>, n: nat, key: Option<Key>, id: nat)
    requires n <= |rows| && id in RestoreUsers(users, rows, n, key)
    ensures var u := RestoreUsers(users, rows, n, key)[id];
            (id in users && u == users[id]) || (exists i :: 0 <= i < n && rows[i].id == id && UserCameOf(u, rows[i], key))
  {
    if n > 0 && id != rows[n - 1].id { UsersCome(users, rows, n - 1, key, id); }
  }

  ghost predicate UserCameOf(u: UserRow, r: UserRec, key: Option<Key>) {
    && u.name == r.name && u.rest == r.rest && u.lastStep == 0
    && match r.totp
       case None => u.totp == NoTotp
       case Some(text) => u.totp == match key case Some(_) => Bytes(Stored(text, key)) case None => Text(text)
  }

  /** Every row of the backup finds its place. */
  ghost predicate AllFit(b: Data, key: Option<Key>) {
    && CasFit(b.cas, |b.cas|) && SshFit(b.ssh, |b.ssh|)
    && var cas := RestoreCas(b.cas, |b.cas|, key);
       cas.Some? && CertsFit(cas.value, b.certs, |b.certs|) && DeletedFit(cas.value, b.deleted, |b.deleted|)
  }

  lemma RebuiltIff(users: map<nat, UserRow>, key: Option<Key>, b: Data)
    ensures Rebuilt(users, key, b).Some? <==> AllFit(b, key)
  {
    CasFitIff(b.cas, |b.cas|, key);
    SshFitIff(b.ssh, |b.ssh|, key);
    var cas := RestoreCas(b.cas, |b.cas|, key);
    if cas.Some? {
      CertsFitIff(cas.value, b.certs, |b.certs|, key);
      DeletedFitIff(cas.value, b.deleted, |b.deleted|);
    }
  }

  lemma RebuiltAre(users: map<nat, UserRow>, key: Option<Key>, b: Data)
    requires Rebuilt(users, key, b).Some?
    ensures AllAre(Rebuilt(users, key, b).value, b, key)
  {
    var db := Rebuilt(users, key, b).value;
    assert CasAre(db.cas, b.cas, |b.cas|, key) by { CasFitIff(b.cas, |b.cas|, key); }
    assert CertsAre(db.certs, b.certs, |b.certs|, key) by { CertsFitIff(db.cas, b.certs, |b.certs|, key); }
    assert SshAre(db.ssh, b.ssh, |b.ssh|, key) by { SshFitIff(b.ssh, |b.ssh|, key); }
    assert DeletedAre(db.deleted, b.deleted, |b.deleted|) by { DeletedFitIff(db.cas, b.deleted, |b.deleted|); }
  }

  /** Every row is one of the backup's, and no PC is paired. */
  ghost predicate AllAre(db: Db, b: Data, key: Option<Key>) {
    && CasAre(db.cas, b.cas, |b.cas|, key) && CertsAre(db.certs, b.certs, |b.certs|, key)
    && SshAre(db.ssh, b.ssh, |b.ssh|, key) && DeletedAre(db.deleted, b.deleted, |b.deleted|) && db.pairings == {}
  }

  /** A restore works exactly with a backup of this version, an unlocked database, and rows that all fit; whatever fails, the
      database is as it was.  Then every CA, certificate, key and deleted revocation is one of the backup's, and every PC is
      unpaired. */
  lemma RestoresIff(db: Db, key: Option<Key>, encrypted: bool, b: Data)
    ensures var (r, db') := Import(db, key, encrypted, b);
            && (r.Ok? <==> b.version == 1 && (encrypted ==> key.Some?) && AllFit(b, key))
            && (r.Err? ==> db' == db && (r.error == UnsupportedVersion <==> b.version != 1)
                           && (r.error == DatabaseLocked <==> b.version == 1 && encrypted && key.None?))
            && (r.Ok? ==> AllAre(db', b, key))
  {
    RebuiltIff(db.users, key, b);
    if Rebuilt(db.users, key, b).Some? { RebuiltAre(db.users, key, b); }
  }

  /** A user here stays, signed out, exactly if the backup has none of that id or name. */
  lemma OwnUsersStayIff(db: Db, key: Option<Key>, encrypted: bool, b: Data, id: nat)
    requires Import(db, key, encrypted, b).0.Ok? && id in db.users
    ensures var db' := Import(db, key, encrypted, b).1;
            if LeavesUser(b.users, |b.users|, id, db.users[id].name)
            then id in db'.users && db'.users[id] == db.users[id].(sessionVersion := db.users[id].sessionVersion + 1)
            else id in db'.users ==> exists i :: 0 <= i < |b.users| && b.users[i].id == id && db'.users[id].name == b.users[i].name
  {
    OwnUsersStay(db.users, b.users, |b.users|, key, id);
    var restored := RestoreUsers(db.users, b.users, |b.users|, key);
    assert Import(db, key, encrypted, b).1.users == SessionsEnded(restored);
  }

  /** The users afterwards are the backup's and those that stayed, each signed out. */
  lemma RestoredUsersAre(db: Db, key: Option<Key>, encrypted: bool, b: Data, id: nat)
    requires Import(db, key, encrypted, b).0.Ok?
    ensures var db' := Import(db, key, encrypted, b).1;
            id in db'.users ==>
              || (id in db.users && db'.users[id] == db.users[id].(sessionVersion := db.users[id].sessionVersion + 1))
              || (exists i :: 0 <= i < |b.users| && b.users[i].id == id && UserCameOf(db'.users[id], b.users[i], key)
                              && db'.users[id].sessionVersion == 1)
  {
    var restored := RestoreUsers(db.users, b.users, |b.users|, key);
    if id in restored { UsersCome(db.users, b.users, |b.users|, key, id); FreshSessions(db.users, b.users, |b.users|, key, id); }
  }

  lemma {:induction false} FreshSessions(users: map<nat, UserRow>, rows: seq<UserRec>, n: nat, key: Option<Key>, id: nat)
    requires n <= |rows| && id in RestoreUsers(users, rows, n, key)
    ensures var u := RestoreUsers(users, rows, n, key)[id]; (id in users && u == users[id]) || u.sessionVersion == 0
  {
    if n > 0 && id != rows[n - 1].id { FreshSessions(users, rows, n - 1, key, id); }
  }

  // ── The tables, replaced in place and put back when a row does not fit ──

  class Store {
    var cas: map<nat, CaRow>
    var certs: map<nat, CertRow>
    var ssh: map<nat, SshRow>
    var deleted: map<(nat, string), Revocation>
    var users: map<nat, UserRow>
    var pairings: set<string>
    var master: Option<Key>
    var encrypted: bool

    ghost function View(): Db
      reads this
    {
      Db(cas, certs, ssh, deleted, users, pairings)
    }

    constructor ()
      ensures View() == Db(map[], map[], map[], map[], map[], {}) && master.None? && !encrypted
    {
      cas, certs, ssh, deleted, users, pairings := map[], map[], map[], map[], map[], {};
      master, encrypted := None, false;
    }

    method RestoreCaRows(rows: seq<CaRec>) returns (ok: bool)
      requires cas == map[]
      modifies `cas
      ensures RestoreCas(rows, |rows|, master) == if ok then Some(cas) else None
    {
      var i := 0;
      while i < |rows|
        invariant i <= |rows| && RestoreCas(rows, i, master) == Some(cas)
      {
        var next := InsertCa(cas, rows[i], master);
        if next.None? {
          FailedCas(rows, i + 1, master);
          return false;
        }
        cas := next.value;
        i := i + 1;
      }
      return true;
    }

    method RestoreCertRows(rows: seq<CertRec>) returns (ok: bool)
      requires certs == map[]
      modifies `certs
      ensures RestoreCerts(cas, rows, |rows|, master) == if ok then Some(certs) else None
    {
      var i := 0;
      while i < |rows|
        invariant i <= |rows| && RestoreCerts(cas, rows, i, master) == Some(certs)
      {
        var next := InsertCert(cas, certs, rows[i], master);
        if next.None? {
          FailedCerts(cas, rows, i + 1, master);
          return false;
        }
        certs := next.value;
        i := i + 1;
      }
      return true;
    }

    method RestoreDeletedRows(rows: seq<DeletedRec>) returns (ok: bool)
      requires deleted == map[]
      modifies `deleted
      ensures RestoreDeleted(cas, rows, |rows|) == if ok then Some(deleted) else None
    {
      var i := 0;
      while i < |rows|
        invariant i <= |rows| && RestoreDeleted(cas, rows, i) == Some(deleted)
      {
        var next := InsertDeleted(cas, deleted, rows[i]);
        if next.None? {
          FailedDeleted(cas, rows, i + 1);
          return false;
        }
        deleted := next.value;
        i := i + 1;
      }
      return true;
    }

    method RestoreSshRows(rows: seq<SshRec>) returns (ok: bool)
      requires ssh == map[]
      modifies `ssh
      ensures RestoreSsh(rows, |rows|, master) == if ok then Some(ssh) else None
    {
      var i := 0;
      while i < |rows|
        invariant i <= |rows| && RestoreSsh(rows, i, master) == Some(ssh)
      {
        var next := InsertSsh(ssh, rows[i], master);
        if next.None? {
          FailedSsh(rows, i + 1, master);
          return false;
        }
        ssh := next.value;
        i := i + 1;
      }
      return true;
    }

    method RestoreUserRows(rows: seq<UserRec>)
      modifies `users
      ensures users == SessionsEnded(RestoreUsers(old(users), rows, |rows|, master))
    {
      for i := 0 to |rows|
        invariant users == RestoreUsers(old(users), rows, i, master)
      {
        users := ReplaceUser(users, rows[i], master);
      }
      users := SessionsEnded(users);
    }

    /** Empty every table and fill it again. */
    method Replace(b: Data) returns (ok: bool)
      modifies this
      ensures master == old(master) && encrypted == old(encrypted)
      ensures Rebuilt(old(users), old(master), b) == if ok then Some(View()) else None
    {
      pairings, certs, deleted, cas, ssh := {}, map[], map[], map[], map[];
      ok := RestoreCaRows(b.cas);
      if !ok { return; }
      ok := RestoreCertRows(b.certs);
      if !ok { return; }
      ok := RestoreDeletedRows(b.deleted);
      if !ok { return; }
      ok := RestoreSshRows(b.ssh);
      if !ok { return; }
      RestoreUserRows(b.users);
    }

    /** One transaction: when any row fails, every table is as it was. */
    method ImportAllData(b: Data) returns (r: Outcome<(), BackupError>)
      modifies this
      ensures (r, View()) == Import(old(View()), old(master), old(encrypted), b)
      ensures r.Err? ==> View() == old(View())
    {
      if b.version != 1 { return Err(UnsupportedVersion); }
      if master.None? && encrypted { return Err(DatabaseLocked); }
      var before := (cas, certs, ssh, deleted, users, pairings);
      var ok := Replace(b);
      if ok { return Ok(()); }
      cas, certs, ssh, deleted, users, pairings := before.0, before.1, before.2, before.3, before.4, before.5;
      r := Err(DoesNotMatch);
    }
  }

  lemma {:induction false} FailedCas(rows: seq<CaRec>, n: nat, key: Option<Key>)
    requires n <= |rows| && RestoreCas(rows, n, key).None?
    ensures RestoreCas(rows, |rows|, key).None?
    decreases |rows| - n
  {
    if n < |rows| { FailedCas(rows, n + 1, key); }
  }

  lemma {:induction false} FailedCerts(cas: map<nat, CaRow>, rows: seq<CertRec>, n: nat, key: Option<Key>)
    requires n <= |rows| && RestoreCerts(cas, rows, n, key).None?
    ensures RestoreCerts(cas, rows, |rows|, key).None?
    decreases |rows| - n
  {
    if n < |rows| { FailedCerts(cas, rows, n + 1, key); }
  }

  lemma {:induction false} FailedDeleted(cas: map<nat, CaRow>, rows: seq<DeletedRec>, n: nat)
    requires n <= |rows| && RestoreDeleted(cas, rows, n).None?
    ensures RestoreDeleted(cas, rows, |rows|).None?
    decreases |rows| - n
  {
    if n < |rows| { FailedDeleted(cas, rows, n + 1); }
  }

  lemma {:induction false} FailedSsh(rows: seq<SshRec>, n: nat, key: Option<Key>)
    requires n <= |rows| && RestoreSsh(rows, n, key).None?
    ensures RestoreSsh(rows, |rows|, key).None?
    decreases |rows| - n
  {
    if n < |rows| { FailedSsh(rows, n + 1, key); }
  }
}
