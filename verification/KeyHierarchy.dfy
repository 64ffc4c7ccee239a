/** Encryption at rest (app/db.py, app/crypto_engine.py): a random data key seals every private key
    column and TOTP secret; the data key itself is stored wrapped by the password and by a recovery key.

    Cryptography is symbolic.  A key is known by how it was made, so key derivation is injective, and a
    sealed value opens under the key that sealed it and under no other. */
module KeyHierarchy {
  import opened Wrappers
  import RecoveryKey

  datatype Key =
    | DataKey(id: nat)                                 // random
    | PasswordKek(password: string, salt: nat)         // scrypt
    | RecoveryKek(canonical: string, salt: nat)        // HKDF of the normalized recovery key

  type Canonical = chars: string | RecoveryKey.IsCanonical(chars) witness "0000000000000000000000000"

  /** A column value: bytes as they are, or bytes sealed under a key (and marked by the prefix). */
  datatype Blob = Plain(bytes: string) | Sealed(key: Key, bytes: string)

  /** A data key sealed under a key-encryption key. */
  datatype Wrap = Wrap(kek: Key, dataKey: Key)

  datatype Refusal =
    | Locked | BadTag | AlreadyEnabled | NotEnabled | WrongPassword | PasswordNeeded
    | NoRecoveryKey | WrongRecoveryKey | CloudflareConnected | RelayPresent | RelayKeyExists

  const PREFIX := "ENC\U{0001}"
  const VERIFY_PLAINTEXT := "cert-generator-verify-token"

  predicate HasPrefix(bytes: string) {
    PREFIX <= bytes
  }

  predicate IsEncrypted(b: Blob) {
    b.Sealed? || HasPrefix(b.bytes)
  }

  function EncryptColumn(b: Blob, key: Key): Blob {
    if IsEncrypted(b) then b else Sealed(key, b.bytes)
  }

  function DecryptWith(b: Blob, key: Option<Key>): Outcome<Blob, Refusal> {
    if !IsEncrypted(b) then Ok(b)
    else if key.None? then Err(Locked)
    else if b.Sealed? && b.key == key.value then Ok(Plain(b.bytes))
    else Err(BadTag)
  }

  function Unwrap(w: Wrap, kek: Key): Option<Key> {
    if w.kek == kek then Some(w.dataKey) else None
  }

  // ── The database ──

  datatype Column = CaKey | CertKey | SshKey | CodeKey | TotpSecret
  datatype SecretId = SecretId(column: Column, row: nat)
  type Secrets = map<SecretId, Blob>

  datatype Settings = Settings(
    salt: Option<nat>,
    verify: Option<Blob>,                // only before data keys existed
    wrapped: Option<Wrap>,
    recoverySalt: Option<nat>,
    recoveryWrapped: Option<Wrap>,
    login: Option<string>,
    cloudflareToken: Option<Blob>,
    relayKey: Option<Blob>,
    relayToken: Option<Blob>)

  const NO_SETTINGS := Settings(None, None, None, None, None, None, None, None, None)

  datatype State = State(secrets: Secrets, settings: Settings, master: Option<Key>)

  /** The random values one operation draws. */
  datatype Fresh = Fresh(dataKey: nat, salt: nat, newSalt: nat, recoverySalt: nat, recoveryChars: Canonical)

  function KeyForPassword(s: Settings, password: string): (r: (Option<Key>, bool)) {
    if s.salt.None? then (None, false)
    else
      var kek := PasswordKek(password, s.salt.value);
      if s.wrapped.Some? then (Unwrap(s.wrapped.value, kek), false)
      else (if s.verify.Some? && DecryptWith(s.verify.value, Some(kek)) == Ok(Plain(VERIFY_PLAINTEXT))
            then Some(kek) else None, true)
  }

  function KeyForRecoveryKey(s: Settings, text: string): Option<Key> {
    var chars := RecoveryKey.Normalize(text);
    if s.recoverySalt.None? || s.recoveryWrapped.None? || chars.None? then None
    else Unwrap(s.recoveryWrapped.value, RecoveryKek(chars.value, s.recoverySalt.value))
  }

  predicate CanDecryptAll(secrets: Secrets, key: Option<Key>) {
    forall id <- secrets :: DecryptWith(secrets[id], key).Ok?
  }

  function Rewritten(b: Blob, oldKey: Option<Key>, newKey: Option<Key>): Blob
    requires DecryptWith(b, oldKey).Ok?
  {
    var plain := DecryptWith(b, oldKey).value;
    if newKey.Some? then EncryptColumn(plain, newKey.value) else plain
  }

  function RewrittenAll(secrets: Secrets, oldKey: Option<Key>, newKey: Option<Key>): Secrets
    requires CanDecryptAll(secrets, oldKey)
  {
    map id <- secrets :: Rewritten(secrets[id], oldKey, newKey)
  }

  function WithPassword(s: Settings, password: string, salt: nat, dataKey: Key): Settings {
    s.(salt := Some(salt), wrapped := Some(Wrap(PasswordKek(password, salt), dataKey)), verify := None)
  }

  function WithRecovery(s: Settings, f: Fresh, dataKey: Key): Settings {
    s.(recoverySalt := Some(f.recoverySalt),
       recoveryWrapped := Some(Wrap(RecoveryKek(f.recoveryChars, f.recoverySalt), dataKey)))
  }

  // ── Operations: what each returns and the state it leaves ──

  /** Opening with a password, moving a database from before data keys to one on the way. */
  function Open(st: State, password: string, f: Fresh): (Outcome<Option<Key>, Refusal>, State) {
    var (key, legacy) := KeyForPassword(st.settings, password);
    if key.None? || !legacy then (Ok(key), st)
    else if !CanDecryptAll(st.secrets, key) then (Err(BadTag), st)
    else
      var dataKey := DataKey(f.dataKey);
      (Ok(Some(dataKey)), st.(secrets := RewrittenAll(st.secrets, key, Some(dataKey)),
                              settings := WithPassword(st.settings, password, f.salt, dataKey)))
  }

  function Enable(st: State, password: string, login: string, f: Fresh): (Outcome<string, Refusal>, State) {
    if st.settings.salt.Some? then (Err(AlreadyEnabled), st)
    else if !CanDecryptAll(st.secrets, None) then (Err(Locked), st)
    else
      var dataKey := DataKey(f.dataKey);
      var s := WithRecovery(WithPassword(st.settings, password, f.salt, dataKey), f, dataKey);
      (Ok(RecoveryKey.Printed(f.recoveryChars)),
       State(RewrittenAll(st.secrets, None, Some(dataKey)), if login == "" then s else s.(login := Some(login)), Some(dataKey)))
  }

  function Disable(st: State, password: string): (Outcome<(), Refusal>, State) {
    var s := st.settings;
    var key := KeyForPassword(s, password).0;
    if s.salt.None? then (Err(NotEnabled), st)
    else if s.cloudflareToken.Some? then (Err(CloudflareConnected), st)
    else if s.relayKey.Some? || s.relayToken.Some? then (Err(RelayPresent), st)
    else if key.None? then (Err(WrongPassword), st)
    else if !CanDecryptAll(st.secrets, key) then (Err(BadTag), st)
    else (Ok(()), State(RewrittenAll(st.secrets, key, None), NO_SETTINGS, None))
  }

  /** `allowed` is false when the sign-in name is wrong: the migration is kept, the key is not loaded. */
  function Unlock(st: State, password: string, allowed: bool, f: Fresh): (Outcome<bool, Refusal>, State) {
    var (key, st') := Open(st, password, f);
    if key.Err? then (Err(key.error), st)
    else if key.value.None? || !allowed then (Ok(false), st')
    else (Ok(true), st'.(master := key.value))
  }

  function ChangePassword(st: State, password: string, newPassword: string, f: Fresh): (Outcome<(), Refusal>, State) {
    var (key, st') := Open(st, password, f);
    if key.Err? then (Err(key.error), st)
    else if key.value.None? then (Err(WrongPassword), st)
    else (Ok(()), st'.(settings := WithPassword(st'.settings, newPassword, f.newSalt, key.value.value), master := key.value))
  }

  function CreateRecoveryKey(st: State, password: Option<string>, f: Fresh): (Outcome<string, Refusal>, State) {
    var s := st.settings;
    if s.wrapped.None? then (Err(NotEnabled), st)
    else if s.recoveryWrapped.None? then
      if st.master.None? then (Err(Locked), st)
      else (Ok(RecoveryKey.Printed(f.recoveryChars)), st.(settings := WithRecovery(s, f, st.master.value)))
    else if password.None? || password.value == "" then (Err(PasswordNeeded), st)
    else
      var key := KeyForPassword(s, password.value).0;
      if key.None? then (Err(WrongPassword), st)
      else (Ok(RecoveryKey.Printed(f.recoveryChars)), st.(settings := WithRecovery(s, f, key.value)))
  }

  function Recover(st: State, recoveryKey: string, newPassword: string, f: Fresh): (Outcome<string, Refusal>, State) {
    var s := st.settings;
    var key := KeyForRecoveryKey(s, recoveryKey);
    if s.recoveryWrapped.None? then (Err(NoRecoveryKey), st)
    else if key.None? then (Err(WrongRecoveryKey), st)
    else (Ok(RecoveryKey.Printed(f.recoveryChars)),
          st.(settings := WithRecovery(WithPassword(s, newPassword, f.newSalt, key.value), f, key.value), master := key))
  }

  function NeedsKey(st: State): Option<Refusal> {
    if st.settings.salt.None? then Some(NotEnabled) else if st.master.None? then Some(Locked) else None
  }

  function SetCloudflare(st: State, token: string): (Outcome<(), Refusal>, State) {
    if NeedsKey(st).Some? then (Err(NeedsKey(st).value), st)
    else (Ok(()), st.(settings := st.settings.(cloudflareToken := Some(EncryptColumn(Plain(token), st.master.value)))))
  }

  function SetRelay(st: State, token: string): (Outcome<(), Refusal>, State) {
    if NeedsKey(st).Some? then (Err(NeedsKey(st).value), st)
    else (Ok(()), st.(settings := st.settings.(relayToken := Some(EncryptColumn(Plain(token), st.master.value)))))
  }

  function CreateRelayKey(st: State, der: string): (Outcome<(), Refusal>, State) {
    if NeedsKey(st).Some? then (Err(NeedsKey(st).value), st)
    else if st.settings.relayKey.Some? then (Err(RelayKeyExists), st)
    else (Ok(()), st.(settings := st.settings.(relayKey := Some(EncryptColumn(Plain(der), st.master.value)))))
  }

  function MaybeEncrypt(st: State, bytes: string): Outcome<Blob, Refusal> {
    if st.master.Some? then Ok(EncryptColumn(Plain(bytes), st.master.value))
    else if st.settings.salt.Some? then Err(Locked)
    else Ok(Plain(bytes))
  }

  /** A certificate whose key stays on the PC that asked for it is saved with a bare empty key. */
  function Save(st: State, id: SecretId, bytes: string): (Outcome<(), Refusal>, State) {
    if id.column == CertKey && bytes == "" then (Ok(()), st.(secrets := st.secrets[id := Plain("")]))
    else
      var b := MaybeEncrypt(st, bytes);
      if b.Err? then (Err(b.error), st) else (Ok(()), st.(secrets := st.secrets[id := b.value]))
  }

  datatype Op =
    | EnableOp(password: string, login: string, f: Fresh)
    | DisableOp(password: string)
    | UnlockOp(password: string, allowed: bool, f: Fresh)
    | ChangePasswordOp(password: string, newPassword: string, f: Fresh)
    | CreateRecoveryKeyOp(given: Option<string>, f: Fresh)
    | RecoverOp(recoveryKey: string, newPassword: string, f: Fresh)
    | SetCloudflareOp(token: string) | ClearCloudflareOp
    | SetRelayOp(token: string) | ClearRelayOp | CreateRelayKeyOp(token: string)
    | SaveOp(id: SecretId, bytes: string) | DeleteOp(id: SecretId)
    | RestartOp

  function Step(st: State, op: Op): State {
    match op
    case EnableOp(password, login, f) => Enable(st, password, login, f).1
    case DisableOp(password) => Disable(st, password).1
    case UnlockOp(password, allowed, f) => Unlock(st, password, allowed, f).1
    case ChangePasswordOp(password, newPassword, f) => ChangePassword(st, password, newPassword, f).1
    case CreateRecoveryKeyOp(given, f) => CreateRecoveryKey(st, given, f).1
    case RecoverOp(recoveryKey, newPassword, f) => Recover(st, recoveryKey, newPassword, f).1
    case SetCloudflareOp(token) => SetCloudflare(st, token).1
    case ClearCloudflareOp => st.(settings := st.settings.(cloudflareToken := None))
    case SetRelayOp(token) => SetRelay(st, token).1
    case ClearRelayOp => st.(settings := st.settings.(relayToken := None))
    case CreateRelayKeyOp(der) => CreateRelayKey(st, der).1
    case SaveOp(id, bytes) => Save(st, id, bytes).1
    case DeleteOp(id) => st.(secrets := st.secrets - {id})
    case RestartOp => st.(master := None)
  }

  function Run(st: State, ops: seq<Op>): State {
    if ops == [] then st else Step(Run(st, ops[..|ops| - 1]), ops[|ops| - 1])
  }

  const EMPTY := State(map[], NO_SETTINGS, None)

  // ── The database as it runs ──

  /** The tables and settings (committed together or not at all) and the process's loaded key. */
  class Database {
    var secrets: Secrets
    var settings: Settings
    var master: Option<Key>

    function View(): State
      reads this
    {
      State(secrets, settings, master)
    }

    constructor ()
      ensures View() == EMPTY
    {
      secrets, settings, master := map[], NO_SETTINGS, None;
    }

    /** Rewrites every sensitive value.  On an error the caller's transaction rolls the rows back. */
    method ReencryptAll(oldKey: Option<Key>, newKey: Option<Key>) returns (r: Outcome<(), Refusal>)
      modifies this`secrets
      ensures r.Ok? <==> CanDecryptAll(old(secrets), oldKey)
      ensures r.Ok? ==> secrets == RewrittenAll(old(secrets), oldKey, newKey)
      ensures r.Err? ==> r.error == if oldKey.None? then Locked else BadTag
    {
      var left := secrets.Keys;
      while left != {}
        invariant left <= secrets.Keys == old(secrets).Keys
        invariant forall id <- left :: secrets[id] == old(secrets[id])
        invariant forall id <- secrets.Keys - left ::
                    DecryptWith(old(secrets)[id], oldKey).Ok? && secrets[id] == Rewritten(old(secrets)[id], oldKey, newKey)
        decreases |left|
      {
        var id :| id in left;
        var plain := DecryptWith(secrets[id], oldKey);
        if plain.Err? {
          return Err(plain.error);
        }
        var value := if newKey.Some? then EncryptColumn(plain.value, newKey.value) else plain.value;
        if value != secrets[id] {
          secrets := secrets[id := value];
        }
        left := left - {id};
      }
      return Ok(());
    }

    method StorePasswordWrap(password: string, salt: nat, dataKey: Key)
      modifies this`settings
      ensures settings == WithPassword(old(settings), password, salt, dataKey)
    {
      var kek := PasswordKek(password, salt);
      settings := settings.(salt := Some(salt));
      settings := settings.(wrapped := Some(Wrap(kek, dataKey)));
      settings := settings.(verify := None);
    }

    method StoreRecoveryWrap(f: Fresh, dataKey: Key) returns (recoveryKey: string)
      modifies this`settings
      ensures settings == WithRecovery(old(settings), f, dataKey)
      ensures recoveryKey == RecoveryKey.Printed(f.recoveryChars)
    {
      recoveryKey := RecoveryKey.Printed(f.recoveryChars);
      settings := settings.(recoverySalt := Some(f.recoverySalt));
      settings := settings.(recoveryWrapped := Some(Wrap(RecoveryKek(f.recoveryChars, f.recoverySalt), dataKey)));
    }

    method OpenWithPassword(password: string, f: Fresh) returns (r: Outcome<Option<Key>, Refusal>)
      modifies this`secrets, this`settings
      ensures (r, View()) == Open(old(View()), password, f)
    {
      var rows := secrets;
      var (key, legacy) := KeyForPassword(settings, password);
      if key.None? || !legacy {
        return Ok(key);
      }
      var dataKey := DataKey(f.dataKey);
      var done := ReencryptAll(key, Some(dataKey));
      if done.Err? {
        secrets := rows;
        return Err(done.error);
      }
      StorePasswordWrap(password, f.salt, dataKey);
      return Ok(Some(dataKey));
    }

    method EnableEncryption(password: string, login: string, f: Fresh) returns (r: Outcome<string, Refusal>)
      modifies this
      ensures (r, View()) == Enable(old(View()), password, login, f)
    {
      if settings.salt.Some? {
        return Err(AlreadyEnabled);
      }
      var rows := secrets;
      var dataKey := DataKey(f.dataKey);
      var done := ReencryptAll(None, Some(dataKey));
      if done.Err? {
        secrets := rows;
        return Err(done.error);
      }
      StorePasswordWrap(password, f.salt, dataKey);
      var recoveryKey := StoreRecoveryWrap(f, dataKey);
      if login != "" {
        settings := settings.(login := Some(login));
      }
      master := Some(dataKey);
      return Ok(recoveryKey);
    }

    method DisableEncryption(password: string) returns (r: Outcome<(), Refusal>)
      modifies this
      ensures (r, View()) == Disable(old(View()), password)
    {
      if settings.salt.None? {
        return Err(NotEnabled);
      }
      if settings.cloudflareToken.Some? {
        return Err(CloudflareConnected);
      }
      if settings.relayKey.Some? || settings.relayToken.Some? {
        return Err(RelayPresent);
      }
      var key := KeyForPassword(settings, password).0;
      if key.None? {
        return Err(WrongPassword);
      }
      var rows := secrets;
      var done := ReencryptAll(key, None);
      if done.Err? {
        secrets := rows;
        return Err(done.error);
      }
      settings := settings.(salt := None, verify := None, wrapped := None, recoverySalt := None,
                            recoveryWrapped := None, login := None);
      master := None;
      return Ok(());
    }

    method UnlockIf(password: string, allowed: bool, f: Fresh) returns (r: Outcome<bool, Refusal>)
      modifies this
      ensures (r, View()) == Unlock(old(View()), password, allowed, f)
    {
      var key := OpenWithPassword(password, f);
      if key.Err? {
        return Err(key.error);
      }
      if key.value.None? || !allowed {
        return Ok(false);
      }
      master := key.value;
      return Ok(true);
    }

    method SetPassword(password: string, newPassword: string, f: Fresh) returns (r: Outcome<(), Refusal>)
      modifies this
      ensures (r, View()) == ChangePassword(old(View()), password, newPassword, f)
    {
      var key := OpenWithPassword(password, f);
      if key.Err? {
        return Err(key.error);
      }
      if key.value.None? {
        return Err(WrongPassword);
      }
      StorePasswordWrap(newPassword, f.newSalt, key.value.value);
      master := key.value;
      return Ok(());
    }

    method NewRecoveryKey(password: Option<string>, f: Fresh) returns (r: Outcome<string, Refusal>)
      modifies this
      ensures (r, View()) == CreateRecoveryKey(old(View()), password, f)
    {
      var key: Option<Key>;
      if settings.wrapped.None? {
        return Err(NotEnabled);
      }
      if settings.recoveryWrapped.None? {
        key := master;
        if key.None? {
          return Err(Locked);
        }
      } else {
        if password.None? || password.value == "" {
          return Err(PasswordNeeded);
        }
        key := KeyForPassword(settings, password.value).0;
        if key.None? {
          return Err(WrongPassword);
        }
      }
      var shown := StoreRecoveryWrap(f, key.value);
      return Ok(shown);
    }

    method RecoverWithKey(recoveryKey: string, newPassword: string, f: Fresh) returns (r: Outcome<string, Refusal>)
      modifies this
      ensures (r, View()) == Recover(old(View()), recoveryKey, newPassword, f)
    {
      if settings.recoveryWrapped.None? {
        return Err(NoRecoveryKey);
      }
      var key := KeyForRecoveryKey(settings, recoveryKey);
      if key.None? {
        return Err(WrongRecoveryKey);
      }
      StorePasswordWrap(newPassword, f.newSalt, key.value);
      var shown := StoreRecoveryWrap(f, key.value);
      master := key;
      return Ok(shown);
    }

    method SaveSecret(id: SecretId, bytes: string) returns (r: Outcome<(), Refusal>)
      modifies this`secrets
      ensures (r, View()) == Save(old(View()), id, bytes)
    {
      var value := Plain("");
      if id.column != CertKey || bytes != "" {
        var b := MaybeEncrypt(View(), bytes);
        if b.Err? {
          return Err(b.error);
        }
        value := b.value;
      }
      secrets := secrets[id := value];
      return Ok(());
    }
  }

  // ── The invariant ──

  /** `b` is stored as it must be while the columns are under `key` (None: encryption is off). */
  ghost predicate StoredUnder(b: Blob, key: Option<Key>) {
    if key.None? then b.Plain? && !HasPrefix(b.bytes)
    else b == Plain("") || (b.Sealed? && b.key == key.value && !HasPrefix(b.bytes))
  }

  ghost predicate AllUnder(secrets: Secrets, key: Option<Key>) {
    forall id <- secrets :: StoredUnder(secrets[id], key)
  }

  ghost predicate SealedSetting(b: Option<Blob>, key: Key) {
    b.None? || (b.value.Sealed? && b.value.key == key && !HasPrefix(b.value.bytes))
  }

  /** The key the columns are under, as the settings tell it. */
  ghost function ColumnKey(s: Settings): Option<Key> {
    if s.wrapped.Some? then Some(s.wrapped.value.dataKey)
    else if s.verify.Some? && s.verify.value.Sealed? then Some(s.verify.value.key)
    else None
  }

  ghost predicate Modern(st: State, key: Key) {
    var s := st.settings;
    && s.salt.Some? && s.verify.None?
    && s.wrapped.Some? && s.wrapped.value.dataKey == key
    && s.wrapped.value.kek.PasswordKek? && s.wrapped.value.kek.salt == s.salt.value
    && s.recoverySalt.Some? == s.recoveryWrapped.Some?
    && (s.recoveryWrapped.Some? ==>
          var w := s.recoveryWrapped.value;
          w.dataKey == key && w.kek.RecoveryKek? && w.kek.salt == s.recoverySalt.value && RecoveryKey.IsCanonical(w.kek.canonical))
    && SealedSetting(s.cloudflareToken, key) && SealedSetting(s.relayKey, key) && SealedSetting(s.relayToken, key)
    && AllUnder(st.secrets, Some(key))
    && (st.master.None? || st.master == Some(key))
  }

  /** A database from before data keys: the columns are under the password's own key, and it is locked. */
  ghost predicate Legacy(st: State) {
    var s := st.settings;
    && s.salt.Some? && s.wrapped.None? && s.recoverySalt.None? && s.recoveryWrapped.None?
    && s.verify.Some? && s.verify.value.Sealed? && s.verify.value.bytes == VERIFY_PLAINTEXT
    && s.verify.value.key.PasswordKek? && s.verify.value.key.salt == s.salt.value
    && s.cloudflareToken.None? && s.relayKey.None? && s.relayToken.None?
    && AllUnder(st.secrets, Some(s.verify.value.key))
    && st.master.None?
  }

  ghost predicate Off(st: State) {
    st.settings == NO_SETTINGS && st.master.None? && AllUnder(st.secrets, None)
  }

  ghost predicate IsModern(st: State) {
    st.settings.wrapped.Some? && Modern(st, st.settings.wrapped.value.dataKey)
  }

  ghost predicate Inv(st: State) {
    if st.settings.salt.None? then Off(st)
    else if st.settings.wrapped.Some? then Modern(st, st.settings.wrapped.value.dataKey)
    else Legacy(st)
  }

  /** Nothing new is stored that already looks encrypted.  Keys are PEM or DER, tokens are text; a random
      pairing key would have to start with the four prefix bytes by chance. */
  ghost predicate Clean(op: Op) {
    match op
    case SaveOp(_, bytes) => !HasPrefix(bytes)
    case SetCloudflareOp(token) => !HasPrefix(token)
    case SetRelayOp(token) => !HasPrefix(token)
    case CreateRelayKeyOp(der) => !HasPrefix(der)
    case _ => true
  }

  lemma RewrittenStaysUnder(secrets: Secrets, oldKey: Option<Key>, newKey: Option<Key>)
    requires AllUnder(secrets, oldKey)
    ensures CanDecryptAll(secrets, oldKey)
    ensures AllUnder(RewrittenAll(secrets, oldKey, newKey), newKey)
  {
    forall id <- secrets
      ensures DecryptWith(secrets[id], oldKey).Ok? && StoredUnder(Rewritten(secrets[id], oldKey, newKey), newKey)
    {
      assert StoredUnder(secrets[id], oldKey);
    }
  }

  lemma PasswordStepsKeepInv(st: State, op: Op)
    requires Inv(st) && (op.UnlockOp? || op.ChangePasswordOp?)
    ensures Inv(Step(st, op))
  {
    if st.settings.salt.Some? {
      RewrittenStaysUnder(st.secrets, ColumnKey(st.settings), Some(DataKey(op.f.dataKey)));
    }
  }

  lemma SwitchStepsKeepInv(st: State, op: Op)
    requires Inv(st) && (op.EnableOp? || op.DisableOp?)
    ensures Inv(Step(st, op))
  {
    if op.EnableOp? && st.settings.salt.None? {
      RewrittenStaysUnder(st.secrets, None, Some(DataKey(op.f.dataKey)));
    } else if op.DisableOp? && st.settings.salt.Some? {
      RewrittenStaysUnder(st.secrets, ColumnKey(st.settings), None);
    }
  }

  lemma StepKeepsInv(st: State, op: Op)
    requires Inv(st) && Clean(op)
    ensures Inv(Step(st, op))
  {
    match op
    case EnableOp(_, _, _) => SwitchStepsKeepInv(st, op);
    case DisableOp(_) => SwitchStepsKeepInv(st, op);
    case UnlockOp(_, _, _) => PasswordStepsKeepInv(st, op);
    case ChangePasswordOp(_, _, _) => PasswordStepsKeepInv(st, op);
    case _ =>
  }

  /** In every reachable state either encryption is off and everything is plain, or one key holds it all. */
  lemma {:induction false} RunKeepsInv(start: State, ops: seq<Op>)
    requires Inv(start) && forall op <- ops :: Clean(op)
    ensures Inv(Run(start, ops))
    ensures Off(Run(start, ops)) || Legacy(Run(start, ops)) || exists key :: Modern(Run(start, ops), key)
  {
    if ops != [] {
      RunKeepsInv(start, ops[..|ops| - 1]);
      StepKeepsInv(Run(start, ops[..|ops| - 1]), ops[|ops| - 1]);
    }
  }

  // ── What the operations preserve ──

  /** Every secret as it reads under the key the columns are under. */
  ghost function View(st: State): map<SecretId, Outcome<Blob, Refusal>> {
    map id <- st.secrets :: DecryptWith(st.secrets[id], ColumnKey(st.settings))
  }

  lemma RewritingKeepsView(st: State, st': State, newKey: Option<Key>)
    requires AllUnder(st.secrets, ColumnKey(st.settings)) && CanDecryptAll(st.secrets, ColumnKey(st.settings))
    requires st'.secrets == RewrittenAll(st.secrets, ColumnKey(st.settings), newKey)
    requires ColumnKey(st'.settings) == newKey
    ensures View(st') == View(st)
  {
    forall id <- st.secrets ensures View(st')[id] == View(st)[id] {
      assert StoredUnder(st.secrets[id], ColumnKey(st.settings));
    }
  }

  /** No key operation changes, adds or loses a secret. */
  lemma KeyOperationsKeepView(st: State, op: Op)
    requires Inv(st) && Clean(op) && !op.SaveOp? && !op.DeleteOp?
    ensures View(Step(st, op)) == View(st)
  {
    var key, st' := ColumnKey(st.settings), Step(st, op);
    if st'.secrets == st.secrets && ColumnKey(st'.settings) == key {
    } else {
      var newKey := if op.DisableOp? then None else Some(DataKey(op.f.dataKey));
      RewrittenStaysUnder(st.secrets, key, newKey);
      RewritingKeepsView(st, st', newKey);
    }
  }

  /** Every secret reads as plain bytes. */
  lemma EverySecretReads(st: State, id: SecretId)
    requires Inv(st) && id in st.secrets
    ensures View(st)[id].Ok? && View(st)[id].value.Plain?
  {
    assert StoredUnder(st.secrets[id], ColumnKey(st.settings));
  }

  lemma OtherSecretsKeepView(st: State, op: Op, id: SecretId)
    requires id in st.secrets && (op.SaveOp? || op.DeleteOp?) && op.id != id
    ensures id in View(Step(st, op)) && View(Step(st, op))[id] == View(st)[id]
  {
  }

  /** Saving is refused exactly while the database is locked, unless there is nothing to seal. */
  lemma SaveReadsBack(st: State, id: SecretId, bytes: string)
    requires Inv(st) && !HasPrefix(bytes)
    ensures var (r, st') := Save(st, id, bytes);
            && (r.Ok? <==> Off(st) || st.master.Some? || (id.column == CertKey && bytes == ""))
            && (r.Ok? ==> View(st') == View(st)[id := Ok(Plain(bytes))] && st' == st.(secrets := st'.secrets))
            && (r.Err? ==> st' == st && r.error == Locked)
  {
  }

  lemma DeletingForgetsOne(st: State, id: SecretId)
    ensures View(Step(st, DeleteOp(id))) == View(st) - {id}
    ensures Step(st, DeleteOp(id)).settings == st.settings && Step(st, DeleteOp(id)).master == st.master
  {
  }

  // ── The sealed settings ──

  datatype Token = Cloudflare | RelayKey | RelayToken

  function TokenBlob(s: Settings, t: Token): Option<Blob> {
    match t case Cloudflare => s.cloudflareToken case RelayKey => s.relayKey case RelayToken => s.relayToken
  }

  /** How a sealed setting reads under the loaded key, or would if it were loaded. */
  ghost function TokenRead(st: State, t: Token): Option<Outcome<Blob, Refusal>> {
    var b := TokenBlob(st.settings, t);
    if b.None? then None else Some(DecryptWith(b.value, ColumnKey(st.settings)))
  }

  predicate Writes(op: Op, t: Token) {
    match t
    case Cloudflare => op.SetCloudflareOp? || op.ClearCloudflareOp?
    case RelayKey => op.CreateRelayKeyOp?
    case RelayToken => op.SetRelayOp? || op.ClearRelayOp?
  }

  /** A sealed setting can be written exactly while the key is loaded, the relay's own key only once; what is written is
      what reads back, and everything else stays. */
  lemma TokenReadsBack(st: State, op: Op)
    requires Inv(st) && Clean(op) && (op.SetCloudflareOp? || op.SetRelayOp? || op.CreateRelayKeyOp?)
    ensures var t := if op.SetCloudflareOp? then Cloudflare else if op.SetRelayOp? then RelayToken else RelayKey;
            var st' := Step(st, op);
            if st.master.Some? && (op.CreateRelayKeyOp? ==> TokenRead(st, RelayKey).None?) then
              && TokenRead(st', t) == Some(Ok(Plain(op.token)))
              && (forall u :: u != t ==> TokenRead(st', u) == TokenRead(st, u))
              && st' == st.(settings := st'.settings) && SameWraps(st', st)
            else st' == st
  {
  }

  predicate SameWraps(st: State, st': State) {
    st'.settings.(cloudflareToken := None, relayKey := None, relayToken := None) ==
    st.settings.(cloudflareToken := None, relayKey := None, relayToken := None)
  }

  /** Clearing one clears just that. */
  lemma TokenClears(st: State, op: Op)
    requires op.ClearCloudflareOp? || op.ClearRelayOp?
    ensures var t := if op.ClearCloudflareOp? then Cloudflare else RelayToken;
            var st' := Step(st, op);
            && TokenRead(st', t).None? && (forall u :: u != t ==> TokenRead(st', u) == TokenRead(st, u))
            && st' == st.(settings := st'.settings) && SameWraps(st', st)
  {
  }

  /** No other operation changes what a sealed setting reads as, or the name that unlocks, which enabling sets. */
  lemma KeyOperationsKeepTokens(st: State, op: Op, t: Token)
    requires Inv(st) && Clean(op) && !Writes(op, t)
    ensures TokenRead(Step(st, op), t) == TokenRead(st, t)
    ensures !op.EnableOp? && !op.DisableOp? ==> Step(st, op).settings.login == st.settings.login
  {
    if op.UnlockOp? || op.ChangePasswordOp? {
      if st.settings.salt.Some? { RewrittenStaysUnder(st.secrets, ColumnKey(st.settings), Some(DataKey(op.f.dataKey))); }
    } else if op.DisableOp? {
      DisableOpensNothing(st, op.password);
    } else if op.EnableOp? && st.settings.salt.None? {
      RewrittenStaysUnder(st.secrets, None, Some(DataKey(op.f.dataKey)));
    }
  }

  /** The key is unloaded by a restart and by turning encryption off, and by nothing else. */
  lemma KeyStaysLoaded(st: State, op: Op)
    requires Inv(st) && st.master.Some?
    ensures op.RestartOp? ==> Step(st, op) == st.(master := None)
    ensures !op.RestartOp? && Step(st, op).master.None? ==> op.DisableOp? && Off(Step(st, op))
  {
    if op.DisableOp? { DisableOpensNothing(st, op.password); }
  }

  predicate Touches(op: Op, id: SecretId) {
    (op.SaveOp? || op.DeleteOp?) && op.id == id
  }

  /** A saved secret still reads the same after any run of key changes and of work on other secrets. */
  lemma {:induction false} SecretSurvivesRun(start: State, ops: seq<Op>, id: SecretId)
    requires Inv(start) && id in start.secrets
    requires forall op <- ops :: Clean(op) && !Touches(op, id)
    ensures id in View(Run(start, ops)) && View(Run(start, ops))[id] == View(start)[id]
  {
    if ops != [] {
      var before, op := Run(start, ops[..|ops| - 1]), ops[|ops| - 1];
      SecretSurvivesRun(start, ops[..|ops| - 1], id);
      RunKeepsInv(start, ops[..|ops| - 1]);
      assert op in ops;
      if op.SaveOp? || op.DeleteOp? {
        OtherSecretsKeepView(before, op, id);
      } else {
        KeyOperationsKeepView(before, op);
      }
    }
  }

  // ── Who opens the database ──

  ghost predicate OpensWith(st: State, password: string) {
    KeyForPassword(st.settings, password).0.Some?
  }

  ghost predicate OnlyOpensWith(st: State, password: string) {
    forall p :: OpensWith(st, p) <==> p == password
  }

  ghost predicate RecoversWith(st: State, text: string) {
    KeyForRecoveryKey(st.settings, text).Some?
  }

  /** Whatever opens an encrypted database gives the key its columns are under; exactly one password does. */
  lemma OnePasswordOpens(st: State)
    requires Inv(st) && st.settings.salt.Some?
    ensures exists password :: OnlyOpensWith(st, password)
    ensures forall p :: OpensWith(st, p) ==> KeyForPassword(st.settings, p).0 == ColumnKey(st.settings)
    ensures forall t :: RecoversWith(st, t) ==> KeyForRecoveryKey(st.settings, t) == ColumnKey(st.settings)
  {
    var s := st.settings;
    var password := if s.wrapped.Some? then s.wrapped.value.kek.password else s.verify.value.key.password;
    assert OnlyOpensWith(st, password);
  }

  lemma ExactlyTheseOpen(st: State, password: string, f: Fresh)
    requires Inv(st) && st.settings.wrapped.Some? && st.settings.wrapped.value.kek.password == password
    requires st.settings.recoveryWrapped.Some? && st.settings.recoveryWrapped.value.kek.canonical == f.recoveryChars
    ensures OnlyOpensWith(st, password)
    ensures forall t :: RecoversWith(st, t) <==> RecoveryKey.Spells(t, f.recoveryChars)
  {
    forall t ensures RecoversWith(st, t) <==> RecoveryKey.Spells(t, f.recoveryChars) {
      RecoveryKey.NormalizesExactlyItsSpellings(t, f.recoveryChars);
    }
  }

  /** Turning encryption on works exactly while it is off; afterwards the chosen password, the printed recovery key and the
      given name count, and the key is loaded. */
  lemma EnableOpensExactly(st: State, password: string, login: string, f: Fresh)
    requires Inv(st)
    ensures var (r, st') := Enable(st, password, login, f);
            && (r.Ok? <==> Off(st)) && (r.Err? ==> st' == st)
            && (r.Ok? ==>
                  && r.value == RecoveryKey.Printed(f.recoveryChars)
                  && OnlyOpensWith(st', password)
                  && (forall t :: RecoversWith(st', t) <==> RecoveryKey.Spells(t, f.recoveryChars))
                  && RecoversWith(st', r.value) && st'.master == ColumnKey(st'.settings) && st'.master.Some?
                  && st'.settings.login == if login == "" then None else Some(login))
  {
    var (r, st') := Enable(st, password, login, f);
    if st.settings.salt.None? {
      RewrittenStaysUnder(st.secrets, None, Some(DataKey(f.dataKey)));
      StepKeepsInv(st, EnableOp(password, login, f));
      ExactlyTheseOpen(st', password, f);
      RecoveryKey.PrintedKeyReadsBack(f.recoveryChars);
    }
  }

  /** Recovery works exactly with the recovery key, locked or not; afterwards the new password and the new recovery key count
      and the key is loaded. */
  lemma RecoverOpensExactly(st: State, recoveryKey: string, newPassword: string, f: Fresh)
    requires Inv(st)
    ensures var (r, st') := Recover(st, recoveryKey, newPassword, f);
            && (r.Ok? <==> RecoversWith(st, recoveryKey)) && (r.Err? ==> st' == st)
            && (r == Err(NoRecoveryKey) <==> forall t :: !RecoversWith(st, t))
            && (r.Ok? ==>
                  && r.value == RecoveryKey.Printed(f.recoveryChars)
                  && OnlyOpensWith(st', newPassword)
                  && (forall t :: RecoversWith(st', t) <==> RecoveryKey.Spells(t, f.recoveryChars))
                  && RecoversWith(st', r.value) && st'.master == ColumnKey(st'.settings))
  {
    var (r, st') := Recover(st, recoveryKey, newPassword, f);
    if st.settings.recoveryWrapped.Some? { SomethingRecovers(st); }
    if r.Ok? {
      StepKeepsInv(st, RecoverOp(recoveryKey, newPassword, f));
      ExactlyTheseOpen(st', newPassword, f);
      RecoveryKey.PrintedKeyReadsBack(f.recoveryChars);
    }
  }

  /** A stored recovery key is one that somebody can type. */
  lemma SomethingRecovers(st: State)
    requires Inv(st) && st.settings.recoveryWrapped.Some?
    ensures exists t :: RecoversWith(st, t)
  {
    var chars := st.settings.recoveryWrapped.value.kek.canonical;
    RecoveryKey.PrintedKeyReadsBack(chars);
    assert RecoversWith(st, RecoveryKey.Printed(chars));
  }

  /** Only the new password opens afterwards; the recovery key is kept as it was. */
  lemma ChangePasswordOpensExactly(st: State, password: string, newPassword: string, f: Fresh)
    requires Inv(st)
    ensures var (r, st') := ChangePassword(st, password, newPassword, f);
            && (r.Ok? <==> OpensWith(st, password))
            && (r.Ok? ==> OnlyOpensWith(st', newPassword) && st'.master == ColumnKey(st'.settings))
            && (forall t :: RecoversWith(st', t) <==> RecoversWith(st, t))
            && (r.Err? ==> st' == st)
  {
    if st.settings.salt.Some? {
      RewrittenStaysUnder(st.secrets, ColumnKey(st.settings), Some(DataKey(f.dataKey)));
    }
  }

  /** Unlocking works exactly with the right password (and name), and leaves who can open as it was. */
  lemma UnlockOpensExactly(st: State, password: string, allowed: bool, f: Fresh)
    requires Inv(st)
    ensures var (r, st') := Unlock(st, password, allowed, f);
            && r == Ok(OpensWith(st, password) && allowed)
            && (r.value ==> st'.master == ColumnKey(st'.settings)) && (!r.value ==> st'.master == st.master)
            && (forall p :: OpensWith(st', p) <==> OpensWith(st, p))
            && (forall t :: RecoversWith(st', t) <==> RecoversWith(st, t))
  {
    if st.settings.salt.Some? {
      RewrittenStaysUnder(st.secrets, ColumnKey(st.settings), Some(DataKey(f.dataKey)));
    }
  }

  /** A new recovery key takes the place of the old one, if the password is given for it, or else of none, if the key is
      loaded; no password changes. */
  lemma CreateRecoveryKeyOpensExactly(st: State, given: Option<string>, f: Fresh)
    requires Inv(st)
    ensures var (r, st') := CreateRecoveryKey(st, given, f);
            && (r.Ok? <==> IsModern(st) &&
                           if exists t :: RecoversWith(st, t) then given.Some? && given.value != "" && OpensWith(st, given.value)
                           else st.master.Some?)
            && (r.Err? ==> st' == st)
            && st'.master == st.master && (forall p :: OpensWith(st', p) <==> OpensWith(st, p))
            && (r.Ok? ==>
                  && r.value == RecoveryKey.Printed(f.recoveryChars)
                  && (forall t :: RecoversWith(st', t) <==> RecoveryKey.Spells(t, f.recoveryChars))
                  && RecoversWith(st', r.value))
  {
    var (r, st') := CreateRecoveryKey(st, given, f);
    if st.settings.recoveryWrapped.Some? { SomethingRecovers(st); }
    if r.Ok? {
      StepKeepsInv(st, CreateRecoveryKeyOp(given, f));
      ExactlyTheseOpen(st', st'.settings.wrapped.value.kek.password, f);
      RecoveryKey.PrintedKeyReadsBack(f.recoveryChars);
    }
  }

  lemma DisableOpensNothing(st: State, password: string)
    requires Inv(st)
    ensures var (r, st') := Disable(st, password);
            && (r.Ok? <==> OpensWith(st, password) && st.settings.cloudflareToken.None? &&
                           st.settings.relayKey.None? && st.settings.relayToken.None?)
            && (r.Ok? ==> Off(st') && forall p :: !OpensWith(st', p) && !RecoversWith(st', p))
            && (r.Err? ==> st' == st)
  {
    if st.settings.salt.Some? {
      RewrittenStaysUnder(st.secrets, ColumnKey(st.settings), None);
    }
  }

  // ── What a refusal says ──

  lemma DisablingRefusedFor(st: State, password: string)
    requires Inv(st) && Disable(st, password).0.Err?
    ensures Disable(st, password).0.error ==
              if Off(st) then NotEnabled else if TokenRead(st, Cloudflare).Some? then CloudflareConnected
              else if TokenRead(st, RelayKey).Some? || TokenRead(st, RelayToken).Some? then RelayPresent else WrongPassword
  {
    if st.settings.salt.Some? { RewrittenStaysUnder(st.secrets, ColumnKey(st.settings), None); }
  }

  lemma CreatingRefusedFor(st: State, given: Option<string>, f: Fresh)
    requires Inv(st) && CreateRecoveryKey(st, given, f).0.Err?
    ensures CreateRecoveryKey(st, given, f).0.error ==
              if !IsModern(st) then NotEnabled else if forall t :: !RecoversWith(st, t) then Locked
              else if given.None? || given.value == "" then PasswordNeeded else WrongPassword
  {
    if st.settings.recoveryWrapped.Some? { SomethingRecovers(st); }
  }

  lemma SettingRefusedFor(st: State, token: string)
    requires Inv(st) && st.master.None?
    ensures SetCloudflare(st, token).0 == SetRelay(st, token).0 == CreateRelayKey(st, token).0 ==
              Err(if Off(st) then NotEnabled else Locked)
  {
  }

  lemma RunMore(st: State, ops: seq<Op>, op: Op)
    ensures Run(st, []) == st && Run(st, ops + [op]) == Step(Run(st, ops), op)
  {
    assert (ops + [op])[..|ops|] == ops;
  }

  // ── Where the code falls short, exactly ──

  /** Encrypting and decrypting gives a value back exactly when it does not look encrypted already. */
  lemma ColumnRoundTrip(bytes: string, key: Key)
    ensures DecryptWith(EncryptColumn(Plain(bytes), key), Some(key)) == Ok(Plain(bytes)) <==> !HasPrefix(bytes)
  {
  }

  /** Saving keeps the hierarchy exactly when the bytes do not look encrypted already. */
  lemma SaveKeepsInvIff(st: State, id: SecretId, bytes: string)
    requires Inv(st) && Save(st, id, bytes).0.Ok?
    ensures Inv(Save(st, id, bytes).1) <==> !HasPrefix(bytes)
  {
    var st' := Save(st, id, bytes).1;
    if HasPrefix(bytes) {
      assert id in st'.secrets && !StoredUnder(st'.secrets[id], ColumnKey(st'.settings));
    }
  }

  /** What the certificate list shows: has_key is whether the stored column is not empty. */
  predicate HasKey(b: Blob) {
    b != Plain("")
  }

  /** Turning encryption on leaves has_key as it was exactly when no certificate's key stayed on its PC:
      an empty key column is sealed like any other and then no longer looks empty. */
  lemma EnableKeepsHasKeyIff(st: State, password: string, login: string, f: Fresh)
    requires Off(st)
    ensures var st' := Enable(st, password, login, f).1;
            (forall id <- st.secrets :: HasKey(st'.secrets[id]) == HasKey(st.secrets[id])) <==>
            (forall id <- st.secrets :: st.secrets[id] != Plain(""))
  {
    var st' := Enable(st, password, login, f).1;
    forall id <- st.secrets ensures HasKey(st'.secrets[id]) {
      assert StoredUnder(st.secrets[id], None);
    }
  }
}
