# Cert Generator, verified

A Dafny model of the trust and state core of Cert Generator (a Flask server over SQLite that runs small
certificate authorities), of its Windows client (the Pal), and of the Cloudflare relay Worker between them.

Each module models one component. It has a *value-level* part, with one function per operation that gives the
answer and the state afterwards, and theorems about those functions over every run. Where the source changes
tables or dictionaries in place, a *class* beside it has the real fields and loops, and each of its methods is
proved to compute exactly its function. The table below names the methods whose loops or refinements carry the
work; the straight-line ones (the key operations, the relay's and the API's handlers, the steps of `_issue`, the
publisher's and the CA handlers) are proved in the same way and have no row. `dafny verify dfyconfig.toml` checks
the whole project.

| module | component | main results |
|---|---|---|
| `KeyHierarchy`, `RecoveryKey` | encryption at rest | one data key holds every secret in every reachable state; no key operation changes what a secret reads as; when each succeeds, and that exactly the new password and the printed recovery key open it |
| `Replay` | signed requests over LAN and relay | the exact conditions, over every run, under which a handler runs at most once for each PC, and for each signed request, however it is copied; what a second run takes; what runs by the relay, and that nothing of a PC does once it is switched off |
| `Mailbox` | the relay Worker's mailbox | requests with one nonce are taken in more than a TTL apart; nothing outlives twice the TTL, and exactly what outlives one; tombstones outlive timestamps; a PC fetches the last reply the server gave it |
| `Issuance` | certificate requests and pairing codes | one certificate per request under every interleaving; what a revocation leaves waiting; a code connects one PC, exactly while it is good |
| `Publication` | revocation and published CRLs | every maintained CA's CRL is complete after every handler, and exactly when its Worker is in step; only revoked certificates are on any; a revocation is never forgotten; CRL numbers grow; renewal keeps up |
| `CaForest` | the CA tree and validity | walks and trees agree; children are deleted before parents; what may be issued, and that validity nests along every chain |
| `Presence` | store audits on a shared PC | only a certificate's own account, or a removal, makes it count as gone, and only until it is found again |
| `Backup` | backup and restore | a backup restores everywhere with the same secrets; which backups do, and what any of them leaves; a failed restore changes nothing |
| `Lockout`, `RateLimit`, `Totp` | sign-in limits and one-time codes | bounded dictionaries answer like unbounded ones; at most nine failures in 900 s, which is reached; at most twice the limit in a window, which is reached; exactly when a code is good once |
| `WireStrings`, `Serials`, `Base64Url`, `DerString`, `NamePolicy`, `Strings` | formats shared by Python, JavaScript and C# | injectivity, round trips with their exact domains, the wildcard test against labels |

## Assumptions

- Cryptography is symbolic: a key is known by how it was made, a ciphertext opens only under its own key and
  associated data, a signature is of one message by one key, digests are text without newlines.
- Each server handler, each database transaction and each Worker handler segment between waits is one atomic
  step; `Issuance` alone takes `_issue` apart into its steps. Random ids, nonces, serials and script names are new.
- The clock does not step back, except where a row below says otherwise.
- Network, Cloudflare and disk failures are inputs: which scripts an upload reaches, how far a deployment gets,
  whether the LAN or the relay answers.

## Where the code differs from what it says

- `app/relay_worker.py:239` says nothing stays longer than the TTL. The bound is twice the TTL (plus the alarm's own
  lateness, `Mailbox.NothingOutlivesTwiceTheTtl`). An alarm on time takes an entry exactly when it was set for later
  than one TTL after it (`Mailbox.GoneAtTheAlarmIff`); `Mailbox.TtlOldEntriesStay` is a run where it was not.
- `_signed_device` reads the clock once for the skew check and again for the nonce row (`app/routes/pal.py:344-346`).
  With two readings a copy can run twice for its PC; `Replay.AtMostOnceIff` says of every run when,
  `Replay.SecondRunStraddles` what a second run takes, `Replay.TwoReadingsCanRunTwice` gives runs that do, and
  `Replay.AtMostOnce` and `Replay.OneReadingRunsOnce` those that cannot.
- A request's signature does not cover the PC's id (`app/pal.py:212-213`), nonces are kept per PC
  (`app/db.py:1334-1343`), and two PCs may be enrolled with one key (`app/db.py:118-131`). A signed request brought to
  both runs twice (`Replay.SharedKeyCanRunTwice`); `Replay.AtMostOnceIff` is the exact condition, and keys of their own,
  which the stock Pal makes (`pal/src/CertGeneratorPal/Operations.cs:32`), suffice.
- `app/relay_worker.py:186-189` drops the queue of a PC taken off the list. A request whose signature is being checked
  meanwhile is queued after that (`Mailbox.QueuedIsListedIff`, `Mailbox.UnlistedCanWait`).
- `app/security.py:122-123` says a code cannot be replayed. Turning MFA off and on and restoring a backup set the last
  step anew (`app/db.py:1782-1791`, `app/db.py:1625`); `Totp.ACodeIsGoodOnceIff` is the exact condition,
  `Totp.DisablingCanLetACodeInTwice` and `Totp.RestoringCanLetACodeInTwice` are runs that fail it.
- A restored Worker link may name a Worker that serves another CRL with no error on record, until the next CRL is
  signed (`Publication.RestoredIsAstrayIff`).
- `app/db.py:1213-1214` says a revoked device's pending requests are denied. One that was being issued comes back to
  pending if its run fails (`app/routes/pal.py:186-187`); `Issuance.RevokedWaitsOnlyInFlight` says of every run which
  wait, `Issuance.RevokedRequestCanWait` that they do. Approving one is refused (`app/routes/pal.py:1019-1020`).
- A certificate list's `has_key` turns true for certificates whose key stayed on the PC once encryption is turned on
  or a backup is restored into an encrypted database (`KeyHierarchy.EnableKeepsHasKeyIff`, `Backup.RestoreKeepsHasKeyIff`).
- `encrypt_column` leaves bytes that already carry the prefix as they are (`KeyHierarchy.ColumnRoundTrip`).
- The server's `b64url_decode` refuses the empty text that `b64url` writes for no bytes (`Base64Url.RoundTrip`), and
  takes whole groups with a newline at the end, which the Pal and the Worker refuse (`Base64Url.LanguagesAgree`).
- The DNS label pattern also matches a label that ends in a newline, so an accepted name is made of proper labels
  exactly when it holds no newline (`NamePolicy.AcceptedIsProperIff`, `NamePolicy.NewlineIsAccepted`).
- `_encode_utf8_string` fails on texts of 65536 bytes or more (`DerString.EncodesDerIff`).

## Model

| member | source | states |
|---|---|---|
| KeyHierarchy.RunKeepsInv | app/db.py:390-594 | In every reachable state encryption is off with everything plain and no wraps, or the database is in the old format and locked, or one key K seals every non-empty secret and sealed setting, both wraps hold K and the loaded key is K or none |
| KeyHierarchy.KeyOperationsKeepView | app/db.py:413-459 | Enable, disable, unlock with migration, change password, recover and the relay and Cloudflare settings leave every secret reading as it did |
| KeyHierarchy.SecretSurvivesRun | app/db.py:335-350 | A secret reads the same after any run of key operations and of work on other secrets |
| KeyHierarchy.SaveReadsBack | app/db.py:876-903 | A secret is saved exactly unless the database is encrypted and locked (an empty certificate key even then); it reads back, and nothing else changes |
| KeyHierarchy.EverySecretReads | app/db.py:345-363 | In every good state each stored secret decrypts to plain bytes |
| KeyHierarchy.OnePasswordOpens | app/db.py:390-411 | Exactly one password opens an encrypted database, and whatever opens it yields the key its columns are under |
| KeyHierarchy.EnableOpensExactly | app/db.py:478-496 | Succeeds exactly when encryption is off, and changes nothing else; afterwards exactly the chosen password, and exactly the spellings of the returned recovery key, open it |
| KeyHierarchy.ChangePasswordOpensExactly | app/db.py:532-540 | Succeeds exactly with the old password; afterwards only the new one opens; the recovery key keeps working; a refusal changes nothing |
| KeyHierarchy.UnlockOpensExactly | app/db.py:516-530 | Unlocks exactly with the right password and name; who can open it does not change, even when the old format is migrated |
| KeyHierarchy.RecoverOpensExactly | app/db.py:580-594 | Succeeds exactly with a spelling of the recovery key, locked or not, and loads the key; a refusal changes nothing; afterwards exactly the new password and the newly returned recovery key open it |
| KeyHierarchy.CreateRecoveryKeyOpensExactly | app/db.py:542-563 | Succeeds exactly on an encrypted database of the current format, with its password where there is a recovery key already and with the key loaded where there is none; a refusal changes nothing; the new recovery key replaces the old one and no password changes |
| KeyHierarchy.DisableOpensNothing | app/db.py:499-514 | Succeeds exactly with the right password and no sealed settings left; afterwards everything is plain |
| KeyHierarchy.TokenReadsBack | app/db.py:1188-1193 | The relay's key and token and Cloudflare's token are written exactly while the key is loaded, the relay's key only once; they read back, and nothing else changes |
| KeyHierarchy.KeyOperationsKeepTokens | app/db.py:431-459 | No other operation changes what they read as |
| KeyHierarchy.KeyStaysLoaded | app/db.py:499-514 | Only a restart and turning encryption off unload the key |
| KeyHierarchy.DisablingRefusedFor | app/db.py:499-514 | A refusal to turn encryption off says exactly why |
| KeyHierarchy.CreatingRefusedFor | app/db.py:542-563 | So does one to make a recovery key |
| KeyHierarchy.ColumnRoundTrip | app/crypto_engine.py:1014-1027 | Encrypting then decrypting gives bytes back exactly when they lack the prefix |
| KeyHierarchy.SaveKeepsInvIff | app/db.py:335-342 | Saving keeps the invariant exactly when the bytes lack the prefix |
| KeyHierarchy.EnableKeepsHasKeyIff | app/db.py:906-909 | Enabling keeps every has_key exactly when no stored key is empty |
| KeyHierarchy.Database.ReencryptAll | app/db.py:413-428 | The loop rewrites every secret from the old key to the new one; it succeeds exactly when the old key reads them all, and else says why |
| KeyHierarchy.Database.EnableEncryption | app/db.py:478-496 | The specified answer and tables, and a failure at any row leaves every table as it was |
| RecoveryKey.NormalizesExactlyItsSpellings | app/crypto_engine.py:1073-1083 | A typed text normalizes exactly to a key of 25 characters of the alphabet that it spells: any case, also of the letters outside ASCII whose capitals are ASCII, O for 0, I or L for 1, spaces and dashes anywhere; any other text is refused |
| RecoveryKey.PrintedKeyReadsBack | app/crypto_engine.py:1068-1082 | The printed key normalizes to the key it was printed from |
| Replay.AtMostOnce | app/routes/pal.py:331-354 | In every run in which no request's last accepted moment falls between its two clock readings, what a PC's key signed runs at most once for that PC, and each signed request at most once exactly when none is brought from one PC of a key to another; PCs with keys of their own suffice |
| Replay.AtMostOnceIff | app/routes/pal.py:331-354 | In every feasible run: at most once per PC and signed content exactly when no event brings a copy whose timestamp passes the first reading and whose nonce time is over at the second; at most once per signed request exactly when, besides, none comes in time to another live PC enrolled with the same key that has not just seen its nonce |
| Replay.SecondRunStraddles | app/routes/pal.py:344-346 | Two runs of one signed request: for one PC, the later was checked no later than its timestamp allows and recorded after that, more than the nonce's life after the first; for two, both were enrolled with the key that signed it |
| Replay.OneReadingRunsOnce | app/routes/pal.py:344-346 | With one reading for both checks the same holds without any condition on the readings |
| Replay.CopyRunsIff | app/routes/pal.py:344-346 | In every good state a copy under any live PC's id whose key signed it runs exactly when its timestamp passes the first reading and, at the second, the earlier run's nonce time is over (same PC) or that PC has no row for the nonce (another) |
| Replay.TwoReadingsCanRunTwice | app/routes/pal.py:344-346 | For any well-formed request, a feasible run from the empty server in which it runs twice for one PC |
| Replay.SharedKeyCanRunTwice | app/pal.py:212-213 | For any well-formed request and two PC ids, a feasible run with one reading for both checks in which two PCs share a key and both run it: the signature does not cover the PC's id |
| Replay.StepKeepsInv | app/db.py:1334-1343 | Every executed request stays guarded by its nonce row for as long as the TTL, or its device is gone for good |
| Replay.ExecutesIff | app/routes/pal.py:331-354 | A request runs exactly when it is the live device's own, signed by its key, within the skew at the first reading, and its nonce has no row that still stands at the second |
| Replay.RelayRunsIff | app/routes/pal.py:1092-1137 | What comes by the relay does what its inner request does over the LAN when its device is live, unrevoked and allowed the relay, its key signed the envelope, the envelope is within the skew and the inner request names the same device; otherwise it only takes time |
| Replay.RelayedRunsAreAllowed | app/routes/pal.py:1106-1127 | In every run an event of the relay runs the handler for a device exactly when all that holds at that event, and only the relay's and the LAN's events run one |
| Replay.SwitchedOffStaysOff | app/db.py:1145-1148 | After a PC's remote access is switched off nothing of it runs by the relay unless it was switched on again before |
| Replay.RevokedNeverRuns | app/db.py:1213-1228 | After a PC is revoked nothing of it runs, by either way |
| Replay.NoncesAfter | app/db.py:1334-1343 | A request of a PC that signed it in time clears the lapsed nonces and leaves its own standing for the TTL, unless it stood; no other request touches the table |
| Replay.ItemByItem | app/relay_collector.py:119-141 | A pass comes to its items one by one, in order: each that is well formed and within the limit runs as an event of the relay in the state the earlier ones left, and is answered unless dropped |
| Replay.DevicesAfter | app/db.py:1145-1148 | What each event does to the devices, exactly: who is there, with which key, revoked or not, allowed the relay or not |
| Replay.Server.RunOnce | app/relay_collector.py:106-141 | One pass: the key list holds exactly the PCs that may use the relay and is pushed exactly when it changed; the loop dispatches the batch in order (each item as `Replay.RelayRunsIff` says), and the replies are exactly those of the items that are well formed, within the limit and not dropped, in order |
| Replay.PalClient.Signed | pal/src/CertGeneratorPal.Core/PalClient.cs:229-338 | At most one copy each way leaves the PC, both of one signed request with one nonce; the relay exactly when it is forced or the LAN gave no answer |
| Replay.PalClient.AwaitReply | pal/src/CertGeneratorPal.Core/PalClient.cs:305-323 | The polling loop returns the first answer that is not pending, within the wait, and accepts only a reply that opens |
| Replay.SettledIff | pal/src/CertGeneratorPal.Core/PalClient.cs:305-323 | The answer it settles on is the first that is neither 202 nor 204, exactly when each poll before it came within 90 s |
| Mailbox.EachEnvelopeOnce | app/relay_worker.py:130-148 | In every run at most one request of each nonce and timestamp is taken in and at most one handed over, and only what was taken in is handed over |
| Mailbox.NoncesAreApart | app/relay_worker.py:139-145 | Requests with one nonce are taken in more than a TTL apart, with growing timestamps |
| Mailbox.HandedWithOneNonce | app/relay_worker.py:193-206 | Two requests handed over with one nonce were taken in more than a TTL apart |
| Mailbox.HandoversMayMeet | app/relay_worker.py:193-206 | The handovers themselves need not be: a feasible run hands over two in one millisecond |
| Mailbox.QueueAndRepliesAreSound | app/relay_worker.py:130-224 | A queued request's device was listed with the key that signed it, and has at most 20; replies exist only for requests taken in from the same device |
| Mailbox.QueuedIsListedIff | app/relay_worker.py:135-145 | In every run a queued request's device is listed now, unless the request was taken in after its device came off the list during the signature check, and no list has come since |
| Mailbox.UnlistedCanWait | app/relay_worker.py:135-145 | For any envelope, a feasible run that leaves it queued so |
| Mailbox.NothingOutlivesTwiceTheTtl | app/relay_worker.py:241-255 | Whenever anything is stored an alarm is set, and no entry is older than twice the TTL when it rings |
| Mailbox.GoneAtTheAlarmIff | app/relay_worker.py:245-255 | After every run, an alarm leaves an entry exactly when it is at most one TTL old; an alarm on time takes it exactly when it was set for later than that; what stays waits another TTL |
| Mailbox.OwnAlarmLeavesTombstone | app/relay_worker.py:241-255 | So a request that sets the alarm itself is still remembered when it rings on time |
| Mailbox.TtlOldEntriesStay | app/relay_worker.py:239-255 | A feasible run in which every alarm is on time and a tombstone one TTL old stays for another TTL |
| Mailbox.TombstoneOutlivesTimestamp | app/relay_worker.py:139-145 | While an accepted timestamp still passes the skew check its tombstone is there |
| Mailbox.RunKeepsInv | app/relay_worker.py:99-255 | The invariant behind these holds after every run |
| Mailbox.StoredIff | app/relay_worker.py:130-255 | After every feasible run the mailbox holds exactly what some event stored and no event has taken away since: tombstones until swept; requests until pulled, swept or taken off the list; replies until picked up, replaced or swept |
| Mailbox.TakenInIff | app/relay_worker.py:130-148 | A post is taken in exactly when its device is listed with the key that signed it, its time is within five minutes, its nonce has no tombstone and fewer than twenty of the device wait |
| Mailbox.LogsAfter | app/relay_worker.py:193-206 | A pull hands over each request of its batch in turn, twenty or as many as wait; only a post taken in and a new key list change the rest |
| Mailbox.AlarmAfter | app/relay_worker.py:241-255 | The alarm is set exactly when something is taken in and none is, and when it rings and something is left, for a TTL later |
| Mailbox.LetInIff | app/relay_worker.py:213-219 | A reply is let in exactly when it is no longer than an envelope and a request of its device with its nonce was taken in and not swept since |
| Mailbox.PickUpGetsTheReply | app/relay_worker.py:155-224 | After every feasible run a pick-up for a device and nonce returns a text exactly when it is that of the last reply the server gave for both, and no one has fetched it and no alarm has swept it since; another device gets none of it |
| Mailbox.RepliedIff | app/relay_worker.py:208-224 | A batch leaves under a nonce its last item that a request of the same device lets in, word for word, or what was there |
| Mailbox.Box.Reply | app/relay_worker.py:208-224 | Each reply of a batch is stored, word for word, exactly where a tombstone of the same device stands (`Mailbox.RepliedIff` says what that leaves) |
| Mailbox.Box.DeleteAll | app/relay_worker.py:72-75 | Deleting in chunks of 128 deletes exactly the keys given |
| Mailbox.Box.Alarm | app/relay_worker.py:245-255 | All three prefixes are swept and the alarm is set again exactly when something is left |
| Issuance.OneCertificatePerRequest | app/routes/pal.py:153-197 | Under every interleaving of approvers, deniers, failures, crashes and device revocation two saved certificates never share a request, and an issued row names the one saved |
| Issuance.IssuedNamesItsCertificate | app/db.py:1447-1458 | An issued row names a certificate that was saved for it |
| Issuance.OnlyTheClaimerLeavesIssuing | app/db.py:1447-1458 | A request leaves "issuing" only through the run that claimed it, with its deleted device or CA, or in a restore |
| Issuance.ClaimsAreExclusive | app/routes/pal.py:153-160 | No two runs hold the same request |
| Issuance.DecisionsAreFinal | app/db.py:1447-1458 | An issued or denied request keeps its status and certificate for ever |
| Issuance.WaitsAgainIff | app/routes/pal.py:153-191 | A request that is not pending becomes pending exactly when the run that holds it fails or finds its CA gone |
| Issuance.RevokedWaitsOnlyInFlight | app/db.py:1213-1228 | In every run, a revoked PC's request is pending only where its run ended without a certificate, or it came in, when the PC was revoked already, and ever since then |
| Issuance.RevokedRequestCanWait | app/routes/pal.py:186-191 | From every run's end, any pending request of a connected PC can come to that |
| Issuance.StatusAfter | app/db.py:1447-1460 | What every step makes of every request, exactly: claimed or denied while it is pending, pending again or issued with its certificate while its run holds it, and else as it was |
| Issuance.RunAfter | app/routes/pal.py:153-197 | A run of `_issue` is exactly where its own steps took it |
| Issuance.PendingCanBeIssued | app/routes/pal.py:153-197 | From every run's end, a pending request that a free run takes through its steps is issued with a new certificate |
| Issuance.DevicesAfter | app/db.py:1213-1245 | PCs come exactly by a good code and go exactly when a revoked one is deleted, with their CA or in a restore; only revoking revokes |
| Issuance.ACodeConnectsOnePC | app/db.py:1095-1115 | No pairing code connects two devices in any run |
| Issuance.ConnectsIff | app/db.py:1095-1115 | After every run a code connects a PC exactly when it was made earlier with an expiry later than now and has not been used, revoked, deleted or lost in a restore since; the PC is then connected and not revoked, and a refusal changes nothing |
| Issuance.EveryPairingHadAnOpenCode | app/db.py:1095-1115 | In every run each pairing was made at an event by such a code |
| Issuance.RunKeepsInv | app/routes/pal.py:153-197 | The invariant behind these holds after every run |
| Issuance.Server.RevokePc | app/db.py:1213-1228 | The loop denies exactly the device's pending requests |
| Publication.PublishedCrlsAreComplete | app/crl_publisher.py:22-52 | After every run of handlers, restores included, each maintained CA has a CRL that lists every serial it should (that it lists no other is `Publication.OnlyRevokedIsPublished`); its Worker serves exactly that CRL, or a failed push is on record, exactly when no restore left it astray and astray ever since |
| Publication.OnlyRevokedIsPublished | app/db.py:954-967 | After every run, restores included, each serial on a stored CRL is remembered as revoked for its CA, so no certificate that is not revoked is on any CRL or on what a Worker in step serves |
| Publication.PublishedListsExactly | app/crl_publisher.py:22-52 | Right after publishing, a serial is on the CRL exactly when a revoked certificate of the CA carries it or a deleted revocation of the CA with a later expiry does; it is dated now, and on the Worker if the push reached it |
| Publication.AskedForIsPublished | app/crl_publisher.py:22-33 | Each granted request, while the key is loaded, signs anew the CRL of every CA it concerns that keeps one: of the certificates it revokes, of the request itself, of a pass's CAs at half their CRL's life |
| Publication.OthersAreNotSigned | app/crl_publisher.py:62-81 | No request changes the CRL of any other CA |
| Publication.DeployedServes | app/crl_worker.py:70-103 | A deployment signs the CA's CRL; how far it gets decides whether the new Worker serves it and whether the CA is linked |
| Publication.GrantedIff | app/routes/pki.py:544-556 | Every request succeeds exactly when what it names is there and the key is loaded where it is needed |
| Publication.CertAfter | app/routes/pal.py:755-781 | A granted request revokes exactly the certificates it should, marks exactly those it should as gone, and leaves the rest of every certificate as it was |
| Publication.CertsGoAndCome | app/db.py:854-873 | Certificates come exactly by issuing and go exactly by deletion, their own or their CA's |
| Publication.DeletedAfter | app/db.py:980-990 | A deleted revocation is left exactly by the deletion of a revoked certificate, with its expiry, and goes exactly with its CA |
| Publication.CaAfter | app/routes/pki.py:198-216 | A granted request changes exactly the one setting of a CA it is about: who serves its CRL, for how long, by which Worker |
| Publication.LockedSignsNothing | app/crl_worker.py:179-198 | While the database is locked no request changes a CRL or what any Worker serves |
| Publication.WorkerGoesIff | app/crl_worker.py:95-165 | A Worker leaves Cloudflare exactly by its teardown, its deletion by name or the undoing of its own failed deployment |
| Publication.RevocationPersists | app/db.py:945-990 | From every reachable state, until it expires and while its CA exists, a revoked serial stays on the list and on the published CRL, through every revoke, delete, renew, audit, restart and restore of a backup that has the revocation |
| Publication.RevokingIsRemembered | app/db.py:945-952 | A successful revocation is such a remembered serial |
| Publication.LaterCrlsHaveGreaterNumbers | app/crypto_engine.py:641-647 | Within one process, however the clock moves, a CA's later CRL is the same one or has a greater number, unless one of the two came back with a backup (section 5.2.3 of RFC 5280) |
| Publication.RenewalKeepsUp | app/crl_publisher.py:55-81 | With passes at most an hour apart a d-day CRL always has more than 12 d - 1 hours left |
| Publication.UnlockedPassRenewsAll | app/crl_publisher.py:62-81 | An unlocked pass never stops early and leaves no CRL it was given with half its life or less |
| Publication.PassRetriesPushes | app/crl_publisher.py:69-74 | An unlocked pass that reaches every Worker leaves no failed push on record |
| Publication.RevokeCertKeepsInv | app/routes/pki.py:544-556 | Revoking by an admin keeps every CRL complete and every Worker in step |
| Publication.RevokeOwnKeepsInv | app/routes/pal.py:755-781 | So does a PC revoking what it removed |
| Publication.DisconnectKeepsInv | app/routes/pal.py:946-957 | So does disconnecting a PC |
| Publication.IssueKeepsInv | app/routes/pki.py:351-358 | So does issuing, with the copies it supersedes and the CRL it makes public |
| Publication.DeleteCertKeepsInv | app/db.py:980-990 | So does deleting a certificate, revoked or not |
| Publication.SetDaysKeepsInv | app/routes/pki.py:198-216 | So does changing the CRL's lifetime |
| Publication.DeployKeepsInv | app/crl_worker.py:52-103 | So does deploying a Worker, however far it gets |
| Publication.TeardownKeepsInv | app/crl_worker.py:106-119 | So does tearing one down |
| Publication.DropUnlinkedKeepsInv | app/crl_worker.py:148-165 | So does deleting a Worker no CA uses |
| Publication.RenewDueKeepsInv | app/crl_publisher.py:62-81 | So does a renewal pass, which also puts every CRL back above half its life |
| Publication.RestoredKeepsInv | app/db.py:1636-1666 | So does restoring any backup taken in a good state, here or elsewhere, up to the Workers it leaves astray |
| Publication.RestoredIsAstrayIff | app/db.py:1562-1578 | A restore leaves a CA astray exactly when its Worker serves another CRL than the restored one and no push error was restored with it; publishing ends it, a pass that finds the CRL fresh does not |
| Publication.RestoreRemembersIff | app/db.py:1636-1666 | A restore remembers exactly the revocations the backup has |
| Publication.FailedDeployLinksNothing | app/crl_worker.py:95-103 | A failed deployment leaves no CA linked to its Worker |
| Publication.RefusalsChangeNothing | app/routes/pki.py:544-556 | Every other refused request leaves every table as it was |
| Publication.Publisher.RenewDuePass | app/crl_publisher.py:62-81 | The loop over the CAs, its early stop included, is the specified pass |
| Publication.Publisher.RevokeEach | app/routes/pal.py:755-781 | The loop over the certificates to revoke leaves what the specification function says, one certificate after the other |
| Publication.Publisher.PublishEach | app/routes/pal.py:776-781 | The loop over their CAs publishes each, as specified |
| CaForest.ForestOfTwoLevels | app/db.py:818-852 | In every run parents come before their children, no chain is longer than two, and the bounded walks end at the root untruncated |
| CaForest.TreesMatchRoots | app/db.py:995-1021 | In every run a CA is in a root's tree exactly when that root is its root |
| CaForest.WalksReachTheRoot | app/db.py:836-1007 | In any forest the bounded walks reach the root exactly when the CA is not too deep for them |
| CaForest.TreeIsClosed | app/db.py:1010-1021 | The tree holds the top CA and every member's children |
| CaForest.TreeIsLeast | app/db.py:1010-1021 | It is the least such set, as the recursive query computes it |
| CaForest.ValidityNests | app/crypto_engine.py:144-153 | In every run each certificate's validity is non-empty and inside that of every CA above it (section 6.1 of RFC 5280) |
| CaForest.CaValidityNests | app/crypto_engine.py:240-257 | The same for every CA certificate |
| CaForest.StepKeepsInv | app/routes/pki.py:219-255 | Creating, issuing and deleting keep the forest's and the validity's rules |
| CaForest.RootsAreMade | app/crypto_engine.py:178-200 | A root is made exactly for 1 to 36500 days, valid from a little before now for that long, and nothing else changes |
| CaForest.IntermediatesAreMade | app/crypto_engine.py:240-257 | An intermediate is made exactly below an unexpired root of another name, for such a lifetime, cut to the root's validity |
| CaForest.LeavesAreIssued | app/crypto_engine.py:328-337 | A certificate is issued exactly by an unexpired CA for such a lifetime, cut to the CA's validity |
| CaForest.DeletingTakesTheTree | app/db.py:854-873 | Deleting a CA takes exactly the CAs whose way up leads through it and their certificates, and leaves the others as they were |
| CaForest.RootCaId | app/db.py:995-1007 | The loop returns the CA so many steps up, or none for an unknown id |
| CaForest.CertChain | app/db.py:836-851 | The loop returns the chain up to the root, cut at the maximum depth |
| CaForest.DescendantIds | app/routes/pki.py:189-195 | The worklist yields the CA and exactly its descendants, once each, parents first |
| CaForest.NoChildLeft | app/db.py:869-873 | When a CA's turn to be deleted comes no child of it is left |
| CaForest.Authorities.DeleteEach | app/db.py:854-873 | The loop, children first, deletes exactly the CAs given and their certificates |
| Presence.AbsentOnlyByItsOwner | app/db.py:1255-1286 | In every run, restores included, a user-store certificate that counts as gone went by its owner's own audit or a removal naming it, at an event before which it did not count as gone and since which it always has |
| Presence.SupersededOnlyByItsOwner | app/routes/pal.py:612-619 | A new certificate gets a user's copy revoked only while such a report stands |
| Presence.AuditedRow | app/db.py:1255-1286 | What an audit makes of every certificate, exactly: its presence and its owner, and nothing else |
| Presence.ReportedGoneIff | app/db.py:1255-1278 | An audit reports gone exactly the unrevoked certificates it turns from there to gone |
| Presence.IssuedRow | app/routes/pal.py:612-619 | A new certificate revokes exactly the live copies of it that count as gone and can be revoked |
| Presence.OwnerIsWriteOnce | app/db.py:1269-1272 | Between two restores a recorded owner never changes in any run, nor anything else but revocation and presence |
| Presence.CheckInFreesNoName | app/routes/pal.py:580-588 | Another account's check-in never frees a held name for a second copy |
| Presence.FirstFinderKeepsIt | app/db.py:1271-1274 | The first account to find an ownerless certificate owns it, and no later audit by another makes it gone |
| Presence.Certificates.MarkPalPresence | app/db.py:1255-1278 | The loop marks every row of the device and returns exactly those gone since the last check |
| Presence.Certificates.MarkPalRemoved | app/db.py:1281-1286 | Exactly the named certificates count as gone |
| Backup.BackupRoundTrip | app/db.py:1527-1666 | A backup of a consistent database imports into any unlocked one, under the same, another or no key: equal CAs, certificates (without their pairing), SSH keys, deleted revocations and users, with equal plain secrets sealed under the new key |
| Backup.RestoresIff | app/db.py:1619-1666 | Any backup restores exactly when its version is known, the key is there if needed and every row fits (parents before children, ids and serials once, every CA named there); whatever fails, nothing changes; then every row is one of the backup's, sealed under the key of here |
| Backup.OwnUsersStayIff | app/db.py:1619-1633 | A user of this database stays, signed out, exactly when the backup has none of that id or name |
| Backup.RestoredUsersAre | app/db.py:1619-1633 | Every user afterwards is the backup's or one that stayed, each signed out |
| Backup.RestoreKeepsRevoked | app/db.py:954-967 | Every CA lists the same revoked serials and times after a restore |
| Backup.ListedIff | app/db.py:954-967 | A serial is listed exactly with the time its revoked certificate was revoked, or else issued, or with that of an unexpired deleted one |
| Backup.RestoreKeepsHasKeyIff | app/db.py:1590-1603 | A certificate of the restored table has the has_key it had exactly when its key is not empty or both databases agree on sealing it |
| Backup.ParentCameBefore | app/db.py:1527-1531 | In a backup every parent is listed, and so inserted, before its children |
| Backup.Store.ImportAllData | app/db.py:1636-1666 | The result and tables are the specified import; a failure leaves every table as it was |
| Backup.Store.RestoreCaRows | app/db.py:1562-1578 | The loop inserts every CA under the current key or stops at one that breaks a rule |
| Backup.Store.RestoreCertRows | app/db.py:1590-1603 | The same for certificates, with the distribution point read back |
| Backup.Store.RestoreDeletedRows | app/db.py:1656-1660 | The same for deleted revocations |
| Backup.Store.RestoreSshRows | app/db.py:1606-1616 | The same for SSH keys |
| Backup.Store.RestoreUserRows | app/db.py:1619-1633 | Users replace those of the same name or id, and every session ends |
| Lockout.AtMostNineFailures | app/security.py:13-60 | With the default settings any closed interval of 900 s holds at most nine failures of a key |
| Lockout.NineFailuresFit | app/security.py:47-60 | Nine are reached |
| Lockout.GuardKeepsRespected | app/security.py:39-45 | A caller that asks first keeps a key's history one the bound speaks of |
| Lockout.WaitsExactly | app/security.py:39-60 | The wait is exactly that of the current streak of failures: none below the limit, then the base time doubled for each failure more, up to the most, from the last failure |
| Lockout.DefaultWaits | app/security.py:20-60 | By default one minute at the fifth failure in a row, then two, four, eight, and fifteen from the ninth on |
| Lockout.NotStaleMatters | app/security.py:70-79 | Pruning drops first exactly the entries whose absence nothing, now or later, can tell |
| Lockout.AttemptLimiter.RetryAfter | app/security.py:39-45 | Answers as a limiter that never forgot anything would |
| Lockout.AttemptLimiter.Failure | app/security.py:47-60 | Records the failure; nothing is forgotten while the live keys fit, and then only the oldest |
| Lockout.AttemptLimiter.Prune | app/security.py:70-79 | Dropping stale entries is unobservable; the map ends within its bound |
| RateLimit.AtMostTwiceTheLimit | app/security.py:82-106 | At most twice the limit of a key's hits fall in any closed interval of window length |
| RateLimit.OneFewerInHalfOpen | app/security.py:82-106 | One fewer in a half-open one |
| RateLimit.TwiceTheLimitFits | app/security.py:93-106 | For every limit and window both bounds are reached |
| RateLimit.AllowKeepsAllAllowed | app/security.py:93-106 | The hits a limiter allows are such a history |
| RateLimit.UnexpiredMatters | app/security.py:99-103 | The purge of a full table drops exactly the windows whose absence no hit, now or later, can tell |
| RateLimit.RateLimiter.Allow | app/security.py:93-106 | Allows what an unbounded limiter would; only an untracked key may be refused more, with the table full of live windows |
| Totp.VerifyTotp | app/security.py:119-134 | Finds the earliest unused step within one of the clock whose code matches, exactly when there is one |
| Totp.FitsOnlyThree | app/security.py:119-134 | Only the step before the clock's, its own and the next fit, later than the last used, with six ASCII digits |
| Totp.ClaimsIff | app/db.py:1794-1801 | A sign-in is let in exactly if its step is still later than the last used one, and then uses it up |
| Totp.ACodeIsGoodOnce | app/db.py:1794-1801 | However sign-ins interleave, each code lets one in wherever no reset comes while a sign-in is on its way or brings back a used secret; so always when there is no reset |
| Totp.ACodeIsGoodOnceIff | app/db.py:1782-1801 | However sign-ins and resets interleave, each code lets one in exactly when no sign-in claims a used step after a reset has taken the last step below it |
| Totp.TwiceNeedsReset | app/db.py:1782-1801 | Between two sign-ins by one code lies a reset below its step |
| Totp.DisablingCanLetACodeInTwice | app/routes/account.py:119-127 | A run in which turning MFA off lets a sign-in that was on its way use a used code |
| Totp.RestoringCanLetACodeInTwice | app/db.py:1619-1633 | A run in which a used code is good again after a restore, with no two sign-ins at once |
| WireStrings.WireIsInjective | app/pal.py:178-213 | For one-line fields the request, relay and associated-data strings each say exactly one message |
| WireStrings.LabelsNeverCoincide | app/relay.py:33-35 | Strings for different purposes never coincide, whatever their fields hold |
| WireStrings.FixedIdsSuffice | app/relay.py:100-105 | The associated data of requests and replies is injective whatever the fields hold, for device ids of one length as all admitted ones are |
| WireStrings.FieldsMustBeOneLine | app/relay.py:126-148 | The signing string needs one line a field: in any envelope that is admitted, text moves between the nonce and the field after it |
| WireStrings.QueueKeysAreExact | app/relay_worker.py:140-144 | A queue key is one device's and nonce's, and a device's prefix lists exactly its own |
| WireStrings.ReplyOpensIff | pal/src/CertGeneratorPal.Core/Relay.cs:57-77 | A reply opens exactly when it is sealed with this request's key, device and nonce |
| WireStrings.OnlyThisRequestsReplyOpens | app/relay.py:183-218 | What the server sealed for any other request, device or nonce is refused |
| WireStrings.EnvelopeKeepsItsFields | app/relay.py:159-174 | An envelope opens only with the fields it was sealed with |
| WireStrings.ExchangeRoundTrip | app/relay.py:159-218 | A sealed request reaches the server whole and its reply comes back whole |
| Serials.ColonFormNormalizes | app/pal.py:465-475 | The colon form of n normalizes to hex(n) exactly below 2 to the 256 |
| Serials.PalFormNormalizes | pal/src/CertGeneratorPal.Core/CrlList.cs:38-40 | So does what the Pal reads from DER INTEGER bytes |
| Serials.StoredNormalizes | app/pal.py:465-475 | So does the stored form itself |
| Serials.NormalizesIff | app/pal.py:465-475 | Exactly the texts that, without colons and spaces, are a hexadecimal number of at most 64 digits, with or without 0x and perhaps with a newline at the end, have a stored form, that number's |
| Serials.ColonFormShows | app/crypto_engine.py:723-729 | The colon form is two capital digits a byte with a colon between bytes |
| Serials.PalFormIsHex | pal/src/CertGeneratorPal.Core/CrlList.cs:38-40 | The Pal's form is hex(n) in capitals without sign byte or leading zeros |
| Base64Url.RoundTrip | app/pal.py:87-94 | Unpadded base64url decodes back in all three languages, on the server exactly for non-empty bytes |
| Base64Url.LanguagesAgree | pal/src/CertGeneratorPal.Core/Protocol.cs:18-34 | Of all texts, the Pal and the Worker read exactly those of the alphabet with a possible length, and the same bytes; the server agrees with them on every text but the empty one and whole groups with a last newline |
| Base64Url.LenientIsDecode | app/pal.py:91-94 | On padded base64 the character-by-character reader of binascii, which skips what it does not know, reads what reading by groups of four reads |
| Base64Url.RelayAgrees | app/relay.py:48-54 | The relay's reader, which checks no pattern, reads every text of the alphabet as the Pal and the Worker do |
| Base64Url.SamePadding | app/relay_worker.py:48-51 | The three padding formulas agree for every length |
| DerString.EncodesDerIff | app/crypto_engine.py:627-634 | The encoding is DER exactly below 65536 bytes and fails above |
| DerString.ReadsEveryDer | app/crypto_engine.py:518-525 | Every DER string of any length reads back; bytes after it are taken in |
| DerString.ReadsIff | app/crypto_engine.py:518-525 | Of any bytes it reads, after a tag and one length octet, what follows the announced length octets, and refuses exactly bytes without those two |
| DerString.RoundTrip | app/crypto_engine.py:518-525 | What the app writes it reads back |
| NamePolicy.WildcardMatchesBelow | app/pal.py:279-300 | The text test for a wildcard pattern is the suffix test on label lists |
| NamePolicy.AllowedIff | app/pal.py:279-300 | A name in any case, dots at its end or not, is allowed exactly when its lower-case dotless form is wildcard-free and some pattern covers it |
| NamePolicy.AcceptedNamesAreCovered | app/pal.py:411-430 | Every accepted web-server name is wildcard-free, an address or a DNS name, and covered |
| NamePolicy.DnsNameIff | app/pal.py:235-237 | A DNS name is 1 to 253 characters between whose dots stand labels of 1 to 63 letters, digits and inner dashes, each perhaps with a newline after |
| NamePolicy.ParseMachineNames | app/pal.py:419-430 | Accepts exactly lists of 1 to 20 good names, cleaned and without repeats; a refusal names the first bad one and why |
| NamePolicy.AcceptedIsProperIff | app/pal.py:235-237 | An accepted DNS name has only proper labels exactly when it holds no newline |
| NamePolicy.NewlineIsAccepted | app/pal.py:419-430 | A request for a name that does hold one is accepted under the policy *.lan |

## Left out

- Real cryptography, X.509 and CSR parsing, PKCS#12, SSH and backup file formats: library code; symbolic here.
- HTTP parsing, sessions, cookies, CSRF, passwords and bcrypt, the activity log: thin wrappers.
- Single-branch handlers and listings (for example `revocable`, `_cert_state`, `format` helpers): easy members.
- Races inside one database operation, and processes that die between a commit and the loading of the key.
- `README.md:409` of the repository (one live certificate): renewals overlap by design, so it is not stated.
- User names and e-mail patterns, the FQDN check at pairing, and how policies are parsed: the DNS rules are the harder case.
- Mailbox long-polling: waiters only decide when `takeReply` and `pull` are called; the order in which a batch is pulled.
- Mailbox body-size limits and JSON shapes are one input each (`TooLarge`, `Malformed`); the id patterns of replies are not modelled.
- Publication: a Worker whose upload failed is taken to serve what it served before; CRL signing dates are whole seconds.
- Backup: hand-made backups beyond rows that break a table's rules (missing fields, wrong types), the `crl_der` and `cf_*` columns other than as copied text.
- NamePolicy.AllowedIff: IP parsing and networks are a parameter; capitals outside ASCII, but the Kelvin sign, stay as they are, and no name with one is a DNS name either way.
- WireStrings.WireIsInjective: the body enters as its digest.
- CaForest and KeyHierarchy: a restored backup is no event of their runs; what its tables are is `Backup.BackupRoundTrip`.
- Totp.VerifyTotp: digits are ASCII; the code of a step is a parameter.
- Publication.RenewalKeepsUp: passes while the database is locked do not count, as they cannot sign; after a restore the last pass is the last the restored tables have seen.
