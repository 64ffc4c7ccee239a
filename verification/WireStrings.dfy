/** The strings a PC, the relay Worker and the server each compute and must agree on (app/pal.py, app/relay.py,
    app/relay_worker.py, Protocol.cs, Relay.cs), and the relay's sealed envelopes built on them.

    SHA-256, ECDH, HKDF and AES-GCM are symbolic: a digest is a text without newlines, a key is known by what it was
    derived from, and a ciphertext opens only with its own key, IV and associated data. */
module WireStrings {
  import opened Strings
  import opened Wrappers

  const REQUEST_LABEL := "CGP1-REQ"
  const ENROLL_PROOF_LABEL := "CGP1-ENROLL"
  const ENROLLED_MAC_LABEL := "CGP1-ENROLLED"
  const SIGN_LABEL := "CGP1-RELAY"
  const REQ_LABEL := "CGP1-RELAY-REQ"
  const REP_LABEL := "CGP1-RELAY-REP"
  const VERSION := 1

  // ── As each program builds them ──

  function RequestSigningString(httpMethod: string, path: string, timestamp: string, nonce: string, digest: string): string {
    REQUEST_LABEL + "\n" + Upper(httpMethod) + "\n" + path + "\n" + timestamp + "\n" + nonce + "\n" + digest
  }

  function MacString(purpose: string, digest: string): string {
    purpose + "\n" + digest
  }

  function RelaySigningString(d: string, t: int, n: string, e: string, i: string, c: string): string {
    Join([SIGN_LABEL, d, Decimal(t), n, e, i, c], '\n')
  }

  function RequestAad(d: string, t: int, n: string): string {
    REQ_LABEL + "\n" + d + "\n" + Decimal(t) + "\n" + n
  }

  function ReplyAad(d: string, n: string): string {
    REP_LABEL + "\n" + d + "\n" + n
  }

  // ── What they mean ──

  datatype Message =
    | SignedRequest(httpMethod: string, path: string, timestamp: string, nonce: string, digest: string)
    | SignedEnvelope(device: string, time: int, nonce: string, e: string, i: string, c: string)
    | RequestData(device: string, time: int, nonce: string)
    | ReplyData(device: string, nonce: string)
    | EnrollProof(digest: string)
    | EnrolledMac(digest: string)

  function Wire(m: Message): string {
    match m
    case SignedRequest(httpMethod, path, timestamp, nonce, digest) => RequestSigningString(httpMethod, path, timestamp, nonce, digest)
    case SignedEnvelope(d, t, n, e, i, c) => RelaySigningString(d, t, n, e, i, c)
    case RequestData(d, t, n) => RequestAad(d, t, n)
    case ReplyData(d, n) => ReplyAad(d, n)
    case EnrollProof(digest) => MacString(ENROLL_PROOF_LABEL, digest)
    case EnrolledMac(digest) => MacString(ENROLLED_MAC_LABEL, digest)
  }

  function Label(m: Message): string {
    match m
    case SignedRequest(_, _, _, _, _) => REQUEST_LABEL
    case SignedEnvelope(_, _, _, _, _, _) => SIGN_LABEL
    case RequestData(_, _, _) => REQ_LABEL
    case ReplyData(_, _) => REP_LABEL
    case EnrollProof(_) => ENROLL_PROOF_LABEL
    case EnrolledMac(_) => ENROLLED_MAC_LABEL
  }

  function Fields(m: Message): seq<string> {
    match m
    case SignedRequest(httpMethod, path, timestamp, nonce, digest) => [Upper(httpMethod), path, timestamp, nonce, digest]
    case SignedEnvelope(d, t, n, e, i, c) => [d, Decimal(t), n, e, i, c]
    case RequestData(d, t, n) => [d, Decimal(t), n]
    case ReplyData(d, n) => [d, n]
    case EnrollProof(digest) => [digest]
    case EnrolledMac(digest) => [digest]
  }

  /** The HTTP method is compared in upper case. */
  function Canonical(m: Message): Message {
    if m.SignedRequest? then m.(httpMethod := Upper(m.httpMethod)) else m
  }

  lemma Lines2(head: string, a: string, b: string)
    ensures Join([a, b], '\n') == a + "\n" + b
    ensures head + "\n" + a + "\n" + b == head + "\n" + Join([a, b], '\n')
  {
    assert [a, b][1..] == [b];
    assert head + "\n" + (a + "\n" + b) == head + "\n" + a + "\n" + b;
  }

  lemma Lines3(head: string, a: string, b: string, c: string)
    ensures Join([a, b, c], '\n') == a + "\n" + b + "\n" + c
    ensures head + "\n" + a + "\n" + b + "\n" + c == head + "\n" + Join([a, b, c], '\n')
  {
    assert [a, b, c][1..] == [b, c];
    Lines2(a, b, c);
    assert head + "\n" + (a + "\n" + b + "\n" + c) == head + "\n" + a + "\n" + b + "\n" + c;
  }

  lemma Lines5(head: string, a: string, b: string, c: string, d: string, e: string)
    ensures head + "\n" + a + "\n" + b + "\n" + c + "\n" + d + "\n" + e == head + "\n" + Join([a, b, c, d, e], '\n')
  {
    assert [a, b, c, d, e][1..] == [b, c, d, e] && [b, c, d, e][1..] == [c, d, e];
    Lines3(b, c, d, e);
    assert Join([a, b, c, d, e], '\n') == a + "\n" + (b + "\n" + Join([c, d, e], '\n'));
    assert head + "\n" + (a + "\n" + (b + "\n" + (c + "\n" + d + "\n" + e))) ==
           head + "\n" + a + "\n" + b + "\n" + c + "\n" + d + "\n" + e;
  }

  /** Every string is its heads line and then its fields, one a line. */
  lemma WireIsLines(m: Message)
    ensures Wire(m) == Label(m) + "\n" + Join(Fields(m), '\n')
  {
    match m
    case SignedRequest(h, p, t, n, g) => Lines5(REQUEST_LABEL, Upper(h), p, t, n, g);
    case SignedEnvelope(d, t, n, e, i, c) => assert ([SIGN_LABEL] + Fields(m))[1..] == Fields(m);
    case RequestData(d, t, n) => Lines3(REQ_LABEL, d, Decimal(t), n);
    case ReplyData(d, n) => Lines2(REP_LABEL, d, n);
    case _ =>
  }

  lemma LabelIsOneLine(m: Message)
    ensures Free(Label(m), '\n')
  {
  }

  /** Strings made for different purposes never coincide, whatever their fields hold. */
  lemma LabelsNeverCoincide(m: Message, m': Message)
    requires Wire(m) == Wire(m')
    ensures Label(m) == Label(m')
  {
    WireIsLines(m);
    WireIsLines(m');
    LabelIsOneLine(m);
    LabelIsOneLine(m');
    FirstPart(Label(m), Join(Fields(m), '\n'), Label(m'), Join(Fields(m'), '\n'), '\n');
  }

  /** A string says exactly one thing: what is signed or authenticated is the whole message, field by field. */
  lemma WireIsInjective(m: Message, m': Message)
    requires AllFree(Fields(m), '\n') && AllFree(Fields(m'), '\n') && Wire(m) == Wire(m')
    ensures Canonical(m) == Canonical(m')
  {
    LabelsNeverCoincide(m, m');
    WireIsLines(m);
    WireIsLines(m');
    var skip := |Label(m)| + 1;
    assert Wire(m)[skip..] == Join(Fields(m), '\n') && Wire(m')[skip..] == Join(Fields(m'), '\n');
    JoinIsInjective(Fields(m), Fields(m'), '\n');
    SameFieldsSameMessage(m, m');
  }

  /** What the server takes for an envelope's ids before it verifies anything: their lengths, not their characters. */
  predicate Admitted(device: string, nonce: string) {
    |device| == 32 && 16 <= |nonce| <= 64
  }

  /** The associated data of a request and of a reply say one thing even where ids hold newlines, as long as the device ids
      are as long as each other. */
  lemma FixedIdsSuffice(d: string, t: int, n: string, d': string, t': int, n': string)
    requires |d| == |d'|
    ensures Wire(RequestData(d, t, n)) == Wire(RequestData(d', t', n')) ==> d == d' && t == t' && n == n'
    ensures Wire(ReplyData(d, n)) == Wire(ReplyData(d', n')) ==> d == d' && n == n'
  {
    if Wire(RequestData(d, t, n)) == Wire(RequestData(d', t', n')) { FixedIdsRequest(d, t, n, d', t', n'); }
    if Wire(ReplyData(d, n)) == Wire(ReplyData(d', n')) { SameHead(REP_LABEL + "\n", d, n, d', n'); }
  }

  lemma FixedIdsRequest(d: string, t: int, n: string, d': string, t': int, n': string)
    requires |d| == |d'| && RequestAad(d, t, n) == RequestAad(d', t', n')
    ensures d == d' && t == t' && n == n'
  {
    DecimalIsOneLine(t);
    DecimalIsOneLine(t');
    SameThree(REQ_LABEL + "\n", d, Decimal(t), n, d', Decimal(t'), n');
    DecimalIsInjective(t, t');
  }

  lemma SameThree(head: string, d: string, time: string, n: string, d': string, time': string, n': string)
    requires |d| == |d'| && Free(time, '\n') && Free(time', '\n')
    requires head + d + "\n" + time + "\n" + n == head + d' + "\n" + time' + "\n" + n'
    ensures d == d' && time == time' && n == n'
  {
    var rest, rest' := time + "\n" + n, time' + "\n" + n';
    assert head + d + "\n" + time + "\n" + n == head + d + "\n" + rest;
    assert head + d' + "\n" + time' + "\n" + n' == head + d' + "\n" + rest';
    SameHead(head, d, rest, d', rest');
    FirstPart(time, n, time', n', '\n');
    assert rest[|time| + 1..] == n && rest'[|time| + 1..] == n';
  }

  lemma DecimalIsOneLine(t: int)
    ensures Free(Decimal(t), '\n')
  {
    DecimalReadsBack(t);
  }

  lemma SameHead(head: string, d: string, rest: string, d': string, rest': string)
    requires |d| == |d'| && head + d + "\n" + rest == head + d' + "\n" + rest'
    ensures d == d' && rest == rest'
  {
    var s, s' := head + d + "\n" + rest, head + d' + "\n" + rest';
    assert s[|head|..|head| + |d|] == d && s'[|head|..|head| + |d|] == d';
    assert s[|head| + |d| + 1..] == rest && s'[|head| + |d| + 1..] == rest';
  }

  /** The signing string does need one line a field: text moves between the nonce and the field after it, in whatever
      envelope the server admits. */
  lemma FieldsMustBeOneLine(d: string, t: int, n: string, moved: string, e: string, i: string, c: string)
    requires Admitted(d, n + "\n" + moved) && |n| >= 16
    ensures Admitted(d, n)
    ensures Wire(SignedEnvelope(d, t, n + "\n" + moved, e, i, c)) == Wire(SignedEnvelope(d, t, n, moved + "\n" + e, i, c))
  {
    var tail := Join([i, c], '\n');
    LinesMove(n, moved, e, tail);
    JoinSix(SIGN_LABEL, d, Decimal(t), n + "\n" + moved, e, i, c);
    JoinSix(SIGN_LABEL, d, Decimal(t), n, moved + "\n" + e, i, c);
  }

  lemma LinesMove(n: string, moved: string, e: string, tail: string)
    ensures (n + "\n" + moved) + "\n" + (e + "\n" + tail) == n + "\n" + ((moved + "\n" + e) + "\n" + tail)
  {
  }

  lemma JoinSix(l: string, d: string, t: string, n: string, e: string, i: string, c: string)
    ensures Join([l, d, t, n, e, i, c], '\n') == l + "\n" + (d + "\n" + (t + "\n" + (n + "\n" + (e + "\n" + Join([i, c], '\n')))))
  {
    assert [l, d, t, n, e, i, c][1..] == [d, t, n, e, i, c] && [d, t, n, e, i, c][1..] == [t, n, e, i, c];
    assert [t, n, e, i, c][1..] == [n, e, i, c] && [n, e, i, c][1..] == [e, i, c] && [e, i, c][1..] == [i, c];
    assert Join([n, e, i, c], '\n') == n + "\n" + Join([e, i, c], '\n');
    assert Join([d, t, n, e, i, c], '\n') == d + "\n" + (t + "\n" + Join([n, e, i, c], '\n'));
  }

  lemma SameFieldsSameMessage(m: Message, m': Message)
    requires Label(m) == Label(m') && Fields(m) == Fields(m')
    ensures Canonical(m) == Canonical(m')
  {
    match m
    case SignedRequest(_, _, _, _, _) =>
      assert m'.SignedRequest?;
      assert Fields(m)[0] == Fields(m')[0] && Fields(m)[1] == Fields(m')[1] && Fields(m)[2] == Fields(m')[2]
             && Fields(m)[3] == Fields(m')[3] && Fields(m)[4] == Fields(m')[4];
    case SignedEnvelope(_, t, _, _, _, _) =>
      assert m'.SignedEnvelope?;
      assert Fields(m)[0] == Fields(m')[0] && Fields(m)[1] == Fields(m')[1] && Fields(m)[2] == Fields(m')[2]
             && Fields(m)[3] == Fields(m')[3] && Fields(m)[4] == Fields(m')[4] && Fields(m)[5] == Fields(m')[5];
      DecimalIsInjective(t, m'.time);
    case RequestData(_, t, _) =>
      assert m'.RequestData?;
      assert Fields(m)[0] == Fields(m')[0] && Fields(m)[1] == Fields(m')[1] && Fields(m)[2] == Fields(m')[2];
      DecimalIsInjective(t, m'.time);
    case ReplyData(_, _) =>
      assert m'.ReplyData?;
      assert Fields(m)[0] == Fields(m')[0] && Fields(m)[1] == Fields(m')[1];
    case EnrollProof(_) =>
      assert m'.EnrollProof? && Fields(m)[0] == Fields(m')[0];
    case EnrolledMac(_) =>
      assert m'.EnrolledMac? && Fields(m)[0] == Fields(m')[0];
  }

  // ── The relay mailbox's storage keys ──

  function QueueKey(d: string, n: string): string {
    "q:" + d + ":" + n
  }

  function QueuePrefix(d: string): string {
    "q:" + d + ":"
  }

  /** Ids and nonces hold no colon: a queue key is one device's and one nonce's, and listing a device's
      prefix lists exactly its own. */
  lemma QueueKeysAreExact(d: string, n: string, d': string, n': string)
    requires Free(d, ':') && Free(d', ':')
    ensures QueueKey(d, n) == QueueKey(d', n') <==> d == d' && n == n'
    ensures QueuePrefix(d) <= QueueKey(d', n') <==> d == d'
  {
    var key, key' := QueueKey(d, n), QueueKey(d', n');
    if QueuePrefix(d) <= key' {
      var rest := key'[|QueuePrefix(d)|..];
      assert key' == QueuePrefix(d) + rest;
      assert key'[2..] == d + ":" + rest && key'[2..] == d' + ":" + n';
      FirstPart(d, rest, d', n', ':');
    }
    if key == key' {
      assert QueuePrefix(d) <= key;
      assert key[|QueuePrefix(d)|..] == n && key'[|QueuePrefix(d)|..] == n';
    }
  }

  // ── Sealed envelopes ──

  /** A P-256 key pair by its private key; the public point stands for it. */
  type PrivateKey = nat

  datatype AeadKey = AeadKey(shared: set<PrivateKey>, oneTime: PrivateKey, relay: PrivateKey, forReply: bool)

  datatype Cipher = Sealed(key: AeadKey, iv: seq<nat>, plain: string, aad: string) | Junk(bytes: seq<nat>)

  datatype RelayError = BadIv | NotThisRequest | BadTag

  /** ECDH of one side's private key and the other's point, bound to both points. */
  function Keys(mine: PrivateKey, theirs: PrivateKey, oneTime: PrivateKey, relay: PrivateKey): (AeadKey, AeadKey) {
    (AeadKey({mine, theirs}, oneTime, relay, false), AeadKey({mine, theirs}, oneTime, relay, true))
  }

  function Decrypt(key: AeadKey, iv: seq<nat>, c: Cipher, aad: string): Outcome<string, RelayError> {
    if |iv| != 12 then Err(BadIv)
    else if c.Sealed? && c.key == key && c.iv == iv && c.aad == aad then Ok(c.plain)
    else Err(BadTag)
  }

  datatype Envelope = Envelope(device: string, time: int, nonce: string, oneTime: PrivateKey, iv: seq<nat>, c: Cipher)

  datatype SealedRequest = SealedRequest(envelope: Envelope, replyKey: AeadKey, nonce: string)

  datatype Reply = Reply(version: int, nonce: string, iv: seq<nat>, c: Cipher)

  function SealRequest(device: string, relay: PrivateKey, inner: string, time: int, nonce: string, oneTime: PrivateKey, iv: seq<nat>): SealedRequest {
    var (kReq, kRep) := Keys(oneTime, relay, oneTime, relay);
    SealedRequest(Envelope(device, time, nonce, oneTime, iv, Sealed(kReq, iv, inner, RequestAad(device, time, nonce))), kRep, nonce)
  }

  /** The server's side: the inner request and the key to answer it with. */
  function OpenRequest(env: Envelope, relay: PrivateKey): Outcome<(string, AeadKey), RelayError> {
    var (kReq, kRep) := Keys(relay, env.oneTime, env.oneTime, relay);
    match Decrypt(kReq, env.iv, env.c, RequestAad(env.device, env.time, env.nonce))
    case Ok(inner) => Ok((inner, kRep))
    case Err(e) => Err(e)
  }

  function SealReply(kRep: AeadKey, device: string, nonce: string, inner: string, iv: seq<nat>): Reply {
    Reply(VERSION, nonce, iv, Sealed(kRep, iv, inner, ReplyAad(device, nonce)))
  }

  function OpenReply(request: SealedRequest, device: string, reply: Reply): Outcome<string, RelayError> {
    if reply.version != VERSION || reply.nonce != request.nonce then Err(NotThisRequest)
    else Decrypt(request.replyKey, reply.iv, reply.c, ReplyAad(device, request.nonce))
  }

  /** A reply opens exactly when it is this request's: sealed with its own reply key, for this device and nonce. */
  lemma ReplyOpensIff(request: SealedRequest, device: string, reply: Reply, inner: string)
    ensures OpenReply(request, device, reply) == Ok(inner) <==>
              |reply.iv| == 12 && reply == SealReply(request.replyKey, device, request.nonce, inner, reply.iv)
  {
  }

  /** The device ids are as long as each other, as all that are admitted are; or no id holds a newline. */
  predicate Comparable(device: string, nonce: string, device': string, nonce': string) {
    |device| == |device'| || AllFree([device, nonce, device', nonce'], '\n')
  }

  lemma DataIsInjective(d: string, t: int, n: string, d': string, t': int, n': string)
    requires Comparable(d, n, d', n')
    ensures RequestAad(d, t, n) == RequestAad(d', t', n') ==> d == d' && t == t' && n == n'
    ensures ReplyAad(d, n) == ReplyAad(d', n') ==> d == d' && n == n'
  {
    if |d| == |d'| {
      FixedIdsSuffice(d, t, n, d', t', n');
    } else {
      var ids := [d, n, d', n'];
      assert Free(ids[0], '\n') && Free(ids[1], '\n') && Free(ids[2], '\n') && Free(ids[3], '\n');
      if RequestAad(d, t, n) == RequestAad(d', t', n') { WireIsInjective(RequestData(d, t, n), RequestData(d', t', n')); }
      if ReplyAad(d, n) == ReplyAad(d', n') { WireIsInjective(ReplyData(d, n), ReplyData(d', n')); }
    }
  }

  /** What the PC accepts was sealed by the server that opened this very request: whatever else it once sealed,
      for another request, device or nonce, under whatever outer fields, is refused. */
  lemma OnlyThisRequestsReplyOpens(relay: PrivateKey, relay': PrivateKey, oneTime: PrivateKey, oneTime': PrivateKey,
                                   device: string, nonce: string, device': string, nonce': string,
                                   sent: SealedRequest, reply: Reply, inner: string, answer: string)
    requires Comparable(device, nonce, device', nonce')
    requires sent.replyKey == Keys(oneTime, relay, oneTime, relay).1 && sent.nonce == nonce
    requires reply.c == Sealed(Keys(relay', oneTime', oneTime', relay').1, reply.iv, answer, ReplyAad(device', nonce'))
    requires OpenReply(sent, device, reply) == Ok(inner)
    ensures oneTime' == oneTime && relay' == relay && device' == device && nonce' == nonce && inner == answer
  {
    DataIsInjective(device, 0, nonce, device', 0, nonce');
  }

  /** An envelope opens only with the device, time and nonce it was sealed with: none can be changed on the way. */
  lemma EnvelopeKeepsItsFields(device: string, relay: PrivateKey, inner: string, time: int, nonce: string, oneTime: PrivateKey,
                               iv: seq<nat>, env: Envelope, relay': PrivateKey)
    requires Comparable(device, nonce, env.device, env.nonce)
    requires env.c == SealRequest(device, relay, inner, time, nonce, oneTime, iv).envelope.c && OpenRequest(env, relay').Ok?
    ensures env == SealRequest(device, relay, inner, time, nonce, oneTime, iv).envelope && relay' == relay
    ensures OpenRequest(env, relay').value.0 == inner
  {
    DataIsInjective(device, time, nonce, env.device, env.time, env.nonce);
  }

  /** A sealed request reaches the server whole, and its reply comes back whole. */
  lemma ExchangeRoundTrip(device: string, relay: PrivateKey, inner: string, time: int, nonce: string, oneTime: PrivateKey,
                          iv: seq<nat>, answer: string, iv': seq<nat>)
    requires |iv| == 12 && |iv'| == 12
    ensures var sent := SealRequest(device, relay, inner, time, nonce, oneTime, iv);
            var atServer := OpenRequest(sent.envelope, relay);
            atServer.Ok? && atServer.value.0 == inner &&
            OpenReply(sent, device, SealReply(atServer.value.1, device, nonce, answer, iv')) == Ok(answer)
  {
    assert {oneTime, relay} == {relay, oneTime};
  }
}
