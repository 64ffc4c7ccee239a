/** The certificate authorities as a forest and the validity of what they sign (app/db.py, app/routes/pki.py,
    app/crypto_engine.py).  Times are whole seconds, as certificates carry them. */
module CaForest {
  import opened Wrappers

  const DAY := 24 * 60 * 60
  const BACKDATE := 5 * 60
  const MAX_LIFETIME_DAYS := 36500
  const MAX_DEPTH := 16

  /** `pathLength` is the certificate's own: a root states none, an intermediate 0. */
  datatype Ca = Ca(parent: Option<nat>, subject: string, pathLength: Option<nat>, notBefore: int, notAfter: int)

  datatype Cert = Cert(ca: nat, notBefore: int, notAfter: int)

  // ── The forest and the walks over it ──

  ghost predicate Forest(cas: map<nat, Ca>) {
    forall c <- cas :: cas[c].parent.Some? ==> cas[c].parent.value in cas && cas[c].parent.value < c
  }

  /** From a CA up to its root. */
  ghost function Up(cas: map<nat, Ca>, c: nat): (path: seq<nat>)
    requires Forest(cas) && c in cas
    ensures path != [] && path[0] == c
    ensures forall i :: 0 <= i < |path| ==> path[i] in cas && path[i] <= c
    ensures cas[path[|path| - 1]].parent.None?
    decreases c
  {
    [c] + if cas[c].parent.None? then [] else Up(cas, cas[c].parent.value)
  }

  ghost function UpFrom(cas: map<nat, Ca>, c: Option<nat>): seq<nat>
    requires Forest(cas)
  {
    if c.Some? && c.value in cas then Up(cas, c.value) else []
  }

  ghost function Root(cas: map<nat, Ca>, c: nat): nat
    requires Forest(cas) && c in cas
  {
    Up(cas, c)[|Up(cas, c)| - 1]
  }

  /** A CA and everything signed below it. */
  ghost function Tree(cas: map<nat, Ca>, top: nat): set<nat>
    requires Forest(cas)
  {
    set c | c in cas && top in Up(cas, c)
  }

  ghost predicate HasParent(cas: map<nat, Ca>, c: nat, parent: nat) {
    c in cas && cas[c].parent == Some(parent)
  }

  ghost predicate ClosedDown(cas: map<nat, Ca>, ids: set<nat>) {
    forall c, parent :: HasParent(cas, c, parent) && parent in ids ==> c in ids
  }

  /** The tree is what the recursive query yields: the least set with the top CA in it and with every member's children. */
  lemma TreeIsClosed(cas: map<nat, Ca>, top: nat)
    requires Forest(cas) && top in cas
    ensures top in Tree(cas, top) && ClosedDown(cas, Tree(cas, top))
  {
    forall c, parent | HasParent(cas, c, parent) && parent in Tree(cas, top) ensures c in Tree(cas, top) {
      assert Up(cas, c) == [c] + Up(cas, parent);
    }
  }

  lemma {:induction false} TreeIsLeast(cas: map<nat, Ca>, top: nat, ids: set<nat>, c: nat)
    requires Forest(cas) && top in ids && ClosedDown(cas, ids) && c in Tree(cas, top)
    ensures c in ids
    decreases c
  {
    if c != top {
      var parent := cas[c].parent.value;
      assert Up(cas, c) == [c] + Up(cas, parent);
      TreeIsLeast(cas, top, ids, parent);
      assert HasParent(cas, c, parent);
    }
  }

  /** A root's tree is exactly the CAs whose root it is. */
  lemma {:induction false} TreeOfRoot(cas: map<nat, Ca>, root: nat, c: nat)
    requires Forest(cas) && root in cas && cas[root].parent.None? && c in cas
    ensures c in Tree(cas, root) <==> Root(cas, c) == root
    decreases c
  {
    if cas[c].parent.Some? {
      var parent := cas[c].parent.value;
      TreeOfRoot(cas, root, parent);
      assert Up(cas, c) == [c] + Up(cas, parent);
      assert c in Tree(cas, root) <==> parent in Tree(cas, root);
    } else {
      assert Up(cas, c) == [c];
    }
  }

  /** What a walk of at most `depth` steps up finds, and what a chain of at most `depth` certificates holds. */
  ghost function RootWithin(cas: map<nat, Ca>, c: nat, depth: nat): nat
    requires Forest(cas) && c in cas
  {
    Up(cas, c)[Min(|Up(cas, c)| - 1, depth)]
  }

  ghost function ChainWithin(cas: map<nat, Ca>, c: nat, depth: nat): seq<nat>
    requires Forest(cas) && c in cas
  {
    Up(cas, c)[..Min(|Up(cas, c)|, depth)]
  }

  lemma {:induction false} UpFalls(cas: map<nat, Ca>, c: nat, i: nat)
    requires Forest(cas) && c in cas && i < |Up(cas, c)|
    ensures Up(cas, c)[i] <= c - i
    ensures cas[Up(cas, c)[i]].parent.None? <==> i == |Up(cas, c)| - 1
    decreases c
  {
    if cas[c].parent.Some? && i > 0 {
      UpFalls(cas, cas[c].parent.value, i - 1);
    }
  }

  lemma OnlyTheLastIsRoot(cas: map<nat, Ca>, c: nat, i: nat)
    requires Forest(cas) && c in cas && i < |Up(cas, c)|
    ensures Up(cas, c)[i] == Root(cas, c) <==> i == |Up(cas, c)| - 1
  {
    UpFalls(cas, c, i);
    UpFalls(cas, c, |Up(cas, c)| - 1);
  }

  /** The bounded walks end at the root exactly when the CA is not too deep; a chain may be one link shorter. */
  lemma WalksReachTheRoot(cas: map<nat, Ca>, c: nat, depth: nat)
    requires Forest(cas) && c in cas
    ensures RootWithin(cas, c, depth) == Root(cas, c) <==> |Up(cas, c)| <= depth + 1
    ensures ChainWithin(cas, c, depth) == Up(cas, c) <==> |Up(cas, c)| <= depth
  {
    OnlyTheLastIsRoot(cas, c, Min(|Up(cas, c)| - 1, depth));
    assert |ChainWithin(cas, c, depth)| == Min(|Up(cas, c)|, depth);
  }

  // ── What the app creates ──

  datatype State = State(cas: map<nat, Ca>, certs: map<nat, Cert>, nextCa: nat, nextCert: nat, now: int)

  datatype Refusal = NotFound | PathLength | BadLifetime | SameName | Expired

  predicate AllowsSubordinates(ca: Ca) {
    ca.pathLength != Some(0)
  }

  predicate LifetimeAllowed(days: int) {
    1 <= days <= MAX_LIFETIME_DAYS
  }

  /** notBefore and notAfter of a new certificate: backdated, and inside its issuer's; an expired CA signs nothing. */
  function Validity(issuer: Option<Ca>, now: int, days: int): Outcome<(int, int), Refusal> {
    if issuer.None? then Ok((now - BACKDATE, now + days * DAY))
    else if issuer.value.notAfter <= now then Err(Expired)
    else Ok((Max(now - BACKDATE, issuer.value.notBefore), Min(now + days * DAY, issuer.value.notAfter)))
  }

  function CreateRoot(st: State, subject: string, days: int): (Outcome<nat, Refusal>, State) {
    if !LifetimeAllowed(days) then (Err(BadLifetime), st)
    else
      var (from, until) := Validity(None, st.now, days).value;
      (Ok(st.nextCa), st.(cas := st.cas[st.nextCa := Ca(None, subject, None, from, until)], nextCa := st.nextCa + 1))
  }

  function CreateIntermediate(st: State, parent: nat, subject: string, days: int): (Outcome<nat, Refusal>, State) {
    if parent !in st.cas then (Err(NotFound), st)
    else if !AllowsSubordinates(st.cas[parent]) then (Err(PathLength), st)
    else if !LifetimeAllowed(days) then (Err(BadLifetime), st)
    else if subject == st.cas[parent].subject then (Err(SameName), st)
    else
      match Validity(Some(st.cas[parent]), st.now, days)
      case Err(e) => (Err(e), st)
      case Ok((from, until)) =>
        (Ok(st.nextCa),
         st.(cas := st.cas[st.nextCa := Ca(Some(parent), subject, Some(0), from, until)], nextCa := st.nextCa + 1))
  }

  function IssueLeaf(st: State, ca: nat, days: int): (Outcome<nat, Refusal>, State) {
    if ca !in st.cas then (Err(NotFound), st)
    else if !LifetimeAllowed(days) then (Err(BadLifetime), st)
    else
      match Validity(Some(st.cas[ca]), st.now, days)
      case Err(e) => (Err(e), st)
      case Ok((from, until)) =>
        (Ok(st.nextCert), st.(certs := st.certs[st.nextCert := Cert(ca, from, until)], nextCert := st.nextCert + 1))
  }

  function Without(certs: map<nat, Cert>, cas: set<nat>): map<nat, Cert> {
    map id | id in certs && certs[id].ca !in cas :: certs[id]
  }

  ghost function DeleteCa(st: State, ca: nat): State
    requires Forest(st.cas)
  {
    st.(cas := st.cas - Tree(st.cas, ca), certs := Without(st.certs, Tree(st.cas, ca)))
  }

  datatype Event =
    | Root_(subject: string, days: int)
    | Intermediate(parent: nat, subject: string, days: int)
    | Leaf(ca: nat, days: int)
    | Delete(ca: nat)
    | DeleteCert(cert: nat)
    | Clock(now: int)

  ghost function Step(st: State, e: Event): State
    requires Forest(st.cas)
  {
    match e
    case Root_(subject, days) => CreateRoot(st, subject, days).1
    case Intermediate(parent, subject, days) => CreateIntermediate(st, parent, subject, days).1
    case Leaf(ca, days) => IssueLeaf(st, ca, days).1
    case Delete(ca) => DeleteCa(st, ca)
    case DeleteCert(cert) => st.(certs := st.certs - {cert})
    case Clock(now) => st.(now := Max(st.now, now))
  }

  /** Inside its issuer's validity, and not empty. */
  predicate Nested(from: int, until: int, issuer: Ca) {
    issuer.notBefore <= from < until <= issuer.notAfter
  }

  ghost predicate GoodCa(st: State, c: nat)
    requires c in st.cas
  {
    var ca := st.cas[c];
    && c < st.nextCa && ca.notBefore <= st.now && ca.notBefore < ca.notAfter
    && ca.pathLength == (if ca.parent.None? then None else Some(0))
    && (ca.parent.Some? ==>
          && ca.parent.value in st.cas && ca.parent.value < c && st.cas[ca.parent.value].parent.None?
          && Nested(ca.notBefore, ca.notAfter, st.cas[ca.parent.value]) && ca.subject != st.cas[ca.parent.value].subject)
  }

  ghost predicate GoodCert(st: State, id: nat)
    requires id in st.certs
  {
    var c := st.certs[id];
    id < st.nextCert && c.ca in st.cas && Nested(c.notBefore, c.notAfter, st.cas[c.ca])
  }

  ghost predicate Inv(st: State) {
    (forall c <- st.cas :: GoodCa(st, c)) && (forall id <- st.certs :: GoodCert(st, id))
  }

  lemma InvIsForest(st: State)
    requires Inv(st)
    ensures Forest(st.cas)
  {
    forall c <- st.cas ensures st.cas[c].parent.Some? ==> st.cas[c].parent.value in st.cas && st.cas[c].parent.value < c {
      assert GoodCa(st, c);
    }
  }

  lemma ValidityIsNested(st: State, issuer: nat, days: int)
    requires Inv(st) && issuer in st.cas && LifetimeAllowed(days) && Validity(Some(st.cas[issuer]), st.now, days).Ok?
    ensures var (from, until) := Validity(Some(st.cas[issuer]), st.now, days).value;
            Nested(from, until, st.cas[issuer]) && from <= st.now < until
  {
    assert GoodCa(st, issuer);
  }

  lemma AddedCaKeepsInv(st: State, ca: Ca)
    requires Inv(st) && GoodCa(st.(cas := st.cas[st.nextCa := ca], nextCa := st.nextCa + 1), st.nextCa)
    ensures Inv(st.(cas := st.cas[st.nextCa := ca], nextCa := st.nextCa + 1))
  {
    var st' := st.(cas := st.cas[st.nextCa := ca], nextCa := st.nextCa + 1);
    forall c <- st'.cas ensures GoodCa(st', c) {
      if c != st.nextCa {
        assert GoodCa(st, c);
        assert st.cas[c].parent.Some? ==> GoodCa(st, st.cas[c].parent.value);
      }
    }
    forall id <- st'.certs ensures GoodCert(st', id) {
      assert GoodCert(st, id) && GoodCa(st, st.certs[id].ca);
    }
  }

  lemma IntermediateKeepsInv(st: State, parent: nat, subject: string, days: int)
    requires Inv(st)
    ensures Inv(CreateIntermediate(st, parent, subject, days).1)
  {
    var (r, st') := CreateIntermediate(st, parent, subject, days);
    if r.Ok? {
      assert GoodCa(st, parent);
      ValidityIsNested(st, parent, days);
      var (from, until) := Validity(Some(st.cas[parent]), st.now, days).value;
      AddedCaKeepsInv(st, Ca(Some(parent), subject, Some(0), from, until));
    }
  }

  lemma LeafKeepsInv(st: State, ca: nat, days: int)
    requires Inv(st)
    ensures Inv(IssueLeaf(st, ca, days).1)
  {
    var (r, st') := IssueLeaf(st, ca, days);
    if r.Ok? {
      ValidityIsNested(st, ca, days);
      forall c <- st'.cas ensures GoodCa(st', c) { assert GoodCa(st, c); }
      forall id <- st'.certs ensures GoodCert(st', id) { assert id != st.nextCert ==> GoodCert(st, id); }
    }
  }

  lemma DeleteKeepsInv(st: State, ca: nat)
    requires Inv(st)
    ensures Forest(st.cas) && Inv(DeleteCa(st, ca))
  {
    InvIsForest(st);
    var st' := DeleteCa(st, ca);
    forall c <- st'.cas ensures GoodCa(st', c) {
      assert GoodCa(st, c);
      if st.cas[c].parent.Some? {
        assert Up(st.cas, c) == [c] + Up(st.cas, st.cas[c].parent.value);
        assert c !in Tree(st.cas, ca);
      }
    }
    forall id <- st'.certs ensures GoodCert(st', id) { assert GoodCert(st, id); }
  }

  lemma StepKeepsInv(st: State, e: Event)
    requires Inv(st)
    ensures Forest(st.cas) && Inv(Step(st, e))
  {
    InvIsForest(st);
    match e
    case Root_(subject, days) =>
      if LifetimeAllowed(days) { AddedCaKeepsInv(st, Ca(None, subject, None, st.now - BACKDATE, st.now + days * DAY)); }
    case Intermediate(parent, subject, days) => IntermediateKeepsInv(st, parent, subject, days);
    case Leaf(ca, days) => LeafKeepsInv(st, ca, days);
    case Delete(ca) => DeleteKeepsInv(st, ca);
    case _ =>
      forall c <- Step(st, e).cas ensures GoodCa(Step(st, e), c) { assert GoodCa(st, c); }
      forall id <- Step(st, e).certs ensures GoodCert(Step(st, e), id) { assert GoodCert(st, id); }
  }

  /** Every state the app can come to from no CAs at all, and that it is well formed. */
  ghost function Run(start: int, events: seq<Event>): (st: State)
    ensures Inv(st)
  {
    if events == [] then State(map[], map[], 0, 0, start)
    else
      var before := Run(start, events[..|events| - 1]);
      StepKeepsInv(before, events[|events| - 1]);
      Step(before, events[|events| - 1])
  }

  // ── What each request gives ──

  predicate Within(t: int, from: int, until: int) {
    from <= t <= until
  }

  /** Valid exactly when asked for, and below an issuer when the issuer is valid too: from five minutes ago, for so many days. */
  ghost predicate ValidWhenAsked(from: int, until: int, issuer: Option<Ca>, now: int, days: int) {
    forall t :: Within(t, from, until) <==>
      Within(t, now - 5 * 60, now + days * 86400) && (issuer.Some? ==> Within(t, issuer.value.notBefore, issuer.value.notAfter))
  }

  ghost predicate OnlyCaAdded(st: State, st': State, id: nat) {
    && id !in st.cas && id in st'.cas && st'.cas - {id} == st.cas
    && st' == st.(cas := st'.cas, nextCa := id + 1)
  }

  /** A root is made exactly for an allowed lifetime, and nothing else changes. */
  lemma RootsAreMade(st: State, subject: string, days: int)
    requires Inv(st)
    ensures var (r, st') := CreateRoot(st, subject, days);
            && (r.Ok? <==> 1 <= days <= 36500) && (r.Err? ==> st' == st)
            && (r.Ok? ==>
                  && OnlyCaAdded(st, st', r.value)
                  && var c := st'.cas[r.value];
                     c.parent.None? && c.subject == subject && c.pathLength.None?
                     && ValidWhenAsked(c.notBefore, c.notAfter, None, st.now, days))
  {
    assert st.nextCa in st.cas ==> GoodCa(st, st.nextCa);
    assert st.cas[st.nextCa := Ca(None, subject, None, st.now - BACKDATE, st.now + days * DAY)] - {st.nextCa} == st.cas;
  }

  /** An intermediate is made exactly for an allowed lifetime, below a CA that may sign one, has another name and has not
      expired. */
  lemma IntermediatesAreMade(st: State, parent: nat, subject: string, days: int)
    requires Inv(st)
    ensures var (r, st') := CreateIntermediate(st, parent, subject, days);
            && (r.Ok? <==> parent in st.cas && st.cas[parent].parent.None? && 1 <= days <= 36500
                           && st.cas[parent].subject != subject && st.now < st.cas[parent].notAfter)
            && (r.Err? ==> st' == st)
            && (r.Ok? ==>
                  && OnlyCaAdded(st, st', r.value)
                  && var c := st'.cas[r.value];
                     c.parent == Some(parent) && c.subject == subject && c.pathLength == Some(0)
                     && ValidWhenAsked(c.notBefore, c.notAfter, Some(st.cas[parent]), st.now, days))
  {
    assert st.nextCa in st.cas ==> GoodCa(st, st.nextCa);
    if parent in st.cas {
      assert GoodCa(st, parent);
      var (r, st') := CreateIntermediate(st, parent, subject, days);
      if r.Ok? { assert st'.cas - {st.nextCa} == st.cas; }
    }
  }

  /** A certificate is issued exactly for an allowed lifetime by a CA that has not expired. */
  lemma LeavesAreIssued(st: State, ca: nat, days: int)
    requires Inv(st)
    ensures var (r, st') := IssueLeaf(st, ca, days);
            && (r.Ok? <==> ca in st.cas && 1 <= days <= 36500 && st.now < st.cas[ca].notAfter)
            && (r.Err? ==> st' == st)
            && (r.Ok? ==>
                  && r.value !in st.certs && r.value in st'.certs && st'.certs - {r.value} == st.certs
                  && st' == st.(certs := st'.certs, nextCert := r.value + 1)
                  && var c := st'.certs[r.value];
                     c.ca == ca && ValidWhenAsked(c.notBefore, c.notAfter, Some(st.cas[ca]), st.now, days))
  {
    assert st.nextCert in st.certs ==> GoodCert(st, st.nextCert);
    var (r, st') := IssueLeaf(st, ca, days);
    if r.Ok? { assert st'.certs - {st.nextCert} == st.certs; }
  }

  /** Deleting a certificate takes that one alone, and the clock never steps back. */
  lemma OtherStepsAfter(st: State, e: Event, id: nat)
    requires Inv(st) && (e.DeleteCert? || e.Clock?)
    ensures Forest(st.cas)
    ensures var st' := Step(st, e);
            && (id in st'.certs <==> id in st.certs && e != DeleteCert(id)) && (id in st'.certs ==> st'.certs[id] == st.certs[id])
            && st'.now == (if e.Clock? && st.now < e.now then e.now else st.now)
            && st' == st.(certs := st'.certs, now := st'.now)
  {
    InvIsForest(st);
  }

  lemma RunMore(start: int, events: seq<Event>, e: Event)
    ensures Run(start, events + [e]) == Step(Run(start, events), e)
  {
    assert (events + [e])[..|events|] == events;
  }

  /** Deleting a CA takes exactly the CAs whose way up leads through it, and the certificates of those. */
  lemma DeletingTakesTheTree(st: State, ca: nat, c: nat, id: nat)
    requires Inv(st)
    ensures Forest(st.cas)
    ensures var st' := DeleteCa(st, ca);
            && (c in st'.cas <==> c in st.cas && ca !in Up(st.cas, c))
            && (id in st'.certs <==> id in st.certs && (st.certs[id].ca in st.cas ==> ca !in Up(st.cas, st.certs[id].ca)))
            && (c in st'.cas ==> st'.cas[c] == st.cas[c]) && (id in st'.certs ==> st'.certs[id] == st.certs[id])
            && st' == st.(cas := st'.cas, certs := st'.certs)
  {
    InvIsForest(st);
  }

  // ── What holds of every run ──

  /** Parents come before their children, and an intermediate signs no CA. */
  lemma ForestOfTwoLevels(start: int, events: seq<Event>, c: nat)
    requires c in Run(start, events).cas
    ensures var cas := Run(start, events).cas;
            && Forest(cas) && |Up(cas, c)| <= 2
            && RootWithin(cas, c, MAX_DEPTH) == Root(cas, c) && ChainWithin(cas, c, MAX_DEPTH) == Up(cas, c)
  {
    var st := Run(start, events);
    InvIsForest(st);
    assert GoodCa(st, c);
    if st.cas[c].parent.Some? {
      assert Up(st.cas, c) == [c] + Up(st.cas, st.cas[c].parent.value);
    }
    WalksReachTheRoot(st.cas, c, MAX_DEPTH);
  }

  /** Asking for a CA's root and asking for a root's tree give the same answer. */
  lemma TreesMatchRoots(start: int, events: seq<Event>, root: nat, c: nat)
    requires var cas := Run(start, events).cas; root in cas && cas[root].parent.None? && c in cas
    ensures var cas := Run(start, events).cas;
            Forest(cas) && (c in Tree(cas, root) <==> RootWithin(cas, c, MAX_DEPTH) == root)
  {
    ForestOfTwoLevels(start, events, c);
    TreeOfRoot(Run(start, events).cas, root, c);
  }

  /** Section 6.1 of RFC 5280 asks every certificate of a path to be valid: whatever a chain's last certificate
      allows, all above it allow too. */
  lemma ValidityNests(start: int, events: seq<Event>, id: nat, i: nat)
    requires var st := Run(start, events); id in st.certs
    ensures var st := Run(start, events);
            var c := st.certs[id];
            && Forest(st.cas) && c.ca in st.cas && c.notBefore < c.notAfter
            && (i < |Up(st.cas, c.ca)| ==> Nested(c.notBefore, c.notAfter, st.cas[Up(st.cas, c.ca)[i]]))
  {
    var st := Run(start, events);
    InvIsForest(st);
    assert GoodCert(st, id);
    var c := st.certs[id];
    CaValidityNests(start, events, c.ca, i);
  }

  lemma {:induction false} CaValidityNests(start: int, events: seq<Event>, c: nat, i: nat)
    requires c in Run(start, events).cas
    ensures var cas := Run(start, events).cas;
            && Forest(cas) && cas[c].notBefore < cas[c].notAfter
            && (i < |Up(cas, c)| ==> Nested(cas[c].notBefore, cas[c].notAfter, cas[Up(cas, c)[i]]))
    decreases i
  {
    var st := Run(start, events);
    InvIsForest(st);
    assert GoodCa(st, c);
    if 0 < i < |Up(st.cas, c)| {
      var parent := st.cas[c].parent.value;
      assert Up(st.cas, c) == [c] + Up(st.cas, parent);
      CaValidityNests(start, events, parent, i - 1);
    }
  }

  // ── The loops that walk the table ──

  method RootCaId(cas: map<nat, Ca>, ca: nat, maxDepth: nat) returns (root: Option<nat>)
    requires Forest(cas) && maxDepth > 0
    ensures root == if ca in cas then Some(RootWithin(cas, ca, maxDepth)) else None
  {
    var current, seen: set<nat> := ca, {};
    ghost var walked: seq<nat> := [];
    while |seen| < maxDepth
      invariant ca in cas ==> current in cas && Up(cas, ca) == walked + Up(cas, current)
      invariant ca !in cas ==> current == ca && seen == {}
      invariant |walked| == |seen| <= maxDepth && forall c <- seen :: c > current
    {
      if current !in cas { return None; }
      var parent := cas[current].parent;
      if parent.None? || parent.value in seen { return Some(current); }
      walked := walked + [current];
      seen := seen + {current};
      current := parent.value;
    }
    return Some(current);
  }

  method CertChain(cas: map<nat, Ca>, ca: nat, maxDepth: nat) returns (chain: seq<nat>)
    requires Forest(cas)
    ensures chain == if ca in cas then ChainWithin(cas, ca, maxDepth) else []
  {
    chain := [];
    var current, seen: set<nat> := Some(ca), {};
    while current.Some? && current.value !in seen && |chain| < maxDepth
      invariant |chain| <= maxDepth && Climbing(cas, ca, chain, current, seen)
      decreases maxDepth - |chain|
    {
      if current.value !in cas { return []; }
      seen := seen + {current.value};
      ClimbOn(cas, ca, chain, current.value, seen - {current.value});
      chain := chain + [current.value];
      current := cas[current.value].parent;
    }
    if ca in cas { ChainIsPrefix(cas, ca, chain, UpFrom(cas, current), maxDepth); }
  }

  ghost predicate Climbing(cas: map<nat, Ca>, ca: nat, chain: seq<nat>, current: Option<nat>, seen: set<nat>)
    requires Forest(cas)
  {
    && (ca in cas ==> Up(cas, ca) == chain + UpFrom(cas, current))
    && (ca !in cas ==> current == Some(ca) && chain == [] && seen == {})
    && (current.Some? ==> (ca in cas ==> current.value in cas) && forall c <- seen :: c > current.value)
  }

  lemma ClimbOn(cas: map<nat, Ca>, ca: nat, chain: seq<nat>, current: nat, seen: set<nat>)
    requires Forest(cas) && Climbing(cas, ca, chain, Some(current), seen) && current in cas
    ensures Climbing(cas, ca, chain + [current], cas[current].parent, seen + {current})
  {
    assert UpFrom(cas, Some(current)) == [current] + UpFrom(cas, cas[current].parent);
  }

  lemma ChainIsPrefix(cas: map<nat, Ca>, ca: nat, chain: seq<nat>, rest: seq<nat>, depth: nat)
    requires Forest(cas) && ca in cas && Up(cas, ca) == chain + rest
    requires |chain| <= depth && (rest == [] || |chain| == depth)
    ensures chain == ChainWithin(cas, ca, depth)
  {
  }

  method ListChildCas(cas: map<nat, Ca>, ca: nat) returns (children: seq<nat>)
    ensures forall c :: c in children <==> HasParent(cas, c, ca)
    ensures NoRepeats(children)
  {
    children := [];
    var todo := set c | c in cas && cas[c].parent == Some(ca);
    ghost var all := todo;
    while todo != {}
      invariant todo <= all && NoRepeats(children) && forall c :: c in children <==> c in all && c !in todo
    {
      var c :| c in todo;
      children := children + [c];
      todo := todo - {c};
    }
  }

  /** `ca` and every CA below it, parents before their children. */
  method DescendantIds(cas: map<nat, Ca>, ca: nat) returns (ids: seq<nat>)
    requires Forest(cas)
    ensures Members(ids) == Tree(cas, ca) + {ca} && NoRepeats(ids)
    ensures forall i :: 0 <= i < |ids| ==> Placed(cas, ca, ids, i)
  {
    ids := [];
    var pending := [ca];
    while pending != []
      invariant NoRepeats(pending) && Walking(cas, ca, ids, Members(pending))
      decreases Tree(cas, ca) + {ca} - Members(ids)
    {
      var current := pending[|pending| - 1];
      var rest := pending[..|pending| - 1];
      var children := ListChildCas(cas, current);
      WalkOn(cas, ca, ids, Members(pending), current, Members(children));
      PopPush(pending, children);
      assert current in pending && current in Tree(cas, ca) + {ca};
      assert Members(ids + [current]) == Members(ids) + {current};
      ids := ids + [current];
      pending := rest + children;
    }
    WalkedAll(cas, ca, ids);
  }

  ghost function Members(s: seq<nat>): set<nat> {
    set c | c in s
  }

  lemma PopPush(pending: seq<nat>, children: seq<nat>)
    requires pending != [] && NoRepeats(pending) && NoRepeats(children) && Members(pending) !! Members(children)
    ensures var current, next := pending[|pending| - 1], pending[..|pending| - 1] + children;
            NoRepeats(next) && Members(next) == Members(pending) - {current} + Members(children)
  {
    var current, rest := pending[|pending| - 1], pending[..|pending| - 1];
    assert pending == rest + [current];
    var next := rest + children;
    forall i, j | 0 <= i < j < |next| ensures next[i] != next[j] {
      if i < |rest| <= j {
        assert pending[i] in Members(pending) && children[j - |rest|] in Members(children);
      } else if |rest| <= i {
        assert next[i] == children[i - |rest|] && next[j] == children[j - |rest|];
      } else {
        assert next[i] == pending[i] && next[j] == pending[j];
      }
    }
  }

  ghost predicate NoRepeats(s: seq<nat>) {
    forall i, j :: 0 <= i < j < |s| ==> s[i] != s[j]
  }

  ghost predicate Placed(cas: map<nat, Ca>, top: nat, ids: seq<nat>, i: nat)
    requires i < |ids|
  {
    ids[i] == top || (ids[i] in cas && cas[ids[i]].parent.Some? && cas[ids[i]].parent.value in ids[..i])
  }

  /** Everything listed or waiting is below the top CA, once, and no child of what is listed is missed. */
  ghost predicate Walking(cas: map<nat, Ca>, top: nat, ids: seq<nat>, waiting: set<nat>)
    requires Forest(cas)
  {
    && NoRepeats(ids) && (forall i :: 0 <= i < |ids| ==> Placed(cas, top, ids, i))
    && (top in ids || top in waiting)
    && (forall c <- ids :: c == top || c in Tree(cas, top))
    && (forall c <- waiting :: c !in ids && (c == top || (c in Tree(cas, top) && cas[c].parent.Some? && cas[c].parent.value in ids)))
    && (forall c, parent :: HasParent(cas, c, parent) && parent in ids ==> c in ids || c in waiting)
  }

  lemma ChildrenAreNew(cas: map<nat, Ca>, top: nat, ids: seq<nat>, waiting: set<nat>, current: nat, c: nat)
    requires Forest(cas) && Walking(cas, top, ids, waiting) && current in waiting && HasParent(cas, c, current)
    ensures c !in ids && c !in waiting && c != current && c in Tree(cas, top)
  {
    assert Up(cas, c) == [c] + Up(cas, current);
    assert current == top || current in Tree(cas, top);
    ListedParents(cas, top, ids);
  }

  lemma ListedParents(cas: map<nat, Ca>, top: nat, ids: seq<nat>)
    requires forall i :: 0 <= i < |ids| ==> Placed(cas, top, ids, i)
    ensures forall c <- ids :: c == top || (c in cas && cas[c].parent.Some? && cas[c].parent.value in ids)
  {
    forall c <- ids ensures c == top || (c in cas && cas[c].parent.Some? && cas[c].parent.value in ids) {
      var i :| 0 <= i < |ids| && ids[i] == c;
      assert Placed(cas, top, ids, i);
    }
  }

  lemma WalkOn(cas: map<nat, Ca>, top: nat, ids: seq<nat>, waiting: set<nat>, current: nat, children: set<nat>)
    requires Forest(cas) && Walking(cas, top, ids, waiting) && current in waiting
    requires forall c :: c in children <==> HasParent(cas, c, current)
    ensures Walking(cas, top, ids + [current], waiting - {current} + children)
    ensures children !! waiting
  {
    forall c <- children ensures c !in ids && c !in waiting && c != current && c in Tree(cas, top) {
      ChildrenAreNew(cas, top, ids, waiting, current, c);
    }
    var ids' := ids + [current];
    forall i | 0 <= i < |ids'| ensures Placed(cas, top, ids', i) {
      assert ids'[..i] == ids[..i];
      assert i < |ids| ==> Placed(cas, top, ids, i);
      assert ids[..|ids|] == ids;
    }
  }

  lemma WalkedAll(cas: map<nat, Ca>, top: nat, ids: seq<nat>)
    requires Forest(cas) && Walking(cas, top, ids, {})
    ensures Members(ids) == Tree(cas, top) + {top}
  {
    forall c <- Tree(cas, top) ensures c in ids {
      TreeIsLeast(cas, top, Members(ids), c);
    }
  }

  lemma ChildrenComeLater(cas: map<nat, Ca>, top: nat, ids: seq<nat>, i: nat, c: nat)
    requires Forest(cas) && top in cas && Members(ids) == Tree(cas, top) + {top} && NoRepeats(ids)
    requires forall j :: 0 <= j < |ids| ==> Placed(cas, top, ids, j)
    requires i < |ids| && HasParent(cas, c, ids[i])
    ensures c in Members(ids[i + 1..])
  {
    TreeIsClosed(cas, top);
    assert ids[i] in Members(ids);
    assert c in Members(ids);
    var j :| 0 <= j < |ids| && ids[j] == c;
    assert Placed(cas, top, ids, j);
    assert ids[i + 1..][j - i - 1] == c;
  }

  /** When a CA's turn to be deleted comes, the table holds no child of it. */
  lemma NoChildLeft(cas: map<nat, Ca>, top: nat, ids: seq<nat>, i: nat)
    requires Forest(cas) && top in cas && Members(ids) == Tree(cas, top) + {top} && NoRepeats(ids)
    requires forall j :: 0 <= j < |ids| ==> Placed(cas, top, ids, j)
    requires i < |ids|
    ensures Childless(cas - Members(ids[i + 1..]), ids[i])
  {
    var left := cas - Members(ids[i + 1..]);
    forall c ensures !HasParent(left, c, ids[i]) {
      if HasParent(cas, c, ids[i]) { ChildrenComeLater(cas, top, ids, i, c); }
    }
  }

  ghost predicate Childless(cas: map<nat, Ca>, id: nat) {
    forall c :: !HasParent(cas, c, id)
  }

  lemma MembersFrom(ids: seq<nat>, i: nat)
    requires i < |ids|
    ensures Members(ids[i..]) == Members(ids[i + 1..]) + {ids[i]}
  {
  }

  lemma NothingBelow(st: State, ca: nat)
    requires Forest(st.cas) && ca !in st.cas
    ensures DeleteCa(st, ca) == st
  {
    assert Tree(st.cas, ca) == {};
    assert st.cas - {} == st.cas && Without(st.certs, {}) == st.certs;
  }

  // ── The tables, changed in place ──

  class Authorities {
    var cas: map<nat, Ca>
    var certs: map<nat, Cert>
    var nextCa: nat
    var nextCert: nat
    var now: int

    ghost function View(): State
      reads this
    {
      State(cas, certs, nextCa, nextCert, now)
    }

    constructor (now: int)
      ensures View() == Run(now, [])
    {
      cas, certs, nextCa, nextCert, this.now := map[], map[], 0, 0, now;
    }

    method SaveCa(ca: Ca) returns (id: nat)
      modifies `cas, `nextCa
      ensures id == old(nextCa) && nextCa == id + 1 && cas == old(cas)[id := ca]
    {
      id := nextCa;
      cas := cas[id := ca];
      nextCa := nextCa + 1;
    }

    method NewRoot(subject: string, days: int) returns (r: Outcome<nat, Refusal>)
      modifies this
      ensures (r, View()) == CreateRoot(old(View()), subject, days)
    {
      if !LifetimeAllowed(days) { return Err(BadLifetime); }
      var id := SaveCa(Ca(None, subject, None, now - BACKDATE, now + days * DAY));
      r := Ok(id);
    }

    method NewIntermediate(parent: nat, subject: string, days: int) returns (r: Outcome<nat, Refusal>)
      modifies this
      ensures (r, View()) == CreateIntermediate(old(View()), parent, subject, days)
    {
      if parent !in cas { return Err(NotFound); }
      if !AllowsSubordinates(cas[parent]) { return Err(PathLength); }
      if !LifetimeAllowed(days) { return Err(BadLifetime); }
      if subject == cas[parent].subject { return Err(SameName); }
      var validity := Validity(Some(cas[parent]), now, days);
      if validity.Err? { return Err(validity.error); }
      var id := SaveCa(Ca(Some(parent), subject, Some(0), validity.value.0, validity.value.1));
      r := Ok(id);
    }

    method NewLeaf(ca: nat, days: int) returns (r: Outcome<nat, Refusal>)
      modifies this
      ensures (r, View()) == IssueLeaf(old(View()), ca, days)
    {
      if ca !in cas { return Err(NotFound); }
      if !LifetimeAllowed(days) { return Err(BadLifetime); }
      var validity := Validity(Some(cas[ca]), now, days);
      if validity.Err? { return Err(validity.error); }
      certs := certs[nextCert := Cert(ca, validity.value.0, validity.value.1)];
      r := Ok(nextCert);
      nextCert := nextCert + 1;
    }

    /** One CA's rows.  The parent column is a foreign key: a CA that still has a child cannot go. */
    method DeleteRows(id: nat)
      requires Childless(cas, id)
      modifies `cas, `certs
      ensures cas == old(cas) - {id} && certs == Without(old(certs), {id})
    {
      certs := Without(certs, {id});
      cas := cas - {id};
    }

    /** Children before their parents. */
    method DeleteEach(ids: seq<nat>, ca: nat)
      requires Forest(cas) && ca in cas && Members(ids) == Tree(cas, ca) + {ca} && NoRepeats(ids)
      requires forall i :: 0 <= i < |ids| ==> Placed(cas, ca, ids, i)
      modifies `cas, `certs
      ensures cas == old(cas) - Members(ids) && certs == Without(old(certs), Members(ids))
    {
      ghost var before, issued := cas, certs;
      for i := |ids| downto 0
        invariant cas == before - Members(ids[i..]) && certs == Without(issued, Members(ids[i..]))
      {
        NoChildLeft(before, ca, ids, i);
        MembersFrom(ids, i);
        DeleteRows(ids[i]);
      }
      assert ids[0..] == ids;
    }

    /** A CA with everything below it. */
    method Delete(ca: nat) returns (deleted: bool)
      requires Forest(cas)
      modifies this
      ensures deleted == (ca in old(cas)) && View() == DeleteCa(old(View()), ca)
    {
      if ca !in cas {
        NothingBelow(View(), ca);
        return false;
      }
      var ids := DescendantIds(cas, ca);
      TreeIsClosed(cas, ca);
      assert Tree(cas, ca) + {ca} == Tree(cas, ca);
      DeleteEach(ids, ca);
      deleted := true;
    }
  }
}
