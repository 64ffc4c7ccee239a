/** Which host names a PC may put on a certificate (app/pal.py).  Whether a text is an IP address, and whether a network
    holds it, is left to the `Ips` given. */
module NamePolicy {
  import opened Strings
  import opened Wrappers

  const MAX_NAMES := 20

  /** What the ipaddress module says of a text. */
  datatype Ips = Ips(isAddress: string -> bool, holds: (string, string) -> bool)

  function TrimDots(s: string): string {
    if s != "" && s[|s| - 1] == '.' then TrimDots(s[..|s| - 1]) else s
  }

  function Cleaned(raw: string): string {
    TrimDots(Lower(Trim(raw)))
  }

  // ── DNS names ──

  predicate LabelChar(c: char) {
    'a' <= c <= 'z' || '0' <= c <= '9' || c == '-'
  }

  /** A label as section 2.3.1 of RFC 1035 has it, in lower case. */
  predicate IsLabel(s: string) {
    1 <= |s| <= 63 && s[0] != '-' && s[|s| - 1] != '-' && forall i :: 0 <= i < |s| ==> LabelChar(s[i])
  }

  /** What the label pattern matches: its end-of-line mark also matches just before a newline that ends the text. */
  predicate LabelMatches(s: string) {
    IsLabel(s) || (s != "" && s[|s| - 1] == '\n' && IsLabel(s[..|s| - 1]))
  }

  predicate AllLabels(labels: seq<string>) {
    forall i :: 0 <= i < |labels| ==> IsLabel(labels[i])
  }

  predicate IsDnsName(name: string) {
    1 <= |name| <= 253 && forall i :: 0 <= i < |Split(name, '.')| ==> LabelMatches(Split(name, '.')[i])
  }

  predicate IsRequestable(ips: Ips, name: string) {
    ips.isAddress(name) || IsDnsName(name)
  }

  // ── Patterns ──

  predicate EndsWith(s: string, tail: string) {
    |s| >= |tail| && s[|s| - |tail|..] == tail
  }

  predicate StartsWith(s: string, head: string) {
    head <= s
  }

  predicate PatternAllows(ips: Ips, name: string, pattern: string) {
    if ips.isAddress(name) then ips.holds(name, pattern)
    else name == pattern || (StartsWith(pattern, "*.") && EndsWith(name, pattern[1..]))
  }

  /** `raw` is any case and may end in dots, as policies are checked for names from more than one place. */
  predicate DnsNameAllowed(ips: Ips, raw: string, patterns: seq<string>) {
    var name := TrimDots(Lower(raw));
    Free(name, '*') && exists pattern <- patterns :: PatternAllows(ips, name, pattern)
  }

  // ── The wildcard test means what the labels say ──

  /** Any depth below the domain, and never the domain itself. */
  ghost predicate Below(labels: seq<string>, domain: seq<string>) {
    |labels| > |domain| && labels[|labels| - |domain|..] == domain
  }

  lemma SplitPrefixed(name: string, domain: string)
    requires Below(Split(name, '.'), Split(domain, '.'))
    ensures EndsWith(name, "." + domain)
  {
    var labels, tail := Split(name, '.'), Split(domain, '.');
    var head := labels[..|labels| - |tail|];
    assert labels == head + tail;
    SplitThenJoin(name, '.');
    SplitThenJoin(domain, '.');
    JoinAt(head, tail, '.');
    Tail(Join(head, '.'), domain, name);
  }

  lemma Tail(head: string, domain: string, name: string)
    requires name == head + "." + domain
    ensures EndsWith(name, "." + domain)
  {
    assert name == head + ("." + domain);
  }

  lemma {:induction false} JoinAt(head: seq<string>, tail: seq<string>, sep: char)
    requires |head| >= 1 && |tail| >= 1
    ensures Join(head + tail, sep) == Join(head, sep) + [sep] + Join(tail, sep)
  {
    if |head| == 1 {
      assert (head + tail)[1..] == tail;
    } else {
      assert (head + tail)[1..] == head[1..] + tail;
      JoinAt(head[1..], tail, sep);
      assert head[0] + [sep] + (Join(head[1..], sep) + [sep] + Join(tail, sep)) ==
             head[0] + [sep] + Join(head[1..], sep) + [sep] + Join(tail, sep);
    }
  }

  /** The text test for a wildcard pattern is the test on labels: a name matches *.domain exactly when its labels
      are one or more labels and then the domain's. */
  lemma WildcardMatchesBelow(name: string, domain: string)
    ensures EndsWith(name, ("*." + domain)[1..]) <==> Below(Split(name, '.'), Split(domain, '.'))
  {
    assert ("*." + domain)[1..] == "." + domain;
    if EndsWith(name, "." + domain) {
      var head := name[..|name| - |domain| - 1];
      assert name == head + "." + domain;
      SplitAt(head, domain, '.');
      assert Split(name, '.')[|Split(head, '.')|..] == Split(domain, '.');
    }
    if Below(Split(name, '.'), Split(domain, '.')) {
      SplitPrefixed(name, domain);
    }
  }

  /** What a policy covers, told by labels. */
  ghost predicate Covers(ips: Ips, pattern: string, name: string) {
    if ips.isAddress(name) then ips.holds(name, pattern)
    else name == pattern || exists domain: string :: pattern == "*." + domain && Below(Split(name, '.'), Split(domain, '.'))
  }

  lemma AllowsIsCovers(ips: Ips, name: string, pattern: string)
    ensures PatternAllows(ips, name, pattern) <==> Covers(ips, pattern, name)
  {
    if StartsWith(pattern, "*.") {
      var domain := pattern[2..];
      assert pattern == "*." + domain;
      WildcardMatchesBelow(name, domain);
    }
    forall domain: string | pattern == "*." + domain ensures StartsWith(pattern, "*.") && domain == pattern[2..] {
    }
  }

  /** A name, in any case and with any dots at its end, is allowed exactly when its lower-case form without those dots
      is wildcard-free and covered by a pattern. */
  lemma AllowedIff(ips: Ips, raw: string, patterns: seq<string>)
    ensures var name := TrimDots(Lower(raw));
            DnsNameAllowed(ips, raw, patterns) <==> Free(name, '*') && exists pattern <- patterns :: Covers(ips, pattern, name)
  {
    var name := TrimDots(Lower(raw));
    forall pattern <- patterns ensures PatternAllows(ips, name, pattern) <==> Covers(ips, pattern, name) {
      AllowsIsCovers(ips, name, pattern);
    }
  }

  // ── The names of a web-server request ──

  datatype Names = Names(commonName: string, san: seq<string>)

  datatype Refusal = WrongCount | NotAName(name: string) | WrongDomain(name: string)

  function CleanedAll(dns: seq<string>): seq<string> {
    seq(|dns|, i requires 0 <= i < |dns| => Cleaned(dns[i]))
  }

  /** Keeps the first of each, in order. */
  function Unique(names: seq<string>): (r: seq<string>)
    ensures forall n :: n in r <==> n in names
    ensures forall i, j :: 0 <= i < j < |r| ==> r[i] != r[j]
    ensures names != [] ==> r != [] && r[0] == names[0]
  {
    if names == [] then []
    else
      var rest := Unique(names[..|names| - 1]);
      var last := names[|names| - 1];
      assert names == names[..|names| - 1] + [last];
      if last in rest then rest else rest + [last]
  }

  ghost predicate Good(ips: Ips, name: string, patterns: seq<string>) {
    IsRequestable(ips, name) && DnsNameAllowed(ips, name, patterns)
  }

  /** The lists of names a request may carry. */
  ghost predicate Accepts(ips: Ips, dns: seq<string>, patterns: seq<string>) {
    1 <= |dns| <= MAX_NAMES && forall i :: 0 <= i < |dns| ==> Good(ips, Cleaned(dns[i]), patterns)
  }

  method ParseMachineNames(ips: Ips, dns: seq<string>, patterns: seq<string>) returns (r: Outcome<Names, Refusal>)
    ensures r.Ok? <==> Accepts(ips, dns, patterns)
    ensures r.Ok? ==> r.value.san == Unique(CleanedAll(dns)) && r.value.commonName == Cleaned(dns[0])
    ensures r == Err(WrongCount) <==> !(1 <= |dns| <= MAX_NAMES)
    ensures r.Err? && r.error != WrongCount ==>
              exists i :: 0 <= i < |dns| && r.error.name == Cleaned(dns[i]) && !Good(ips, r.error.name, patterns)
                          && r.error.NotAName? == !IsRequestable(ips, r.error.name)
                          && forall j :: 0 <= j < i ==> Good(ips, Cleaned(dns[j]), patterns)
  {
    if !(1 <= |dns| <= MAX_NAMES) { return Err(WrongCount); }
    var cleaned := CleanedAll(dns);
    for i := 0 to |cleaned|
      invariant forall j :: 0 <= j < i ==> Good(ips, Cleaned(dns[j]), patterns)
    {
      if !IsRequestable(ips, cleaned[i]) { return Err(NotAName(cleaned[i])); }
      if !DnsNameAllowed(ips, cleaned[i], patterns) { return Err(WrongDomain(cleaned[i])); }
    }
    var unique := Unique(cleaned);
    return Ok(Names(unique[0], unique));
  }

  const LABEL_CHARS: set<char> := {
    'a', 'b', 'c', 'd', 'e', 'f', 'g', 'h', 'i', 'j', 'k', 'l', 'm', 'n', 'o', 'p', 'q', 'r', 's', 't', 'u', 'v', 'w', 'x', 'y', 'z',
    '0', '1', '2', '3', '4', '5', '6', '7', '8', '9', '-'}

  /** `part` is the text, less perhaps a newline at its end, and is made as a label is. */
  ghost predicate IsPart(s: string, part: string) {
    && (s == part || s == part + "\n") && 0 < |part| < 64
    && part[0] != '-' && part[|part| - 1] != '-' && forall c <- part :: c in LABEL_CHARS
  }

  ghost predicate HoldsLabel(s: string) {
    exists part: string :: IsPart(s, part)
  }

  lemma LabelIff(s: string)
    ensures IsLabel(s) <==> IsPart(s, s)
  {
    assert IsPart(s, s) ==> forall i :: 0 <= i < |s| ==> s[i] in LABEL_CHARS;
  }

  lemma LabelMatchesIff(s: string)
    ensures LabelMatches(s) <==> HoldsLabel(s)
  {
    LabelIff(s);
    if LabelMatches(s) && !IsLabel(s) {
      assert s == s[..|s| - 1] + "\n";
      LabelIff(s[..|s| - 1]);
      assert IsPart(s, s[..|s| - 1]);
    }
    if part: string :| IsPart(s, part) {
      LabelIff(part);
      assert IsPart(part, part);
      assert s == part + "\n" ==> s[..|s| - 1] == part;
    }
  }

  /** A DNS name is 1 to 253 characters between whose dots stand labels of at most 63 letters, digits and inner dashes,
      each perhaps followed by a newline. */
  lemma DnsNameIff(name: string)
    ensures IsDnsName(name) <==> 0 < |name| < 254 && forall part <- Split(name, '.') :: HoldsLabel(part)
  {
    forall part: string ensures LabelMatches(part) <==> HoldsLabel(part) { LabelMatchesIff(part); }
  }

  /** What is left after the last dots: the shortest start of the text that only dots follow. */
  lemma {:induction false} TrimDotsIff(s: string, t: string)
    ensures t == TrimDots(s) <==> t <= s && (forall i :: |t| <= i < |s| ==> s[i] == '.') && (t == "" || t[|t| - 1] != '.')
  {
    if s != "" && s[|s| - 1] == '.' {
      TrimDotsIff(s[..|s| - 1], t);
    } else if t <= s {
      assert s[..|t|] == t;
      assert |t| < |s| ==> s[|s| - 1] != '.';
    }
  }

  lemma {:induction false} TrimDotsEnds(s: string)
    ensures TrimDots(TrimDots(s)) == TrimDots(s) && TrimDots(s) <= s
  {
    if s != "" && s[|s| - 1] == '.' { TrimDotsEnds(s[..|s| - 1]); }
  }

  lemma CleanedIsClean(raw: string)
    ensures Lower(Cleaned(raw)) == Cleaned(raw) && TrimDots(Cleaned(raw)) == Cleaned(raw)
  {
    var lower := Lower(Trim(raw));
    TrimDotsEnds(lower);
    assert forall i :: 0 <= i < |Cleaned(raw)| ==> Cleaned(raw)[i] == lower[i];
  }

  /** Every name that gets on a certificate is wildcard-free, an address or a DNS name, and covered by the policy. */
  lemma AcceptedNamesAreCovered(ips: Ips, raw: string, patterns: seq<string>)
    requires Good(ips, Cleaned(raw), patterns)
    ensures var name := Cleaned(raw);
            Free(name, '*') && IsRequestable(ips, name) && exists pattern <- patterns :: Covers(ips, pattern, name)
  {
    CleanedIsClean(raw);
    AllowedIff(ips, Cleaned(raw), patterns);
  }

  /** The labels of an accepted DNS name are all proper exactly when it holds no newline. */
  lemma AcceptedIsProperIff(name: string)
    requires IsDnsName(name)
    ensures AllLabels(Split(name, '.')) <==> Free(name, '\n')
  {
    var labels := Split(name, '.');
    SplitThenJoin(name, '.');
    if AllLabels(labels) {
      forall i | 0 <= i < |labels| ensures Free(labels[i], '\n') { }
      JoinIsFree(labels, '.', '\n');
    } else {
      var i :| 0 <= i < |labels| && !IsLabel(labels[i]);
      assert LabelMatches(labels[i]);
      assert labels[i][|labels[i]| - 1] == '\n';
      if Free(name, '\n') { PartIsFree(name, '.', '\n', i); }
    }
  }

  lemma {:induction false} JoinIsFree(parts: seq<string>, sep: char, c: char)
    requires |parts| >= 1 && AllFree(parts, c) && sep != c
    ensures Free(Join(parts, sep), c)
  {
    if |parts| > 1 { JoinIsFree(parts[1..], sep, c); }
  }

  lemma {:induction false} PartIsFree(s: string, sep: char, c: char, i: nat)
    requires Free(s, c) && i < |Split(s, sep)|
    ensures Free(Split(s, sep)[i], c)
  {
    if s != "" {
      if s[0] == sep && i > 0 {
        PartIsFree(s[1..], sep, c, i - 1);
      } else if s[0] != sep {
        PartIsFree(s[1..], sep, c, i);
      }
    }
  }

  lemma NewlineIsDnsName()
    ensures IsDnsName("a\n.lan")
  {
    SplitAt("a\n", "lan", '.');
    SplitOne("a\n", '.');
    SplitOne("lan", '.');
    assert "a\n.lan" == "a\n" + "." + "lan";
    assert Split("a\n.lan", '.') == ["a\n", "lan"];
    assert "a\n"[..1] == "a";
  }

  /** One that does: the request for a host whose first label ends in a newline is accepted, under the policy *.lan. */
  lemma NewlineIsAccepted(ips: Ips)
    requires !ips.isAddress("a\n.lan")
    ensures Cleaned("a\n.lan") == "a\n.lan" && !Free("a\n.lan", '\n')
    ensures Accepts(ips, ["a\n.lan"], ["*.lan"])
  {
    var name := "a\n.lan";
    NewlineIsDnsName();
    assert Trim(name) == name;
    assert Lower(name) == name && TrimDots(name) == name;
    assert "*.lan"[1..] == ".lan" && name[2..] == ".lan";
    assert PatternAllows(ips, name, "*.lan");
    assert name[1] == '\n';
    assert "*.lan" in ["*.lan"];
  }
}
