/** Splitting text at a separator and joining it again, trimming, the case of ASCII letters, and whole numbers in decimal:
    what the wire strings, the name rules and the serial numbers are made of. */
module Strings {

  // ── Characters ──

  predicate IsSpace(c: char) {
    var n := c as int;
    || 9 <= n <= 13 || 28 <= n <= 32 || n == 0x85 || n == 0xA0 || n == 0x1680 || 0x2000 <= n <= 0x200A
    || n == 0x2028 || n == 0x2029 || n == 0x202F || n == 0x205F || n == 0x3000
  }

  function UpperChar(c: char): char {
    if 'a' <= c <= 'z' then 'A' + (c - 'a') else c
  }

  /** With the Kelvin sign, the one letter outside ASCII that an ASCII one is the lower case of. */
  function LowerChar(c: char): char {
    if 'A' <= c <= 'Z' then 'a' + (c - 'A') else if c == '\U{212A}' then 'k' else c
  }

  /** White space, by code: what Python's str.isspace says of each character. */
  lemma SpacesAre(c: char)
    ensures IsSpace(c) <==>
              (c as int) in {9, 10, 11, 12, 13, 28, 29, 30, 31, 32, 133, 160, 5760, 8192, 8193, 8194, 8195, 8196, 8197, 8198, 8199,
                             8200, 8201, 8202, 8232, 8233, 8239, 8287, 12288}
  {
  }

  /** The case of an ASCII letter is a distance of 32 codes. */
  lemma CasesAre(c: char)
    ensures UpperChar(c) as int == c as int - (if 96 < c as int < 123 then 32 else 0)
    ensures LowerChar(c) as int == if 64 < c as int < 91 then c as int + 32 else if c as int == 8490 then 107 else c as int
  {
  }

  function Upper(s: string): string {
    seq(|s|, i requires 0 <= i < |s| => UpperChar(s[i]))
  }

  function Lower(s: string): string {
    seq(|s|, i requires 0 <= i < |s| => LowerChar(s[i]))
  }

  function TrimLeft(s: string): string {
    if s != "" && IsSpace(s[0]) then TrimLeft(s[1..]) else s
  }

  function TrimRight(s: string): string {
    if s != "" && IsSpace(s[|s| - 1]) then TrimRight(s[..|s| - 1]) else s
  }

  function Trim(s: string): string {
    TrimRight(TrimLeft(s))
  }

  /** Trimming takes white space off one end, all of it and nothing else. */
  lemma {:induction false} TrimLeftIff(s: string, t: string)
    ensures t == TrimLeft(s) <==>
              && |t| <= |s| && t == s[|s| - |t|..] && (t == "" || !IsSpace(t[0]))
              && forall i :: 0 <= i < |s| - |t| ==> IsSpace(s[i])
  {
    if s != "" && IsSpace(s[0]) {
      TrimLeftIff(s[1..], t);
      assert |t| < |s| ==> s[|s| - |t|..] == s[1..][|s[1..]| - |t|..];
      assert |t| < |s| ==> forall i :: 0 < i < |s| - |t| ==> s[i] == s[1..][i - 1];
    }
  }

  lemma {:induction false} TrimRightIff(s: string, t: string)
    ensures t == TrimRight(s) <==>
              t <= s && (t == "" || !IsSpace(t[|t| - 1])) && forall i :: |t| <= i < |s| ==> IsSpace(s[i])
  {
    if s != "" && IsSpace(s[|s| - 1]) {
      TrimRightIff(s[..|s| - 1], t);
    } else if t <= s {
      assert s[..|t|] == t;
      assert |t| < |s| ==> !IsSpace(s[|s| - 1]);
    }
  }

  // ── Splitting and joining ──

  predicate Free(s: string, sep: char) {
    forall i :: 0 <= i < |s| ==> s[i] != sep
  }

  predicate AllFree(parts: seq<string>, sep: char) {
    forall i :: 0 <= i < |parts| ==> Free(parts[i], sep)
  }

  function Split(s: string, sep: char): (parts: seq<string>)
    ensures |parts| >= 1
  {
    if s == "" then [""]
    else
      var rest := Split(s[1..], sep);
      if s[0] == sep then [""] + rest else [[s[0]] + rest[0]] + rest[1..]
  }

  function Join(parts: seq<string>, sep: char): string
    requires |parts| >= 1
  {
    if |parts| == 1 then parts[0] else parts[0] + [sep] + Join(parts[1..], sep)
  }

  lemma JoinMore(parts: seq<string>, c: char, sep: char)
    requires |parts| >= 1
    ensures Join([[c] + parts[0]] + parts[1..], sep) == [c] + Join(parts, sep)
  {
    var more := [[c] + parts[0]] + parts[1..];
    assert more[1..] == parts[1..];
    if |parts| > 1 {
      assert [c] + parts[0] + [sep] + Join(parts[1..], sep) == [c] + (parts[0] + [sep] + Join(parts[1..], sep));
    }
  }

  lemma JoinEmptyFirst(parts: seq<string>, sep: char)
    requires |parts| >= 1
    ensures Join([""] + parts, sep) == [sep] + Join(parts, sep)
  {
    assert ([""] + parts)[1..] == parts;
  }

  lemma {:induction false} SplitThenJoin(s: string, sep: char)
    ensures Join(Split(s, sep), sep) == s
  {
    if s != "" {
      SplitThenJoin(s[1..], sep);
      SplitStep(s[0], s[1..], sep);
      assert s == [s[0]] + s[1..];
      if s[0] == sep { JoinEmptyFirst(Split(s[1..], sep), sep); } else { JoinMore(Split(s[1..], sep), s[0], sep); }
    }
  }

  lemma SplitStep(c: char, s: string, sep: char)
    ensures Split([c] + s, sep) == if c == sep then [""] + Split(s, sep) else [[c] + Split(s, sep)[0]] + Split(s, sep)[1..]
  {
    assert ([c] + s)[1..] == s;
  }

  lemma {:induction false} SplitAt(a: string, b: string, sep: char)
    ensures Split(a + [sep] + b, sep) == Split(a, sep) + Split(b, sep)
  {
    if a == "" {
      SplitStep(sep, b, sep);
      assert a + [sep] + b == [sep] + b;
    } else {
      SplitAt(a[1..], b, sep);
      assert a + [sep] + b == [a[0]] + (a[1..] + [sep] + b) && a == [a[0]] + a[1..];
      SplitMore(a[0], a[1..], a[1..] + [sep] + b, Split(b, sep), sep);
    }
  }

  lemma SplitMore(c: char, a: string, whole: string, tail: seq<string>, sep: char)
    requires Split(whole, sep) == Split(a, sep) + tail
    ensures Split([c] + whole, sep) == Split([c] + a, sep) + tail
  {
    SplitStep(c, whole, sep);
    SplitStep(c, a, sep);
    Regroup(Split(a, sep), tail, c);
  }

  lemma Regroup(parts: seq<string>, tail: seq<string>, c: char)
    requires |parts| >= 1
    ensures [""] + (parts + tail) == [""] + parts + tail
    ensures [[c] + (parts + tail)[0]] + (parts + tail)[1..] == [[c] + parts[0]] + parts[1..] + tail
  {
    assert (parts + tail)[1..] == parts[1..] + tail;
  }

  lemma {:induction false} SplitOne(s: string, sep: char)
    requires Free(s, sep)
    ensures Split(s, sep) == [s]
  {
    if s != "" {
      assert forall i :: 0 <= i < |s| - 1 ==> s[1..][i] == s[i + 1];
      SplitOne(s[1..], sep);
      assert s == [s[0]] + s[1..];
    }
  }

  lemma {:induction false} JoinThenSplit(parts: seq<string>, sep: char)
    requires |parts| >= 1 && AllFree(parts, sep)
    ensures Split(Join(parts, sep), sep) == parts
  {
    SplitOne(parts[0], sep);
    if |parts| > 1 {
      JoinThenSplit(parts[1..], sep);
      SplitAt(parts[0], Join(parts[1..], sep), sep);
      assert parts == [parts[0]] + parts[1..];
    }
  }

  /** Joined text gives its parts back, when none of them holds the separator. */
  lemma JoinIsInjective(parts: seq<string>, parts': seq<string>, sep: char)
    requires |parts| >= 1 && |parts'| >= 1 && AllFree(parts, sep) && AllFree(parts', sep)
    requires Join(parts, sep) == Join(parts', sep)
    ensures parts == parts'
  {
    JoinThenSplit(parts, sep);
    JoinThenSplit(parts', sep);
  }

  /** The text up to the first separator tells joined strings apart whatever else they hold. */
  lemma FirstPart(head: string, rest: string, head': string, rest': string, sep: char)
    requires Free(head, sep) && Free(head', sep) && head + [sep] + rest == head' + [sep] + rest'
    ensures head == head'
  {
    SplitOne(head, sep);
    SplitOne(head', sep);
    SplitAt(head, rest, sep);
    SplitAt(head', rest', sep);
    assert Split(head + [sep] + rest, sep)[0] == head && Split(head' + [sep] + rest', sep)[0] == head';
  }

  // ── Whole numbers in decimal ──

  function Digit(d: nat): char
    requires d < 10
  {
    '0' + d as char
  }

  function Digits(n: nat): (s: string)
    ensures s != "" && forall i :: 0 <= i < |s| ==> '0' <= s[i] <= '9'
  {
    if n < 10 then [Digit(n)] else Digits(n / 10) + [Digit(n % 10)]
  }

  function Decimal(n: int): (s: string)
    ensures s != "" && Free(s, '\n')
  {
    if n < 0 then "-" + Digits(-n) else Digits(n)
  }

  function Value(s: string): int
    requires forall i :: 0 <= i < |s| ==> '0' <= s[i] <= '9'
  {
    if s == "" then 0 else 10 * Value(s[..|s| - 1]) + (s[|s| - 1] - '0') as nat
  }

  lemma {:induction false} DigitsHaveValue(n: nat)
    ensures Value(Digits(n)) == n
  {
    if n >= 10 {
      DigitsHaveValue(n / 10);
      assert Digits(n)[..|Digits(n)| - 1] == Digits(n / 10);
    } else {
      assert Digits(n)[..0] == "";
    }
  }

  predicate IsNumber(s: string) {
    s != "" && forall i :: 0 <= i < |s| ==> '0' <= s[i] <= '9' || (i == 0 && s[0] == '-')
  }

  function Parsed(s: string): int
    requires IsNumber(s)
  {
    if s[0] == '-' then -Value(s[1..]) else Value(s)
  }

  lemma DecimalReadsBack(n: int)
    ensures IsNumber(Decimal(n)) && Parsed(Decimal(n)) == n
  {
    if n < 0 {
      DigitsHaveValue(-n);
      assert Decimal(n)[1..] == Digits(-n);
    } else {
      DigitsHaveValue(n);
      assert Decimal(n)[0] != '-';
    }
  }

  lemma DecimalIsInjective(n: int, m: int)
    requires Decimal(n) == Decimal(m)
    ensures n == m
  {
    DecimalReadsBack(n);
    DecimalReadsBack(m);
  }
}
