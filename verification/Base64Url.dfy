/** Unpadded base64url (section 5 of RFC 4648) as the server (app/pal.py, app/relay.py), the relay Worker
    (app/relay_worker.py) and the Pal (Protocol.cs) each write and read it: standard base64 with two characters changed and
    the padding left off. */
module Base64Url {
  import opened Wrappers

  type Sextet = n: nat | n < 64

  // ── Standard base64 (section 4 of RFC 4648) ──

  function CharOf(n: Sextet): char {
    if n < 26 then 'A' + n as char
    else if n < 52 then 'a' + (n - 26) as char
    else if n < 62 then '0' + (n - 52) as char
    else if n == 62 then '+' else '/'
  }

  function SextetOf(c: char): Option<Sextet> {
    if 'A' <= c <= 'Z' then Some((c - 'A') as nat)
    else if 'a' <= c <= 'z' then Some((c - 'a') as nat + 26)
    else if '0' <= c <= '9' then Some((c - '0') as nat + 52)
    else if c == '+' then Some(62) else if c == '/' then Some(63) else None
  }

  lemma CharRoundTrip(n: Sextet)
    ensures SextetOf(CharOf(n)) == Some(n) && CharOf(n) != '='
  {
  }

  // Three bytes as four sextets, and back.
  function Sextet0(a: Byte): Sextet { a / 4 }
  function Sextet1(a: Byte, b: Byte): Sextet { a % 4 * 16 + b / 16 }
  function Sextet2(b: Byte, c: Byte): Sextet { b % 16 * 4 + c / 64 }
  function Sextet3(c: Byte): Sextet { c % 64 }
  function Byte0(s: Sextet, t: Sextet): Byte { s * 4 + t / 16 }
  function Byte1(t: Sextet, u: Sextet): Byte { t % 16 * 16 + u / 4 }
  function Byte2(u: Sextet, v: Sextet): Byte { u % 4 * 64 + v }

  function FourChars(a: Byte, b: Byte, c: Byte): string {
    [CharOf(Sextet0(a)), CharOf(Sextet1(a, b)), CharOf(Sextet2(b, c)), CharOf(Sextet3(c))]
  }

  function Encode(b: seq<Byte>): string {
    if |b| == 0 then ""
    else if |b| == 1 then [CharOf(Sextet0(b[0])), CharOf(Sextet1(b[0], 0)), '=', '=']
    else if |b| == 2 then [CharOf(Sextet0(b[0])), CharOf(Sextet1(b[0], b[1])), CharOf(Sextet2(b[1], 0)), '=']
    else FourChars(b[0], b[1], b[2]) + Encode(b[3..])
  }

  predicate IsBase64(s: string) {
    forall i :: 0 <= i < |s| ==> SextetOf(s[i]).Some?
  }

  /** Groups of four; only the last may be padded, and bits the padding leaves over are dropped. */
  function Decode(s: string): Option<seq<Byte>> {
    if s == "" then Some([])
    else if |s| < 4 || SextetOf(s[0]).None? || SextetOf(s[1]).None? then None
    else
      var a, b := SextetOf(s[0]).value, SextetOf(s[1]).value;
      if |s| == 4 && s[2] == '=' && s[3] == '=' then Some([Byte0(a, b)])
      else if SextetOf(s[2]).None? then None
      else
        var c := SextetOf(s[2]).value;
        if |s| == 4 && s[3] == '=' then Some([Byte0(a, b), Byte1(b, c)])
        else if SextetOf(s[3]).None? then None
        else
          var rest := Decode(s[4..]);
          if rest.None? then None else Some([Byte0(a, b), Byte1(b, c), Byte2(c, SextetOf(s[3]).value)] + rest.value)
  }

  /** How Python's binascii reads the same: one character at a time, `pos` characters into a group of which the last is
      `left`, `pads` padding characters having come in a row.  It skips what is no base64 character, and stops at the
      padding that completes a group. */
  function Lenient(s: string, pos: nat, left: Sextet, pads: nat): Option<seq<Byte>> {
    if s == "" then
      if pos == 0 then Some([]) else None
    else if s[0] == '=' then
      if pos >= 2 && pos + pads + 1 >= 4 then Some([]) else Lenient(s[1..], pos, left, if pos >= 2 then pads + 1 else pads)
    else if SextetOf(s[0]).None? then Lenient(s[1..], pos, left, pads)
    else
      var n := SextetOf(s[0]).value;
      if pos == 0 then Lenient(s[1..], 1, n, 0)
      else if pos == 1 then Prepended([Byte0(left, n)], Lenient(s[1..], 2, n, 0))
      else if pos == 2 then Prepended([Byte1(left, n)], Lenient(s[1..], 3, n, 0))
      else Prepended([Byte2(left, n)], Lenient(s[1..], 0, 0, 0))
  }

  function Prepended(b: seq<Byte>, rest: Option<seq<Byte>>): Option<seq<Byte>> {
    if rest.None? then None else Some(b + rest.value)
  }

  // ── In each language ──

  function ToUrlChar(c: char): char {
    if c == '+' then '-' else if c == '/' then '_' else c
  }

  function ToUrl(s: string): string {
    seq(|s|, i requires 0 <= i < |s| => ToUrlChar(s[i]))
  }

  function FromUrlChar(c: char): char {
    if c == '-' then '+' else if c == '_' then '/' else c
  }

  function FromUrl(s: string): string {
    seq(|s|, i requires 0 <= i < |s| => FromUrlChar(s[i]))
  }

  function TrimPadding(s: string): string {
    if s != "" && s[|s| - 1] == '=' then TrimPadding(s[..|s| - 1]) else s
  }

  function B64Url(b: seq<Byte>): string {
    TrimPadding(ToUrl(Encode(b)))
  }

  predicate UrlChar(c: char) {
    'A' <= c <= 'Z' || 'a' <= c <= 'z' || '0' <= c <= '9' || c == '-' || c == '_'
  }

  predicate IsUrlText(s: string) {
    forall i :: 0 <= i < |s| ==> UrlChar(s[i])
  }

  function Equals(n: nat): string {
    seq(n, _ => '=')
  }

  /** Python's remainder takes the sign of the divisor. */
  function PythonPadding(length: nat): nat {
    (0 - length) % 4
  }

  function JsPadding(length: nat): nat {
    |Slice("===", (length + 3) % 4)|
  }

  function Slice(s: string, from: nat): (r: string)
    ensures |r| == if from <= |s| then |s| - from else 0
  {
    if from <= |s| then s[from..] else ""
  }

  function CsPadding(length: nat): nat {
    (4 - length % 4) % 4
  }

  /** The server's pattern takes one character or more; its end-of-line mark also matches before a last newline. */
  predicate PythonMatches(text: string) {
    text != "" && (IsUrlText(text) || EndsInNewline(text))
  }

  predicate EndsInNewline(text: string) {
    |text| > 1 && text[|text| - 1] == '\n' && IsUrlText(text[..|text| - 1])
  }

  function PythonDecode(text: string): Option<seq<Byte>> {
    if !PythonMatches(text) then None else Lenient(FromUrl(text) + Equals(PythonPadding(|text|)), 0, 0, 0)
  }

  /** The Worker's pattern takes the empty text too, and its end-of-line mark only the end. */
  function JsDecode(text: string): Option<seq<Byte>> {
    if !IsUrlText(text) then None else Decode(FromUrl(text) + Equals(JsPadding(|text|)))
  }

  function CsDecode(text: string): Option<seq<Byte>> {
    if !IsUrlText(text) then None else Decode(FromUrl(text) + Equals(CsPadding(|text|)))
  }

  lemma Remainder4(x: int, k: int, r: nat)
    requires x == 4 * k + r && r < 4
    ensures x % 4 == r
  {
  }

  /** What is missing to a multiple of four. */
  function Short4(r: nat): nat
    requires r < 4
  {
    if r == 0 then 0 else 4 - r
  }

  lemma PythonPads(length: nat, q: nat, r: nat)
    requires length == 4 * q + r && r < 4
    ensures PythonPadding(length) == Short4(r)
  {
    if r == 0 { Remainder4(0 - length, 0 - q, 0); } else { Remainder4(0 - length, 0 - q - 1, 4 - r); }
  }

  lemma JsPads(length: nat, q: nat, r: nat)
    requires length == 4 * q + r && r < 4
    ensures JsPadding(length) == Short4(r)
  {
    var from := (length + 3) % 4;
    if r == 0 { JsStart(length, q, 3); } else { JsStart(length, q + 1, r - 1); }
    assert |Slice("===", from)| == 3 - from;
  }

  lemma JsStart(length: nat, k: nat, from: nat)
    requires length + 3 == 4 * k + from && from < 4
    ensures (length + 3) % 4 == from
  {
    Remainder4(length + 3, k, from);
  }

  lemma CsPads(length: nat, q: nat, r: nat)
    requires length == 4 * q + r && r < 4
    ensures CsPadding(length) == Short4(r)
  {
    Remainder4(length, q, r);
    if r == 0 { Remainder4(4 - r, 1, 0); } else { Remainder4(4 - r, 0, 4 - r); }
  }

  /** One padding rule in three spellings: what is missing to a multiple of four. */
  lemma SamePadding(length: nat)
    ensures PythonPadding(length) == JsPadding(length) == CsPadding(length)
    ensures CsPadding(length) == Short4(length % 4)
  {
    PythonPads(length, length / 4, length % 4);
    JsPads(length, length / 4, length % 4);
    CsPads(length, length / 4, length % 4);
  }

  // ── Round trips ──

  lemma Bits(a: Byte, b: Byte, c: Byte)
    ensures Byte0(Sextet0(a), Sextet1(a, b)) == a
    ensures Byte1(Sextet1(a, b), Sextet2(b, c)) == b
    ensures Byte2(Sextet2(b, c), Sextet3(c)) == c
  {
  }

  lemma CharsRoundTrip(a: Byte, b: Byte, c: Byte)
    ensures SextetOf(CharOf(Sextet0(a))) == Some(Sextet0(a)) && SextetOf(CharOf(Sextet1(a, b))) == Some(Sextet1(a, b))
    ensures SextetOf(CharOf(Sextet2(b, c))) == Some(Sextet2(b, c)) && SextetOf(CharOf(Sextet3(c))) == Some(Sextet3(c))
  {
    CharRoundTrip(Sextet0(a));
    CharRoundTrip(Sextet1(a, b));
    CharRoundTrip(Sextet2(b, c));
    CharRoundTrip(Sextet3(c));
  }

  /** A group of four characters, which are three bytes. */
  ghost predicate FourAhead(s: string) {
    |s| >= 4 && IsBase64(s[..4])
  }

  function Three(s: string): seq<Byte>
    requires FourAhead(s)
  {
    var four := s[..4];
    assert forall i :: 0 <= i < 4 ==> s[i] == four[i] && SextetOf(four[i]).Some?;
    var (a, b, c, d) := (SextetOf(s[0]).value, SextetOf(s[1]).value, SextetOf(s[2]).value, SextetOf(s[3]).value);
    [Byte0(a, b), Byte1(b, c), Byte2(c, d)]
  }

  lemma FourDecoded(s: string)
    requires FourAhead(s)
    ensures Decode(s) == Prepended(Three(s), Decode(s[4..]))
  {
    forall i | 0 <= i < 4 ensures SextetOf(s[i]).Some? && s[i] != '=' { assert s[..4][i] == s[i]; }
  }

  lemma ThreeOf(s: string, a: Sextet, b: Sextet, c: Sextet, d: Sextet)
    requires |s| >= 4 && SextetOf(s[0]) == Some(a) && SextetOf(s[1]) == Some(b) && SextetOf(s[2]) == Some(c) && SextetOf(s[3]) == Some(d)
    ensures FourAhead(s) && Three(s) == [Byte0(a, b), Byte1(b, c), Byte2(c, d)]
  {
  }

  lemma FourCharsRead(a: Byte, b: Byte, c: Byte, rest: string)
    ensures FourAhead(FourChars(a, b, c) + rest) && Three(FourChars(a, b, c) + rest) == [a, b, c]
  {
    CharsRoundTrip(a, b, c);
    ThreeOf(FourChars(a, b, c) + rest, Sextet0(a), Sextet1(a, b), Sextet2(b, c), Sextet3(c));
    Bits(a, b, c);
  }

  lemma DecodesFour(a: Byte, b: Byte, c: Byte, rest: string)
    ensures Decode(FourChars(a, b, c) + rest) == Prepended([a, b, c], Decode(rest))
  {
    var s := FourChars(a, b, c) + rest;
    FourCharsRead(a, b, c, rest);
    FourDecoded(s);
    assert s[4..] == rest;
  }

  lemma {:induction false} DecodesEncoded(b: seq<Byte>)
    ensures Decode(Encode(b)) == Some(b)
  {
    if |b| <= 2 {
      DecodesShort(b);
    } else {
      DecodesEncoded(b[3..]);
      DecodesFour(b[0], b[1], b[2], Encode(b[3..]));
      assert [b[0], b[1], b[2]] + b[3..] == b;
    }
  }

  lemma DecodesShort(b: seq<Byte>)
    requires |b| <= 2
    ensures Decode(Encode(b)) == Some(b)
  {
    if |b| == 1 {
      assert b == [b[0]];
      DecodesOne(b[0]);
    } else if |b| == 2 {
      assert b == [b[0], b[1]];
      DecodesTwo(b[0], b[1]);
    }
  }

  lemma DecodesOne(a: Byte)
    ensures Decode(Encode([a])) == Some([a])
  {
    DecodesPadded(a, CharOf(Sextet0(a)), CharOf(Sextet1(a, 0)));
  }

  lemma DecodesPadded(a: Byte, c: char, d: char)
    requires c == CharOf(Sextet0(a)) && d == CharOf(Sextet1(a, 0))
    ensures Decode([c, d, '=', '=']) == Some([a])
  {
    LastByte(a);
    CharRoundTrip(Sextet0(a));
    CharRoundTrip(Sextet1(a, 0));
  }

  lemma LastByte(a: Byte)
    ensures Byte0(Sextet0(a), Sextet1(a, 0)) == a
  {
    Bits(a, 0, 1);
  }

  lemma DecodesTwo(a: Byte, b: Byte)
    ensures Decode(Encode([a, b])) == Some([a, b])
  {
    Bits(a, b, 0);
    CharsRoundTrip(a, b, 0);
    var s := Encode([a, b]);
    assert s == [CharOf(Sextet0(a)), CharOf(Sextet1(a, b)), CharOf(Sextet2(b, 0)), '='];
  }

  /** The base64 characters of the encoding, without its padding. */
  function Core(b: seq<Byte>): string {
    if |b| == 0 then ""
    else if |b| == 1 then [CharOf(Sextet0(b[0])), CharOf(Sextet1(b[0], 0))]
    else if |b| == 2 then [CharOf(Sextet0(b[0])), CharOf(Sextet1(b[0], b[1])), CharOf(Sextet2(b[1], 0))]
    else FourChars(b[0], b[1], b[2]) + Core(b[3..])
  }

  lemma {:induction false} CoreIsBase64(b: seq<Byte>)
    ensures IsBase64(Core(b))
  {
    if b != [] {
      var two, three := if |b| > 1 then b[1] else 0, if |b| > 2 then b[2] else 0;
      CharsRoundTrip(b[0], two, three);
      if |b| > 2 { CoreIsBase64(b[3..]); }
    }
  }

  /** How many '=' complete the last group. */
  function Missing(n: nat): nat {
    if n % 3 == 0 then 0 else 3 - n % 3
  }

  lemma NextGroup(n: nat, m: nat)
    requires n >= 3
    ensures Missing(n - 3) == Missing(n) && CsPadding(4 + m) == CsPadding(m)
  {
    assert (n - 3) % 3 == n % 3;
    CsPads(m, m / 4, m % 4);
    CsPads(4 + m, m / 4 + 1, m % 4);
  }

  lemma {:induction false} CoreLength(b: seq<Byte>)
    ensures CsPadding(|Core(b)|) == Missing(|b|)
    ensures Core(b) == "" <==> b == []
  {
    if |b| > 2 {
      CoreLength(b[3..]);
      NextGroup(|b|, |Core(b[3..])|);
    }
  }

  /** Encoded text is base64 characters and then at most two '='. */
  lemma {:induction false} EncodedShape(b: seq<Byte>)
    ensures Encode(b) == Core(b) + Equals(Missing(|b|))
  {
    if |b| > 2 {
      EncodedShape(b[3..]);
      NextGroup(|b|, 0);
      var four := Core(b)[..4];
      assert Encode(b) == four + Encode(b[3..]) && Core(b) == four + Core(b[3..]);
      assert four + (Core(b[3..]) + Equals(Missing(|b|))) == four + Core(b[3..]) + Equals(Missing(|b|));
    }
  }

  lemma {:induction false} TrimsPadding(core: string, pad: nat)
    requires core == "" || core[|core| - 1] != '='
    ensures TrimPadding(core + Equals(pad)) == core
  {
    var s := core + Equals(pad);
    if pad == 0 {
      assert s == core;
    } else {
      assert s[..|s| - 1] == core + Equals(pad - 1);
      TrimsPadding(core, pad - 1);
    }
  }

  lemma UrlIsText(core: string)
    requires IsBase64(core)
    ensures IsUrlText(ToUrl(core)) && FromUrl(ToUrl(core)) == core
    ensures core == "" || ToUrl(core)[|core| - 1] != '='
  {
    forall i | 0 <= i < |core| ensures UrlChar(ToUrl(core)[i]) && FromUrlChar(ToUrl(core)[i]) == core[i] {
      assert SextetOf(core[i]).Some?;
    }
  }

  /** The unpadded text is the characters alone, and turns back into them. */
  lemma UrlText(b: seq<Byte>)
    ensures IsUrlText(B64Url(b)) && FromUrl(B64Url(b)) == Core(b)
    ensures Encode(b) == Core(b) + Equals(CsPadding(|Core(b)|)) && (B64Url(b) == "" <==> b == [])
  {
    var core, pad := Core(b), Missing(|b|);
    EncodedShape(b);
    CoreLength(b);
    CoreIsBase64(b);
    UrlIsText(core);
    assert ToUrl(core + Equals(pad)) == ToUrl(core) + Equals(pad);
    TrimsPadding(ToUrl(core), pad);
  }

  /** Every byte string comes back in every language, except that the server takes no empty text. */
  lemma RoundTrip(b: seq<Byte>)
    ensures IsUrlText(B64Url(b)) && CsDecode(B64Url(b)) == Some(b) && JsDecode(B64Url(b)) == Some(b)
    ensures PythonDecode(B64Url(b)) == Some(b) <==> b != []
  {
    UrlText(b);
    CoreIsBase64(b);
    SamePadding(|Core(b)|);
    DecodesEncoded(b);
    LenientIsDecode(Core(b));
  }

  // ── What is read ──

  lemma DecodesGroup(core: string, pad: string)
    requires IsBase64(core) && |core| >= 4
    ensures Decode(core + pad).Some? <==> Decode(core[4..] + pad).Some?
  {
    var s := core + pad;
    assert s[4..] == core[4..] + pad;
    assert s[0] == core[0] && s[1] == core[1] && s[2] == core[2] && s[3] == core[3];
    assert SextetOf(core[0]).Some? && SextetOf(core[1]).Some? && SextetOf(core[2]).Some? && SextetOf(core[3]).Some?;
  }

  lemma PaddingSpelled(length: nat)
    requires length < 4
    ensures Equals(CsPadding(length)) == if length == 0 then "" else if length == 1 then "===" else if length == 2 then "==" else "="
  {
    CsPads(length, 0, length);
    assert Equals(0) == "" && Equals(1) == "=" && Equals(2) == "==" && Equals(3) == "===";
  }

  lemma DecodesLast(core: string, pad: string)
    requires IsBase64(core) && |core| < 4
    requires pad == if |core| == 0 then "" else if |core| == 1 then "===" else if |core| == 2 then "==" else "="
    ensures Decode(core + pad).Some? <==> |core| != 1
  {
    if |core| == 1 {
      PadsThree(core[0]);
      assert core + pad == [core[0], '=', '=', '='];
    } else if |core| == 2 {
      PadsTwo(core[0], core[1]);
      assert core + pad == [core[0], core[1], '=', '='];
    } else if |core| == 3 {
      PadsOne(core[0], core[1], core[2]);
      assert core + pad == [core[0], core[1], core[2], '='];
    } else {
      assert core + pad == "";
    }
  }

  lemma PadsThree(c: char)
    ensures Decode([c, '=', '=', '=']).None?
  {
  }

  lemma PadsTwo(c: char, d: char)
    requires SextetOf(c).Some? && SextetOf(d).Some?
    ensures Decode([c, d, '=', '=']) == Some([Byte0(SextetOf(c).value, SextetOf(d).value)])
  {
  }

  lemma PadsOne(c: char, d: char, e: char)
    requires SextetOf(c).Some? && SextetOf(d).Some? && SextetOf(e).Some?
    ensures var (a, b, n) := (SextetOf(c).value, SextetOf(d).value, SextetOf(e).value);
            Decode([c, d, e, '=']) == Some([Byte0(a, b), Byte1(b, n)])
  {
  }

  lemma {:induction false} DecodesIff(core: string)
    requires IsBase64(core)
    ensures Decode(core + Equals(CsPadding(|core|))).Some? <==> |core| % 4 != 1
  {
    if |core| >= 4 {
      DecodesIff(core[4..]);
      NextGroup(3, |core[4..]|);
      DecodesGroup(core, Equals(CsPadding(|core|)));
    } else {
      PaddingSpelled(|core|);
      DecodesLast(core, Equals(CsPadding(|core|)));
    }
  }

  // ── The lenient reader ──

  lemma LenientFirst(s: string)
    requires s != "" && SextetOf(s[0]).Some?
    ensures Lenient(s, 0, 0, 0) == Lenient(s[1..], 1, SextetOf(s[0]).value, 0)
  {
  }

  /** The byte that the second, third or fourth character of a group completes. */
  function Completed(pos: nat, left: Sextet, n: Sextet): Byte {
    if pos == 1 then Byte0(left, n) else if pos == 2 then Byte1(left, n) else Byte2(left, n)
  }

  lemma LenientNext(s: string, pos: nat, left: Sextet)
    requires s != "" && SextetOf(s[0]).Some? && 1 <= pos < 4
    ensures var n := SextetOf(s[0]).value;
            Lenient(s, pos, left, 0) ==
            Prepended([Completed(pos, left, n)], if pos < 3 then Lenient(s[1..], pos + 1, n, 0) else Lenient(s[1..], 0, 0, 0))
  {
  }

  lemma FourLenient(s: string)
    requires FourAhead(s)
    ensures Lenient(s, 0, 0, 0) == Prepended(Three(s), Lenient(s[4..], 0, 0, 0))
  {
    forall i | 0 <= i < 4 ensures SextetOf(s[i]).Some? { assert s[..4][i] == s[i]; }
    var (a, b, c) := (SextetOf(s[0]).value, SextetOf(s[1]).value, SextetOf(s[2]).value);
    assert s[1..][1..] == s[2..] && s[2..][1..] == s[3..] && s[3..][1..] == s[4..];
    LenientFirst(s);
    LenientNext(s[1..], 1, a);
    LenientNext(s[2..], 2, b);
    LenientNext(s[3..], 3, c);
    ThreeInTurn(s, Lenient(s[4..], 0, 0, 0));
  }

  lemma ThreeInTurn(s: string, rest: Option<seq<Byte>>)
    requires FourAhead(s)
    ensures var t := Three(s); Prepended([t[0]], Prepended([t[1]], Prepended([t[2]], rest))) == Prepended(t, rest)
  {
    var t := Three(s);
    if rest.Some? {
      assert [t[0]] + ([t[1]] + ([t[2]] + rest.value)) == t + rest.value;
    }
  }

  lemma LenientLast(core: string, pad: string)
    requires IsBase64(core) && |core| < 4 && pad == Equals(CsPadding(|core|))
    ensures Lenient(core + pad, 0, 0, 0) == Decode(core + pad)
  {
    PaddingSpelled(|core|);
    if |core| == 1 {
      OneLeft(core[0]);
      assert core + pad == [core[0]] + "===";
    } else if |core| == 2 {
      TwoLeft(core[0], core[1]);
      assert core + pad == [core[0], core[1]] + "==";
    } else if |core| == 3 {
      ThreeLeft(core[0], core[1], core[2]);
      assert core + pad == [core[0], core[1], core[2]] + "=";
    } else {
      assert core + pad == "";
    }
  }

  lemma {:induction false} Skipped(n: nat, pos: nat, left: Sextet)
    requires pos == 0 || pos == 1
    ensures Lenient(Equals(n), pos, left, 0) == if pos == 0 then Some([]) else None
  {
    if n > 0 {
      assert Equals(n)[1..] == Equals(n - 1);
      Skipped(n - 1, pos, left);
    }
  }

  lemma OneLeft(c: char)
    requires SextetOf(c).Some?
    ensures Lenient([c] + "===", 0, 0, 0).None? && Decode([c] + "===").None?
  {
    var s := [c] + "===";
    assert s[1..] == "===" == Equals(3);
    LenientFirst(s);
    Skipped(3, 1, SextetOf(c).value);
    assert s[1] == '=' && SextetOf('=').None?;
  }

  lemma PaddingCompletes(left: Sextet)
    ensures Lenient("==", 2, left, 0) == Some([]) && Lenient("=", 3, left, 0) == Some([])
  {
    assert "=="[1..] == "=";
    assert Lenient("=", 2, left, 1) == Some([]);
  }

  lemma TwoLeft(c: char, d: char)
    requires SextetOf(c).Some? && SextetOf(d).Some?
    ensures Lenient([c, d] + "==", 0, 0, 0) == Decode([c, d] + "==")
  {
    var s, a, b := [c, d] + "==", SextetOf(c).value, SextetOf(d).value;
    LenientFirst(s);
    assert s[1..] == [d] + "==" && s[1..][1..] == "==";
    LenientNext(s[1..], 1, a);
    PaddingCompletes(b);
    assert [Byte0(a, b)] + [] == [Byte0(a, b)];
    PadsTwo(c, d);
    assert s == [c, d, '=', '='];
  }

  lemma ThreeLeft(c: char, d: char, e: char)
    requires SextetOf(c).Some? && SextetOf(d).Some? && SextetOf(e).Some?
    ensures Lenient([c, d, e] + "=", 0, 0, 0) == Decode([c, d, e] + "=")
  {
    var s, a, b := [c, d, e] + "=", SextetOf(c).value, SextetOf(d).value;
    LenientFirst(s);
    assert s[1..] == [d, e] + "=" && s[1..][1..] == [e] + "=";
    LenientNext(s[1..], 1, a);
    LastOfThree(e, b);
    assert [Byte0(a, b)] + [Byte1(b, SextetOf(e).value)] == [Byte0(a, b), Byte1(b, SextetOf(e).value)];
    PadsOne(c, d, e);
    assert s == [c, d, e, '='];
  }

  lemma LastOfThree(e: char, left: Sextet)
    requires SextetOf(e).Some?
    ensures Lenient([e] + "=", 2, left, 0) == Some([Byte1(left, SextetOf(e).value)])
  {
    LenientNext([e] + "=", 2, left);
    PaddingCompletes(SextetOf(e).value);
    assert ([e] + "=")[1..] == "=";
    assert [Byte1(left, SextetOf(e).value)] + [] == [Byte1(left, SextetOf(e).value)];
  }

  /** On base64 characters, padded, it reads what reading by groups of four reads. */
  lemma {:induction false} LenientIsDecode(core: string)
    requires IsBase64(core)
    ensures var s := core + Equals(CsPadding(|core|)); Lenient(s, 0, 0, 0) == Decode(s)
  {
    var pad := Equals(CsPadding(|core|));
    if |core| >= 4 {
      LenientIsDecode(core[4..]);
      NextGroup(3, |core[4..]|);
      assert (core + pad)[4..] == core[4..] + pad && (core + pad)[..4] == core[..4];
      FourDecoded(core + pad);
      FourLenient(core + pad);
    } else {
      LenientLast(core, pad);
    }
  }

  lemma NewlineSkipped(pad: string, pos: nat, left: Sextet)
    ensures Lenient("\n" + pad, pos, left, 0) == Lenient(pad, pos, left, 0)
  {
    assert ("\n" + pad)[1..] == pad;
  }

  /** With a group begun, nothing that is left completes it. */
  lemma NewlineAfter(core: string, tail: string, pos: nat, left: Sextet)
    requires IsBase64(core) && 1 <= pos && pos + |core| < 4 && tail == "\n" + Equals(3 - pos - |core|)
    ensures Lenient(core + tail, pos, left, 0) == None
    decreases |core|
  {
    var s := core + tail;
    if core == "" {
      assert s == tail;
      NewlineSkipped(Equals(3 - pos), pos, left);
      if pos == 2 {
        assert Equals(1)[1..] == "";
      } else if pos == 1 {
        Skipped(2, 1, left);
      }
    } else {
      LenientNext(s, pos, left);
      assert s[1..] == core[1..] + tail;
      NewlineAfter(core[1..], tail, pos + 1, SextetOf(core[0]).value);
    }
  }

  lemma PadAfter(n: nat)
    requires n < 4
    ensures CsPadding(n + 1) == 3 - n
  {
    CsPads(n + 1, (n + 1) / 4, (n + 1) % 4);
  }

  lemma NewlineLast(core: string)
    requires IsBase64(core) && |core| < 4
    ensures Lenient(core + ("\n" + Equals(3 - |core|)), 0, 0, 0) == if |core| == 0 then Some([]) else None
  {
    if |core| == 0 {
      assert core + ("\n" + Equals(3)) == "\n" + Equals(3);
      NewlineSkipped(Equals(3), 0, 0);
      Skipped(3, 0, 0);
    } else {
      NewlineInGroup(core);
    }
  }

  lemma NewlineInGroup(core: string)
    requires IsBase64(core) && 0 < |core| < 4
    ensures Lenient(core + ("\n" + Equals(3 - |core|)), 0, 0, 0) == None
  {
    var tail := "\n" + Equals(3 - |core|);
    assert (core + tail)[1..] == core[1..] + tail && (core + tail)[0] == core[0];
    LenientFirst(core + tail);
    NewlineAfter(core[1..], tail, 1, SextetOf(core[0]).value);
  }

  lemma GroupAndTail(core: string, tail: string)
    requires IsBase64(core) && |core| >= 4
    ensures FourAhead(core)
    ensures Lenient(core + tail, 0, 0, 0) == Prepended(Three(core), Lenient(core[4..] + tail, 0, 0, 0))
    ensures Decode(core) == Prepended(Three(core), Decode(core[4..]))
  {
    var s := core + tail;
    assert s[4..] == core[4..] + tail && s[..4] == core[..4];
    FourLenient(s);
    FourDecoded(core);
    assert s[0] == core[0] && s[1] == core[1] && s[2] == core[2] && s[3] == core[3];
  }

  /** A newline before the padding is skipped, and makes the padding one too short for any group begun. */
  lemma {:induction false} LenientNewline(core: string, tail: string)
    requires IsBase64(core) && tail == "\n" + Equals(CsPadding(|core| + 1))
    ensures Lenient(core + tail, 0, 0, 0) == if |core| % 4 == 0 then Decode(core) else None
  {
    if |core| >= 4 {
      NextGroup(3, |core[4..]| + 1);
      LenientNewline(core[4..], tail);
      GroupAndTail(core, tail);
      Remainder4(|core|, |core[4..]| / 4 + 1, |core[4..]| % 4);
    } else {
      PadAfter(|core|);
      NewlineLast(core);
    }
  }

  lemma PythonTakesNewlineIff(core: string)
    requires IsUrlText(core) && core != ""
    ensures PythonDecode(core + "\n") == if |core| % 4 == 0 then CsDecode(core) else None
  {
    var text := core + "\n";
    assert text[..|text| - 1] == core;
    SamePadding(|text|);
    UrlTextIsBase64(core);
    var tail := Equals(CsPadding(|core| + 1));
    LenientNewline(FromUrl(core), "\n" + tail);
    assert FromUrl(text) + tail == FromUrl(core) + ("\n" + tail);
    if |core| % 4 == 0 {
      CsPads(|core|, |core| / 4, 0);
      assert FromUrl(core) + Equals(0) == FromUrl(core);
    }
  }

  lemma UrlTextIsBase64(text: string)
    requires IsUrlText(text)
    ensures IsBase64(FromUrl(text))
  {
    forall i | 0 <= i < |text| ensures SextetOf(FromUrl(text)[i]).Some? { assert UrlChar(text[i]); }
  }

  // ── What is accepted ──

  /** Of all texts, the Pal and the Worker read the same, those of the alphabet with a possible length.  The server reads
      the same bytes, and refuses what they refuse, but for two families: it takes no empty text, and it takes a whole
      number of groups, one at least, with a newline at the end. */
  lemma LanguagesAgree(text: string)
    ensures CsDecode(text).Some? <==> IsUrlText(text) && |text| % 4 != 1
    ensures JsDecode(text) == CsDecode(text)
    ensures PythonDecode(text) == CsDecode(text) <==> text != "" && !(EndsInNewline(text) && (|text| - 1) % 4 == 0)
    ensures PythonDecode("").None? && CsDecode("") == Some([])
    ensures EndsInNewline(text) && (|text| - 1) % 4 == 0 ==>
              PythonDecode(text).Some? && PythonDecode(text) == CsDecode(text[..|text| - 1])
  {
    SamePadding(|text|);
    if IsUrlText(text) {
      UrlTextIsBase64(text);
      DecodesIff(FromUrl(text));
      LenientIsDecode(FromUrl(text));
    } else if EndsInNewline(text) {
      var core := text[..|text| - 1];
      assert text == core + "\n";
      PythonTakesNewlineIff(core);
      UrlTextIsBase64(core);
      DecodesIff(FromUrl(core));
    }
    assert FromUrl("") + Equals(CsPadding(0)) == "" by { CsPads(0, 0, 0); }
  }

  // ── The relay's reader ──

  const MAX_TEXT := 2 * 300 * 1024

  predicate IsAscii(s: string) {
    forall i :: 0 <= i < |s| ==> s[i] as int < 128
  }

  /** The server's other reader (app/relay.py) checks the length and no pattern. */
  function RelayDecode(text: string): Option<seq<Byte>> {
    if |text| > MAX_TEXT || !IsAscii(text) then None else Lenient(FromUrl(text) + Equals(PythonPadding(|text|)), 0, 0, 0)
  }

  /** It reads nothing longer than two envelopes, and nothing outside ASCII. */
  lemma RelayReadsShortAscii(text: string)
    requires RelayDecode(text).Some?
    ensures |text| <= 614400 && forall c <- text :: c < '\U{80}'
  {
    forall c <- text ensures c < '\U{80}' {
      var i :| 0 <= i < |text| && text[i] == c;
    }
  }

  /** What a PC or the Worker can have read or written, the relay's reader reads as they do. */
  lemma RelayAgrees(text: string)
    requires IsUrlText(text) && |text| <= MAX_TEXT
    ensures RelayDecode(text) == CsDecode(text) == JsDecode(text)
  {
    SamePadding(|text|);
    UrlTextIsBase64(text);
    LenientIsDecode(FromUrl(text));
    forall i | 0 <= i < |text| ensures text[i] as int < 128 { assert UrlChar(text[i]); }
  }
}
