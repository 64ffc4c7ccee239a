/** Certificate serial numbers (app/pal.py, app/crypto_engine.py, CrlList.cs): stored as Python's hex(n), shown with
    colons, and read out of a CRL from its DER INTEGER bytes; all come back to the stored form. */
module Serials {
  import opened Wrappers
  import opened Strings

  type Nibble = n: nat | n < 16

  const MAX_DIGITS := 64

  // ── Hexadecimal ──

  function LowerDigit(d: Nibble): char {
    if d < 10 then '0' + d as char else 'a' + (d - 10) as char
  }

  function UpperDigit(d: Nibble): char {
    if d < 10 then '0' + d as char else 'A' + (d - 10) as char
  }

  predicate IsHexDigit(c: char) {
    '0' <= c <= '9' || 'a' <= c <= 'f'
  }

  function DigitValue(c: char): Nibble
    requires IsHexDigit(c)
  {
    if c <= '9' then (c - '0') as nat else (c - 'a') as nat + 10
  }

  predicate IsHex(s: string) {
    forall i :: 0 <= i < |s| ==> IsHexDigit(s[i])
  }

  /** int(s, 16) */
  function HexValue(s: string): nat
    requires IsHex(s)
  {
    if s == "" then 0 else 16 * HexValue(s[..|s| - 1]) + DigitValue(s[|s| - 1])
  }

  /** hex(n) without its '0x' */
  function Hex(n: nat): (s: string)
    ensures s != "" && IsHex(s)
  {
    if n < 16 then [LowerDigit(n)] else Hex(n / 16) + [LowerDigit(n % 16)]
  }

  lemma {:induction false} HexReadsBack(n: nat)
    ensures HexValue(Hex(n)) == n
  {
    if n >= 16 {
      HexReadsBack(n / 16);
      assert Hex(n)[..|Hex(n)| - 1] == Hex(n / 16);
    } else {
      assert Hex(n)[..0] == "";
    }
  }

  /** No leading zero: only zero itself is written with one. */
  predicate Minimal(s: string) {
    s != "" && (s[0] != '0' || |s| == 1)
  }

  /** Each number has one minimal spelling, the one hex() writes. */
  lemma {:induction false} MinimalIsHex(s: string)
    requires IsHex(s) && Minimal(s)
    ensures Hex(HexValue(s)) == s
  {
    var last := DigitValue(s[|s| - 1]);
    assert LowerDigit(last) == s[|s| - 1];
    if |s| == 1 {
      assert HexValue(s[..0]) == 0;
    } else {
      var rest := s[..|s| - 1];
      assert s == rest + [s[|s| - 1]];
      MinimalIsHex(rest);
      NonZero(rest);
      assert (16 * HexValue(rest) + last) / 16 == HexValue(rest) && (16 * HexValue(rest) + last) % 16 == last;
    }
  }

  lemma {:induction false} NonZero(s: string)
    requires IsHex(s) && s != "" && s[0] != '0'
    ensures HexValue(s) > 0
  {
    if |s| == 1 {
      assert HexValue(s[..0]) == 0;
    } else {
      NonZero(s[..|s| - 1]);
    }
  }

  lemma {:induction false} LeadingZero(s: string)
    requires IsHex(s)
    ensures IsHex("0" + s) && HexValue("0" + s) == HexValue(s)
  {
    var t := "0" + s;
    if s == "" {
      assert t[..0] == "";
    } else {
      LeadingZero(s[..|s| - 1]);
      assert t[..|t| - 1] == "0" + s[..|s| - 1];
    }
  }

  function Pow16(k: nat): nat {
    if k == 0 then 1 else 16 * Pow16(k - 1)
  }

  /** A number has at most k digits exactly when it is below 16 to the k. */
  lemma {:induction false} DigitsFit(n: nat, k: nat)
    requires k > 0
    ensures |Hex(n)| <= k <==> n < Pow16(k)
  {
    if k == 1 {
      assert Pow16(1) == 16 * Pow16(0);
    } else if n >= 16 {
      DigitsFit(n / 16, k - 1);
      assert n / 16 < Pow16(k - 1) <==> n < 16 * Pow16(k - 1);
    } else {
      Grows(k - 1);
    }
  }

  lemma {:induction false} Grows(k: nat)
    ensures Pow16(k) > 0
  {
    if k > 0 { Grows(k - 1); }
  }

  // ── As the server stores and reads them ──

  function Stored(n: nat): string {
    "0x" + Hex(n)
  }

  function Without(s: string, c: char): string {
    if s == "" then "" else (if s[0] == c then "" else [s[0]]) + Without(s[1..], c)
  }

  /** The hex pattern's end-of-text mark also matches just before a last newline, which int() then ignores. */
  function HexPart(s: string): string {
    if s != "" && s[|s| - 1] == '\n' then s[..|s| - 1] else s
  }

  function Text(raw: string): string {
    Without(Without(Lower(Trim(raw)), ':'), ' ')
  }

  function Normalize(raw: string): Option<string> {
    var text := Text(raw);
    var digits := if "0x" <= text then text[2..] else text;
    if digits == "" || |digits| > MAX_DIGITS || HexPart(digits) == "" || !IsHex(HexPart(digits)) then None
    else Some(Stored(HexValue(HexPart(digits))))
  }

  /** `hex` is the number in the text: with or without 0x before it, and perhaps a newline after. */
  ghost predicate Holds(text: string, hex: string) {
    && hex != "" && IsHex(hex)
    && ((text in {hex, "0x" + hex} && |hex| <= 64) || (text in {hex + "\n", "0x" + hex + "\n"} && |hex| <= 63))
  }

  /** Exactly the texts that hold a number of at most 64 digits, once their colons and spaces are gone, have a stored form,
      and it is that number's. */
  lemma NormalizesIff(raw: string, r: string)
    ensures Normalize(raw) == Some(r) <==> exists hex: string :: Holds(Text(raw), hex) && r == Stored(HexValue(hex))
  {
    if Normalize(raw).Some? { HoldsPart(raw); }
    forall hex: string | Holds(Text(raw), hex) ensures Normalize(raw) == Some(Stored(HexValue(hex))) { HoldsOne(raw, hex); }
  }

  lemma HoldsPart(raw: string)
    requires Normalize(raw).Some?
    ensures exists hex: string :: Holds(Text(raw), hex) && Normalize(raw) == Some(Stored(HexValue(hex)))
  {
    var text := Text(raw);
    var digits := if "0x" <= text then text[2..] else text;
    var hex := HexPart(digits);
    if digits != hex {
      assert digits == hex + "\n";
      assert "0x" + (hex + "\n") == "0x" + hex + "\n";
    }
    assert text == digits || text == "0x" + digits;
    assert Holds(text, hex);
  }

  lemma HoldsOne(raw: string, hex: string)
    requires Holds(Text(raw), hex)
    ensures Normalize(raw) == Some(Stored(HexValue(hex)))
  {
    var text := Text(raw);
    assert hex[0] != 'x' && (|hex| > 1 ==> IsHexDigit(hex[1])) && IsHexDigit(hex[|hex| - 1]);
    if text == "0x" + hex {
      assert text[2..] == hex;
    } else if text == "0x" + hex + "\n" {
      assert text[2..] == hex + "\n" && (hex + "\n")[..|hex|] == hex;
    } else if text == hex + "\n" {
      assert text[..|text| - 1] == hex && text[1] != 'x';
    }
  }

  // ── As they are shown: "7C:FF:…" ──

  function ByteHex(b: Byte, upper: bool): string {
    if upper then [UpperDigit(b / 16), UpperDigit(b % 16)] else [LowerDigit(b / 16), LowerDigit(b % 16)]
  }

  function Joined(b: seq<Byte>, sep: string, upper: bool): string {
    if b == [] then "" else if |b| == 1 then ByteHex(b[0], upper) else Joined(b[..|b| - 1], sep, upper) + sep + ByteHex(b[|b| - 1], upper)
  }

  function ColonForm(n: nat): string {
    Joined(BigEndian(n), ":", true)
  }

  // ── As a CRL carries them ──

  /** Two's complement in as few bytes as will do (section 8.3 of X.690): a zero byte keeps a high bit positive. */
  function DerInteger(n: nat): seq<Byte> {
    if BigEndian(n)[0] >= 128 then [0] + BigEndian(n) else BigEndian(n)
  }

  lemma {:induction false} FirstByte(n: nat)
    ensures BigEndian(n)[0] == 0 <==> n == 0
  {
    if n >= 256 { FirstByte(n / 256); }
  }

  /** No byte more than it takes to keep the number from reading as negative. */
  lemma DerIntegerIsLeast(n: nat)
    ensures var b := DerInteger(n);
            |b| > 0 && b[0] < 128 && (|b| > 1 && b[0] == 0 ==> b[1] >= 128) && (b == BigEndian(n) || b == [0] + BigEndian(n))
  {
    FirstByte(n);
    if n < 256 { assert BigEndian(n) == [n]; }
  }

  function TrimZeros(s: string): string {
    if s != "" && s[0] == '0' then TrimZeros(s[1..]) else s
  }

  /** How the Pal writes a serial it reads off a CRL. */
  function PalForm(bytes: seq<Byte>): string {
    var trimmed := TrimZeros(Joined(bytes, "", true));
    if trimmed == "" then "0" else trimmed
  }

  // ── All of them come back to the stored form ──

  lemma DigitsLower(d: Nibble)
    ensures LowerChar(UpperDigit(d)) == LowerDigit(d) && IsHexDigit(LowerDigit(d)) && DigitValue(LowerDigit(d)) == d
    ensures UpperDigit(d) != ' ' && !IsSpace(UpperDigit(d)) && UpperDigit(d) != ':' && (UpperDigit(d) == '0' <==> LowerDigit(d) == '0')
  {
  }

  lemma WithoutStep(a: char, s: string, c: char)
    ensures Without([a] + s, c) == (if a == c then "" else [a]) + Without(s, c)
  {
    assert ([a] + s)[1..] == s;
  }

  lemma {:induction false} WithoutConcat(s: string, t: string, c: char)
    ensures Without(s + t, c) == Without(s, c) + Without(t, c)
  {
    if s == "" {
      assert s + t == t;
    } else {
      WithoutConcat(s[1..], t, c);
      WithoutStep(s[0], s[1..], c);
      WithoutStep(s[0], s[1..] + t, c);
      assert s == [s[0]] + s[1..] && s + t == [s[0]] + (s[1..] + t);
    }
  }

  lemma {:induction false} WithoutNone(s: string, c: char)
    requires Free(s, c)
    ensures Without(s, c) == s
  {
    if s != "" {
      assert forall i :: 0 <= i < |s| - 1 ==> s[1..][i] == s[i + 1];
      WithoutNone(s[1..], c);
    }
  }

  lemma LowerConcat(s: string, t: string)
    ensures Lower(s + t) == Lower(s) + Lower(t)
  {
  }

  lemma LowerByte(b: Byte)
    ensures Lower(ByteHex(b, true)) == ByteHex(b, false) && IsHex(ByteHex(b, false))
    ensures Free(ByteHex(b, false), ':') && Free(ByteHex(b, true), ':')
  {
    DigitsLower(b / 16);
    DigitsLower(b % 16);
  }

  /** Lower-casing and dropping the colons leaves the plain digits. */
  lemma {:induction false} ColonsDrop(b: seq<Byte>, sep: string)
    requires b != [] && (sep == ":" || sep == "")
    ensures Without(Lower(Joined(b, sep, true)), ':') == Joined(b, "", false)
  {
    var last := ByteHex(b[|b| - 1], true);
    LowerByte(b[|b| - 1]);
    WithoutNone(Lower(last), ':');
    if |b| > 1 {
      var rest := Joined(b[..|b| - 1], sep, true);
      ColonsDrop(b[..|b| - 1], sep);
      LowerConcat(rest + sep, last);
      LowerConcat(rest, sep);
      WithoutConcat(Lower(rest + sep), Lower(last), ':');
      WithoutConcat(Lower(rest), Lower(sep), ':');
      assert Without(Lower(sep), ':') == "";
    }
  }

  lemma {:induction false} JoinedIsHex(b: seq<Byte>)
    ensures IsHex(Joined(b, "", false)) && |Joined(b, "", false)| == 2 * |b|
  {
    if b != [] {
      LowerByte(b[|b| - 1]);
      if |b| > 1 { JoinedIsHex(b[..|b| - 1]); }
    }
  }

  lemma {:induction false} BytesValue(n: nat)
    ensures IsHex(Joined(BigEndian(n), "", false)) && HexValue(Joined(BigEndian(n), "", false)) == n
  {
    JoinedIsHex(BigEndian(n));
    if n < 256 {
      TwoDigits("", n);
      assert "" + ByteHex(n, false) == ByteHex(n, false);
    } else {
      BytesValue(n / 256);
      assert BigEndian(n)[..|BigEndian(n)| - 1] == BigEndian(n / 256);
      TwoDigits(Joined(BigEndian(n / 256), "", false), n % 256);
      assert Joined(BigEndian(n / 256), "", false) + "" == Joined(BigEndian(n / 256), "", false);
    }
  }

  lemma TwoDigits(s: string, b: Byte)
    requires IsHex(s)
    ensures IsHex(s + ByteHex(b, false)) && HexValue(s + ByteHex(b, false)) == 256 * HexValue(s) + b
  {
    DigitsLower(b / 16);
    DigitsLower(b % 16);
    var t := s + ByteHex(b, false);
    assert t[..|t| - 1] == s + [LowerDigit(b / 16)];
    assert t[..|t| - 1][..|s|] == s;
    assert HexValue(s + [LowerDigit(b / 16)]) == 16 * HexValue(s) + b / 16;
  }

  lemma HexHasNoPrefix(digits: string)
    requires IsHex(digits)
    ensures !("0x" <= digits) && Free(digits, ' ') && HexPart(digits) == digits
  {
    assert |digits| >= 2 ==> IsHexDigit(digits[1]);
  }

  lemma NothingToTrim(raw: string)
    requires raw != "" && !IsSpace(raw[0]) && !IsSpace(raw[|raw| - 1])
    ensures Trim(raw) == raw
  {
  }

  /** What Normalize makes of text that only its colons and case keep from being plain digits. */
  lemma NormalizesDigits(raw: string, digits: string)
    requires raw != "" && !IsSpace(raw[0]) && !IsSpace(raw[|raw| - 1])
    requires Without(Lower(raw), ':') == digits && IsHex(digits) && digits != ""
    ensures Normalize(raw) == if |digits| <= MAX_DIGITS then Some(Stored(HexValue(digits))) else None
  {
    NothingToTrim(raw);
    HexHasNoPrefix(digits);
    WithoutNone(digits, ' ');
  }

  lemma {:induction false} PowAdds(j: nat, k: nat)
    ensures Pow16(j + k) == Pow16(j) * Pow16(k)
  {
    if j > 0 {
      PowAdds(j - 1, k);
      assert 16 * (Pow16(j - 1) * Pow16(k)) == (16 * Pow16(j - 1)) * Pow16(k);
    }
  }

  const TWO_TO_256: nat := 0x1_00000000_00000000_00000000_00000000_00000000_00000000_00000000_00000000

  lemma Pow16Of64()
    ensures Pow16(64) == TWO_TO_256
  {
    assert Pow16(1) == 16 && Pow16(2) == 256;
    PowAdds(2, 2);
    PowAdds(4, 4);
    PowAdds(8, 8);
    PowAdds(16, 16);
    PowAdds(32, 32);
  }

  lemma {:induction false} BytesFit(n: nat, k: nat)
    requires k > 0
    ensures |BigEndian(n)| <= k <==> n < Pow16(2 * k)
  {
    assert Pow16(2 * k) == 256 * Pow16(2 * k - 2);
    if k == 1 {
      assert Pow16(0) == 1;
    } else if n >= 256 {
      BytesFit(n / 256, k - 1);
      assert n / 256 < Pow16(2 * k - 2) <==> n < 256 * Pow16(2 * k - 2);
    } else {
      Grows(2 * k - 2);
    }
  }

  lemma {:induction false} JoinedEnds(b: seq<Byte>, sep: string)
    requires b != []
    ensures var s := Joined(b, sep, true); s != "" && !IsSpace(s[0]) && !IsSpace(s[|s| - 1])
  {
    DigitsLower(b[|b| - 1] % 16);
    DigitsLower(b[|b| - 1] / 16);
    if |b| > 1 { JoinedEnds(b[..|b| - 1], sep); }
  }

  /** The colon form of every serial certificates can carry comes back; one of more than 256 bits is refused. */
  lemma ColonFormNormalizes(n: nat)
    ensures Normalize(ColonForm(n)) == if n < TWO_TO_256 then Some(Stored(n)) else None
  {
    ColonsDrop(BigEndian(n), ":");
    BytesValue(n);
    JoinedIsHex(BigEndian(n));
    JoinedEnds(BigEndian(n), ":");
    BytesFit(n, 32);
    Pow16Of64();
    NormalizesDigits(ColonForm(n), Joined(BigEndian(n), "", false));
  }

  lemma LowerStarts(s: string)
    ensures Lower(s) == if s == "" then "" else [LowerChar(s[0])] + Lower(s[1..])
  {
  }

  lemma {:induction false} LowerTrims(s: string)
    ensures Lower(TrimZeros(s)) == TrimZeros(Lower(s))
  {
    LowerStarts(s);
    if s != "" && s[0] == '0' {
      LowerTrims(s[1..]);
      assert Lower(s)[1..] == Lower(s[1..]);
    }
  }

  lemma {:induction false} TrimKeepsValue(s: string)
    requires IsHex(s)
    ensures IsHex(TrimZeros(s)) && HexValue(TrimZeros(s)) == HexValue(s)
    ensures TrimZeros(s) == "" || TrimZeros(s)[0] != '0'
  {
    if s != "" && s[0] == '0' {
      TrimKeepsValue(s[1..]);
      LeadingZero(s[1..]);
      assert s == "0" + s[1..];
    }
  }

  lemma {:induction false} LowerJoined(b: seq<Byte>)
    ensures Lower(Joined(b, "", true)) == Joined(b, "", false)
  {
    if b != [] {
      LowerByte(b[|b| - 1]);
      if |b| > 1 {
        LowerJoined(b[..|b| - 1]);
        LowerConcat(Joined(b[..|b| - 1], "", true) + "", ByteHex(b[|b| - 1], true));
        assert Joined(b[..|b| - 1], "", true) + "" == Joined(b[..|b| - 1], "", true);
        assert Joined(b[..|b| - 1], "", false) + "" == Joined(b[..|b| - 1], "", false);
      }
    }
  }

  lemma {:induction false} ZeroByteFirst(b: seq<Byte>)
    requires b != []
    ensures Joined([0] + b, "", false) == "00" + Joined(b, "", false)
  {
    var c := [0] + b;
    if |b| > 1 {
      ZeroByteFirst(b[..|b| - 1]);
      assert c[..|c| - 1] == [0] + b[..|b| - 1];
      assert "00" + (Joined(b[..|b| - 1], "", false) + "" + ByteHex(b[|b| - 1], false)) ==
             ("00" + Joined(b[..|b| - 1], "", false)) + "" + ByteHex(b[|b| - 1], false);
    } else {
      assert c[..1] == [0] && b == [b[0]];
      assert Joined([0], "", false) == "00";
    }
  }

  lemma DerValue(n: nat)
    ensures IsHex(Joined(DerInteger(n), "", false)) && HexValue(Joined(DerInteger(n), "", false)) == n
  {
    BytesValue(n);
    if BigEndian(n)[0] >= 128 {
      var s := Joined(BigEndian(n), "", false);
      ZeroByteFirst(BigEndian(n));
      LeadingZero(s);
      LeadingZero("0" + s);
      assert "0" + ("0" + s) == "00" + s;
    }
  }

  predicate CapitalHex(c: char) {
    '0' <= c <= '9' || 'A' <= c <= 'F'
  }

  /** Two capital digits a byte, and the separator between bytes. */
  lemma {:induction false} JoinedIsCapital(b: seq<Byte>, sep: string)
    requires |sep| <= 1
    ensures var s, w := Joined(b, sep, true), 2 + |sep|;
            && |s| == (if b == [] then 0 else w * |b| - |sep|)
            && forall i :: 0 <= i < |s| ==> if i % w == 2 then s[i] == sep[0] else CapitalHex(s[i])
  {
    if |b| > 1 {
      var before := Joined(b[..|b| - 1], sep, true);
      JoinedIsCapital(b[..|b| - 1], sep);
      LastByte(before, sep, b[|b| - 1], |b| - 1);
    }
  }

  lemma LastByte(before: string, sep: string, last: Byte, k: nat)
    requires |sep| <= 1 && k > 0 && |before| == (2 + |sep|) * k - |sep|
    requires forall i :: 0 <= i < |before| ==> if i % (2 + |sep|) == 2 then before[i] == sep[0] else CapitalHex(before[i])
    ensures var s, w := before + sep + ByteHex(last, true), 2 + |sep|;
            |s| == w * (k + 1) - |sep| && forall i :: 0 <= i < |s| ==> if i % w == 2 then s[i] == sep[0] else CapitalHex(s[i])
  {
    assert CapitalHex(UpperDigit(last / 16)) && CapitalHex(UpperDigit(last % 16));
    if |sep| == 0 {
      assert |before| == 2 * k;
    } else {
      assert |before| == 3 * k - 1;
    }
  }

  lemma {:induction false} TrimmedEnds(s: string)
    ensures |TrimZeros(s)| <= |s| && TrimZeros(s) == s[|s| - |TrimZeros(s)|..]
  {
    if s != "" && s[0] == '0' { TrimmedEnds(s[1..]); }
  }

  lemma UpperLower(s: string)
    requires forall i :: 0 <= i < |s| ==> CapitalHex(s[i])
    ensures Upper(Lower(s)) == s
  {
  }

  /** As shown, a serial is two capital digits a byte with a colon after each but the last. */
  lemma ColonFormShows(n: nat)
    ensures var s := ColonForm(n);
            && |s| == 3 * |BigEndian(n)| - 1
            && forall i :: 0 <= i < |s| ==> if i % 3 == 2 then s[i] == ':' else CapitalHex(s[i])
  {
    JoinedIsCapital(BigEndian(n), ":");
  }

  lemma PalFormIsCapital(n: nat)
    ensures Upper(Lower(PalForm(DerInteger(n)))) == PalForm(DerInteger(n))
  {
    var s := Joined(DerInteger(n), "", true);
    JoinedIsCapital(DerInteger(n), "");
    TrimmedEnds(s);
    forall i | 0 <= i < |TrimZeros(s)| ensures CapitalHex(TrimZeros(s)[i]) {
      assert TrimZeros(s)[i] == s[|s| - |TrimZeros(s)| + i];
    }
    UpperLower(PalForm(DerInteger(n)));
  }

  /** The Pal's form is hex(n) in capitals: no sign byte, no leading zeros. */
  lemma PalFormIsHex(n: nat)
    ensures Lower(PalForm(DerInteger(n))) == Hex(n) && PalForm(DerInteger(n)) == Upper(Hex(n))
  {
    PalFormIsCapital(n);
    var s := Joined(DerInteger(n), "", true);
    LowerJoined(DerInteger(n));
    DerValue(n);
    LowerTrims(s);
    TrimKeepsValue(Lower(s));
    if TrimZeros(s) != "" {
      MinimalIsHex(TrimZeros(Lower(s)));
    } else {
      assert Lower("0") == "0" && TrimZeros(Lower(s)) == "";
    }
  }

  lemma NormalizesCapitals(raw: string, digits: string)
    requires Lower(raw) == digits && IsHex(digits) && digits != ""
    ensures Normalize(raw) == if |digits| <= MAX_DIGITS then Some(Stored(HexValue(digits))) else None
  {
    assert |raw| == |digits| && forall i :: 0 <= i < |raw| ==> LowerChar(raw[i]) == digits[i] && IsHexDigit(digits[i]);
    assert !IsSpace(raw[0]) && !IsSpace(raw[|raw| - 1]);
    WithoutNone(digits, ':');
    NormalizesDigits(raw, digits);
  }

  /** What the Pal reads off a CRL is, on the server, the serial as stored. */
  lemma PalFormNormalizes(n: nat)
    ensures Normalize(PalForm(DerInteger(n))) == if n < TWO_TO_256 then Some(Stored(n)) else None
  {
    PalFormIsHex(n);
    HexReadsBack(n);
    DigitsFit(n, 64);
    Pow16Of64();
    NormalizesCapitals(PalForm(DerInteger(n)), Hex(n));
  }

  lemma HexIsPlain(s: string)
    requires IsHex(s)
    ensures Lower("0x" + s) == "0x" + s && Free("0x" + s, ':') && Free("0x" + s, ' ')
    ensures !IsSpace(("0x" + s)[|s| + 1])
  {
    forall i | 0 <= i < |s| + 2 ensures ("0x" + s)[i] == 'x' || IsHexDigit(("0x" + s)[i]) {
      assert i >= 2 ==> ("0x" + s)[i] == s[i - 2];
    }
  }

  lemma PlainText(digits: string)
    requires IsHex(digits) && digits != ""
    ensures Text("0x" + digits) == "0x" + digits
  {
    HexIsPlain(digits);
    NothingToTrim("0x" + digits);
    WithoutNone("0x" + digits, ':');
    WithoutNone("0x" + digits, ' ');
  }

  lemma PrefixGoes(raw: string, digits: string)
    requires IsHex(digits) && digits != "" && raw == "0x" + digits
    ensures Normalize(raw) == if |digits| <= MAX_DIGITS then Some(Stored(HexValue(digits))) else None
  {
    PlainText(digits);
    HexHasNoPrefix(digits);
    assert raw[2..] == digits && "0x" <= raw;
  }

  /** A stored serial is already normal. */
  lemma StoredNormalizes(n: nat)
    ensures Normalize(Stored(n)) == if n < TWO_TO_256 then Some(Stored(n)) else None
  {
    PrefixGoes(Stored(n), Hex(n));
    HexReadsBack(n);
    DigitsFit(n, 64);
    Pow16Of64();
  }
}
