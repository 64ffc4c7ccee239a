/** Recovery keys: how one is printed and how a typed one is read (app/crypto_engine.py). */
module RecoveryKey {
  import opened Strings
  import opened Wrappers

  /** Crockford base 32: the digits, and the capitals but I, L, O and U. */
  predicate InAlphabet(k: char) {
    '0' <= k <= '9' || ('A' <= k <= 'Z' && k != 'I' && k != 'L' && k != 'O' && k != 'U')
  }

  const ALPHABET: set<char> := {
    '0', '1', '2', '3', '4', '5', '6', '7', '8', '9', 'A', 'B', 'C', 'D', 'E', 'F',
    'G', 'H', 'J', 'K', 'M', 'N', 'P', 'Q', 'R', 'S', 'T', 'V', 'W', 'X', 'Y', 'Z'}

  const GROUPS := 5
  const GROUP_LENGTH := 5
  const LENGTH := GROUPS * GROUP_LENGTH

  function Alias(c: char): char {
    if c == 'O' then '0' else if c == 'I' || c == 'L' then '1' else c
  }

  /** The letters outside ASCII whose capitals are ASCII; any other capital holds a character no key has. */
  const CAPITALS: map<char, string> := map[
    '\U{DF}' := "SS", '\U{131}' := "I", '\U{17F}' := "S", '\U{FB00}' := "FF", '\U{FB01}' := "FI", '\U{FB02}' := "FL",
    '\U{FB03}' := "FFI", '\U{FB04}' := "FFL", '\U{FB05}' := "ST", '\U{FB06}' := "ST"]

  function Capitals(c: char): string {
    if c in CAPITALS then CAPITALS[c] else [UpperChar(c)]
  }

  function Aliases(s: string): string {
    seq(|s|, i requires 0 <= i < |s| => Alias(s[i]))
  }

  /** What is left of a typed key once spaces and dashes are dropped and look-alikes are read. */
  function Read(text: string): string {
    if text == "" then ""
    else if IsSpace(text[0]) || text[0] == '-' then Read(text[1..])
    else Aliases(Capitals(text[0])) + Read(text[1..])
  }

  function Normalize(text: string): Option<string> {
    var chars := Read(text);
    if |chars| != LENGTH || exists c <- chars :: !InAlphabet(c) then None else Some(chars)
  }

  /** The canonical key in groups of five, as it is shown once. */
  function Printed(chars: string): string
    requires |chars| == LENGTH
  {
    chars[..5] + "-" + chars[5..10] + "-" + chars[10..15] + "-" + chars[15..20] + "-" + chars[20..]
  }

  ghost predicate IsCanonical(chars: string) {
    |chars| == 25 && forall c <- chars :: c in ALPHABET
  }

  /** The characters a person may type for one character of the key. */
  function Spellings(k: char): set<char> {
    match k
    case '0' => {'0', 'O', 'o'}
    case '1' => {'1', 'I', 'i', 'L', 'l', '\U{131}'}
    case 'S' => {'S', 's', '\U{17F}'}
    case _ => if 'A' <= k <= 'Z' then {k, 'a' + (k - 'A')} else {k}
  }

  /** The single characters that stand for several of the key. */
  const LIGATURES: map<char, string> := map[
    '\U{DF}' := "SS", '\U{FB00}' := "FF", '\U{FB01}' := "F1", '\U{FB02}' := "F1",
    '\U{FB03}' := "FF1", '\U{FB04}' := "FF1", '\U{FB05}' := "ST", '\U{FB06}' := "ST"]

  /** `text` spells `chars`: some spelling of each character in turn, with spaces and dashes anywhere. */
  ghost predicate Spells(text: string, chars: string) {
    if text == "" then chars == ""
    else if IsSpace(text[0]) || text[0] == '-' then Spells(text[1..], chars)
    else if text[0] in LIGATURES then
      var part := LIGATURES[text[0]];
      part <= chars && Spells(text[1..], chars[|part|..])
    else chars != "" && text[0] in Spellings(chars[0]) && Spells(text[1..], chars[1..])
  }

  lemma LigaturesRead(c: char)
    requires c in LIGATURES
    ensures Aliases(Capitals(c)) == LIGATURES[c]
  {
  }

  lemma AliasIsSpelling(c: char, k: char)
    requires InAlphabet(k) && c !in LIGATURES
    ensures |Capitals(c)| == 1
    ensures Alias(Capitals(c)[0]) == k <==> c in Spellings(k)
  {
    if 'A' <= k <= 'Z' {
      assert c == 'a' + (k - 'A') ==> UpperChar(c) == k;
    }
  }

  lemma PrefixThenRest(part: string, rest: string, chars: string)
    ensures part + rest == chars <==> part <= chars && rest == chars[|part|..]
  {
    if part <= chars { assert part + chars[|part|..] == chars; }
    if part + rest == chars { assert chars[|part|..] == rest; }
  }

  lemma {:induction false} ReadIsSpelling(text: string, chars: string)
    requires forall c <- chars :: InAlphabet(c)
    ensures Read(text) == chars <==> Spells(text, chars)
  {
    if text != "" {
      if IsSpace(text[0]) || text[0] == '-' {
        ReadIsSpelling(text[1..], chars);
      } else if text[0] in LIGATURES {
        var part := LIGATURES[text[0]];
        LigaturesRead(text[0]);
        PrefixThenRest(part, Read(text[1..]), chars);
        if part <= chars { ReadIsSpelling(text[1..], chars[|part|..]); }
      } else if chars != "" {
        AliasIsSpelling(text[0], chars[0]);
        assert Aliases(Capitals(text[0])) == [Alias(Capitals(text[0])[0])];
        PrefixThenRest(Aliases(Capitals(text[0])), Read(text[1..]), chars);
        ReadIsSpelling(text[1..], chars[1..]);
      }
    }
  }

  lemma CanonicalIff(chars: string)
    ensures IsCanonical(chars) <==> |chars| == LENGTH && forall c <- chars :: InAlphabet(c)
  {
  }

  /** A typed text normalizes exactly to a key, 25 characters of the alphabet, of which it is a spelling. */
  lemma NormalizesExactlyItsSpellings(text: string, chars: string)
    ensures Normalize(text) == Some(chars) <==> IsCanonical(chars) && Spells(text, chars)
  {
    CanonicalIff(chars);
    if IsCanonical(chars) { ReadIsSpelling(text, chars); }
  }

  lemma {:induction false} SpellsTogether(text: string, chars: string, more: string, moreChars: string)
    requires Spells(text, chars) && Spells(more, moreChars)
    ensures Spells(text + more, chars + moreChars)
  {
    if text == "" {
      assert text + more == more && chars + moreChars == moreChars;
    } else {
      assert (text + more)[1..] == text[1..] + more;
      if IsSpace(text[0]) || text[0] == '-' {
        SpellsTogether(text[1..], chars, more, moreChars);
      } else if text[0] in LIGATURES {
        var part := LIGATURES[text[0]];
        assert (chars + moreChars)[|part|..] == chars[|part|..] + moreChars;
        SpellsTogether(text[1..], chars[|part|..], more, moreChars);
      } else {
        assert (chars + moreChars)[1..] == chars[1..] + moreChars;
        SpellsTogether(text[1..], chars[1..], more, moreChars);
      }
    }
  }

  lemma {:induction false} SpellsItself(chars: string)
    requires forall c <- chars :: InAlphabet(c)
    ensures Spells(chars, chars)
  {
    if chars != "" {
      AliasIsSpelling(chars[0], chars[0]);
      SpellsItself(chars[1..]);
    }
  }

  lemma GroupAfter(text: string, read: string, group: string)
    requires Spells(text, read) && forall c <- group :: InAlphabet(c)
    ensures Spells(text + "-" + group, read + group)
  {
    assert "-"[1..] == "" && Spells("-", "");
    SpellsTogether(text, read, "-", "");
    SpellsItself(group);
    SpellsTogether(text + "-", read + "", group, group);
    assert read + "" == read;
  }

  /** The printed key, typed back, opens what the generated one sealed. */
  lemma PrintedKeyReadsBack(chars: string)
    requires IsCanonical(chars)
    ensures Normalize(Printed(chars)) == Some(chars)
  {
    CanonicalIff(chars);
    SpellsItself(chars[..5]);
    GroupAfter(chars[..5], chars[..5], chars[5..10]);
    GroupAfter(chars[..5] + "-" + chars[5..10], chars[..5] + chars[5..10], chars[10..15]);
    GroupAfter(chars[..5] + "-" + chars[5..10] + "-" + chars[10..15], chars[..5] + chars[5..10] + chars[10..15], chars[15..20]);
    GroupAfter(chars[..5] + "-" + chars[5..10] + "-" + chars[10..15] + "-" + chars[15..20],
               chars[..5] + chars[5..10] + chars[10..15] + chars[15..20], chars[20..]);
    assert chars[..5] + chars[5..10] + chars[10..15] + chars[15..20] + chars[20..] == chars;
    NormalizesExactlyItsSpellings(Printed(chars), chars);
  }
}
