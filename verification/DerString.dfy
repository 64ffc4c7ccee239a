/** DER UTF8Strings in certificate extensions (app/crypto_engine.py), on the UTF-8 bytes of the text.
    The reference is the encoding section 8.1 of X.690 gives every primitive value: tag, length octets, contents. */
module DerString {
  import opened Wrappers

  const TAG: Byte := 0x0C

  // ── As the app writes and reads them ──

  /** None where the source raises OverflowError: the length does not fit in two octets. */
  function Encode(text: seq<Byte>): Option<seq<Byte>> {
    var length := |text|;
    if length < 128 then Some([TAG, length] + text)
    else if length < 256 then Some([TAG, 0x81, length] + text)
    else if length < 65536 then Some([TAG, 0x82, length / 256, length % 256] + text)
    else None
  }

  function From(s: seq<Byte>, start: nat): seq<Byte> {
    if start <= |s| then s[start..] else []
  }

  function Decode(der: seq<Byte>): Option<seq<Byte>> {
    if der == [] || der[0] != TAG || |der| < 2 then None
    else if der[1] < 0x80 then Some(From(der, 2))
    else Some(From(der, 2 + der[1] % 128))
  }

  // ── As X.690 defines them ──

  /** Up to 126 length octets follow the first in the long form. */
  ghost predicate HasLongForm(n: nat) {
    |BigEndian(n)| <= 126
  }

  ghost function LengthOctets(n: nat): seq<Byte>
    requires HasLongForm(n)
  {
    if n < 128 then [n] else [0x80 + |BigEndian(n)|] + BigEndian(n)
  }

  ghost function Tlv(text: seq<Byte>): seq<Byte>
    requires HasLongForm(|text|)
  {
    [TAG] + LengthOctets(|text|) + text
  }

  /** The app writes DER exactly for texts below 65536 bytes, and fails on longer ones. */
  lemma EncodesDerIff(text: seq<Byte>)
    ensures Encode(text).Some? <==> |text| < 65536
    ensures |text| < 65536 ==> HasLongForm(|text|) && Encode(text) == Some(Tlv(text))
  {
    var n := |text|;
    if n < 128 {
      assert [TAG, n] + text == [TAG] + [n] + text;
    } else if n < 256 {
      assert [TAG, 0x81, n] + text == [TAG] + ([0x81] + [n]) + text;
    } else if n < 65536 {
      assert BigEndian(n) == [n / 256] + [n % 256];
      assert [TAG, 0x82, n / 256, n % 256] + text == [TAG] + ([0x82] + ([n / 256] + [n % 256])) + text;
    }
  }

  /** It reads every DER string, of any length; what follows the string is taken as part of it. */
  lemma ReadsEveryDer(text: seq<Byte>, rest: seq<Byte>)
    requires HasLongForm(|text|)
    ensures Decode(Tlv(text) + rest) == Some(text + rest)
    ensures Decode(Tlv(text) + rest) == Some(text) <==> rest == []
  {
    var octets := LengthOctets(|text|);
    var der := Tlv(text) + rest;
    assert der == [TAG] + octets + (text + rest);
    assert der[1] == octets[0];
    assert der[1 + |octets|..] == text + rest;
    assert rest == [] ==> text + rest == text;
    assert rest != [] ==> |text + rest| != |text|;
  }

  /** The string is what follows the length octets the first one announces, nothing where they run past the end. */
  ghost predicate Follows(der: seq<Byte>, text: seq<Byte>) {
    exists first: Byte, octets: seq<Byte> :: IsHead(first, octets, text) && der == [TAG, first] + octets + text
  }

  ghost predicate IsHead(first: Byte, octets: seq<Byte>, text: seq<Byte>) {
    var announced := if first < 128 then 0 else first - 128;
    |octets| == announced || (|octets| < announced && text == [])
  }

  /** Of any bytes it reads just that, and only the tag and one length octet need be there. */
  lemma ReadsIff(der: seq<Byte>, text: seq<Byte>)
    ensures Decode(der) == Some(text) <==> Follows(der, text)
    ensures Decode(der).Some? <==> |der| >= 2 && der[0] == TAG
  {
    if Decode(der).Some? {
      var rest := der[2..];
      var announced := if der[1] < 128 then 0 else der[1] - 128;
      var octets := if announced <= |rest| then rest[..announced] else rest;
      assert der == [TAG, der[1]] + octets + rest[|octets|..];
      assert IsHead(der[1], octets, rest[|octets|..]);
      assert Decode(der).value == rest[|octets|..];
    }
    forall first: Byte, octets: seq<Byte> | IsHead(first, octets, text) && der == [TAG, first] + octets + text
      ensures Decode(der) == Some(text)
    {
      assert der[1] == first && der[2 + |octets|..] == text;
    }
  }

  lemma RoundTrip(text: seq<Byte>)
    requires |text| < 65536
    ensures Decode(Encode(text).value) == Some(text)
  {
    EncodesDerIff(text);
    ReadsEveryDer(text, []);
    assert Tlv(text) + [] == Tlv(text) && text + [] == text;
  }
}
