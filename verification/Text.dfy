/** Text checks shared by the stores; strings are sequences of Unicode scalar values. */
module Text {

  function Utf8Length(text: string): nat {
    if text == [] then 0 else Utf8Width(text[0]) + Utf8Length(text[1..])
  }

  function Utf8Width(c: char): nat {
    var point := c as int;
    if point < 0x80 then 1 else if point < 0x800 then 2 else if point < 0x1_0000 then 3 else 4
  }

  predicate IsControl(c: char) {
    var point := c as int;
    point < 0x20 || 0x7F <= point < 0xA0
  }

  predicate IsWhitespace(c: char) {
    var point := c as int;
    || 9 <= point <= 13
    || point in {0x20, 0x85, 0xA0, 0x1680, 0x2028, 0x2029, 0x202F, 0x205F, 0x3000}
    || 0x2000 <= point <= 0x200A
  }

  predicate IsBlank(text: string) {
    forall i :: 0 <= i < |text| ==> IsWhitespace(text[i])
  }

  predicate IsDigit(c: char) {
    '0' <= c <= '9'
  }

  predicate IsLowerHexDigit(c: char) {
    IsDigit(c) || 'a' <= c <= 'f'
  }

  predicate IsAsciiAlphanumeric(c: char) {
    IsDigit(c) || 'a' <= c <= 'z' || 'A' <= c <= 'Z'
  }

  /** A lowercase hexadecimal SHA-256 digest. */
  predicate IsDigestText(text: string) {
    |text| == 64 && forall i :: 0 <= i < 64 ==> IsLowerHexDigit(text[i])
  }

  /** Canonical UUID text: parses as a UUID and prints back unchanged. */
  predicate IsCanonicalUuid(text: string) {
    && |text| == 36
    && forall i :: 0 <= i < 36 ==>
        if i == 8 || i == 13 || i == 18 || i == 23 then text[i] == '-' else IsLowerHexDigit(text[i])
  }

  function DecimalValue(digits: string): nat
    requires forall i :: 0 <= i < |digits| ==> IsDigit(digits[i])
  {
    if digits == [] then 0
    else
      assert IsDigit(digits[|digits| - 1]);
      10 * DecimalValue(digits[..|digits| - 1]) + (digits[|digits| - 1] as int - '0' as int)
  }

  /** A nonzero u32 that prints back unchanged. */
  predicate IsOperatorUid(text: string) {
    && 0 < |text|
    && (forall i :: 0 <= i < |text| ==> IsDigit(text[i]))
    && text[0] != '0'
    && DecimalValue(text) <= 0xFFFF_FFFF
  }
}

/** The library order of text. */
module TextOrder {

  datatype Ordering = Less | Equal | Greater {
    function Then(next: Ordering): Ordering {
      if Equal? then next else this
    }

    function Reverse(): Ordering {
      match this case Less => Greater case Equal => Equal case Greater => Less
    }
  }

  function CompareNat(left: nat, right: nat): Ordering {
    if left < right then Less else if left == right then Equal else Greater
  }

  /** Byte order of UTF-8 text, which is scalar-value order. */
  function CompareText(left: string, right: string): Ordering {
    if left == [] then (if right == [] then Equal else Less)
    else if right == [] then Greater
    else CompareNat(left[0] as nat, right[0] as nat).Then(CompareText(left[1..], right[1..]))
  }

  predicate Agree(first: Ordering, second: Ordering) {
    first == second || first.Equal? || second.Equal?
  }

  lemma {:induction false} CompareTextLaws(a: string, b: string, c: string)
    ensures CompareText(a, b).Equal? <==> a == b
    ensures CompareText(b, a) == CompareText(a, b).Reverse()
    ensures Agree(CompareText(a, b), CompareText(b, c)) ==>
        CompareText(a, c) == CompareText(a, b).Then(CompareText(b, c))
  {
    if a != [] && b != [] {
      var rest := if c == [] then [] else c[1..];
      CompareTextLaws(a[1..], b[1..], rest);
      assert a == [a[0]] + a[1..];
      assert b == [b[0]] + b[1..];
    }
  }

  /** The first character in which two texts differ decides; a text comes before its extensions. */
  lemma {:induction false} FirstDifferenceDecides(a: string, b: string, k: nat)
    requires k <= |a| && k < |b| && a[..k] == b[..k]
    requires k == |a| || a[k] < b[k]
    ensures CompareText(a, b).Less?
  {
    if k != 0 {
      assert a[0] == a[..k][0] && b[0] == b[..k][0];
      assert a[1..][..k - 1] == a[..k][1..] && b[1..][..k - 1] == b[..k][1..];
      FirstDifferenceDecides(a[1..], b[1..], k - 1);
    }
  }
}

/** Lowercase hexadecimal encoding of digests. */
module Hex {
  import opened Text

  type Byte = x: int | 0 <= x < 256

  type Digest = bytes: seq<Byte> | |bytes| == 32 witness seq(32, _ => 0)

  const DIGITS := "0123456789abcdef"

  predicate IsHexText(text: string) {
    |text| % 2 == 0 && forall i :: 0 <= i < |text| ==> IsLowerHexDigit(text[i])
  }

  /** Two digits per byte, high nibble first. */
  function LowerHex(bytes: seq<Byte>): (text: string)
    ensures |text| == 2 * |bytes|
    ensures IsHexText(text)
  {
    if bytes == [] then [] else LowerHex(bytes[..|bytes| - 1]) + HexPair(bytes[|bytes| - 1])
  }

  function HexPair(byte: Byte): (pair: string)
    ensures |pair| == 2 && IsHexText(pair)
  {
    [DIGITS[byte / 16], DIGITS[byte % 16]]
  }

  function DigitValue(c: char): (value: nat)
    requires IsLowerHexDigit(c)
    ensures value < 16
  {
    if IsDigit(c) then c as int - '0' as int else c as int - 'a' as int + 10
  }

  function PairValue(pair: string): nat
    requires |pair| == 2 && IsHexText(pair)
  {
    16 * DigitValue(pair[0]) + DigitValue(pair[1])
  }

  function FromHex(text: string): seq<nat>
    requires IsHexText(text)
  {
    if text == [] then [] else FromHex(text[..|text| - 2]) + [PairValue(text[|text| - 2..])]
  }

  lemma ByteRoundTrip(byte: Byte)
    ensures PairValue(HexPair(byte)) == byte
  {
    assert forall nibble :: 0 <= nibble < 16 ==> DigitValue(DIGITS[nibble]) == nibble;
  }

  /** Encoding loses nothing, so comparing encoded digests compares the digests. */
  lemma {:induction false} HexRoundTrip(bytes: seq<Byte>)
    ensures FromHex(LowerHex(bytes)) == bytes
  {
    hide PairValue, HexPair;
    if bytes == [] {
    } else {
      var n := |bytes| - 1;
      var front := LowerHex(bytes[..n]);
      HexRoundTrip(bytes[..n]);
      ByteRoundTrip(bytes[n]);
      assert LowerHex(bytes)[..|front|] == front;
      assert LowerHex(bytes)[|front|..] == HexPair(bytes[n]);
    }
  }

  lemma DigestTextIsValid(digest: Digest)
    ensures IsDigestText(LowerHex(digest))
  {
    var text := LowerHex(digest);
    assert |text| == 64;
  }

  method EncodeLowerHex(bytes: seq<Byte>) returns (encoded: string)
    ensures encoded == LowerHex(bytes)
  {
    encoded := "";
    for i := 0 to |bytes|
      invariant encoded == LowerHex(bytes[..i])
    {
      assert bytes[..i + 1][..i] == bytes[..i];
      encoded := encoded + [DIGITS[bytes[i] / 16]];
      encoded := encoded + [DIGITS[bytes[i] % 16]];
    }
    assert bytes[..|bytes|] == bytes;
  }
}
