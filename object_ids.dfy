/** Document identifiers: 12-byte values written as 24 hexadecimal digits.
    Bookings carry an `ObjectId`; the public operations receive the id as a
    string and parse it, so a malformed string is an error of its own. */
module ObjectIds {
  import opened Wrappers

  /** Number of hexadecimal digits in a written identifier (12 bytes). */
  const HexLength: nat := 24

  function Pow16(n: nat): (p: nat)
    ensures p >= 1
  {
    if n == 0 then 1 else 16 * Pow16(n - 1)
  }

  /** 16^24 = 2^96: one more than the largest identifier. */
  const ObjectIdBound: nat := Pow16(HexLength)

  type ObjectId = x: nat | x < ObjectIdBound

  /** The all-zero identifier, which the store treats as "not yet assigned". */
  const NilObjectId: ObjectId := 0

  predicate IsHexDigit(c: char) {
    '0' <= c <= '9' || 'a' <= c <= 'f' || 'A' <= c <= 'F'
  }

  predicate IsLowerHexDigit(c: char) {
    '0' <= c <= '9' || 'a' <= c <= 'f'
  }

  predicate IsHex(s: string) {
    forall i :: 0 <= i < |s| ==> IsHexDigit(s[i])
  }

  predicate IsLowerHex(s: string) {
    forall i :: 0 <= i < |s| ==> IsLowerHexDigit(s[i])
  }

  function DigitValue(c: char): (v: nat)
    requires IsHexDigit(c)
    ensures v < 16
  {
    if '0' <= c <= '9' then c as nat - '0' as nat
    else if 'a' <= c <= 'f' then c as nat - 'a' as nat + 10
    else c as nat - 'A' as nat + 10
  }

  /** The lower-case digit for a value below 16. */
  function LowerDigit(v: nat): (c: char)
    requires v < 16
    ensures IsLowerHexDigit(c) && IsHexDigit(c) && DigitValue(c) == v
  {
    if v < 10 then ('0' as nat + v) as char else ('a' as nat + v - 10) as char
  }

  lemma LowerDigitOfValue(c: char)
    requires IsLowerHexDigit(c)
    ensures LowerDigit(DigitValue(c)) == c
  {
  }

  /** The number a string of hexadecimal digits denotes, most significant first. */
  function HexValue(s: string): (v: nat)
    requires IsHex(s)
    ensures v < Pow16(|s|)
  {
    if s == [] then 0
    else
      var prefix := s[..|s| - 1];
      assert IsHex(prefix);
      var high := HexValue(prefix);
      assert high * 16 <= (Pow16(|prefix|) - 1) * 16;
      high * 16 + DigitValue(s[|s| - 1])
  }

  /** The `n` lower-case digits of `x`, most significant first, zero padded. */
  function ToHex(x: nat, n: nat): (s: string)
    requires x < Pow16(n)
    ensures |s| == n && IsHex(s) && IsLowerHex(s)
  {
    if n == 0 then ""
    else
      assert x / 16 < Pow16(n - 1);
      ToHex(x / 16, n - 1) + [LowerDigit(x % 16)]
  }

  /** Parsing an identifier: exactly 24 hexadecimal digits of either case. */
  function ObjectIdFromHex(s: string): (r: Option<ObjectId>)
    ensures r.Some? <==> |s| == HexLength && IsHex(s)
  {
    if |s| == HexLength && IsHex(s) then
      Some(HexValue(s))
    else None
  }

  /** Writing an identifier: 24 lower-case digits. */
  function Hex(id: ObjectId): (s: string)
    ensures |s| == HexLength && IsLowerHex(s)
  {
    ToHex(id, HexLength)
  }

  lemma {:induction false} ValueOfToHex(x: nat, n: nat)
    requires x < Pow16(n)
    ensures HexValue(ToHex(x, n)) == x
  {
    if n > 0 {
      var s := ToHex(x, n);
      assert s[..n - 1] == ToHex(x / 16, n - 1);
      ValueOfToHex(x / 16, n - 1);
    }
  }

  lemma {:induction false} ToHexOfValue(s: string)
    requires IsLowerHex(s)
    ensures IsHex(s) && ToHex(HexValue(s), |s|) == s
  {
    if s != [] {
      var prefix := s[..|s| - 1];
      assert IsLowerHex(prefix);
      ToHexOfValue(prefix);
      var v := HexValue(s);
      assert v / 16 == HexValue(prefix) && v % 16 == DigitValue(s[|s| - 1]);
      LowerDigitOfValue(s[|s| - 1]);
      assert s == prefix + [s[|s| - 1]];
    }
  }

  /** Every identifier written out parses back to itself. */
  lemma ParseWrittenId(id: ObjectId)
    ensures ObjectIdFromHex(Hex(id)) == Some(id)
  {
    ValueOfToHex(id, HexLength);
  }

  /** Every well-formed lower-case identifier string is the writing of what it parses to. */
  lemma WriteParsedId(s: string)
    requires |s| == HexLength && IsLowerHex(s)
    ensures ObjectIdFromHex(s).Some? && Hex(ObjectIdFromHex(s).value) == s
  {
    ToHexOfValue(s);
  }
}
