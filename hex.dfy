/**
 * Fixed-width hexadecimal text of natural numbers, most significant digit
 * first, as used by the canonical UUID string.
 */
module Hex {

  predicate IsHexDigit(c: char) {
    '0' <= c <= '9' || 'a' <= c <= 'f' || 'A' <= c <= 'F'
  }

  predicate IsLowerHexDigit(c: char) {
    '0' <= c <= '9' || 'a' <= c <= 'f'
  }

  predicate AllHex(s: string) {
    forall i :: 0 <= i < |s| ==> IsHexDigit(s[i])
  }

  predicate AllLowerHex(s: string) {
    forall i :: 0 <= i < |s| ==> IsLowerHexDigit(s[i])
  }

  /** The value of one hex digit; upper and lower case letters mean the same. */
  function DigitValue(c: char): (v: nat)
    requires IsHexDigit(c)
    ensures v < 16
  {
    if '0' <= c <= '9' then c as int - '0' as int
    else if 'a' <= c <= 'f' then c as int - 'a' as int + 10
    else c as int - 'A' as int + 10
  }

  /** The lower-case digit for a value below 16. */
  function DigitChar(v: nat): (c: char)
    requires v < 16
    ensures IsLowerHexDigit(c) && DigitValue(c) == v
  {
    if v < 10 then ('0' as int + v) as char else ('a' as int + v - 10) as char
  }

  lemma {:induction false} DigitOfValue(c: char)
    requires IsLowerHexDigit(c)
    ensures DigitChar(DigitValue(c)) == c
  {
  }

  function Pow16(k: nat): (p: nat)
    ensures p >= 1
  {
    if k == 0 then 1 else 16 * Pow16(k - 1)
  }

  lemma Pow16Of16()
    ensures Pow16(16) == 0x1_0000_0000_0000_0000
  {
    assert Pow16(4) == 0x1_0000;
    assert Pow16(8) == 0x1_0000_0000;
    assert Pow16(12) == 0x1_0000_0000_0000;
  }

  /** `n` written with exactly `width` lower-case hex digits (leading zeros kept). */
  function Encode(n: nat, width: nat): (s: string)
    requires n < Pow16(width)
    ensures |s| == width && AllLowerHex(s)
  {
    if width == 0 then ""
    else Encode(n / 16, width - 1) + [DigitChar(n % 16)]
  }

  /** The value of a string of hex digits, most significant first. */
  function Decode(s: string): (n: nat)
    requires AllHex(s)
    ensures n < Pow16(|s|)
  {
    if s == [] then 0
    else Decode(s[..|s| - 1]) * 16 + DigitValue(s[|s| - 1])
  }

  /** Decoding undoes encoding. */
  lemma {:induction false} DecodeEncode(n: nat, width: nat)
    requires n < Pow16(width)
    ensures AllHex(Encode(n, width)) && Decode(Encode(n, width)) == n
  {
    if width > 0 {
      var s := Encode(n, width);
      assert s[..|s| - 1] == Encode(n / 16, width - 1);
      DecodeEncode(n / 16, width - 1);
    }
  }

  /** Splitting off the last hex digit undoes appending it. */
  lemma DivModDigit(q: nat, d: nat)
    requires d < 16
    ensures (q * 16 + d) / 16 == q && (q * 16 + d) % 16 == d
  {
  }

  /** Encoding undoes decoding on lower-case text. */
  lemma {:induction false} EncodeDecode(s: string)
    requires AllLowerHex(s)
    ensures AllHex(s) && Decode(s) < Pow16(|s|) && Encode(Decode(s), |s|) == s
  {
    if s != [] {
      var init, last := s[..|s| - 1], s[|s| - 1];
      assert AllLowerHex(init);
      EncodeDecode(init);
      var q, d := Decode(init), DigitValue(last);
      var n := Decode(s);
      assert n == q * 16 + d;
      DivModDigit(q, d);
      DigitOfValue(last);
      assert Encode(n, |s|) == Encode(q, |s| - 1) + [DigitChar(d)];
      assert s == init + [last];
    }
  }
}
