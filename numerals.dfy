/**
 * Number-to-text conversions the bus relies on: `Number(n).toString(16)` for
 * envelope ids and the decimal rendering of a process id.
 */
module Numerals {

  const HexDigits: string := "0123456789abcdef"

  predicate IsHexDigit(c: char) {
    '0' <= c <= '9' || 'a' <= c <= 'f'
  }

  function HexDigit(d: nat): (c: char)
    requires d < 16
    ensures IsHexDigit(c)
  {
    HexDigits[d]
  }

  /** The value of one lowercase hexadecimal digit. */
  function DigitValue(c: char): (d: nat)
    requires IsHexDigit(c)
    ensures d < 16 && HexDigit(d) == c
  {
    if c <= '9' then c as int - '0' as int else c as int - 'a' as int + 10
  }

  /** `Number(n).toString(16)` for a non-negative integer: lowercase digits, no leading zero. */
  function Hex(n: nat): (s: string)
    decreases n
  {
    if n < 16 then [HexDigit(n)] else Hex(n / 16) + [HexDigit(n % 16)]
  }

  predicate AllHex(s: string) {
    forall i :: 0 <= i < |s| ==> IsHexDigit(s[i])
  }

  /** Reads a string of lowercase hexadecimal digits back as a number. */
  function HexValue(s: string): nat
    requires AllHex(s)
  {
    if s == [] then 0 else HexValue(s[..|s| - 1]) * 16 + DigitValue(s[|s| - 1])
  }

  /** The encoding is canonical: non-empty, only hex digits, and no leading zero unless it is "0". */
  lemma {:induction false} HexWellFormed(n: nat)
    ensures |Hex(n)| > 0 && AllHex(Hex(n))
    ensures n > 0 ==> Hex(n)[0] != '0'
    decreases n
  {
    if n >= 16 {
      HexWellFormed(n / 16);
      assert Hex(n)[..|Hex(n)| - 1] == Hex(n / 16);
      assert Hex(n)[0] == Hex(n / 16)[0];
    }
  }

  /** Decoding inverts encoding. */
  lemma {:induction false} HexRoundTrip(n: nat)
    ensures AllHex(Hex(n)) && HexValue(Hex(n)) == n
    decreases n
  {
    HexWellFormed(n);
    if n >= 16 {
      HexRoundTrip(n / 16);
      HexValueSnoc(Hex(n / 16), n % 16);
    }
  }

  /** Appending a digit multiplies the value by sixteen and adds the digit. */
  lemma HexValueSnoc(s: string, d: nat)
    requires AllHex(s) && d < 16
    ensures AllHex(s + [HexDigit(d)]) && HexValue(s + [HexDigit(d)]) == HexValue(s) * 16 + d
  {
    assert (s + [HexDigit(d)])[..|s|] == s;
  }

  /** Distinct numbers have distinct hexadecimal encodings. */
  lemma HexInjective(m: nat, n: nat)
    ensures Hex(m) == Hex(n) <==> m == n
  {
    HexRoundTrip(m);
    HexRoundTrip(n);
  }

  function DecimalDigit(d: nat): (c: char)
    requires d < 10
    ensures '0' <= c <= '9' && c as int - '0' as int == d
  {
    ('0' as int + d) as char
  }

  /** `String(n)` for an integer: its decimal digits, with a leading `-` when negative. */
  function Decimal(n: int): (s: string)
    ensures |s| > 0
    ensures n >= 0 ==> forall i :: 0 <= i < |s| ==> '0' <= s[i] <= '9'
    ensures n < 0 ==> s[0] == '-' && forall i :: 1 <= i < |s| ==> '0' <= s[i] <= '9'
    decreases if n < 0 then 1 - n else n
  {
    if n < 0 then "-" + Decimal(-n)
    else if n < 10 then [DecimalDigit(n)]
    else Decimal(n / 10) + [DecimalDigit(n % 10)]
  }

  predicate AllDecimal(s: string) {
    forall i :: 0 <= i < |s| ==> '0' <= s[i] <= '9'
  }

  /** Reads a string of decimal digits back as a number. */
  function DecimalValue(s: string): nat
    requires AllDecimal(s)
  {
    if s == [] then 0 else DecimalValue(s[..|s| - 1]) * 10 + (s[|s| - 1] as int - '0' as int)
  }

  /** Appending a digit multiplies the value by ten and adds the digit. */
  lemma DecimalValueSnoc(s: string, d: nat)
    requires AllDecimal(s) && d < 10
    ensures AllDecimal(s + [DecimalDigit(d)]) && DecimalValue(s + [DecimalDigit(d)]) == DecimalValue(s) * 10 + d
  {
    assert (s + [DecimalDigit(d)])[..|s|] == s;
  }

  /** The digits of a non-negative `n` spell it. */
  lemma {:induction false} DecimalRoundTripNat(n: nat)
    ensures AllDecimal(Decimal(n)) && DecimalValue(Decimal(n)) == n
    decreases n
  {
    if n >= 10 {
      DecimalRoundTripNat(n / 10);
      DecimalValueSnoc(Decimal(n / 10), n % 10);
    } else {
      assert Decimal(n)[..0] == [];
    }
  }

  /** The digits spell the number: reading them back gives `n`, after the `-` for a negative `n`. */
  lemma DecimalRoundTrip(n: int)
    ensures n >= 0 ==> AllDecimal(Decimal(n)) && DecimalValue(Decimal(n)) == n
    ensures n < 0 ==> AllDecimal(Decimal(n)[1..]) && DecimalValue(Decimal(n)[1..]) == -n
  {
    if n < 0 {
      var digits := Decimal(-n);
      DecimalRoundTripNat(-n);
      assert Decimal(n) == "-" + digits;
      assert ("-" + digits)[1..] == digits;
    } else {
      DecimalRoundTripNat(n);
    }
  }

  /** Distinct integers have distinct decimal renderings. */
  lemma DecimalInjective(m: int, n: int)
    ensures Decimal(m) == Decimal(n) <==> m == n
  {
    DecimalRoundTrip(m);
    DecimalRoundTrip(n);
  }
}
