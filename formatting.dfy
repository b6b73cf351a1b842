/** The two ways the controllers turn numbers into text: C#'s decimal
    formatting of a non-negative `int` (the `"{c}/{t}"` score string) and
    `Guid.ToString()` (the NameIdentifier claim of a token), each with the
    parser that inverts it. */
module Formatting {
  import opened Common

  predicate IsDigit(c: char) {
    '0' <= c <= '9'
  }

  predicate AllDigits(s: string) {
    forall i :: 0 <= i < |s| ==> IsDigit(s[i])
  }

  function DigitChar(d: nat): (c: char)
    requires d < 10
    ensures IsDigit(c) && c as int - '0' as int == d
  {
    (d + '0' as int) as char
  }

  /** Decimal text of `n`, as C# prints a non-negative integer: digits only,
      and no leading zero except for 0 itself. */
  function NatToString(n: nat): (s: string)
    ensures |s| > 0 && AllDigits(s)
    ensures s[0] == '0' ==> n == 0
    decreases n
  {
    if n < 10 then [DigitChar(n)] else NatToString(n / 10) + [DigitChar(n % 10)]
  }

  /** The number a run of decimal digits denotes. */
  function DigitsValue(s: string): nat
    requires AllDigits(s)
  {
    if |s| == 0 then 0 else DigitsValue(s[..|s| - 1]) * 10 + (s[|s| - 1] as int - '0' as int)
  }

  /** Reads a non-empty run of decimal digits. */
  function ParseNat(s: string): Nullable<nat> {
    if |s| > 0 && AllDigits(s) then Some(DigitsValue(s)) else Null
  }

  lemma {:induction false} DigitsValueOfNatToString(n: nat)
    ensures DigitsValue(NatToString(n)) == n
    decreases n
  {
    if n >= 10 {
      var prefix := NatToString(n / 10);
      var s := prefix + [DigitChar(n % 10)];
      assert s[..|s| - 1] == prefix;
      DigitsValueOfNatToString(n / 10);
    }
  }

  /** Parsing the decimal text of `n` gives back `n`. */
  lemma NatToStringParses(n: nat)
    ensures ParseNat(NatToString(n)) == Some(n)
  {
    DigitsValueOfNatToString(n);
  }

  // ----- hexadecimal text, as used by Guid.ToString() -----

  predicate IsHexDigit(c: char) {
    '0' <= c <= '9' || 'a' <= c <= 'f' || 'A' <= c <= 'F'
  }

  /** The digits `Guid.ToString()` writes. */
  predicate IsLowerHexDigit(c: char) {
    '0' <= c <= '9' || 'a' <= c <= 'f'
  }

  predicate AllHex(s: string) {
    forall i :: 0 <= i < |s| ==> IsHexDigit(s[i])
  }

  function HexChar(d: nat): (c: char)
    requires d < 16
    ensures IsHexDigit(c) && IsLowerHexDigit(c)
  {
    if d < 10 then (d + '0' as int) as char else (d - 10 + 'a' as int) as char
  }

  function HexDigitValue(c: char): (d: nat)
    requires IsHexDigit(c)
    ensures d < 16
  {
    if '0' <= c <= '9' then c as int - '0' as int
    else if 'a' <= c <= 'f' then c as int - 'a' as int + 10
    else c as int - 'A' as int + 10
  }

  function Pow16(k: nat): nat {
    if k == 0 then 1 else 16 * Pow16(k - 1)
  }

  /** `n` written with exactly `k` lower-case hexadecimal digits. */
  function HexDigits(n: nat, k: nat): (s: string)
    requires n < Pow16(k)
    ensures |s| == k && AllHex(s)
    ensures forall i :: 0 <= i < k ==> IsLowerHexDigit(s[i])
  {
    if k == 0 then [] else HexDigits(n / 16, k - 1) + [HexChar(n % 16)]
  }

  /** The number a run of hexadecimal digits denotes. */
  function HexNumber(s: string): (n: nat)
    requires AllHex(s)
    ensures n < Pow16(|s|)
  {
    if |s| == 0 then 0 else HexNumber(s[..|s| - 1]) * 16 + HexDigitValue(s[|s| - 1])
  }

  lemma {:induction false} HexNumberOfHexDigits(n: nat, k: nat)
    requires n < Pow16(k)
    ensures HexNumber(HexDigits(n, k)) == n
  {
    if k > 0 {
      var prefix := HexDigits(n / 16, k - 1);
      var s := prefix + [HexChar(n % 16)];
      assert s[..|s| - 1] == prefix;
      HexNumberOfHexDigits(n / 16, k - 1);
    }
  }

  lemma {:induction false} Pow16Add(a: nat, b: nat)
    ensures Pow16(a + b) == Pow16(a) * Pow16(b)
  {
    if a > 0 {
      Pow16Add(a - 1, b);
    }
  }

  lemma GuidBoundIsPow16()
    ensures Pow16(32) == GuidBound
  {
    assert Pow16(8) == 0x1_0000_0000;
    Pow16Add(8, 8);
    Pow16Add(16, 16);
  }

  /** `Guid.ToString()`: the "D" format, 32 lower-case hexadecimal digits in
      groups of 8-4-4-4-12 separated by hyphens. */
  function GuidToString(g: Guid): (s: string)
    ensures |s| == 36
    ensures s[8] == '-' && s[13] == '-' && s[18] == '-' && s[23] == '-'
    ensures forall k :: 0 <= k < 36 && k != 8 && k != 13 && k != 18 && k != 23 ==> IsLowerHexDigit(s[k])
  {
    GuidBoundIsPow16();
    var h := HexDigits(g, 32);
    h[..8] + "-" + h[8..12] + "-" + h[12..16] + "-" + h[16..20] + "-" + h[20..]
  }

  /** The digits of a "D"-format Guid text with its hyphens taken out. */
  function GuidDigits(s: string): string
    requires |s| == 36
  {
    s[..8] + s[9..13] + s[14..18] + s[19..23] + s[24..]
  }

  /** `Guid.Parse` restricted to the "D" format. */
  function ParseGuid(s: string): Nullable<Guid> {
    if |s| == 36 && s[8] == '-' && s[13] == '-' && s[18] == '-' && s[23] == '-' && AllHex(GuidDigits(s)) then
      GuidBoundIsPow16();
      Some(HexNumber(GuidDigits(s)) as Guid)
    else
      Null
  }

  lemma GuidToStringParses(g: Guid)
    ensures ParseGuid(GuidToString(g)) == Some(g)
  {
    GuidBoundIsPow16();
    var h := HexDigits(g, 32);
    var s := GuidToString(g);
    assert GuidDigits(s) == h by {
      assert s[..8] == h[..8];
      assert s[9..13] == h[8..12];
      assert s[14..18] == h[12..16];
      assert s[19..23] == h[16..20];
      assert s[24..] == h[20..];
      assert h == h[..8] + h[8..12] + h[12..16] + h[16..20] + h[20..];
    }
    HexNumberOfHexDigits(g, 32);
  }

  /** Distinct Guids print differently, so the text identifies the Guid. */
  lemma GuidToStringInjective(a: Guid, b: Guid)
    requires GuidToString(a) == GuidToString(b)
    ensures a == b
  {
    GuidToStringParses(a);
    GuidToStringParses(b);
  }
}
