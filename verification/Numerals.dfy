/** Positional numerals: what `%d`, `%zu`, `%x` and Kotlin's `toString(16)` write, and what `strtol` and the readers take back. */
module Numerals {

  const DIGITS: string := "0123456789abcdef"

  /** One more than the largest `int`. */
  const INT_LIMIT: int := 0x8000_0000

  /** The bases the agent uses. */
  predicate IsBase(base: nat) { base == 10 || base == 16 }

  function DigitOf(d: nat): char
    requires d < 16
  {
    DIGITS[d]
  }

  predicate IsDigit(c: char, base: nat)
    requires IsBase(base)
  {
    if base == 10 then '0' <= c <= '9' else '0' <= c <= '9' || 'a' <= c <= 'f'
  }

  function DigitValue(c: char): nat
    requires IsDigit(c, 16)
  {
    if c <= '9' then c as int - '0' as int else c as int - 'a' as int + 10
  }

  predicate AllDigits(s: string, base: nat)
    requires IsBase(base)
  {
    forall i :: 0 <= i < |s| ==> IsDigit(s[i], base)
  }

  /** The numeral of `n`, most significant digit first, without leading zeros. */
  function Numeral(n: nat, base: nat): string
    requires IsBase(base)
    decreases n
  {
    if n < base then [DigitOf(n)] else Numeral(n / base, base) + [DigitOf(n % base)]
  }

  function NumeralValue(s: string, base: nat): nat
    requires IsBase(base) && AllDigits(s, base)
  {
    if s == "" then 0 else NumeralValue(s[..|s| - 1], base) * base + DigitValue(s[|s| - 1])
  }

  /** Signed decimal, as `%d` and `%ld` print it. */
  function Decimal(n: int): string {
    if n < 0 then "-" + Numeral(-n, 10) else Numeral(n, 10)
  }

  /** Kotlin's `Long.toString(16)`. */
  function SignedHex(n: int): string {
    if n < 0 then "-" + Numeral(-n, 16) else Numeral(n, 16)
  }

  /** `%0<width>`: left padding with zeros up to a width. */
  function ZeroPadded(s: string, width: nat): string {
    if |s| >= width then s else seq(width - |s|, _ => '0') + s
  }

  function Power(base: nat, k: nat): nat { if k == 0 then 1 else base * Power(base, k - 1) }

  lemma {:induction false} NumeralIsDigits(n: nat, base: nat)
    requires IsBase(base)
    ensures Numeral(n, base) != "" && AllDigits(Numeral(n, base), base)
    ensures n > 0 ==> Numeral(n, base)[0] != '0'
    ensures |Numeral(n, base)| > 1 ==> Numeral(n, base)[0] != '0'
    decreases n
  {
    if n >= base {
      NumeralIsDigits(n / base, base);
      assert n / base > 0;
    }
  }

  /** Reading a numeral gives back the number it was printed from. */
  lemma {:induction false} NumeralRoundTrip(n: nat, base: nat)
    requires IsBase(base)
    ensures AllDigits(Numeral(n, base), base)
    ensures NumeralValue(Numeral(n, base), base) == n
    decreases n
  {
    NumeralIsDigits(n, base);
    QuotientRemainder(n, base);
    DigitOfValue(n % base);
    hide DigitOf, DigitValue, AllDigits;
    if n >= base {
      NumeralRoundTrip(n / base, base);
      ValueOfAppend(Numeral(n / base, base), DigitOf(n % base), base);
    } else {
      ValueOfAppend("", DigitOf(n), base);
      assert "" + [DigitOf(n)] == Numeral(n, base);
    }
  }

  lemma {:induction false} LeadingZero(s: string, base: nat)
    requires IsBase(base) && AllDigits(s, base)
    ensures AllDigits("0" + s, base) && NumeralValue("0" + s, base) == NumeralValue(s, base)
    decreases |s|
  {
    var t := "0" + s;
    assert forall i :: 0 < i < |t| ==> t[i] == s[i - 1];
    if s == "" {
      assert t[..0] == "" && t[0] == '0';
    } else {
      assert t[..|t| - 1] == "0" + s[..|s| - 1];
      LeadingZero(s[..|s| - 1], base);
    }
  }

  lemma PadOnce(s: string, width: nat)
    ensures |s| < width ==> ZeroPadded(s, width) == "0" + ZeroPadded(s, width - 1)
    ensures |s| >= width ==> ZeroPadded(s, width) == s
  {
  }

  /** Padding with zeros keeps the value. */
  lemma {:induction false} PaddedReads(s: string, width: nat, base: nat)
    requires IsBase(base) && AllDigits(s, base)
    ensures AllDigits(ZeroPadded(s, width), base) && NumeralValue(ZeroPadded(s, width), base) == NumeralValue(s, base)
    ensures |ZeroPadded(s, width)| == if |s| < width then width else |s|
    decreases width
  {
    hide NumeralValue, AllDigits, ZeroPadded;
    PadOnce(s, width);
    if |s| < width {
      PaddedReads(s, width - 1, base);
      LeadingZero(ZeroPadded(s, width - 1), base);
    }
  }

  /** Sign and magnitude of a signed numeral, in either base. */
  lemma SignedReads(n: int)
    ensures var m := if n < 0 then -n else n;
      && (if n < 0 then Decimal(n) == "-" + Numeral(m, 10) else Decimal(n) == Numeral(m, 10))
      && AllDigits(Numeral(m, 10), 10) && NumeralValue(Numeral(m, 10), 10) == m
      && (if n < 0 then SignedHex(n) == "-" + Numeral(m, 16) else SignedHex(n) == Numeral(m, 16))
      && AllDigits(Numeral(m, 16), 16) && NumeralValue(Numeral(m, 16), 16) == m
  {
    NumeralRoundTrip(if n < 0 then -n else n, 10);
    NumeralRoundTrip(if n < 0 then -n else n, 16);
    hide Numeral, NumeralValue, AllDigits;
  }

  lemma QuotientRemainder(n: nat, base: nat)
    requires IsBase(base)
    ensures n / base * base + n % base == n && n % base < base && (n < base ==> n % base == n)
  {
    if base == 10 {} else {}
  }

  lemma DigitOfValue(d: nat)
    requires d < 16
    ensures IsDigit(DigitOf(d), 16) && DigitValue(DigitOf(d)) == d
    ensures d < 10 ==> IsDigit(DigitOf(d), 10)
  {
  }

  lemma ValueOfAppend(s: string, c: char, base: nat)
    requires IsBase(base) && AllDigits(s, base) && IsDigit(c, base)
    ensures AllDigits(s + [c], base)
    ensures NumeralValue(s + [c], base) == NumeralValue(s, base) * base + DigitValue(c)
  {
    assert (s + [c])[..|s|] == s;
  }

  lemma {:induction false} NumeralLength(n: nat, base: nat, k: nat)
    requires IsBase(base) && 1 <= k && n < Power(base, k)
    ensures |Numeral(n, base)| <= k
    decreases k
  {
    if n >= base {
      assert Power(base, k) == base * Power(base, k - 1);
      assert k > 1 && n / base < Power(base, k - 1) by { if base == 10 {} }
      NumeralLength(n / base, base, k - 1);
    }
  }

  /** The widths of the integer types the report prints. */
  lemma WordLength(n: nat)
    requires n < 0x1_0000_0000_0000_0000
    ensures |Numeral(n, 10)| <= 20
  {
    assert Power(10, 5) == 100000;
    assert Power(10, 10) == 10000000000;
    assert Power(10, 15) == 1000000000000000;
    assert Power(10, 20) == 100000000000000000000;
    NumeralLength(n, 10, 20);
  }

  lemma IntLength(n: int)
    requires -INT_LIMIT <= n < INT_LIMIT
    ensures |Decimal(n)| <= 11
  {
    assert Power(10, 5) == 100000;
    assert Power(10, 10) == 10000000000;
    NumeralLength(if n < 0 then -n else n, 10, 10);
  }

  lemma HexLength(n: nat)
    requires n < 0x1_0000_0000
    ensures |Numeral(n, 16)| <= 8
  {
    assert Power(16, 4) == 0x10000;
    assert Power(16, 8) == 0x1_0000_0000;
    NumeralLength(n, 16, 8);
  }
}
