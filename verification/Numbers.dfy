/** Machine integers, powers of two and decimal text, as Go's int64, time.Duration and strconv use them. */
module Numbers {

  datatype Option<+T> = None | Some(value: T)

  const TWO_63: int := 0x8000_0000_0000_0000
  const TWO_64: int := 0x1_0000_0000_0000_0000

  /** Go's int (on 64-bit targets), int64 and time.Duration. */
  type int64 = x: int | -TWO_63 <= x < TWO_63

  /** The int64 that an arithmetic result wraps to. */
  function Wrap64(x: int): (r: int64)
    ensures (x - r) % TWO_64 == 0
    ensures -TWO_63 <= x < TWO_63 ==> r == x
  {
    (x + TWO_63) % TWO_64 - TWO_63
  }

  function Min(a: int, b: int): int { if a <= b then a else b }

  function Max(a: int, b: int): int { if a >= b then a else b }

  /** Go's integer division, which truncates toward zero. */
  function TruncDiv(a: int, b: int): int
    requires 0 < b
  {
    if a >= 0 then a / b else -((-a) / b)
  }

  function Pow2(n: nat): (p: nat)
    ensures p >= 1
  {
    if n == 0 then 1 else 2 * Pow2(n - 1)
  }

  lemma {:induction false} ScaleByPow2(d: int, k: nat)
    requires 0 < d
    ensures d <= d * Pow2(k)
    ensures k > 0 ==> d * Pow2(k) == (2 * d) * Pow2(k - 1) == 2 * (d * Pow2(k - 1))
  {
  }

  // ---------------------------------------------------------------- decimal text

  predicate IsDigit(c: char) { '0' <= c <= '9' }

  function Digit(d: int): (c: char)
    requires 0 <= d < 10
    ensures IsDigit(c) && DigitValue(c) == d
  {
    (d + '0' as int) as char
  }

  function DigitValue(c: char): (d: int)
    requires IsDigit(c)
    ensures 0 <= d < 10
  {
    c as int - '0' as int
  }

  function Digits(n: nat): (s: string)
    ensures |s| >= 1 && forall i :: 0 <= i < |s| ==> IsDigit(s[i])
  {
    if n < 10 then [Digit(n)] else Digits(n / 10) + [Digit(n % 10)]
  }

  /** strconv.Itoa and strconv.FormatInt(_, 10). */
  function Itoa(n: int): string {
    if n < 0 then "-" + Digits(-n) else Digits(n)
  }

  /** The value of a non-empty run of digits. */
  function ParseDigits(s: string): Option<nat> {
    if |s| == 0 || !IsDigit(s[|s| - 1]) then None
    else if |s| == 1 then Some(DigitValue(s[0]))
    else match ParseDigits(s[..|s| - 1])
      case None => None
      case Some(high) => Some(10 * high + DigitValue(s[|s| - 1]))
  }

  function InRange(n: int): Option<int64> {
    if -TWO_63 <= n < TWO_63 then Some(n) else None
  }

  /** strconv.Atoi and strconv.ParseInt(_, 10, 64): an optional sign, digits only, within int64. */
  function Atoi(s: string): Option<int64> {
    if |s| > 0 && s[0] == '-' then
      match ParseDigits(s[1..]) case None => None case Some(n) => InRange(-(n as int))
    else if |s| > 0 && s[0] == '+' then
      match ParseDigits(s[1..]) case None => None case Some(n) => InRange(n)
    else
      match ParseDigits(s) case None => None case Some(n) => InRange(n)
  }

  lemma {:induction false} DigitsRoundTrip(n: nat)
    ensures ParseDigits(Digits(n)) == Some(n)
  {
    if n >= 10 {
      DigitsRoundTrip(n / 10);
      var s := Digits(n);
      assert s[..|s| - 1] == Digits(n / 10);
    }
  }

  /** No zeros in front. */
  lemma {:induction false} NoLeadingZeros(n: nat)
    ensures if n == 0 then Digits(n) == "0" else Digits(n)[0] != '0'
  {
    if n >= 10 { NoLeadingZeros(n / 10); }
  }

  lemma {:induction false} AtoiUnsigned(s: string, n: nat)
    requires ParseDigits(s) == Some(n) && |s| > 0 && IsDigit(s[0]) && n < TWO_63
    ensures Atoi(s) == Some(n)
  {
  }

  lemma {:induction false} AtoiNegated(s: string, n: nat)
    requires ParseDigits(s) == Some(n) && n <= TWO_63
    ensures Atoi("-" + s) == Some(-(n as int))
  {
  }

  /** Every int64 written in decimal is read back unchanged, and written without zeros in front. */
  lemma {:induction false} AtoiItoa(n: int64)
    ensures Atoi(Itoa(n)) == Some(n)
    ensures n > 0 ==> Itoa(n)[0] != '0'
  {
    if n > 0 { NoLeadingZeros(n); }
    var m: nat := if n < 0 then -(n as int) else n;
    DigitsRoundTrip(m);
    if n < 0 { AtoiNegated(Digits(m), m); } else { AtoiUnsigned(Digits(m), m); }
  }
}
