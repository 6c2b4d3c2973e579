/**
 * Go's strconv.Atoi on a 64-bit platform, and the decimal formatting of
 * naturals that is its inverse.
 */
module Strconv {
  import opened Wrappers

  const MinInt64: int := -0x8000_0000_0000_0000
  const MaxInt64: int := 0x7FFF_FFFF_FFFF_FFFF
  const MaxUint64: int := 0xFFFF_FFFF_FFFF_FFFF

  datatype NumError = Syntax | Range

  predicate IsDigit(c: char) {
    '0' <= c <= '9'
  }

  predicate AllDigits(s: string) {
    forall i :: 0 <= i < |s| ==> IsDigit(s[i])
  }

  function DigitValue(c: char): (d: nat)
    requires IsDigit(c)
    ensures d < 10
  {
    c as int - '0' as int
  }

  function DigitChar(d: nat): (c: char)
    requires d < 10
    ensures IsDigit(c) && DigitValue(c) == d
  {
    ('0' as int + d) as char
  }

  /** The value of a string of decimal digits, read from left to right. */
  function Decimal(ds: string): nat
    requires AllDigits(ds)
  {
    if |ds| == 0 then 0 else Decimal(ds[..|ds| - 1]) * 10 + DigitValue(ds[|ds| - 1])
  }

  /** strconv.Itoa for natural numbers: shortest decimal form, no sign. */
  function FormatNat(n: nat): (s: string)
    ensures |s| >= 1 && AllDigits(s)
    ensures s[0] == '0' ==> n == 0 && s == "0"
  {
    if n < 10 then [DigitChar(n)] else FormatNat(n / 10) + [DigitChar(n % 10)]
  }

  /** Reading back a formatted natural gives the natural. */
  lemma {:induction false} DecimalFormatNat(n: nat)
    ensures Decimal(FormatNat(n)) == n
  {
    if n >= 10 {
      var s := FormatNat(n);
      assert s[..|s| - 1] == FormatNat(n / 10);
      DecimalFormatNat(n / 10);
    }
  }

  /** The text after an optional leading '+' or '-'. */
  function Unsigned(s: string): (u: string)
    ensures |s| > 0 && (s[0] == '+' || s[0] == '-') ==> u == s[1..]
    ensures !(|s| > 0 && (s[0] == '+' || s[0] == '-')) ==> u == s
  {
    if |s| > 0 && (s[0] == '+' || s[0] == '-') then s[1..] else s
  }

  /** The longest prefix of s made of decimal digits. */
  function DigitRun(s: string): (r: string)
    ensures |r| <= |s| && r == s[..|r|] && AllDigits(r)
    ensures |r| < |s| ==> !IsDigit(s[|r|])
  {
    if |s| > 0 && IsDigit(s[0]) then
      var t := DigitRun(s[1..]);
      assert [s[0]] + t == s[..|t| + 1];
      [s[0]] + t
    else ""
  }

  /** An optional sign followed by one or more decimal digits. */
  predicate IsNumeral(s: string) {
    |Unsigned(s)| > 0 && AllDigits(Unsigned(s))
  }

  /**
   * strconv.Atoi on a 64-bit platform: an optional '+' or '-' followed by at
   * least one decimal digit, a range error outside the 64-bit range, and a
   * syntax error otherwise. strconv.ParseUint reads the digits from the left
   * and gives up with a range error as soon as the value read so far passes
   * 2^64-1, so a digit run that long is a range error even when a character
   * that is not a digit follows it.
   */
  function Atoi(s: string): (r: Result<int, NumError>)
    ensures r.Ok? ==> MinInt64 <= r.value <= MaxInt64
    ensures r.Ok? ==> IsNumeral(s) && Decimal(Unsigned(s)) == (if s[0] == '-' then -r.value else r.value)
    ensures r.Ok? && r.value < 0 ==> s[0] == '-'
    ensures !IsNumeral(s) ==> r.Err?
    ensures Decimal(DigitRun(Unsigned(s))) > MaxUint64 ==> r == Err(Range)
    ensures r == Err(Syntax) <==> !IsNumeral(s) && Decimal(DigitRun(Unsigned(s))) <= MaxUint64
  {
    var digits := Unsigned(s);
    var run := DigitRun(digits);
    if Decimal(run) > MaxUint64 then Err(Range)
    else if |digits| == 0 || run != digits then Err(Syntax)
    else
      var v := if s[0] == '-' then 0 - Decimal(digits) else Decimal(digits) as int;
      if v < MinInt64 || v > MaxInt64 then Err(Range) else Ok(v)
  }

  function Pow10(n: nat): (p: nat)
    ensures p >= 1
  {
    if n == 0 then 1 else 10 * Pow10(n - 1)
  }

  /** A string of n digits is worth less than 10^n. */
  lemma {:induction false} DecimalBound(ds: string)
    requires AllDigits(ds)
    ensures Decimal(ds) < Pow10(|ds|)
  {
    if |ds| > 0 {
      DecimalBound(ds[..|ds| - 1]);
    }
  }

  /**
   * Below 19 characters (Atoi's fast path) no digit run can pass 2^64-1, so
   * every input that is not a numeral is a syntax error.
   */
  lemma AtoiShortSyntax(s: string)
    requires |s| < 19 && !IsNumeral(s)
    ensures Atoi(s) == Err(Syntax)
  {
    var run := DigitRun(Unsigned(s));
    DecimalBound(run);
    PowMonotone(|run|, 18);
    Pow10Add(6, 6);
    Pow10Add(12, 6);
    assert Pow10(6) == 1_000_000;
  }

  lemma {:induction false} Pow10Add(m: nat, n: nat)
    ensures Pow10(m + n) == Pow10(m) * Pow10(n)
  {
    if n > 0 {
      Pow10Add(m, n - 1);
    }
  }

  lemma {:induction false} PowMonotone(m: nat, n: nat)
    requires m <= n
    ensures Pow10(m) <= Pow10(n)
  {
    if m < n {
      PowMonotone(m, n - 1);
    }
  }

  /** A digit run past 2^64-1 is a range error whatever follows it. */
  lemma AtoiRangeBeforeSyntax(n: nat, tail: string)
    requires n > MaxUint64
    requires tail != [] && !IsDigit(tail[0])
    ensures Atoi(FormatNat(n) + tail) == Err(Range)
  {
    DecimalFormatNat(n);
    RunPastRange(FormatNat(n), tail);
  }

  lemma RunPastRange(ds: string, tail: string)
    requires |ds| > 0 && AllDigits(ds) && Decimal(ds) > MaxUint64
    requires tail != [] && !IsDigit(tail[0])
    ensures Atoi(ds + tail) == Err(Range)
  {
    assert Unsigned(ds + tail) == ds + tail;
    DigitRunPrefix(ds, tail);
  }

  /** The digit run of digits followed by a character that is not a digit is those digits. */
  lemma {:induction false} DigitRunPrefix(ds: string, tail: string)
    requires AllDigits(ds)
    requires tail != [] && !IsDigit(tail[0])
    ensures DigitRun(ds + tail) == ds
  {
    if |ds| > 0 {
      assert (ds + tail)[1..] == ds[1..] + tail;
      DigitRunPrefix(ds[1..], tail);
      assert ds == [ds[0]] + ds[1..];
    } else {
      assert ds + tail == tail;
    }
  }

  /** Twenty nines and then 'x': a range error, not a syntax error. */
  lemma ExampleOverlongRun()
    ensures Atoi("99999999999999999999x") == Err(Range)
  {
    var nines := seq(20, _ => '9');
    assert "99999999999999999999x" == nines + "x";
    TwentyNines();
    RunPastRange(nines, "x");
  }

  lemma TwentyNines()
    ensures AllDigits(seq(20, _ => '9')) && Decimal(seq(20, _ => '9')) > MaxUint64
  {
    Nines(20);
    Pow10Add(10, 10);
    Pow10Add(5, 5);
    assert Pow10(5) == 100_000;
  }

  /** n nines are worth 10^n - 1. */
  lemma {:induction false} Nines(n: nat)
    ensures AllDigits(seq(n, _ => '9')) && Decimal(seq(n, _ => '9')) == Pow10(n) - 1
  {
    if n > 0 {
      Nines(n - 1);
      assert seq(n, _ => '9')[..n - 1] == seq(n - 1, _ => '9');
    }
  }

  /** The digit run of a string of digits is the whole string. */
  lemma DigitRunAll(ds: string)
    requires AllDigits(ds)
    ensures DigitRun(ds) == ds
  {
  }

  /** Atoi reads back every formatted natural in the 64-bit range. */
  lemma AtoiFormatNat(n: nat)
    requires n <= MaxInt64
    ensures Atoi(FormatNat(n)) == Ok(n)
  {
    DecimalFormatNat(n);
    DigitRunAll(FormatNat(n));
  }

  /** Atoi reads back every formatted negative number in the 64-bit range. */
  lemma AtoiFormatNegative(n: nat)
    requires 0 < n <= -MinInt64
    ensures Atoi("-" + FormatNat(n)) == Ok(0 - n)
  {
    var t := "-" + FormatNat(n);
    DecimalFormatNat(n);
    assert Unsigned(t) == FormatNat(n);
    DigitRunAll(FormatNat(n));
    assert Decimal(DigitRun(Unsigned(t))) == n;
  }

  /** A formatted natural just past the 64-bit range is a range error, not a syntax error. */
  lemma AtoiRange(n: nat)
    requires n > MaxInt64
    ensures Atoi(FormatNat(n)) == Err(Range)
  {
    DecimalFormatNat(n);
  }
}
