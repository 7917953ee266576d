/** Decimal text: strconv.Itoa and strconv.Atoi as the marks use them, and the
    hand-written itoa of internal/pipeline/outcome_string.go. */
module Decimal {
  import opened Wrappers

  const MAX_INT64 := 0x7fff_ffff_ffff_ffff
  const MIN_INT64 := -0x8000_0000_0000_0000

  /** A Go int on a 64-bit platform, and a time.Duration. */
  type int64 = x: int | MIN_INT64 <= x <= MAX_INT64

  /** Two's complement wrap-around of an int64 operation. */
  function Wrap64(x: int): (r: int64)
    ensures MIN_INT64 <= x <= MAX_INT64 ==> r == x
    ensures (r - x) % 0x1_0000_0000_0000_0000 == 0
  {
    (x + 0x8000_0000_0000_0000) % 0x1_0000_0000_0000_0000 - 0x8000_0000_0000_0000
  }

  predicate IsDigit(c: char) {
    '0' <= c <= '9'
  }

  predicate AllDigits(s: string) {
    forall i | 0 <= i < |s| :: IsDigit(s[i])
  }

  function Digit(n: nat): (c: char)
    requires n < 10
    ensures IsDigit(c) && DigitValue(c) == n
  {
    '0' + n as char
  }

  function DigitValue(c: char): nat
    requires IsDigit(c)
  {
    (c as int) - ('0' as int)
  }

  /** The shortest decimal text of n. */
  function Digits(n: nat): string {
    if n < 10 then [Digit(n)] else Digits(n / 10) + [Digit(n % 10)]
  }

  /** The number a run of digits denotes; the empty run denotes zero. */
  function Value(s: string): nat
    requires AllDigits(s)
  {
    if s == [] then 0 else Value(s[..|s| - 1]) * 10 + DigitValue(s[|s| - 1])
  }

  lemma {:induction false} DigitsReadBack(n: nat)
    ensures AllDigits(Digits(n)) && Digits(n) != []
    ensures Value(Digits(n)) == n
    ensures n > 0 ==> Digits(n)[0] != '0'
  {
    var s := Digits(n);
    if n < 10 {
      assert s[..0] == [];
    } else {
      DigitsReadBack(n / 10);
      assert s[..|s| - 1] == Digits(n / 10);
    }
  }

  function Pow10(k: nat): (p: nat)
    ensures p > 0
  {
    if k == 0 then 1 else 10 * Pow10(k - 1)
  }

  lemma {:induction false} DigitsLength(n: nat, k: nat)
    requires k > 0 && n < Pow10(k)
    ensures |Digits(n)| <= k
  {
    if n >= 10 {
      DigitsLength(n / 10, k - 1);
    }
  }

  lemma Pow10Of19()
    ensures Pow10(19) == 10_000_000_000_000_000_000
  {
    assert Pow10(3) == 10 * Pow10(2) == 1000;
    Pow10Step(3, 4);
    Pow10Step(7, 4);
    Pow10Step(11, 4);
    Pow10Step(15, 4);
  }

  lemma Pow10Step(k: nat, j: nat)
    ensures Pow10(k + j) == Pow10(k) * Pow10(j)
  {
    if j > 0 {
      Pow10Step(k, j - 1);
    }
  }

  function Abs(n: int): nat {
    if n < 0 then -n else n
  }

  /** strconv.Itoa. */
  function Itoa(n: int): string {
    if n < 0 then "-" + Digits(Abs(n)) else Digits(n)
  }

  /** strconv.Atoi: an optional sign, at least one digit, nothing else, and a
      value that fits an int64. */
  function Atoi(s: string): Option<int64> {
    var signed := s != [] && (s[0] == '-' || s[0] == '+');
    var body := if signed then s[1..] else s;
    if body == [] || !AllDigits(body) then None
    else
      var v: int := if signed && s[0] == '-' then -(Value(body) as int) else Value(body);
      if MIN_INT64 <= v <= MAX_INT64 then Some(v) else None
  }

  lemma AtoiReadsItoa(n: int64)
    ensures Atoi(Itoa(n)) == Some(n)
  {
    DigitsReadBack(Abs(n));
    if n < 0 {
      assert Itoa(n)[1..] == Digits(Abs(n));
    }
  }

  lemma ItoaInjective(a: int, b: int)
    requires Itoa(a) == Itoa(b)
    ensures a == b
  {
    DigitsReadBack(Abs(a));
    DigitsReadBack(Abs(b));
    if a < 0 && b < 0 {
      assert Itoa(a)[1..] == Digits(Abs(a));
      assert Itoa(b)[1..] == Digits(Abs(b));
    }
  }

  /** What itoa answers: the decimal text, except at the most negative integer,
      whose negation wraps back to itself so that the digit loop never runs. */
  function ItoaText(n: int64): string {
    if n == MIN_INT64 then "-" else Itoa(n)
  }

  /** The digits the loop has still to write. */
  function Remaining(n: int): string {
    if n > 0 then Digits(n) else ""
  }

  lemma RemainingStep(n: nat)
    requires n > 0
    ensures Remaining(n) == Remaining(n / 10) + [Digit(n % 10)]
  {
  }

  lemma RemainingFits(n: int)
    requires n <= MAX_INT64
    ensures |Remaining(n)| <= 19
  {
    if n > 0 {
      Pow10Of19();
      DigitsLength(n, 19);
    }
  }

  /** n = -n on an int64: the most negative integer is its own negation. */
  method Negate(n: int64) returns (r: int)
    requires n < 0
    ensures r == if n == MIN_INT64 then n else 0 - n as int
  {
    r := Wrap64(0 - n as int);
  }

  lemma WriteBefore(n: nat, rest: string, whole: string)
    requires n > 0 && Remaining(n) + rest == whole
    ensures Remaining(n / 10) + ([Digit(n % 10)] + rest) == whole
    ensures |rest| < |whole|
  {
    RemainingStep(n);
    assert Remaining(n / 10) + ([Digit(n % 10)] + rest) == Remaining(n / 10) + [Digit(n % 10)] + rest;
  }

  lemma ZeroText()
    ensures ItoaText(0) == "0"
  {
  }

  lemma NothingRemains(n: int)
    requires n <= 0
    ensures Remaining(n) == ""
  {
  }

  /** A sign, if there is one, and the digits of what the loop runs on. */
  lemma TextIs(number: int64, n: int)
    requires number != 0
    requires n == if number < 0 && number != MIN_INT64 then 0 - number as int else number
    ensures ItoaText(number) == (if number < 0 then "-" else "") + Remaining(n)
  {
  }

  /** The 20-byte buffer is filled from its end. Every write is inside it:
      nineteen digits and a sign are the most an int64 needs. */
  method FormatOutcome(number: int64) returns (text: string)
    ensures text == ItoaText(number)
  {
    hide Remaining, ItoaText, Digit;
    if number == 0 {
      ZeroText();
      return "0";
    }
    var neg := number < 0;
    var n: int := number;
    if neg {
      n := Negate(number);
    }
    var b := new char[20];
    var i := b.Length;
    ghost var magnitude := Remaining(n);
    RemainingFits(n);
    TextIs(number, n);
    while n > 0
      invariant 0 <= i <= 20 && |magnitude| <= 19
      invariant n < 0 ==> number == MIN_INT64 && i == 20
      invariant Remaining(n) + b[i..] == magnitude
      decreases n
    {
      ghost var rest := b[i..];
      WriteBefore(n, rest, magnitude);
      i := i - 1;
      b[i] := Digit(n % 10);
      assert b[i..] == [Digit(n % 10)] + rest;
      n := n / 10;
    }
    NothingRemains(n);
    assert b[i..] == magnitude;
    if neg {
      i := i - 1;
      b[i] := '-';
      assert b[i..] == "-" + magnitude;
    }
    return b[i..];
  }

  /** Printing reads back, with no leading zero, for every int64 but one. */
  lemma OutcomeTextReadsBack(n: int64)
    ensures Atoi(ItoaText(n)) == (if n == MIN_INT64 then None else Some(n))
    ensures n > 0 ==> ItoaText(n)[0] != '0'
    ensures MIN_INT64 < n < 0 ==> |ItoaText(n)| > 1 && ItoaText(n)[0] == '-' && ItoaText(n)[1] != '0'
  {
    if n == MIN_INT64 {
      assert "-"[1..] == [];
    } else {
      AtoiReadsItoa(n);
      DigitsReadBack(Abs(n));
    }
  }
}
