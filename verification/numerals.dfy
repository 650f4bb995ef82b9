/** Decimal numerals: how the formatters read a reading with
    `str::parse::<f64>` and display a floored value with `f64::to_string`. */
module Numerals {
  import opened Common
  import opened Text

  predicate IsDigit(c: char)
  {
    '0' <= c <= '9'
  }

  predicate AllDigits(s: string)
  {
    forall i :: 0 <= i < |s| ==> IsDigit(s[i])
  }

  function DigitValue(c: char): nat
    requires IsDigit(c)
  {
    c as int - '0' as int
  }

  function DigitChar(d: nat): (c: char)
    requires d < 10
    ensures IsDigit(c) && DigitValue(c) == d
  {
    ('0' as int + d) as char
  }

  /** Value of a digit string read most significant first; "" reads as 0. */
  function DigitsValue(s: string): nat
    requires AllDigits(s)
  {
    if s == [] then 0
    else DigitsValue(s[..|s| - 1]) * 10 + DigitValue(s[|s| - 1])
  }

  function Pow10(k: nat): (r: nat)
    ensures r >= 1
  {
    if k == 0 then 1 else 10 * Pow10(k - 1)
  }

  /** How an integral `f64` displays: decimal digits, no sign, no leading
      zeros, no fractional part. */
  function NatToString(n: nat): (s: string)
    ensures |s| >= 1 && AllDigits(s)
    ensures |s| > 1 ==> s[0] != '0'
  {
    if n < 10 then [DigitChar(n)] else NatToString(n / 10) + [DigitChar(n % 10)]
  }

  /** Reads back a displayed integer: a non-empty digit string. */
  function ParseNat(s: string): Option<nat>
  {
    if s != [] && AllDigits(s) then Some(DigitsValue(s)) else None
  }

  /** Displaying and reading back gives the same integer. */
  lemma {:induction false} ParseNatToString(n: nat)
    ensures ParseNat(NatToString(n)) == Some(n)
  {
    var s := NatToString(n);
    if n >= 10 {
      var front := NatToString(n / 10);
      ParseNatToString(n / 10);
      assert s[..|s| - 1] == front;
      assert DigitsValue(front) == n / 10;
      assert DigitsValue(s) == (n / 10) * 10 + n % 10;
    } else {
      assert DigitsValue(s) == DigitsValue(s[..0]) * 10 + n;
    }
  }

  /** A non-negative decimal reading `num / 10^scale`. */
  datatype Decimal = Decimal(num: nat, scale: nat)

  /** The numerals the model accepts as a reading: digits, optionally one '.'
      followed by digits, with at least one digit in all ("5", "12.7", "5.",
      ".5"). Anything else is a parse error. "w.f" reads as the integer
      `wf` scaled down by one power of ten per fractional digit. */
  function ParseDecimal(s: string): (r: Option<Decimal>)
    ensures Find(s, '.').None? ==> (r.Some? <==> s != [] && AllDigits(s))
    ensures Find(s, '.').None? && r.Some? ==> r.value == Decimal(DigitsValue(s), 0)
    ensures Find(s, '.').Some? ==>
              var i := Find(s, '.').value;
              (r.Some? <==> AllDigits(s[..i]) && AllDigits(s[i + 1..]) && |s| >= 2)
    ensures Find(s, '.').Some? && r.Some? ==>
              var i := Find(s, '.').value;
              r.value == Decimal(DigitsValue(s[..i]) * Pow10(|s| - i - 1) + DigitsValue(s[i + 1..]), |s| - i - 1)
    ensures r.Some? ==>
              var whole := if Find(s, '.').None? then s else s[..Find(s, '.').value];
              AllDigits(whole) && Floor(r.value) == DigitsValue(whole)
  {
    match Find(s, '.')
    case None =>
      if s != [] && AllDigits(s) then
        Some(Decimal(DigitsValue(s), 0))
      else None
    case Some(i) =>
      assert |s[i + 1..]| == |s| - i - 1;
      ParseFraction(s[..i], s[i + 1..])
  }

  /** The reading of "whole.frac", given the digits either side of the '.'. */
  function ParseFraction(whole: string, frac: string): (r: Option<Decimal>)
    ensures r.Some? <==> AllDigits(whole) && AllDigits(frac) && |whole| + |frac| >= 1
    ensures r.Some? ==>
              && r.value == Decimal(DigitsValue(whole) * Pow10(|frac|) + DigitsValue(frac), |frac|)
              && Floor(r.value) == DigitsValue(whole)
  {
    if AllDigits(whole) && AllDigits(frac) && |whole| + |frac| >= 1 then
      DigitsAppend(whole, frac);
      Some(Decimal(DigitsValue(whole + frac), |frac|))
    else None
  }

  /** A displayed integer reads back as that integer with no fractional
      digits. */
  lemma ParseDecimalOfNat(n: nat)
    ensures ParseDecimal(NatToString(n)) == Some(Decimal(n, 0))
  {
    var s := NatToString(n);
    ParseNatToString(n);
    assert forall i :: 0 <= i < |s| ==> s[i] != '.';
  }

  /** Appending digits scales the value: the integer part of
      `whole.frac` is the value of `whole`. */
  lemma DigitsAppend(whole: string, frac: string)
    requires AllDigits(whole) && AllDigits(frac)
    ensures AllDigits(whole + frac)
    ensures DigitsValue(whole + frac) == DigitsValue(whole) * Pow10(|frac|) + DigitsValue(frac)
    ensures DigitsValue(frac) < Pow10(|frac|)
    ensures DigitsValue(whole + frac) / Pow10(|frac|) == DigitsValue(whole)
  {
    DigitsScale(whole, frac);
    DigitsBound(frac);
    DivExact(DigitsValue(whole), Pow10(|frac|), DigitsValue(frac));
  }

  lemma {:induction false} DigitsScale(whole: string, frac: string)
    requires AllDigits(whole) && AllDigits(frac)
    ensures AllDigits(whole + frac)
    ensures DigitsValue(whole + frac) == DigitsValue(whole) * Pow10(|frac|) + DigitsValue(frac)
  {
    var s := whole + frac;
    assert AllDigits(s) by {
      forall i | 0 <= i < |s| ensures IsDigit(s[i]) {
        if i >= |whole| { assert s[i] == frac[i - |whole|]; }
      }
    }
    if frac == [] {
      assert s == whole;
    } else {
      var f' := frac[..|frac| - 1];
      var last := DigitValue(frac[|frac| - 1]);
      assert s[..|s| - 1] == whole + f';
      assert s[|s| - 1] == frac[|frac| - 1];
      DigitsScale(whole, f');
      var w := DigitsValue(whole);
      var p := Pow10(|f'|);
      var d := DigitsValue(f');
      assert DigitsValue(s) == DigitsValue(whole + f') * 10 + last;
      assert DigitsValue(frac) == d * 10 + last;
      assert Pow10(|frac|) == 10 * p;
      ShiftDigit(w, p, d, last);
    }
  }

  lemma ShiftDigit(w: int, p: int, d: int, last: int)
    ensures (w * p + d) * 10 + last == w * (10 * p) + (d * 10 + last)
  {
  }

  lemma {:induction false} DigitsBound(s: string)
    requires AllDigits(s)
    ensures DigitsValue(s) < Pow10(|s|)
  {
    if s != [] {
      var s' := s[..|s| - 1];
      DigitsBound(s');
      assert DigitsValue(s') + 1 <= Pow10(|s'|);
      MulLe(DigitsValue(s') + 1, Pow10(|s'|), 10);
    }
  }

  /** Division by `d` undoes `q * d + r` for a remainder `r < d`. */
  lemma DivExact(q: nat, d: nat, r: nat)
    requires r < d
    ensures (q * d + r) / d == q
  {
    var x := q * d + r;
    var k := x / d;
    var m := x % d;
    assert x == k * d + m;
    if k > q {
      MulLe(q + 1, k, d);
    } else if k < q {
      MulLe(k + 1, q, d);
    }
  }

  lemma MulLe(a: nat, b: nat, d: nat)
    requires a <= b
    ensures a * d <= b * d
  {
    assert b * d == a * d + (b - a) * d;
  }

  /** Integer division of naturals: the quotient brackets the dividend. */
  function Quotient(a: nat, b: nat): (q: nat)
    requires b > 0
    ensures q * b <= a < (q + 1) * b
  {
    var q := a / b;
    assert a == q * b + a % b;
    assert (q + 1) * b == q * b + b;
    q
  }

  /** `floor(x)` of a reading. */
  function Floor(d: Decimal): (r: nat)
    ensures r * Pow10(d.scale) <= d.num < (r + 1) * Pow10(d.scale)
  {
    Quotient(d.num, Pow10(d.scale))
  }

  /** `floor(t * 9 / 5 + 32)` of a Celsius reading `t`. */
  function FahrenheitFloor(d: Decimal): (r: nat)
    ensures r >= 32
    ensures (r - 32) * (5 * Pow10(d.scale)) <= 9 * d.num < (r - 31) * (5 * Pow10(d.scale))
  {
    var q := Quotient(9 * d.num, 5 * Pow10(d.scale));
    Shift32(9 * d.num, 5 * Pow10(d.scale), q);
    q + 32
  }

  /** Adding 32 to a quotient shifts its bracket by 32. */
  lemma Shift32(a: nat, b: nat, q: nat)
    requires q * b <= a < (q + 1) * b
    ensures (q + 32 - 32) * b <= a < (q + 32 - 31) * b
  {
    assert q + 32 - 32 == q;
    assert q + 32 - 31 == q + 1;
  }
}
