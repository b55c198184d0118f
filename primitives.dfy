/** The parts of Rust's standard library that the client leans on: the integer types `i32`
    and `u32`, the decimal `Display` of integers that `format!` uses, and `char::to_digit(10)`;
    together with the reading of decimal text back into numbers, which is what gives the
    rendered text its meaning. */
module Primitives {
  import opened Wrappers

  /** Rust's `i32` and `u32`. */
  type i32 = x: int | -0x8000_0000 <= x < 0x8000_0000
  type u32 = x: int | 0 <= x < 0x1_0000_0000

  predicate IsDigit(c: char) { '0' <= c <= '9' }

  predicate AllDigits(s: string) { forall i :: 0 <= i < |s| ==> IsDigit(s[i]) }

  /** Text made of decimal digits and minus signs only, as the rendering of an integer is. */
  predicate NumericText(s: string) { forall i :: 0 <= i < |s| ==> IsDigit(s[i]) || s[i] == '-' }

  function DigitValue(c: char): (d: nat)
    requires IsDigit(c)
    ensures d < 10
  {
    c as int - '0' as int
  }

  function DigitChar(d: nat): (c: char)
    requires d < 10
    ensures IsDigit(c) && DigitValue(c) == d
  {
    ('0' as int + d) as char
  }

  /** `char::to_digit(10)`: the value of an ASCII decimal digit, and `None` for any other character. */
  function ToDigit(c: char): (r: Option<nat>)
    ensures r.Some? <==> IsDigit(c)
    ensures r.Some? ==> r.value < 10 && DigitChar(r.value) == c
  {
    if IsDigit(c) then Some(DigitValue(c)) else None
  }

  function Pow10(k: nat): (p: nat)
    ensures p >= 1
  {
    if k == 0 then 1 else 10 * Pow10(k - 1)
  }

  /** `k` zero characters. */
  function Zeros(k: nat): (s: string)
  {
    seq(k, _ => '0')
  }

  /** The `Display` of an unsigned integer: its decimal digits, most significant first, with no
      leading zero. */
  function NatToString(n: nat): (s: string)
    ensures 1 <= |s| && AllDigits(s)
    ensures s[0] == '0' ==> n == 0
    decreases n
  {
    if n < 10 then [DigitChar(n)] else NatToString(n / 10) + [DigitChar(n % 10)]
  }

  /** The `Display` of a signed integer: a minus sign before the magnitude when it is negative. */
  function IntToString(i: int): (s: string)
    ensures 1 <= |s| && NumericText(s)
    ensures s[0] == '-' <==> i < 0
  {
    if i < 0 then "-" + NatToString(-i) else NatToString(i)
  }

  /** The number that a string of decimal digits denotes. */
  function DigitsValue(s: string): (n: nat)
    requires AllDigits(s)
    ensures n < Pow10(|s|)
    decreases |s|
  {
    if s == [] then 0 else 10 * DigitsValue(s[..|s| - 1]) + DigitValue(s[|s| - 1])
  }

  /** Reads a decimal integer with an optional leading minus sign. */
  function ParseInt(s: string): Option<int>
  {
    if 1 < |s| && s[0] == '-' && AllDigits(s[1..]) then Some(0 - DigitsValue(s[1..]) as int)
    else if 0 < |s| && AllDigits(s) then Some(DigitsValue(s))
    else None
  }

  /** The `k` least significant decimal digits of `n`, zero-padded on the left to exactly `k`
      characters: the fixed-width field a date format asks for. */
  function Fixed(n: nat, k: nat): (s: string)
    ensures |s| == k && AllDigits(s)
  {
    if k == 0 then [] else Fixed(n / 10, k - 1) + [DigitChar(n % 10)]
  }

  lemma {:induction false} NatToStringValue(n: nat)
    ensures DigitsValue(NatToString(n)) == n
    decreases n
  {
    if n >= 10 {
      NatToStringValue(n / 10);
      var s := NatToString(n);
      assert s[..|s| - 1] == NatToString(n / 10);
    }
  }

  /** Rendering a signed integer and reading it back gives the integer. */
  lemma IntToStringParses(i: int)
    ensures ParseInt(IntToString(i)) == Some(i)
  {
    var s := IntToString(i);
    if i < 0 {
      NatToStringValue(-i);
      assert s == "-" + NatToString(-i);
      assert s[1..] == NatToString(-i);
    } else {
      NatToStringValue(i);
      assert s == NatToString(i) && !(1 < |s| && s[0] == '-');
    }
  }

  /** A number with more than `k` digits renders to more than `k` characters, one with at most
      `k` digits to at most `k`. */
  lemma {:induction false} NatToStringLength(n: nat, k: nat)
    ensures n >= Pow10(k) ==> |NatToString(n)| > k
    ensures 1 <= k && n < Pow10(k) ==> |NatToString(n)| <= k
    decreases n
  {
    if n >= 10 && k >= 1 {
      NatToStringLength(n / 10, k - 1);
    }
  }

  lemma {:induction false} FixedOfZero(k: nat)
    ensures Fixed(0, k) == Zeros(k)
  {
    if k > 0 {
      FixedOfZero(k - 1);
    }
  }

  /** The fixed-width field of a number that fits in it reads back as that number. */
  lemma {:induction false} FixedValue(n: nat, k: nat)
    requires n < Pow10(k)
    ensures DigitsValue(Fixed(n, k)) == n
  {
    if k > 0 {
      FixedValue(n / 10, k - 1);
      assert Fixed(n, k)[..k - 1] == Fixed(n / 10, k - 1);
    }
  }

  /** Only the `k` low digits matter: adding a multiple of `10^k` leaves the field unchanged. */
  lemma {:induction false} FixedPeriodic(n: nat, k: nat, j: nat)
    ensures Fixed(n + Pow10(k) * j, k) == Fixed(n, k)
  {
    if k > 0 {
      var x := Pow10(k - 1) * j;
      assert Pow10(k) * j == 10 * x;
      assert (n + 10 * x) / 10 == n / 10 + x;
      assert (n + 10 * x) % 10 == n % 10;
      FixedPeriodic(n / 10, k - 1, j);
    }
  }

  /** The two widths a date uses: the field keeps the last four, or the last two, digits. */
  lemma FixedKeepsFourDigits(n: nat)
    ensures Fixed(n, 4) == Fixed(n % 10000, 4)
  {
    var q, r := n / 10000, n % 10000;
    assert Pow10(4) == 10000;
    FixedPeriodic(r, 4, q);
    assert r + Pow10(4) * q == n;
  }

  lemma FixedKeepsTwoDigits(n: nat)
    ensures Fixed(n, 2) == Fixed(n % 100, 2)
  {
    var q, r := n / 100, n % 100;
    assert Pow10(2) == 100;
    FixedPeriodic(r, 2, q);
    assert r + Pow10(2) * q == n;
  }
}
