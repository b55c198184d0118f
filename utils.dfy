/** The two helpers of `src/utils.rs`: the fixed-width `YYYYMMDD` rendering of a date used for
    the range query, and the decoding of the service's digit string into one number per day. */
module Utils {
  import opened Wrappers
  import opened Primitives

  /** What `format_date` reads of a date through the `Datelike` accessors. */
  datatype Date = Date(year: i32, month: u32, day: u32)

  /** `s.chars().skip(s.len() - k).collect()`: the last `k` characters. Every text this is applied
      to is ASCII, so its byte length is its character count. */
  function TakeLast(s: string, k: nat): (r: string)
    requires k <= |s|
    ensures |r| == k && s[..|s| - k] + r == s
  {
    s[|s| - k..]
  }

  /** `format_date`: pad each field with zeros on the left ("0000" before the year, "00" before
      month and day) and keep the last 4, 2 and 2 characters. */
  function FormatDate(d: Date): (r: string)
    ensures |r| == 8
  {
    var y := "0000" + IntToString(d.year);
    var m := "00" + NatToString(d.month);
    var dd := "00" + NatToString(d.day);
    TakeLast(y, 4) + TakeLast(m, 2) + TakeLast(dd, 2)
  }

  /** The formatted date holds only digits and minus signs. */
  lemma FormatDateNumeric(d: Date)
    ensures NumericText(FormatDate(d))
  {
    var y := "0000" + IntToString(d.year);
    var m := "00" + NatToString(d.month);
    var dd := "00" + NatToString(d.day);
    assert NumericText(y) && NumericText(m) && NumericText(dd);
    var r := FormatDate(d);
    assert r == y[|y| - 4..] + m[|m| - 2..] + dd[|dd| - 2..];
  }

  /** Reads an 8-digit `YYYYMMDD` text back into a date; `None` for any other text. */
  function ParseDate(s: string): (r: Option<Date>)
  {
    if |s| == 8 && AllDigits(s) then
      assert Pow10(4) == 10000 && Pow10(2) == 100;
      Some(Date(DigitsValue(s[..4]), DigitsValue(s[4..6]), DigitsValue(s[6..])))
    else None
  }

  /** The date with every field cut to the digits `format_date` keeps. */
  function LowDigits(d: Date): (r: Date)
    requires 0 <= d.year
  {
    Date(d.year % 10000, d.month % 100, d.day % 100)
  }

  /** `to_vec`: one decimal value per character, in order. `None` stands for the panic of
      `to_digit(10).unwrap()` on a character that is not an ASCII digit. */
  function ToVec(s: string): (r: Option<seq<nat>>)
    ensures r.Some? <==> AllDigits(s)
    ensures r.Some? ==> |r.value| == |s|
    ensures r.Some? ==> forall i :: 0 <= i < |s| ==> r.value[i] == DigitValue(s[i])
    decreases |s|
  {
    if s == [] then Some([])
    else
      match ToDigit(s[0])
      case None => None
      case Some(d) =>
        match ToVec(s[1..])
        case None => None
        case Some(rest) => Some([d] + rest)
  }

  /** The digit string of a sequence of single-digit values: the inverse of `to_vec`. */
  function DigitsText(v: seq<nat>): (s: string)
    requires forall i :: 0 <= i < |v| ==> v[i] < 10
    ensures |s| == |v|
  {
    if v == [] then "" else [DigitChar(v[0])] + DigitsText(v[1..])
  }

  /** Padding with at least `k` zeros and keeping the last `k` characters gives the fixed-width
      field of the low `k` digits. */
  lemma {:induction false} TakeLastOfPadded(n: nat, j: nat, k: nat)
    requires k <= j
    ensures TakeLast(Zeros(j) + NatToString(n), k) == Fixed(n, k)
    decreases n
  {
    if k == 0 {
    } else if n < 10 {
      FixedOfZero(k - 1);
      assert Fixed(n, k) == Zeros(k - 1) + [DigitChar(n)];
      assert TakeLast(Zeros(j) + [DigitChar(n)], k) == Zeros(j)[j + 1 - k..] + [DigitChar(n)];
    } else {
      var s := Zeros(j) + NatToString(n / 10);
      assert Zeros(j) + NatToString(n) == s + [DigitChar(n % 10)];
      assert TakeLast(s + [DigitChar(n % 10)], k) == TakeLast(s, k - 1) + [DigitChar(n % 10)];
      TakeLastOfPadded(n / 10, j, k - 1);
    }
  }

  /** For a non-negative year, `format_date` is the 4-digit year field followed by the 2-digit
      month and day fields. */
  lemma FormatDateFields(d: Date)
    requires 0 <= d.year
    ensures FormatDate(d) == Fixed(d.year, 4) + Fixed(d.month, 2) + Fixed(d.day, 2)
  {
    assert "0000" == Zeros(4) && "00" == Zeros(2);
    TakeLastOfPadded(d.year, 4, 4);
    TakeLastOfPadded(d.month, 2, 2);
    TakeLastOfPadded(d.day, 2, 2);
  }

  /** For a non-negative year, the formatted date is eight digits that read back as the year's last
      four digits and the month's and day's last two: a year of 10000 or more is truncated, not
      rejected. */
  lemma FormatDateReadsBack(d: Date)
    requires 0 <= d.year
    ensures AllDigits(FormatDate(d))
    ensures ParseDate(FormatDate(d)) == Some(LowDigits(d))
  {
    FormatDateFields(d);
    FixedKeepsFourDigits(d.year);
    FixedKeepsTwoDigits(d.month);
    FixedKeepsTwoDigits(d.day);
    ParseFixedFields(d.year % 10000, d.month % 100, d.day % 100);
  }

  lemma ParseFixedFields(y: nat, m: nat, d: nat)
    requires y < 10000 && m < 100 && d < 100
    ensures AllDigits(Fixed(y, 4) + Fixed(m, 2) + Fixed(d, 2))
    ensures ParseDate(Fixed(y, 4) + Fixed(m, 2) + Fixed(d, 2)) == Some(Date(y, m, d))
  {
    assert Pow10(4) == 10000 && Pow10(2) == 100;
    FixedValue(y, 4);
    FixedValue(m, 2);
    FixedValue(d, 2);
    var fy, fm, fd := Fixed(y, 4), Fixed(m, 2), Fixed(d, 2);
    var r := fy + fm + fd;
    assert r[..4] == fy && r[4..6] == fm && r[6..] == fd;
  }

  /** A date whose fields fit their widths (year 0..9999, month and day 0..99) round-trips. */
  lemma FormatDateRoundTrip(d: Date)
    requires 0 <= d.year <= 9999 && d.month <= 99 && d.day <= 99
    ensures ParseDate(FormatDate(d)) == Some(d)
  {
    FormatDateReadsBack(d);
  }

  /** Years that agree in their last four digits format alike. */
  lemma FormatDateTruncatesYear(d: Date)
    requires 0 <= d.year
    ensures FormatDate(d) == FormatDate(d.(year := d.year % 10000))
  {
    FormatDateFields(d);
    FormatDateFields(d.(year := d.year % 10000));
    FixedKeepsFourDigits(d.year);
  }

  /** A year of -1000 or less loses its sign: the minus falls outside the last four characters. */
  lemma FormatDateDropsSign(d: Date)
    requires -0x7fff_ffff <= d.year <= -1000
    ensures FormatDate(d) == FormatDate(d.(year := -d.year))
  {
    var n: nat := -d.year;
    NatToStringLength(n, 3);
    var s := NatToString(n);
    assert "0000" + IntToString(d.year) == "0000-" + s;
    assert TakeLast("0000-" + s, 4) == TakeLast(s, 4);
    assert TakeLast("0000" + s, 4) == TakeLast(s, 4);
  }

  /** A year from -999 to -1 leaves its minus sign inside the year field. */
  lemma FormatDateKeepsMinus(d: Date)
    requires -999 <= d.year < 0
    ensures '-' in FormatDate(d)[..4]
    ensures !AllDigits(FormatDate(d))
  {
    var n: nat := -d.year;
    NatToStringLength(n, 3);
    var s := NatToString(n);
    var y := "0000-" + s;
    assert "0000" + IntToString(d.year) == y;
    assert y[|y| - 1 - |s|] == '-';
    assert FormatDate(d)[3 - |s|] == '-';
  }

  /** The example that `test_format_date` in src/utils.rs checks. */
  lemma FormatDateExample(d: Date)
    requires d == Date(2024, 9, 19)
    ensures FormatDate(d) == "20240919"
  {
    FormatDateFields(d);
    assert Fixed(2024, 4) == "2024" && Fixed(9, 2) == "09" && Fixed(19, 2) == "19";
  }

  /** `to_vec` maps each character on its own: it splits over concatenation, and panics on a
      concatenation exactly when it panics on one of the parts. */
  lemma ToVecAppend(a: string, b: string)
    ensures ToVec(a + b).Some? <==> ToVec(a).Some? && ToVec(b).Some?
    ensures ToVec(a + b).Some? ==> ToVec(a + b).value == ToVec(a).value + ToVec(b).value
  {
    var ab := a + b;
    forall i | 0 <= i < |ab| ensures ab[i] == if i < |a| then a[i] else b[i - |a|] {
      if i < |a| { assert ab[i] == a[i]; } else { assert ab[i] == b[i - |a|]; }
    }
    if AllDigits(a) && AllDigits(b) {
      assert AllDigits(ab);
      var v, va, vb := ToVec(ab).value, ToVec(a).value, ToVec(b).value;
      assert forall i :: 0 <= i < |ab| ==> v[i] == (va + vb)[i];
      assert v == va + vb;
    } else if !AllDigits(a) {
      var i :| 0 <= i < |a| && !IsDigit(a[i]);
      assert ab[i] == a[i];
    } else {
      var i :| 0 <= i < |b| && !IsDigit(b[i]);
      assert ab[|a| + i] == b[i];
    }
  }

  /** Decoding the digit text of a sequence of digits gives the sequence back. */
  lemma {:induction false} ToVecOfDigitsText(v: seq<nat>)
    requires forall i :: 0 <= i < |v| ==> v[i] < 10
    ensures ToVec(DigitsText(v)) == Some(v)
    decreases |v|
  {
    if v != [] {
      ToVecOfDigitsText(v[1..]);
      var s := DigitsText(v);
      assert s[0] == DigitChar(v[0]) && s[1..] == DigitsText(v[1..]);
      assert [v[0]] + v[1..] == v;
    }
  }

  /** A string of digits is the digit text of its decoding: `to_vec` loses nothing. */
  lemma {:induction false} DigitsTextOfToVec(s: string)
    requires AllDigits(s)
    ensures DigitsText(ToVec(s).value) == s
    decreases |s|
  {
    if s != [] {
      DigitsTextOfToVec(s[1..]);
      assert ToVec(s).value[1..] == ToVec(s[1..]).value;
    }
  }

  /** Decodings of a one-day body and of a body with a letter in it. */
  lemma ToVecExamples()
    ensures ToVec("1") == Some([1])
    ensures ToVec("1a") == None
  {
    var one := "1";
    assert one[0] == '1' && one[1..] == [];
    assert ToDigit('1') == Some(1);
    assert ToVec(one) == Some([1] + []);
    assert [1] + [] == [1];
    assert !IsDigit("1a"[1]);
  }
}
