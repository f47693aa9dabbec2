/** Amounts and calendar dates, as the loaders parse them and the exports print them. */
module Values {
  import opened Wrappers
  import opened Text

  /** An exact decimal number, `mantissa / 10^places` (Python's `Decimal`). */
  datatype Decimal = Decimal(mantissa: int, places: nat)

  /** The `0` that `parse_decimal` substitutes for a value it cannot read. */
  const Zero := Decimal(0, 0)

  /** Falsy as a Python number. */
  predicate IsZero(d: Decimal) { d.mantissa == 0 }

  lemma DigitsConcat(a: string, b: string)
    requires Digits(a) && Digits(b)
    ensures Digits(a + b)
  {
    assert forall i :: 0 <= i < |a + b| ==> (a + b)[i] == if i < |a| then a[i] else b[i - |a|];
  }

  /**
   * `Decimal(s)` and `float(s)` on plain decimal literals: optional
   * surrounding whitespace, an optional sign, digits with at most one
   * decimal point, and at least one digit.
   */
  function ParseDecimal(s: string): (r: Option<Decimal>)
    ensures Strip(s) == "" ==> r == None
  {
    var t := Strip(s);
    var negative := |t| > 0 && t[0] == '-';
    var body := if |t| > 0 && (t[0] == '-' || t[0] == '+') then t[1..] else t;
    var parts := Split(body, '.');
    if |parts| > 2 then None
    else
      var whole := parts[0];
      var fraction := if |parts| == 2 then parts[1] else "";
      if |whole| + |fraction| > 0 && Digits(whole) && Digits(fraction) then
        DigitsConcat(whole, fraction);
        var m: int := DigitsValue(whole + fraction);
        Some(Decimal(if negative then -m else m, |fraction|))
      else None
  }

  /** An integer literal is read as that many whole units. */
  lemma ParseDecimalOfInt(n: int)
    ensures ParseDecimal(IntToString(n)) == Some(Decimal(n, 0))
  {
    var s := IntToString(n);
    StripUnchanged(s);
    var body := if n < 0 then s[1..] else s;
    assert body == NatToString(if n < 0 then -n else n);
    SplitNoSeparator(body, '.');
    assert body + "" == body;
    DigitsValueOfNatToString(if n < 0 then -n else n);
  }

  /** `whole.fraction` is read as the digits together, scaled by the fraction's length. */
  lemma ParseDecimalPoint(whole: string, fraction: string)
    requires |whole| > 0 && Digits(whole) && Digits(fraction)
    ensures Digits(whole + fraction)
    ensures ParseDecimal(whole + "." + fraction) == Some(Decimal(DigitsValue(whole + fraction), |fraction|))
  {
    DigitsConcat(whole, fraction);
    var s := whole + "." + fraction;
    assert s[0] == whole[0];
    StripUnchanged(s);
    assert '.' !in whole && '.' !in fraction by {
      assert forall i :: 0 <= i < |whole| ==> whole[i] != '.';
      assert forall i :: 0 <= i < |fraction| ==> fraction[i] != '.';
    }
    SplitAtFirst(whole, fraction, '.');
    SplitNoSeparator(fraction, '.');
  }

  /** `n` zeros. */
  function Zeros(n: nat): (r: string)
    ensures |r| == n && Digits(r) && DigitsValue(r) == 0
  {
    if n == 0 then "" else Zeros(n - 1) + "0"
  }

  /** Leading zeros do not change the number a digit string denotes. */
  lemma {:induction false} LeadingZeros(z: nat, s: string)
    requires Digits(s)
    ensures Digits(Zeros(z) + s) && DigitsValue(Zeros(z) + s) == DigitsValue(s)
    decreases |s|
  {
    DigitsConcat(Zeros(z), s);
    if |s| > 0 {
      var t := Zeros(z) + s;
      assert t[..|t| - 1] == Zeros(z) + s[..|s| - 1];
      LeadingZeros(z, s[..|s| - 1]);
    } else {
      assert Zeros(z) + s == Zeros(z);
    }
  }

  /** The digits of `m`, padded on the left to more than `places` digits. */
  function PaddedDigits(m: nat, places: nat): (r: string)
    ensures |r| > places && Digits(r) && DigitsValue(r) == m
  {
    var t := NatToString(m);
    DigitsValueOfNatToString(m);
    if |t| > places then t
    else
      LeadingZeros(places + 1 - |t|, t);
      Zeros(places + 1 - |t|) + t
  }

  /** A minus sign in front of an unsigned literal negates what is read. */
  lemma ParseDecimalNegated(body: string)
    requires |body| > 0 && IsDigit(body[0]) && IsDigit(body[|body| - 1])
    ensures ParseDecimal("-" + body) == match ParseDecimal(body)
      case Some(x) => Some(Decimal(-x.mantissa, x.places))
      case None => None
  {
    var s := "-" + body;
    StripUnchanged(s);
    StripUnchanged(body);
    assert s[1..] == body;
  }

  /** Digits, with a point before the last `|fraction|` of them when there are any. */
  function UnsignedText(whole: string, fraction: string): string
  {
    if |fraction| == 0 then whole else whole + "." + fraction
  }

  lemma ParseDecimalUnsigned(whole: string, fraction: string)
    requires |whole| > 0 && Digits(whole) && Digits(fraction)
    ensures Digits(whole + fraction)
    ensures ParseDecimal(UnsignedText(whole, fraction)) == Some(Decimal(DigitsValue(whole + fraction), |fraction|))
  {
    if |fraction| == 0 {
      assert whole + fraction == whole;
      StripUnchanged(whole);
      assert '.' !in whole by {
        assert forall i :: 0 <= i < |whole| ==> IsDigit(whole[i]);
      }
      SplitNoSeparator(whole, '.');
      assert whole + "" == whole;
    } else {
      ParseDecimalPoint(whole, fraction);
    }
  }

  /** The digits of a decimal, cut where its point goes. */
  function DigitsOf(d: Decimal): (r: (string, string))
    ensures |r.0| > 0 && Digits(r.0) && Digits(r.1) && |r.1| == d.places
    ensures Digits(r.0 + r.1) && DigitsValue(r.0 + r.1) == if d.mantissa < 0 then -d.mantissa else d.mantissa
  {
    var digits := PaddedDigits(if d.mantissa < 0 then -d.mantissa else d.mantissa, d.places);
    var cut := |digits| - d.places;
    DigitsCut(digits, cut);
    (digits[..cut], digits[cut..])
  }

  /** Both pieces of a digit string cut anywhere are digit strings that make it up again. */
  lemma DigitsCut(digits: string, cut: nat)
    requires Digits(digits) && cut <= |digits|
    ensures Digits(digits[..cut]) && Digits(digits[cut..]) && digits[..cut] + digits[cut..] == digits
  {
    assert forall i :: 0 <= i < cut ==> digits[..cut][i] == digits[i];
    assert forall i :: 0 <= i < |digits| - cut ==> digits[cut..][i] == digits[cut + i];
  }

  /** A decimal in plain notation: sign, digits, and a point before the last `places` digits. */
  function DecimalText(d: Decimal): string
  {
    var parts := DigitsOf(d);
    (if d.mantissa < 0 then "-" else "") + UnsignedText(parts.0, parts.1)
  }

  /** Every decimal written in plain notation is read back as itself, scale included. */
  lemma ParseDecimalText(d: Decimal)
    ensures ParseDecimal(DecimalText(d)) == Some(d)
  {
    var parts := DigitsOf(d);
    var body := UnsignedText(parts.0, parts.1);
    ParseDecimalUnsigned(parts.0, parts.1);
    if d.mantissa < 0 {
      assert IsDigit(body[0]) && IsDigit(body[|body| - 1]);
      ParseDecimalNegated(body);
    } else {
      assert DecimalText(d) == body;
    }
  }

  /** A calendar date. */
  datatype Date = Date(year: int, month: int, day: int)

  predicate IsLeapYear(y: int) { y % 4 == 0 && (y % 100 != 0 || y % 400 == 0) }

  function DaysInMonth(y: int, m: int): int
    requires 1 <= m <= 12
  {
    if m == 2 then (if IsLeapYear(y) then 29 else 28)
    else if m == 4 || m == 6 || m == 9 || m == 11 then 30
    else 31
  }

  /** The dates Python's `datetime.date` can represent. */
  predicate ValidDate(d: Date)
  {
    1 <= d.year <= 9999 && 1 <= d.month <= 12 && 1 <= d.day <= DaysInMonth(d.year, d.month)
  }

  /** The month texts `%m` accepts: 1-9, 01-09 and 10-12. */
  predicate MonthText(t: string)
  {
    || (|t| == 1 && '1' <= t[0] <= '9')
    || (|t| == 2 && t[0] == '0' && '1' <= t[1] <= '9')
    || (|t| == 2 && t[0] == '1' && '0' <= t[1] <= '2')
  }

  /** The day texts `%d` accepts: 1-9, a space and 1-9, 01-09, 10-29, 30 and 31. */
  predicate DayText(t: string)
  {
    || (|t| == 1 && '1' <= t[0] <= '9')
    || (|t| == 2 && (t[0] == ' ' || t[0] == '0') && '1' <= t[1] <= '9')
    || (|t| == 2 && '1' <= t[0] <= '2' && IsDigit(t[1]))
    || (|t| == 2 && t[0] == '3' && '0' <= t[1] <= '1')
  }

  /** The number a month or day text stands for (a leading space counts for nothing). */
  function FieldNumber(t: string): nat
    requires MonthText(t) || DayText(t)
  {
    if t[0] == ' ' then DigitsValue(t[1..]) else DigitsValue(t)
  }

  /**
   * `datetime.strptime(s, '%Y-%m-%d').date()`: exactly four year digits, a
   * dash, a month text, a dash and a day text, covering the whole input,
   * naming a real calendar day; anything else raises, which is `None` here.
   */
  function ParseIsoDate(s: string): (r: Option<Date>)
    ensures r.Some? ==> ValidDate(r.value)
  {
    if |s| < 5 || !Digits(s[..4]) || s[4] != '-' then None
    else
      var parts := Split(s[5..], '-');
      if |parts| != 2 || !MonthText(parts[0]) || !DayText(parts[1]) then None
      else
        var d := Date(DigitsValue(s[..4]), FieldNumber(parts[0]), FieldNumber(parts[1]));
        if ValidDate(d) then Some(d) else None
  }

  /** A number below 100 as two digits. */
  function Pad2(n: nat): (r: string)
    requires n < 100
    ensures |r| == 2 && Digits(r)
  {
    [DigitChar(n / 10), DigitChar(n % 10)]
  }

  /** A number below 10000 as four digits. */
  function Pad4(n: nat): (r: string)
    requires n < 10000
    ensures |r| == 4 && Digits(r)
  {
    Pad2(n / 100) + Pad2(n % 100)
  }

  lemma Pad2Value(n: nat)
    requires n < 100
    ensures DigitsValue(Pad2(n)) == n
  {
    var r := Pad2(n);
    assert r[..1][..0] == "";
    assert r[..1] == [r[0]];
    assert DigitsValue(r[..1]) == DigitValue(r[0]) == n / 10;
    assert DigitValue(r[1]) == n % 10;
    assert DigitsValue(r) == (n / 10) * 10 + n % 10;
  }

  lemma Pad4Value(n: nat)
    requires n < 10000
    ensures DigitsValue(Pad4(n)) == n
  {
    var r := Pad4(n);
    var hi, lo := Pad2(n / 100), Pad2(n % 100);
    Pad2Value(n / 100);
    assert r[..3] == hi + [lo[0]];
    assert r[..3][..2] == hi;
    assert DigitsValue(r[..3]) == DigitsValue(hi) * 10 + DigitValue(lo[0]);
    assert DigitsValue(r) == (DigitsValue(hi) * 10 + DigitValue(lo[0])) * 10 + DigitValue(lo[1]);
  }

  /** `date.isoformat()`: `YYYY-MM-DD`. */
  function IsoText(d: Date): string
    requires ValidDate(d)
  {
    Pad4(d.year) + "-" + Pad2(d.month) + "-" + Pad2(d.day)
  }

  /** `date.strftime('%m/%d/%Y')`: `MM/DD/YYYY`. */
  function UsText(d: Date): (r: string)
    requires ValidDate(d)
    ensures |r| == 10 && r[2] == '/' && r[5] == '/'
  {
    Pad2(d.month) + "/" + Pad2(d.day) + "/" + Pad4(d.year)
  }

  /** Every valid date written as `YYYY-MM-DD` is read back as itself. */
  lemma ParseIsoText(d: Date)
    requires ValidDate(d)
    ensures ParseIsoDate(IsoText(d)) == Some(d)
  {
    var s := IsoText(d);
    var y, m, dd := Pad4(d.year), Pad2(d.month), Pad2(d.day);
    assert s[..4] == y;
    assert s[5..] == m + ['-'] + dd;
    assert '-' !in m && '-' !in dd by {
      assert forall i :: 0 <= i < 2 ==> IsDigit(m[i]) && IsDigit(dd[i]);
    }
    SplitAtFirst(m, dd, '-');
    SplitNoSeparator(dd, '-');
    Pad4Value(d.year);
    Pad2Value(d.month);
    Pad2Value(d.day);
  }
}
