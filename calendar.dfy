/**
 * `Series.dt.to_period("M")` on naive timestamps: the proleptic Gregorian
 * calendar month of an instant, as the key `year * 12 + (month - 1)`, and
 * the `"YYYY-MM"` text that `astype(str)` gives a monthly period.
 */
module Calendar {

  import opened Orders

  /**
   * Civil date of a day count since 1970-01-01 (days-to-civil conversion with
   * 400-year eras); the result is the (year, month) pair, month in 1..12.
   */
  function CivilMonth(days: int): (int, int)
  {
    var z := days + 719468;
    var era := z / 146097;
    var doe := z - era * 146097;
    var yoe := (doe - doe / 1460 + doe / 36524 - doe / 146096) / 365;
    var doy := doe - (365 * yoe + yoe / 4 - yoe / 100);
    var mp := (5 * doy + 2) / 153;
    var m := if mp < 10 then mp + 3 else mp - 9;
    var y := yoe + era * 400 + (if m <= 2 then 1 else 0);
    (y, m)
  }

  /** The monthly period containing instant `ts`; midnight belongs to the day it starts. */
  function MonthKey(ts: int): int
  {
    var (y, m) := CivilMonth(ts / DAY);
    y * 12 + (m - 1)
  }

  function YearOf(key: int): int { key / 12 }

  function MonthOf(key: int): int { key % 12 + 1 }

  /** Keys and (year, month) pairs are in one-to-one correspondence. */
  lemma KeyRoundTrip(y: int, m: int)
    requires 1 <= m <= 12
    ensures YearOf(y * 12 + (m - 1)) == y && MonthOf(y * 12 + (m - 1)) == m
  {
  }

  function Digit(d: int): char
    requires 0 <= d <= 9
  {
    "0123456789"[d]
  }

  function DigitValue(c: char): int
  {
    if '0' <= c <= '9' then c as int - '0' as int else 0
  }

  /** `d` written with four decimal digits, zero-padded; the digits are peeled off one division by ten at a time. */
  function Four(d: int): (s: string)
    requires 0 <= d <= 9999
    ensures |s| == 4
  {
    var c, b, a := d / 10, d / 10 / 10, d / 10 / 10 / 10;
    [Digit(a), Digit(b % 10), Digit(c % 10), Digit(d % 10)]
  }

  /** `d` written with two decimal digits, zero-padded. */
  function Two(d: int): (s: string)
    requires 0 <= d <= 99
    ensures |s| == 2
  {
    [Digit(d / 10), Digit(d % 10)]
  }

  /** The value of a string of decimal digits. */
  function Digits(s: string): int
  {
    if s == [] then 0 else 10 * Digits(s[..|s| - 1]) + DigitValue(s[|s| - 1])
  }

  lemma DigitDigitValue(d: int)
    requires 0 <= d <= 9
    ensures DigitValue(Digit(d)) == d
  {
  }

  lemma FourDigits(d: int)
    requires 0 <= d <= 9999
    ensures Digits(Four(d)) == d
  {
    var s := Four(d);
    var c, b, a := d / 10, d / 10 / 10, d / 10 / 10 / 10;
    DigitDigitValue(a);
    DigitDigitValue(b % 10);
    DigitDigitValue(c % 10);
    DigitDigitValue(d % 10);
    assert Digits(s[..1]) == a by {
      assert s[..1][..0] == [];
    }
    assert Digits(s[..2]) == b by {
      assert s[..2][..1] == s[..1];
    }
    assert Digits(s[..3]) == c by {
      assert s[..3][..2] == s[..2];
    }
    assert s[..4] == s;
  }

  lemma TwoDigits(d: int)
    requires 0 <= d <= 99
    ensures Digits(Two(d)) == d
  {
    var s := Two(d);
    DigitDigitValue(d / 10);
    DigitDigitValue(d % 10);
    assert s[..1][..0] == [];
  }

  /** The period label `"YYYY-MM"` that `astype(str)` gives a monthly key of a four-digit year. */
  function Label(key: int): (s: string)
    requires 0 <= YearOf(key) <= 9999
    ensures |s| == 7 && s[4] == '-'
  {
    Four(YearOf(key)) + "-" + Two(MonthOf(key))
  }

  /** Reads a `"YYYY-MM"` label back into a monthly key. */
  function ParseLabel(s: string): int
    requires |s| == 7
  {
    Digits(s[..4]) * 12 + (Digits(s[5..]) - 1)
  }

  /** Labels are faithful: the key can be read back from its text, so distinct months get distinct labels. */
  lemma LabelRoundTrip(key: int)
    requires 0 <= YearOf(key) <= 9999
    ensures ParseLabel(Label(key)) == key
  {
    var s := Label(key);
    assert s[..4] == Four(YearOf(key));
    assert s[5..] == Two(MonthOf(key));
    FourDigits(YearOf(key));
    TwoDigits(MonthOf(key));
  }

  /** June 2018 is shown as "2018-06". */
  lemma June2018Label()
    ensures Label(2018 * 12 + 5) == "2018-06"
  {
    assert YearOf(2018 * 12 + 5) == 2018 && MonthOf(2018 * 12 + 5) == 6;
    assert 2018 / 10 == 201 && 201 / 10 == 20 && 20 / 10 == 2;
    assert Four(2018) == "2018";
    assert Two(6) == "06";
  }

  /** 2018-06-15 00:00:00 falls in June 2018. */
  lemma MidJune2018()
    ensures MonthKey(1529020800) == 2018 * 12 + 5
  {
    assert 1529020800 / DAY == 17697;
    assert (17697 + 719468) / 146097 == 5;
    assert (6680 - 6680 / 1460 + 6680 / 36524 - 6680 / 146096) / 365 == 18;
    assert 18 / 4 == 4 && 18 / 100 == 0;
    assert (5 * 106 + 2) / 153 == 3;
    assert CivilMonth(17697) == (2018, 6);
  }

  /** 2016-01-01 00:00:00 falls in January 2016. */
  lemma TrendFromMonth()
    ensures MonthKey(TREND_FROM) == 2016 * 12 + 0
  {
    assert TREND_FROM / DAY == 16801;
    assert (16801 + 719468) / 146097 == 5;
    assert (5784 - 5784 / 1460 + 5784 / 36524 - 5784 / 146096) / 365 == 15;
    assert 15 / 4 == 3 && 15 / 100 == 0;
    assert (5 * 306 + 2) / 153 == 10;
    assert CivilMonth(16801) == (2016, 1);
  }

  /** 2017-01-01 00:00:00 falls in January 2017. */
  lemma RfmFromMonth()
    ensures MonthKey(RFM_FROM) == 2017 * 12 + 0
  {
    assert RFM_FROM / DAY == 17167;
    assert (17167 + 719468) / 146097 == 5;
    assert (6150 - 6150 / 1460 + 6150 / 36524 - 6150 / 146096) / 365 == 16;
    assert 16 / 4 == 4 && 16 / 100 == 0;
    assert (5 * 306 + 2) / 153 == 10;
    assert CivilMonth(17167) == (2017, 1);
  }

  /** 2018-12-31 00:00:00 falls in December 2018. */
  lemma WindowToMonth()
    ensures MonthKey(WINDOW_TO) == 2018 * 12 + 11
  {
    assert WINDOW_TO / DAY == 17896;
    assert (17896 + 719468) / 146097 == 5;
    assert (6879 - 6879 / 1460 + 6879 / 36524 - 6879 / 146096) / 365 == 18;
    assert 18 / 4 == 4 && 18 / 100 == 0;
    assert (5 * 305 + 2) / 153 == 9;
    assert CivilMonth(17896) == (2018, 12);
  }

  /** The last second of February 2018 and the first second of March 2018 fall in different months. */
  lemma EndOfFebruary2018()
    ensures MonthKey(1519862399) == 2018 * 12 + 1
  {
    assert 1519862399 / DAY == 17590;
    assert (17590 + 719468) / 146097 == 5;
    assert (6573 - 6573 / 1460 + 6573 / 36524 - 6573 / 146096) / 365 == 17;
    assert 17 / 4 == 4 && 17 / 100 == 0;
    assert (5 * 364 + 2) / 153 == 11;
    assert CivilMonth(17590) == (2018, 2);
  }

  lemma StartOfMarch2018()
    ensures MonthKey(1519862400) == 2018 * 12 + 2
  {
    assert 1519862400 / DAY == 17591;
    assert (17591 + 719468) / 146097 == 5;
    assert (6574 - 6574 / 1460 + 6574 / 36524 - 6574 / 146096) / 365 == 18;
    assert 18 / 4 == 4 && 18 / 100 == 0;
    assert (5 * 0 + 2) / 153 == 0;
    assert CivilMonth(17591) == (2018, 3);
  }
}
