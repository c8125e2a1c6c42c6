/**
 * The record timestamp of app.py: `datetime.now().strftime('%Y-%m-%d %H:%M:%S')`.
 * The clock reading is a value of its own; `Format` renders it and `Parse`
 * reads a rendered timestamp back.
 */
module Timestamp {
  import opened Wrappers

  /** A local clock reading, field by field. */
  datatype DateTime = DateTime(year: int, month: int, day: int, hour: int, minute: int, second: int)
  {
    /** The readings `datetime.now()` produces (years restricted to four digits). */
    predicate Valid()
    {
      && 1000 <= year <= 9999
      && 1 <= month <= 12
      && 1 <= day <= DaysInMonth(year, month)
      && 0 <= hour < 24
      && 0 <= minute < 60
      && 0 <= second < 60
    }

    /** The readings whose fields fit the widths of the format: 4 digits for the year, 2 for the rest. */
    predicate Fits()
    {
      && 0 <= year <= 9999
      && 0 <= month < 100
      && 0 <= day < 100
      && 0 <= hour < 100
      && 0 <= minute < 100
      && 0 <= second < 100
    }
  }

  predicate IsLeapYear(y: int)
  {
    y % 4 == 0 && (y % 100 != 0 || y % 400 == 0)
  }

  function DaysInMonth(y: int, m: int): (n: int)
    requires 1 <= m <= 12
    ensures 28 <= n <= 31
    ensures n == 29 <==> m == 2 && IsLeapYear(y)
  {
    if m == 2 then (if IsLeapYear(y) then 29 else 28)
    else if m == 4 || m == 6 || m == 9 || m == 11 then 30
    else 31
  }

  lemma ValidFits(d: DateTime)
    requires d.Valid()
    ensures d.Fits()
  {
  }

  // ---------------------------------------------------------------- digits

  predicate IsDigit(c: char)
  {
    '0' <= c <= '9'
  }

  predicate AllDigits(s: string)
  {
    forall i :: 0 <= i < |s| ==> IsDigit(s[i])
  }

  function DigitChar(n: int): (c: char)
    requires 0 <= n < 10
    ensures IsDigit(c) && c as int - '0' as int == n
  {
    ('0' as int + n) as char
  }

  function DigitValue(c: char): (n: int)
    requires IsDigit(c)
    ensures 0 <= n < 10 && DigitChar(n) == c
  {
    c as int - '0' as int
  }

  /** The value of a two-digit string. */
  function Value2(s: string): (n: int)
    requires |s| == 2 && AllDigits(s)
    ensures 0 <= n < 100
  {
    10 * DigitValue(s[0]) + DigitValue(s[1])
  }

  /** The value of a four-digit string. */
  function Value4(s: string): (n: int)
    requires |s| == 4 && AllDigits(s)
    ensures 0 <= n < 10000
  {
    assert AllDigits(s[..2]) && AllDigits(s[2..]) by {
      forall i | 0 <= i < 2 ensures IsDigit(s[..2][i]) && IsDigit(s[2..][i]) {
        assert s[..2][i] == s[i] && s[2..][i] == s[i + 2];
      }
    }
    100 * Value2(s[..2]) + Value2(s[2..])
  }

  /** `n` in two digits with a leading zero: `%02d`, as `%m`, `%d`, `%H`, `%M`, `%S` write it. */
  function Pad2(n: int): (s: string)
    requires 0 <= n < 100
    ensures |s| == 2 && AllDigits(s)
    ensures Value2(s) == n
  {
    [DigitChar(n / 10), DigitChar(n % 10)]
  }

  /** `n` in four digits with leading zeros, as `%Y` writes a year. */
  function Pad4(n: int): (s: string)
    requires 0 <= n < 10000
    ensures |s| == 4 && AllDigits(s)
    ensures Value4(s) == n
  {
    var s := Pad2(n / 100) + Pad2(n % 100);
    assert s[..2] == Pad2(n / 100) && s[2..] == Pad2(n % 100);
    s
  }

  /** Writing a two-digit string's value back in two digits gives the string again. */
  lemma PadValue2(s: string)
    requires |s| == 2 && AllDigits(s)
    ensures Pad2(Value2(s)) == s
  {
    var hi, lo := DigitValue(s[0]), DigitValue(s[1]);
    assert (10 * hi + lo) / 10 == hi && (10 * hi + lo) % 10 == lo;
  }

  /** Writing a four-digit string's value back in four digits gives the string again. */
  lemma PadValue4(s: string)
    requires |s| == 4 && AllDigits(s)
    ensures Pad4(Value4(s)) == s
  {
    var hi, lo := s[..2], s[2..];
    assert AllDigits(hi) && AllDigits(lo) by {
      forall i | 0 <= i < 2 ensures IsDigit(hi[i]) && IsDigit(lo[i]) {
        assert hi[i] == s[i] && lo[i] == s[i + 2];
      }
    }
    var h, l := Value2(hi), Value2(lo);
    assert (100 * h + l) / 100 == h && (100 * h + l) % 100 == l;
    PadValue2(hi);
    PadValue2(lo);
    assert s == hi + lo;
  }

  // ---------------------------------------------------------------- the format

  /** The fixed separator of the format at position `i`, or None where a digit goes. */
  function SeparatorAt(i: int): Option<char>
  {
    if i == 4 || i == 7 then Some('-')
    else if i == 10 then Some(' ')
    else if i == 13 || i == 16 then Some(':')
    else None
  }

  const LENGTH: nat := 19

  /** The shape `YYYY-MM-DD HH:MM:SS`: 19 characters, separators in place, digits elsewhere. */
  predicate WellFormed(s: string)
  {
    && |s| == LENGTH
    && forall i :: 0 <= i < LENGTH ==>
         match SeparatorAt(i)
         case Some(c) => s[i] == c
         case None => IsDigit(s[i])
  }

  /** `strftime('%Y-%m-%d %H:%M:%S')`. */
  function Format(d: DateTime): (s: string)
    requires d.Fits()
    ensures |s| == LENGTH
  {
    Pad4(d.year) + "-" + Pad2(d.month) + "-" + Pad2(d.day) + " "
      + Pad2(d.hour) + ":" + Pad2(d.minute) + ":" + Pad2(d.second)
  }

  /** Where each field of `Format(d)` sits. */
  lemma FormatPieces(d: DateTime)
    requires d.Fits()
    ensures var s := Format(d);
      && s[0..4] == Pad4(d.year) && s[4] == '-'
      && s[5..7] == Pad2(d.month) && s[7] == '-'
      && s[8..10] == Pad2(d.day) && s[10] == ' '
      && s[11..13] == Pad2(d.hour) && s[13] == ':'
      && s[14..16] == Pad2(d.minute) && s[16] == ':'
      && s[17..19] == Pad2(d.second)
  {
    var y, mo, da := Pad4(d.year), Pad2(d.month), Pad2(d.day);
    var h, mi, se := Pad2(d.hour), Pad2(d.minute), Pad2(d.second);
    var s := Format(d);
    var date := y + "-" + mo + "-" + da;
    var time := h + ":" + mi + ":" + se;
    assert s == date + " " + time;
    assert |date| == 10 && |time| == 8;
    assert s[..10] == date && s[11..] == time;
    assert date[0..4] == y && date[5..7] == mo && date[8..10] == da;
    assert time[0..2] == h && time[3..5] == mi && time[6..8] == se;
    assert s[0..4] == date[0..4];
    assert s[5..7] == date[5..7];
    assert s[8..10] == date[8..10];
    assert s[11..13] == time[0..2];
    assert s[14..16] == time[3..5];
    assert s[17..19] == time[6..8];
  }

  /** Every formatted timestamp has the shape `YYYY-MM-DD HH:MM:SS`. */
  lemma FormatWellFormed(d: DateTime)
    requires d.Fits()
    ensures WellFormed(Format(d))
  {
  }

  lemma SliceDigits(s: string, lo: int, hi: int)
    requires WellFormed(s)
    requires 0 <= lo <= hi <= LENGTH
    requires forall i :: lo <= i < hi ==> SeparatorAt(i).None?
    ensures AllDigits(s[lo..hi])
  {
    forall i | 0 <= i < hi - lo ensures IsDigit(s[lo..hi][i]) {
      assert s[lo..hi][i] == s[lo + i];
      assert SeparatorAt(lo + i).None?;
    }
  }

  /** Reads a timestamp of the shape `YYYY-MM-DD HH:MM:SS` back into its fields. */
  function Parse(s: string): (r: Option<DateTime>)
    ensures r.Some? <==> WellFormed(s)
    ensures r.Some? ==> r.value.Fits()
  {
    if !WellFormed(s) then None
    else
      SliceDigits(s, 0, 4);
      SliceDigits(s, 5, 7);
      SliceDigits(s, 8, 10);
      SliceDigits(s, 11, 13);
      SliceDigits(s, 14, 16);
      SliceDigits(s, 17, 19);
      Some(DateTime(Value4(s[0..4]), Value2(s[5..7]), Value2(s[8..10]),
                    Value2(s[11..13]), Value2(s[14..16]), Value2(s[17..19])))
  }

  /** Parsing a formatted timestamp gives back the clock reading. */
  lemma ParseFormat(d: DateTime)
    requires d.Fits()
    ensures Parse(Format(d)) == Some(d)
  {
  }

  /** Every well-formed timestamp is the rendering of the reading it parses to. */
  lemma FormatParse(s: string)
    requires WellFormed(s)
    ensures Parse(s).Some? && Format(Parse(s).value) == s
  {
    var d := Parse(s).value;
    SliceDigits(s, 0, 4);
    SliceDigits(s, 5, 7);
    SliceDigits(s, 8, 10);
    SliceDigits(s, 11, 13);
    SliceDigits(s, 14, 16);
    SliceDigits(s, 17, 19);
    PadValue4(s[0..4]);
    PadValue2(s[5..7]);
    PadValue2(s[8..10]);
    PadValue2(s[11..13]);
    PadValue2(s[14..16]);
    PadValue2(s[17..19]);
    FormatPieces(d);
    var f := Format(d);
    forall i | 0 <= i < LENGTH ensures f[i] == s[i] {
      if i < 4 { assert f[i] == f[0..4][i] == s[0..4][i]; }
      else if 4 < i < 7 { assert f[i] == f[5..7][i - 5] == s[5..7][i - 5]; }
      else if 7 < i < 10 { assert f[i] == f[8..10][i - 8] == s[8..10][i - 8]; }
      else if 10 < i < 13 { assert f[i] == f[11..13][i - 11] == s[11..13][i - 11]; }
      else if 13 < i < 16 { assert f[i] == f[14..16][i - 14] == s[14..16][i - 14]; }
      else if 16 < i { assert f[i] == f[17..19][i - 17] == s[17..19][i - 17]; }
      else { assert SeparatorAt(i).Some?; }
    }
  }

  /** Distinct readings are rendered as distinct timestamps. */
  lemma FormatInjective(d1: DateTime, d2: DateTime)
    requires d1.Fits() && d2.Fits()
    requires Format(d1) == Format(d2)
    ensures d1 == d2
  {
    ParseFormat(d1);
    ParseFormat(d2);
  }
}
