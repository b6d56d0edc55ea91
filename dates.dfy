/** Calendar dates as the program writes and reads them: the text form
    DD-MM-YYYY, produced by strftime('%d-%m-%Y') and read by
    strptime(text, '%d-%m-%Y'). Every month and year query parses the stored
    date text again; a text strptime rejects raises ValueError there. */
module Dates {
  import opened Options
  import opened Text

  datatype Date = Date(day: int, month: int, year: int)

  predicate IsLeapYear(y: int)
  {
    y % 4 == 0 && (y % 100 != 0 || y % 400 == 0)
  }

  function DaysInMonth(month: int, year: int): int
  {
    if month == 2 then (if IsLeapYear(year) then 29 else 28)
    else if month == 4 || month == 6 || month == 9 || month == 11 then 30
    else 31
  }

  /** The dates Python's datetime.date can hold. */
  predicate ValidDate(d: Date)
  {
    1 <= d.year <= 9999 && 1 <= d.month <= 12 && 1 <= d.day <= DaysInMonth(d.month, d.year)
  }

  /** A day or month field: one or two ASCII digits. */
  predicate ShortNumber(s: string)
  {
    1 <= |s| <= 2 && AllDigits(s)
  }

  /** strptime(text, '%d-%m-%Y'): a day and a month of one or two digits, a year
      of exactly four, separated by '-', naming a real calendar date. None
      stands for the ValueError strptime raises. */
  function ParseDate(text: string): (r: Option<Date>)
    ensures r.Some? ==> ValidDate(r.value)
  {
    var parts := Split(text, '-');
    if |parts| == 3 && ShortNumber(parts[0]) && ShortNumber(parts[1])
      && |parts[2]| == 4 && AllDigits(parts[2]) then
      var d := Date(DigitsValue(parts[0]), DigitsValue(parts[1]), DigitsValue(parts[2]));
      if ValidDate(d) then Some(d) else None
    else
      None
  }

  /** strftime('%d') and strftime('%m'): two digits, zero-padded. */
  function TwoDigits(n: nat): (s: string)
    requires n < 100
    ensures ShortNumber(s) && |s| == 2
  {
    [DigitChar(n / 10), DigitChar(n % 10)]
  }

  /** strftime('%d-%m-%Y'). On Linux, older Python versions print the year without
      padding (the C library's behaviour), so years below 1000 come out shorter
      than four digits; newer versions pad it to four. */
  function FormatDate(d: Date): string
    requires ValidDate(d)
  {
    TwoDigits(d.day) + "-" + TwoDigits(d.month) + "-" + NatToString(d.year)
  }

  lemma TwoDigitsValue(n: nat)
    requires n < 100
    ensures DigitsValue(TwoDigits(n)) == n
  {
    var s := TwoDigits(n);
    assert s[..1] == [DigitChar(n / 10)];
    assert DigitsValue(s[..1]) == n / 10 by {
      assert s[..1][..0] == [];
    }
  }

  lemma FourDigitYear(y: nat)
    requires 1000 <= y <= 9999
    ensures |NatToString(y)| == 4
  {
    assert |NatToString(y / 1000)| == 1;
    assert |NatToString(y / 100)| == 2 by {
      assert (y / 100) / 10 == y / 1000;
    }
    assert |NatToString(y / 10)| == 3 by {
      assert (y / 10) / 10 == y / 100;
    }
  }

  /** A date the program formats (its own "today") reads back as the same date,
      so records dated by default never make a later query raise. */
  lemma {:induction false} ParseFormatDate(d: Date)
    requires ValidDate(d) && 1000 <= d.year
    ensures ParseDate(FormatDate(d)) == Some(d)
  {
    var a, b, c := TwoDigits(d.day), TwoDigits(d.month), NatToString(d.year);
    assert '-' !in a && '-' !in b && '-' !in c by {
      assert forall i :: 0 <= i < |c| ==> IsDigit(c[i]);
    }
    SplitNoSeparator(c, '-');
    SplitAtSeparator(b, c, '-');
    assert a + "-" + b + "-" + c == a + ['-'] + (b + ['-'] + c);
    SplitAtSeparator(a, b + ['-'] + c, '-');
    assert Split(FormatDate(d), '-') == [a, b, c];
    FourDigitYear(d.year);
    DigitsValueOfNatToString(d.year);
    TwoDigitsValue(d.day);
    TwoDigitsValue(d.month);
  }
}
