/** The ExpenseManager record store: the in-memory list of expense records and
    the operations that change it in place (add, delete, edit, load, the limit
    setters), with the advisory limit checks add_expense runs. */
module Manager {
  import opened Options
  import opened Text
  import opened Dates
  import opened Amounts
  import opened Records
  import opened Grouping
  import opened Sequences
  import opened Queries

  /** Serials are 1..N in list order, as delete_expense leaves them. */
  predicate Contiguous(es: seq<Expense>)
  {
    forall i :: 0 <= i < |es| ==> es[i].serial == i + 1
  }

  /** The index of the first record carrying `serial`, the one the linear scans
      of delete_expense and edit_expense stop at. */
  function FindSerial(es: seq<Expense>, serial: int): (r: Option<nat>)
    ensures r.Some? ==> r.value < |es| && es[r.value].serial == serial
    ensures r.Some? ==> forall j :: 0 <= j < r.value ==> es[j].serial != serial
    ensures r.None? ==> forall j :: 0 <= j < |es| ==> es[j].serial != serial
  {
    if es == [] then None
    else if es[0].serial == serial then Some(0)
    else
      match FindSerial(es[1..], serial)
      case None => None
      case Some(i) => Some(i + 1)
  }

  /** The renumbering loop of delete_expense: the record at position i gets
      serial i + 1. */
  function Renumber(es: seq<Expense>): (r: seq<Expense>)
    ensures |r| == |es| && Contiguous(r)
    ensures forall i :: 0 <= i < |es| ==> r[i].(serial := es[i].serial) == es[i]
  {
    seq(|es|, i requires 0 <= i < |es| => es[i].(serial := i + 1))
  }

  /** The list delete_expense leaves: the first record with the serial removed
      and the rest renumbered, or the list unchanged when no record has it. */
  function Deleted(es: seq<Expense>, serial: int): seq<Expense>
  {
    match FindSerial(es, serial)
    case None => es
    case Some(i) => Renumber(es[..i] + es[i + 1..])
  }

  /** After a delete of a serial that exists, one record fewer, serials 1..N-1
      in list order, and every other record in its original relative order
      with only its serial changed. */
  lemma DeletedShape(es: seq<Expense>, serial: int, i: nat)
    requires FindSerial(es, serial) == Some(i)
    ensures |Deleted(es, serial)| == |es| - 1
    ensures Contiguous(Deleted(es, serial))
    ensures forall j :: 0 <= j < i ==> Deleted(es, serial)[j] == es[j].(serial := j + 1)
    ensures forall j :: i <= j < |es| - 1 ==> Deleted(es, serial)[j] == es[j + 1].(serial := j + 1)
  {
    var rest := es[..i] + es[i + 1..];
    assert Deleted(es, serial) == Renumber(rest);
    assert forall j :: 0 <= j < i ==> rest[j] == es[j];
    assert forall j :: i <= j < |rest| ==> rest[j] == es[j + 1];
  }

  /** A partial update as edit_expense receives it: an empty category, date or
      comment and an absent amount mean "keep". The amount arrives as text and
      goes through float(). */
  datatype Update = Update(category: string, amount: Option<string>, date: string, comment: string)

  datatype EditStatus = Edited | NotFound | AmountError

  /** The field assignments of edit_expense on one record, in source order: the
      category first, then the amount, whose float() can raise and stop the
      edit, then the date and the comment. The flag says whether it ran to the
      end. */
  function EditRecord(e: Expense, u: Update): (Expense, bool)
  {
    var e1 := if u.category != "" then e.(category := u.category) else e;
    var amount := if u.amount.Some? then ParseAmount(u.amount.value) else Some(e.amount);
    match amount
    case None => (e1, false)
    case Some(a) =>
      var e2 := e1.(amount := a);
      var e3 := if u.date != "" then e2.(date := u.date) else e2;
      var e4 := if u.comment != "" then e3.(comment := Some(u.comment)) else e3;
      (e4, true)
  }

  /** edit_expense on the whole list: the list it leaves and what it reports. */
  function EditList(es: seq<Expense>, serial: int, u: Update): (seq<Expense>, EditStatus)
  {
    match FindSerial(es, serial)
    case None => (es, NotFound)
    case Some(i) =>
      var (e, done) := EditRecord(es[i], u);
      (es[i := e], if done then Edited else AmountError)
  }

  /** edit_expense changes only the first record with the serial, never its
      serial; a field whose update is empty keeps its value and a field whose
      update is given takes it; an absent serial changes nothing. */
  lemma EditListShape(es: seq<Expense>, serial: int, u: Update)
    ensures var (r, status) := EditList(es, serial, u);
      && |r| == |es|
      && (status == NotFound <==> FindSerial(es, serial).None?)
      && (status == NotFound ==> r == es)
      && (status != NotFound ==>
            var i := FindSerial(es, serial).value;
            && (forall j :: 0 <= j < |es| && j != i ==> r[j] == es[j])
            && r[i].serial == es[i].serial
            && r[i].category == (if u.category != "" then u.category else es[i].category)
            && (status == AmountError <==> u.amount.Some? && ParseAmount(u.amount.value).None?)
            && (status == AmountError ==> r[i].amount == es[i].amount && r[i].date == es[i].date
                                          && r[i].comment == es[i].comment)
            && (status == Edited ==>
                  && r[i].amount == (if u.amount.Some? then ParseAmount(u.amount.value).value else es[i].amount)
                  && r[i].date == (if u.date != "" then u.date else es[i].date)
                  && r[i].comment == (if u.comment != "" then Some(u.comment) else es[i].comment)))
  {
  }

  datatype Warning = DailyExceeded | MonthlyExceeded | YearlyExceeded

  /** The warnings add_expense prints, in order, and whether a strptime call in
      the monthly or yearly check raised ValueError, which ends the checks (the
      record is already stored by then). */
  datatype LimitReport = LimitReport(warnings: seq<Warning>, dateError: bool)

  /** The sum the monthly check of add_expense compares: every record whose
      month name is that month, in any year. */
  function MonthAnyYearTotal(es: seq<Expense>, month: int): int
  {
    Total(Select(es, MonthOf, Some(month)))
  }

  /** The sum the yearly check of add_expense compares. */
  function YearTotal(es: seq<Expense>, year: int): int
  {
    Total(Select(es, YearOf, Some(year)))
  }

  /** The three limit checks of add_expense, run on the list that already holds
      the new record dated `date` with `amount`. The daily check adds `amount`
      to a sum that already contains it. */
  function CheckLimits(es: seq<Expense>, date: string, amount: int,
                       daily: Option<int>, monthly: Option<int>, yearly: Option<int>): LimitReport
  {
    var parses := ParseDate(date).Some? && DatesParse(es);
    var w1 := if daily.Some? && DayTotal(es, date) + amount > daily.value then [DailyExceeded] else [];
    if monthly.Some? && !parses then LimitReport(w1, true)
    else
      var w2 := if monthly.Some? && MonthAnyYearTotal(es, ParseDate(date).value.month) > monthly.value
                then w1 + [MonthlyExceeded] else w1;
      if yearly.Some? && !parses then LimitReport(w2, true)
      else
        var w3 := if yearly.Some? && YearTotal(es, ParseDate(date).value.year) > yearly.value
                  then w2 + [YearlyExceeded] else w2;
        LimitReport(w3, false)
  }

  /** What each check of add_expense reports: the daily warning compares the
      day's sum plus the amount; the monthly and yearly warnings compare their
      sums when every date parses; a date strptime rejects makes the first of
      those two checks that is switched on raise, so only the daily warning can
      precede it. */
  lemma CheckLimitsOutcome(es: seq<Expense>, date: string, amount: int,
                           daily: Option<int>, monthly: Option<int>, yearly: Option<int>)
    ensures var r := CheckLimits(es, date, amount, daily, monthly, yearly);
      var parses := ParseDate(date).Some? && DatesParse(es);
      && (r.dateError <==> (monthly.Some? || yearly.Some?) && !parses)
      && (DailyExceeded in r.warnings <==> daily.Some? && DayTotal(es, date) + amount > daily.value)
      && (r.dateError ==> MonthlyExceeded !in r.warnings && YearlyExceeded !in r.warnings)
      && (parses ==> (MonthlyExceeded in r.warnings
                      <==> monthly.Some? && MonthAnyYearTotal(es, ParseDate(date).value.month) > monthly.value))
      && (parses ==> (YearlyExceeded in r.warnings
                      <==> yearly.Some? && YearTotal(es, ParseDate(date).value.year) > yearly.value))
  {
  }

  /** The daily warning of add_expense counts the new amount twice: it fires
      exactly when the day's total before the add plus twice the amount is over
      the limit. */
  lemma DailyWarningCountsAmountTwice(es: seq<Expense>, e: Expense, daily: Option<int>,
                                      monthly: Option<int>, yearly: Option<int>)
    ensures DailyExceeded in CheckLimits(es + [e], e.date, e.amount, daily, monthly, yearly).warnings
        <==> daily.Some? && DayTotal(es, e.date) + 2 * e.amount > daily.value
  {
    CheckLimitsOutcome(es + [e], e.date, e.amount, daily, monthly, yearly);
    DayTotalSnoc(es, e, e.date);
  }

  /** The monthly check of add_expense sums the month across all years: with
      one earlier record in the same month of another year, the warning is
      decided by the two amounts together, while total_monthly_expense for the
      new record's month and year counts only the new one. */
  lemma MonthlyWarningSpansYears(a: Expense, b: Expense, limit: int)
    requires ParseDate(a.date).Some? && ParseDate(b.date).Some?
    requires ParseDate(a.date).value.month == ParseDate(b.date).value.month
    requires ParseDate(a.date).value.year != ParseDate(b.date).value.year
    ensures CheckLimits([a, b], b.date, b.amount, None, Some(limit), None)
         == LimitReport(if a.amount + b.amount > limit then [MonthlyExceeded] else [], false)
    ensures MonthlyTotal([a, b], ParseDate(b.date).value.month, ParseDate(b.date).value.year, Some(limit))
         == Some(TotalReport(b.amount, b.amount > limit))
  {
    var m, y := ParseDate(b.date).value.month, ParseDate(b.date).value.year;
    assert DatesParse([a, b]);
    PairMonthTotal(a, b, m);
    PairMonthYearTotal(a, b, m, y);
  }

  lemma PairMonthTotal(a: Expense, b: Expense, m: int)
    requires MonthOf(a) == Some(m) && MonthOf(b) == Some(m)
    ensures MonthAnyYearTotal([a, b], m) == a.amount + b.amount
  {
    assert [a, b] == [a] + [b];
    assert [a] == [] + [a];
    SelectSnoc([a], b, MonthOf, Some(m));
    SelectSnoc([], a, MonthOf, Some(m));
    SumOfSnoc([a], b, AmountOf);
    SumOfSnoc([], a, AmountOf);
  }

  lemma PairMonthYearTotal(a: Expense, b: Expense, m: int, y: int)
    requires MonthYearOf(a) != Some((m, y)) && MonthYearOf(b) == Some((m, y))
    ensures Total(Select([a, b], MonthYearOf, Some((m, y)))) == b.amount
  {
    assert [a, b] == [a] + [b];
    assert [a] == [] + [a];
    SelectSnoc([a], b, MonthYearOf, Some((m, y)));
    SelectSnoc([], a, MonthYearOf, Some((m, y)));
    assert [] + [b] == [b];
    SumOfSnoc([], b, AmountOf);
  }

  /** One pass of the loop body of load_expenses, split off so that
      LoadExpenses reads as the source's loop: strip and split the line; a line
      without five fields is skipped. Its contract ties it to ParseLine and
      LoadStep, which state the same step as functions over values. */
  method ReadLine(records: seq<Expense>, counter: int, line: string)
    returns (records': seq<Expense>, counter': int, ok: bool)
    ensures LoadState(records', counter', !ok) == LoadStep(LoadState(records, counter, false), ParseLine(line))
  {
    var fields := Split(Strip(line), '|');
    if |fields| == 5 {
      records', counter', ok := ReadFields(records, counter, fields);
    } else {
      records', counter', ok := records, counter, true;
    }
  }

  /** The rest of that loop body, the imperative counterpart of ParseFields
      and LoadStep: convert the amount, then the serial, append the record and
      raise the counter; a conversion that fails ends the load. */
  method ReadFields(records: seq<Expense>, counter: int, fields: seq<string>)
    returns (records': seq<Expense>, counter': int, ok: bool)
    requires |fields| == 5
    ensures LoadState(records', counter', !ok) == LoadStep(LoadState(records, counter, false), ParseFields(fields))
  {
    var amount := ParseAmount(fields[3]);
    if amount.None? {
      return records, counter, false;
    }
    var serial := ParseInt(fields[0]);
    if serial.None? {
      return records, counter, false;
    }
    records' := records + [Expense(serial.value, fields[1], fields[2], amount.value, Some(fields[4]))];
    counter' := Max(counter, serial.value + 1);
    ok := true;
  }

  class ExpenseManager {
    var expenses: seq<Expense>
    var categories: set<string>
    var dailyLimit: Option<int>
    var monthlyLimit: Option<int>
    var yearlyLimit: Option<int>
    var serialCounter: int
    var filename: Option<string>

    constructor ()
      ensures expenses == [] && categories == {}
      ensures dailyLimit == None && monthlyLimit == None && yearlyLimit == None
      ensures serialCounter == 1 && filename == None
    {
      expenses := [];
      categories := {};
      dailyLimit, monthlyLimit, yearlyLimit := None, None, None;
      serialCounter := 1;
      filename := None;
    }

    /** add_expense: appends one record whose serial is the list length plus
        one, dated `date` or, when that is empty, today; adds the category;
        then runs the limit checks, which never undo the add. */
    method AddExpense(category: string, amount: int, date: string, comment: Option<string>, today: Date)
      returns (report: LimitReport)
      requires ValidDate(today)
      modifies this
      ensures var d := if date == "" then FormatDate(today) else date;
        && expenses == old(expenses) + [Expense(|old(expenses)| + 1, d, category, amount, comment)]
        && report == CheckLimits(expenses, d, amount, dailyLimit, monthlyLimit, yearlyLimit)
      ensures categories == old(categories) + {category}
      ensures dailyLimit == old(dailyLimit) && monthlyLimit == old(monthlyLimit) && yearlyLimit == old(yearlyLimit)
      ensures serialCounter == old(serialCounter) && filename == old(filename)
      ensures Contiguous(old(expenses)) ==> Contiguous(expenses)
    {
      var d := if date == "" then FormatDate(today) else date;
      var serial := |expenses| + 1;
      expenses := expenses + [Expense(serial, d, category, amount, comment)];
      categories := categories + {category};
      report := CheckLimits(expenses, d, amount, dailyLimit, monthlyLimit, yearlyLimit);
    }

    /** The linear scan for the first record carrying `serial`. */
    method Find(serial: int) returns (index: Option<nat>)
      ensures index == FindSerial(expenses, serial)
    {
      var i := 0;
      while i < |expenses|
        invariant 0 <= i <= |expenses|
        invariant forall j :: 0 <= j < i ==> expenses[j].serial != serial
      {
        if expenses[i].serial == serial {
          return Some(i);
        }
        i := i + 1;
      }
      return None;
    }

    /** delete_expense: removes the first record with the serial and renumbers
        the rest 1..N-1; reports whether it found one. */
    method DeleteExpense(serial: int) returns (found: bool)
      modifies this
      ensures found <==> FindSerial(old(expenses), serial).Some?
      ensures expenses == Deleted(old(expenses), serial)
      ensures found ==> Contiguous(expenses)
      ensures categories == old(categories) && serialCounter == old(serialCounter) && filename == old(filename)
      ensures dailyLimit == old(dailyLimit) && monthlyLimit == old(monthlyLimit) && yearlyLimit == old(yearlyLimit)
    {
      var index := Find(serial);
      if index.None? {
        return false;
      }
      var k := index.value;
      var rest := expenses[..k] + expenses[k + 1..];
      expenses := rest;
      var i := 0;
      while i < |expenses|
        invariant 0 <= i <= |expenses| == |rest|
        invariant forall j :: 0 <= j < i ==> expenses[j] == rest[j].(serial := j + 1)
        invariant forall j :: i <= j < |expenses| ==> expenses[j] == rest[j]
        invariant categories == old(categories) && serialCounter == old(serialCounter) && filename == old(filename)
        invariant dailyLimit == old(dailyLimit) && monthlyLimit == old(monthlyLimit) && yearlyLimit == old(yearlyLimit)
      {
        expenses := expenses[i := expenses[i].(serial := i + 1)];
        i := i + 1;
      }
      assert expenses == Renumber(rest);
      return true;
    }

    /** edit_expense: overwrites the given fields of the first record with the
        serial, in source order, stopping if the amount text does not convert. */
    method EditExpense(serial: int, u: Update) returns (status: EditStatus)
      modifies this
      ensures (expenses, status) == EditList(old(expenses), serial, u)
      ensures categories == old(categories) && serialCounter == old(serialCounter) && filename == old(filename)
      ensures dailyLimit == old(dailyLimit) && monthlyLimit == old(monthlyLimit) && yearlyLimit == old(yearlyLimit)
    {
      var index := Find(serial);
      if index.None? {
        return NotFound;
      }
      var i := index.value;
      var e := expenses[i];
      if u.category != "" {
        e := e.(category := u.category);
      }
      if u.amount.Some? {
        var a := ParseAmount(u.amount.value);
        if a.None? {
          expenses := expenses[i := e];
          return AmountError;
        }
        e := e.(amount := a.value);
      }
      if u.date != "" {
        e := e.(date := u.date);
      }
      if u.comment != "" {
        e := e.(comment := Some(u.comment));
      }
      expenses := expenses[i := e];
      return Edited;
    }

    /** load_expenses: empties the list, resets the counter, records the file
        name, then reads the lines in order; false when int() or float() raised
        and ended the load early. */
    method LoadExpenses(name: string, lines: seq<string>) returns (ok: bool)
      modifies this
      ensures filename == Some(name)
      ensures expenses == LoadLines(lines).records
      ensures serialCounter == LoadLines(lines).counter
      ensures ok <==> !LoadLines(lines).failed
      ensures categories == old(categories)
      ensures dailyLimit == old(dailyLimit) && monthlyLimit == old(monthlyLimit) && yearlyLimit == old(yearlyLimit)
    {
      expenses := [];
      serialCounter := 1;
      filename := Some(name);
      ok := true;
      ghost var parsed: seq<LineParse> := [];
      var i := 0;
      while i < |lines| && ok
        invariant 0 <= i <= |lines|
        invariant parsed == ParseLines(lines[..i])
        invariant LoadParsed(parsed) == LoadState(expenses, serialCounter, !ok)
        invariant filename == Some(name) && categories == old(categories)
        invariant dailyLimit == old(dailyLimit) && monthlyLimit == old(monthlyLimit) && yearlyLimit == old(yearlyLimit)
      {
        ghost var p := ParseLine(lines[i]);
        expenses, serialCounter, ok := ReadLine(expenses, serialCounter, lines[i]);
        MapSeqPrefix(lines, i, ParseLine);
        LoadParsedSnoc(parsed, p);
        parsed := parsed + [p];
        i := i + 1;
      }
      LoadLinesStop(lines, i);
    }

    /** save_expenses: the lines written, one per record in list order. */
    method SaveExpenses() returns (lines: seq<string>)
      ensures lines == SaveLines(expenses)
    {
      lines := [];
      for i := 0 to |expenses|
        invariant lines == SaveLines(expenses[..i])
      {
        assert expenses[..i + 1] == expenses[..i] + [expenses[i]];
        lines := lines + [SaveLine(expenses[i])];
      }
      assert expenses[..|expenses|] == expenses;
    }

    method SetDailyLimit(limit: int)
      modifies this
      ensures dailyLimit == Some(limit)
      ensures expenses == old(expenses) && categories == old(categories)
      ensures monthlyLimit == old(monthlyLimit) && yearlyLimit == old(yearlyLimit)
      ensures serialCounter == old(serialCounter) && filename == old(filename)
    {
      dailyLimit := Some(limit);
    }

    method SetMonthlyLimit(limit: int)
      modifies this
      ensures monthlyLimit == Some(limit)
      ensures expenses == old(expenses) && categories == old(categories)
      ensures dailyLimit == old(dailyLimit) && yearlyLimit == old(yearlyLimit)
      ensures serialCounter == old(serialCounter) && filename == old(filename)
    {
      monthlyLimit := Some(limit);
    }

    method SetYearlyLimit(limit: int)
      modifies this
      ensures yearlyLimit == Some(limit)
      ensures expenses == old(expenses) && categories == old(categories)
      ensures dailyLimit == old(dailyLimit) && monthlyLimit == old(monthlyLimit)
      ensures serialCounter == old(serialCounter) && filename == old(filename)
    {
      yearlyLimit := Some(limit);
    }
  }
}
