# Spendwise expense store — a verified model

Spendwise is a console expense tracker. Its core is the `ExpenseManager` record
store in `spendwise.py`. The store keeps an in-memory list of expense records:
a serial number, a `DD-MM-YYYY` date text, a category, an amount and an optional
comment. Its operations change that list in place:

- `add_expense` appends a record, then runs advisory daily, monthly and yearly limit checks;
- `delete_expense` removes a record and renumbers the records that remain;
- `edit_expense` overwrites some fields of one record;
- `save_expenses` writes one `serial|date|category|amount|comment` line per record;
- `load_expenses` reads those lines back and skips lines that do not have five fields.

On top of the store sit read-only queries: sums for a date, a month of a year
or a year; the same sums broken down by category; per-category listings; and
the label-to-sum mappings the charts are drawn from.

The model has nine modules, one per file:

- `Options` (`options.dfy`) holds the optional-value type.
- `Text` (`text.dfy`) models the Python string built-ins the program relies on:
  `str.strip()` with Python's whitespace set, `split('|')`, `int()` and `str()`
  of an integer. Its `Join` is the concatenation of fields with `|` between
  them that the f-string of `save_expenses` writes (line 57); the program
  never calls `join` itself.
- `Amounts` (`amounts.dfy`) holds amounts as whole cents. It models how an
  amount is printed into the file (Python's float repr, e.g. `12.5`, `100.0`)
  and how `float()` reads it back: at most one decimal point, at most two
  digits after it, and at least one digit in all.
- `Dates` (`dates.dfy`) models `strptime(text, '%d-%m-%Y')` and
  `strftime('%d-%m-%Y')`.
- `Sequences` (`sequences.dfy`) holds the list comprehension `[f(x) for x in xs]`
  and the facts about it that the load loop needs.
- `Records` (`records.dfy`) holds the record type, the line format, and the
  load loop as a function of the file's lines.
- `Grouping` (`grouping.dfy`) is a generic group-by. It models the
  dictionary-filling loops of the chart and listing queries, with sums or with
  lists. It also specifies the `total_*_expense_by_category` queries, which
  build the set of the period's categories and sum each category separately.
- `Queries` (`queries.dfy`) holds the totals, listings and chart data.
- `Manager` (`manager.dfy`) holds the `ExpenseManager` class. Its methods update
  the fields in place and are proved against the specification functions next
  to them.

Behaviour of the code that the model keeps, including where it looks unintended:

- The serial of a new record is the list length plus one. `serial_counter` is
  kept up to date by `load_expenses` but never read.
- The daily check of `add_expense` sums the day's records, which already
  include the new one, and then adds the new amount again.
- The monthly check of `add_expense` compares month names only, so the same
  month of every year counts.
- The date of a new record is not validated. If it does not parse, the monthly
  or yearly check raises after the record has been stored.
- A record added without a comment is saved with the text `None` in the comment
  field, and reads back with the comment `"None"`. The code does this through
  `expense.get('comment', '')` on a key that is always present, so a comment
  that was never given does not come back empty.
- In `edit_expense` the category is assigned before `float(new_amount)`. When
  the amount text does not convert, the edit stops with the category already
  changed. The menu passes `""` for "keep unchanged", which `float()` rejects.
- `load_expenses` stops at the first line whose serial or amount does not
  convert. The records read before it stay loaded. The amount is converted
  before the serial.
- A query for a month or a year parses every stored date. A single stored date
  that `strptime` rejects makes the query raise. The model returns `None`,
  `DateError` or `ListError` in that case.
- Python dictionaries keep insertion order, so category and month labels come
  out in the order the first record of each appears.

## Model

| member | source | states |
|---|---|---|
| Manager.ExpenseManager.constructor | spendwise.py:5-13 | a fresh store: no records, no categories, no limits, counter 1, no file name |
| Manager.ExpenseManager.AddExpense | spendwise.py:15-41 | appends exactly one record at the end: serial = old length + 1, the given date (or today's, formatted), category, amount and comment; earlier records unchanged; the category joins `categories`; the warnings are those of `CheckLimits` on the new list, and no check undoes the add; contiguous serials stay contiguous |
| Manager.CheckLimitsOutcome | spendwise.py:24-39 | the daily warning fires iff the day's sum plus the amount exceeds the limit; when every date parses, the monthly and yearly warnings fire iff their sums exceed their limits; a date `strptime` rejects raises iff a monthly or yearly limit is set, and then neither of those warnings is produced |
| Manager.DailyWarningCountsAmountTwice | spendwise.py:21-27 | over the list before the add, the daily warning fires iff the day's sum plus twice the new amount exceeds the limit |
| Manager.MonthlyWarningSpansYears | spendwise.py:29-33 | with an earlier record in the same month of another year, the monthly warning of `add_expense` is decided by both amounts together, while `total_monthly_expense` for the new record's month and year reports only the new amount |
| Manager.PairMonthTotal | spendwise.py:31 | two records in the same month add up in the month-name sum, whatever their years |
| Manager.PairMonthYearTotal | spendwise.py:212 | of two records, only the one in the queried month and year counts toward the month total |
| Manager.FindSerial | spendwise.py:44-45 | the index of the first record carrying the serial, or none when no record has it |
| Manager.ExpenseManager.Find | spendwise.py:44-45 | the linear scan returns exactly `FindSerial` |
| Manager.ExpenseManager.DeleteExpense | spendwise.py:43-52 | reports a deletion iff the serial exists; the new list is `Deleted` of the old one, and its serials are 1..N-1 after a deletion; nothing else changes |
| Manager.Renumber | spendwise.py:48-49 | the renumbered list has the same length, serials 1..N, and each record unchanged apart from its serial |
| Manager.DeletedShape | spendwise.py:46-49 | a delete of an existing serial leaves one record fewer, serials 1..N-1, and every other record in its original relative order with only its serial changed |
| Manager.ExpenseManager.EditExpense | spendwise.py:229-243 | the list and status are exactly `EditList` of the old list; limits, categories, counter and file name are unchanged |
| Manager.EditListShape | spendwise.py:230-239 | only the first record with the serial changes, and never its serial; the category is overwritten iff non-empty; the amount iff given, the edit stopping with an error iff its text does not convert; after a completed edit the date and comment are overwritten iff non-empty; an absent serial changes nothing |
| Manager.ReadLine | spendwise.py:250-258 | one pass of the loop body: the line is stripped and split, and the new list, counter and stop flag are exactly one `LoadStep` with what `ParseLine` makes of the line |
| Manager.ReadFields | spendwise.py:253-256 | with five fields: `float()` of the amount, then `int()` of the serial; a failure ends the load with the list unchanged, otherwise the record is appended and the counter becomes the larger of itself and serial + 1 |
| Manager.ExpenseManager.LoadExpenses | spendwise.py:245-256 | the list, the counter and the success flag are those of `LoadLines` over the file's lines; the file name is recorded; categories and limits are unchanged |
| Manager.ExpenseManager.SaveExpenses | spendwise.py:54-57 | the lines written are `SaveLines` of the list |
| Manager.ExpenseManager.SetDailyLimit | spendwise.py:204-205 | sets the daily limit; nothing else changes |
| Manager.ExpenseManager.SetMonthlyLimit | spendwise.py:198-199 | sets the monthly limit; nothing else changes |
| Manager.ExpenseManager.SetYearlyLimit | spendwise.py:201-202 | sets the yearly limit; nothing else changes |
| Records.SaveLines | spendwise.py:56-57 | one line per record, in list order, each the record's `SaveLine` |
| Records.ParseSaveLine | spendwise.py:57 | a record with a comment and no `\|`, `\n` or `\r` in its text fields, whose comment does not end in whitespace, saved and parsed again is the same record |
| Records.ParseSaveLineWithoutComment | spendwise.py:57 | a record without a comment, and no `\|`, `\n` or `\r` in its date and category, reads back with the comment "None" |
| Records.SplitSavedLine | spendwise.py:251 | `strip()` then `split('\|')` of a saved line gives back its five fields |
| Records.LoadSaveLines | spendwise.py:54-57 | loading what `save_expenses` wrote gives back the same records in the same order, without error |
| Records.LoadCounter | spendwise.py:247-256 | `serial_counter` ends at least 1, above every loaded serial, and equal to 1 or to some loaded serial + 1 |
| Records.LoadSkipsMalformed | spendwise.py:252-258 | a line that does not split into five fields changes nothing, wherever it stands: the load equals the load without it |
| Records.LoadSkipsMalformedLine | spendwise.py:251-252 | the same, stated on the lines of the file |
| Records.LoadAfterFailure | spendwise.py:254-255 | once `int()` or `float()` has raised, no later line is read |
| Records.LoadLinesAfterFailure | spendwise.py:250-255 | the same, stated on the lines of the file |
| Records.LoadAllParsed | spendwise.py:250-256 | lines that all parse load as exactly their records, in order |
| Records.LoadLinesStop | spendwise.py:250-255 | the load of a file is the load of its first lines once they reach the end or end with a failed conversion |
| Amounts.ParseAmountOfAmountToString | spendwise.py:254 | `float()` of an amount as written to the file gives back the same amount (the text line 57 writes) |
| Amounts.AmountTextShape | spendwise.py:57 | a written amount holds no `\|` and no leading or trailing whitespace |
| Amounts.ParseAmountOfUnsigned | spendwise.py:254 | `float()` of unsigned amount text that starts with a digit and does not end in whitespace is its unsigned value |
| Amounts.ParseAmountOfNegated | spendwise.py:254 | `float()` of a minus sign followed by unsigned amount text is the negated value |
| Amounts.ParseUnsignedOfText | spendwise.py:254 | the unsigned part of a written amount reads back as the same number of cents |
| Amounts.CentsValueOfCentsText | spendwise.py:57 | the fraction digits written for an amount read back as the same cents |
| Amounts.CentsText | spendwise.py:57 | the fraction of a written amount is one or two digits |
| Dates.ParseDate | spendwise.py:30-36 | a date `strptime('%d-%m-%Y')` accepts is a real calendar date in years 1..9999 |
| Dates.ParseFormatDate | spendwise.py:17-30 | a date formatted with `strftime('%d-%m-%Y')` (year 1000 or later) parses back to the same date, so today's default date never makes a later check raise |
| Dates.TwoDigits | spendwise.py:17 | `%d` and `%m` print two digits |
| Dates.TwoDigitsValue | spendwise.py:17-30 | the two digits printed for a day or month read back as the same number |
| Dates.FourDigitYear | spendwise.py:17-30 | years 1000..9999 print as exactly four digits, as `%Y` requires when read back |
| Text.Split | spendwise.py:251 | `split` yields at least one field; no field holds the separator; joining the fields gives back the text |
| Text.SplitJoin | spendwise.py:251 | splitting the join of separator-free fields gives back the fields (the line `save_expenses` joins at line 57) |
| Text.SplitNoSeparator | spendwise.py:251 | text without the separator splits into itself alone |
| Text.SplitAtSeparator | spendwise.py:251 | splitting at the first separator yields the part before it followed by the split of the rest |
| Text.IndexOfFirst | spendwise.py:254 | the decimal point `float()` splits an amount at is the first `.` of the text: none stands before it |
| Text.IndexOfAfter | spendwise.py:254 | in a written amount, the first `.` is the one right after the whole part |
| Text.StripLeft | spendwise.py:251 | removes exactly the leading whitespace |
| Text.StripRight | spendwise.py:251 | removes exactly the trailing whitespace |
| Text.StripUnpadded | spendwise.py:251 | `strip()` leaves text with no whitespace at either end unchanged |
| Text.ParseIntOfIntToString | spendwise.py:255 | `int()` of a serial as written to the file gives back the serial (the text line 57 writes) |
| Text.IntToStringShape | spendwise.py:57 | a written serial is a sign and digits, with no whitespace at either end |
| Text.NatToString | spendwise.py:57 | the decimal text of a number is non-empty, all digits, and starts with 0 only for zero |
| Text.DigitsValueOfNatToString | spendwise.py:255 | reading back the decimal text of a number gives the number |
| Text.DigitChar | spendwise.py:57 | a digit character has the value it is made for |
| Queries.InMonth | spendwise.py:212 | the records of a month of a year, present iff every stored date parses, holding exactly the records dated in that month and year (the same selection as line 75) |
| Queries.InYear | spendwise.py:222 | the records of a year, present iff every stored date parses, holding exactly the records dated in that year (the same selection as line 86) |
| Queries.MonthlyTotal | spendwise.py:207-217 | `total_monthly_expense` raises iff some stored date does not parse; otherwise it warns exactly when a limit is set and the total exceeds it |
| Queries.YearlyTotal | spendwise.py:219-227 | `total_yearly_expense` raises iff some stored date does not parse; otherwise it warns exactly when a limit is set and the total exceeds it |
| Queries.MonthlyTotalSnoc | spendwise.py:212-213 | one more stored record changes `total_monthly_expense` by its amount iff it is dated in that month of that year (all dates parsing) |
| Queries.YearlyTotalSnoc | spendwise.py:222-223 | one more stored record changes `total_yearly_expense` by its amount iff it is dated in that year (all dates parsing) |
| Queries.CategoryTotals | spendwise.py:285-287 | the keys are exactly the period's categories, as `set(...)` collects them, and each entry is the sum of that category's records (likewise lines 321-323 and 352-354) |
| Queries.CategoryTotalsSum | spendwise.py:285-287 | the per-category sums add up to the period's total, each category counted once |
| Queries.SumValuesGroupSums | spendwise.py:286-287 | summing the category map over some categories equals summing those categories' records |
| Queries.MonthTotalByCategory | spendwise.py:321-323 | when every stored date parses, the per-category sums of `total_monthly_expense_by_category` add up to `total_monthly_expense` of the same month and year |
| Queries.YearTotalByCategory | spendwise.py:352-354 | when every stored date parses, the per-category sums of `total_yearly_expense_by_category` add up to `total_yearly_expense` of the same year |
| Queries.DayTotalSnoc | spendwise.py:97 | one more record changes the day's total by its amount iff it is dated that day |
| Queries.CategoriesPartitionPeriod | spendwise.py:105-110 | the category groups partition the period: their sums add up to its total, their sizes to its length, and each record lies in its own category's group and no other |
| Queries.DayTotalByCategory | spendwise.py:285-287 | the per-category sums of a day, both as group sums and as the values of `total_daily_expense_by_category`'s map, add up to `total_expenses` of that day |
| Queries.YearTotalByMonth | spendwise.py:175-183 | the per-month sums of a year add up to `total_yearly_expense` of that year |
| Queries.CategoryChart | spendwise.py:103-112 | no chart iff the period is empty; otherwise the categories in first-occurrence order, each with its group's sum |
| Queries.VisualizeByDate | spendwise.py:100-121 | the pie chart data of a date: categories in first-occurrence order with their sums, or no chart iff the date has no records |
| Queries.VisualizeByMonth | spendwise.py:123-147 | raises iff a stored date does not parse; otherwise the same chart data for the month of the year |
| Queries.VisualizeByYear | spendwise.py:149-170 | raises iff a stored date does not parse; otherwise the same chart data for the year |
| Queries.VisualizeMonthsOfYear | spendwise.py:172-196 | raises iff a stored date does not parse; otherwise one bar per month of the year in first-occurrence order, each with its month's sum |
| Queries.CategoryListing | spendwise.py:267-276 | no listing iff the period is empty; otherwise the categories in first-occurrence order, each with its records in their original order |
| Queries.ViewDailyByCategory | spendwise.py:260-280 | the same listing for the records of a date |
| Queries.ViewMonthlyByCategory | spendwise.py:291-312 | raises iff a stored date does not parse; otherwise the same listing for the month (by number) of the year |
| Grouping.SelectMembers | spendwise.py:62 | the filtered records are drawn from the list, all carry the key, and every record carrying the key is among them (likewise the filter at line 97) |
| Grouping.KeysInOrder | spendwise.py:107-109 | the dictionary's keys are distinct |
| Grouping.KeysInOrderCovers | spendwise.py:107-109 | every record's key is among the dictionary's keys, and every key is some record's |
| Grouping.GroupTotals | spendwise.py:105-113 | the `totals[k] += amount` loop yields the keys in first-occurrence order, each with the sum of its group |
| Grouping.GroupLists | spendwise.py:268-271 | the `groups[k].append(x)` loop yields the keys in first-occurrence order, each with its records in their original order |
| Grouping.GroupsPartitionSum | spendwise.py:105-110 | the group sums add up to the sum over all records |
| Grouping.GroupsPartition | spendwise.py:268-271 | every record lies in exactly one group, and the group sizes add up to the number of records |
| Grouping.GroupSumsSnocKeys | spendwise.py:105-110 | one more record raises the sums over all groups by exactly its amount |
| Grouping.SumSelectSnoc | spendwise.py:110 | one more record adds its amount to its own group's sum and to no other |
| Grouping.GroupSumsSnoc | spendwise.py:110 | one more record adds its amount to the group sums iff its key is among the keys summed |
| Grouping.SumOfOne | spendwise.py:105-110 | summing a weight of one counts the records |
| Grouping.SelectAbsent | spendwise.py:108-109 | a key that never occurs has an empty group |

## Left out

- File I/O: `open`, `read` and `write` are not modelled. A file is its sequence of lines without line breaks. Reading in text mode splits lines at `\n`, `\r` and `\r\n`, so a record with a line break in a text field does not come back; the round-trip lemmas require text fields without `\n` and `\r`.
- `add_expense`, `delete_expense` and `edit_expense` each end by calling `save_expenses(self.filename)`. The model does not include that call, because it is only I/O, and with no file name set it raises TypeError after the change.
- Console output, the `currency_symbol`, the `:.2f` formatting of printed totals, and the interactive menu in `main` are not modelled. `main` passes the year as a string while the methods compare it with integer years. That is a bug in the menu, not in the store.
- matplotlib rendering is not modelled; only the labels and values handed to it are. Chart titles are left out.
- `datetime.date.today()`: the clock is a parameter. `AddExpense` takes today's date. The queries take their date, month and year explicitly, so their defaulting is not modelled.
- `strftime('%B')` month names are compared as month numbers. This is valid because the name is a one-to-one function of the number.
- `strptime` cases not modelled: `%d` with a leading space, and non-ASCII digits.
- Text.ParseInt: rejects text that Python's `int()` accepts, namely underscores between digits (`int("1_0") == 10`) and non-ASCII decimal digits. A saved file never holds them, since `str()` of a serial writes ASCII digits only. A hand-edited line with such a serial loads in the program but, in the model, ends the load as a failed conversion.
- Amounts.ParseAmount: likewise rejects non-ASCII decimal digits, which Python's `float()` accepts, besides the cases listed under Amounts below.
- On Linux, older Python versions' `strftime` prints years below 1000 with fewer than four digits (newer versions pad to four), which `strptime` then rejects. `Dates.ParseFormatDate` therefore requires year 1000 or later.
- Amounts: floating point is replaced by whole cents. Not modelled:
  - `float()` inputs with more than two decimals, an exponent, `inf`, `nan` or underscores;
  - the exponent form of `repr` at 1e16 and above;
  - limits with fractions of a cent.
- `view_yearly_expense_by_category` is not modelled. Because of its indentation, `filtered_expenses` is bound only when the year is omitted, so a call with a year raises NameError.
- `view_expenses`, `view_monthly_expenses` and `view_yearly_expenses` only print. Their record selections are `Queries.OnDate`, `Queries.InMonth` and `Queries.InYear`.
- `edit_expense` and `load_expenses` do not update `categories`, and neither does the model. Entries in `categories` are never removed.
- `serial_counter` is never read by the program, so the model only tracks how `load_expenses` sets it.
- `generatequery.py` is not part of this model. It draws random values and writes a file.
