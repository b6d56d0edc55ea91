/** Expense records and the file format the store is saved in and loaded from:
    one line per record, `serial|date|category|amount|comment`. A file is
    modelled as its sequence of lines, without the line breaks. */
module Records {
  import opened Options
  import opened Text
  import opened Amounts
  import opened Sequences

  /** One logged expense. The date stays the text it was given as; the amount
      is in cents. A comment is None only when add_expense was called without
      one. */
  datatype Expense = Expense(serial: int, date: string, category: string, amount: int, comment: Option<string>)

  /** The comment as the f-string in save_expenses prints it: the key is always
      present, so a missing comment is printed as the text "None". */
  function CommentText(c: Option<string>): string
  {
    match c
    case None => "None"
    case Some(t) => t
  }

  function Fields(e: Expense): seq<string>
  {
    [IntToString(e.serial), e.date, e.category, AmountToString(e.amount), CommentText(e.comment)]
  }

  /** The line save_expenses writes for one record. */
  function SaveLine(e: Expense): string
  {
    Join(Fields(e), '|')
  }

  /** The lines save_expenses writes for the whole store, in order. */
  function SaveLines(es: seq<Expense>): (lines: seq<string>)
    ensures |lines| == |es|
    ensures forall i :: 0 <= i < |es| ==> lines[i] == SaveLine(es[i])
  {
    if es == [] then [] else SaveLines(es[..|es| - 1]) + [SaveLine(es[|es| - 1])]
  }

  /** What load_expenses makes of one line: a line that does not split into
      five fields is skipped; a serial or amount that int() or float() rejects
      raises ValueError; otherwise one record, its comment the fifth field. */
  datatype LineParse = Malformed | BadNumber | Parsed(record: Expense)

  function ParseLine(line: string): LineParse
  {
    ParseFields(Split(Strip(line), '|'))
  }

  /** The fields of a stripped and split line: float() on the amount first,
      then int() on the serial. */
  function ParseFields(fields: seq<string>): LineParse
  {
    if |fields| != 5 then Malformed
    else
      match ParseAmount(fields[3])
      case None => BadNumber
      case Some(amount) =>
        match ParseInt(fields[0])
        case None => BadNumber
        case Some(serial) => Parsed(Expense(serial, fields[1], fields[2], amount, Some(fields[4])))
  }

  /** A record the line format carries unchanged: it has a comment, no text field
      holds the separator or a line break (reading the file in text mode splits
      lines at '\n', '\r' and "\r\n"), and the comment does not end in
      whitespace, which line.strip() would cut off. */
  predicate Writable(e: Expense)
  {
    && e.comment.Some?
    && '|' !in e.date && '|' !in e.category && '|' !in e.comment.value
    && '\n' !in e.date && '\n' !in e.category && '\n' !in e.comment.value
    && '\r' !in e.date && '\r' !in e.category && '\r' !in e.comment.value
    && (|e.comment.value| > 0 ==> !IsSpace(e.comment.value[|e.comment.value| - 1]))
  }

  lemma JoinFive(f: seq<string>, sep: char)
    requires |f| == 5
    ensures Join(f, sep) == f[0] + [sep] + (f[1] + [sep] + (f[2] + [sep] + (f[3] + [sep] + f[4])))
  {
    assert Join(f[3..], sep) == f[3] + [sep] + f[4] by {
      assert f[3..][1..] == [f[4]];
    }
    assert Join(f[2..], sep) == f[2] + [sep] + Join(f[3..], sep) by {
      assert f[2..][1..] == f[3..];
    }
    assert Join(f[1..], sep) == f[1] + [sep] + Join(f[2..], sep) by {
      assert f[1..][1..] == f[2..];
    }
  }

  /** The five fields of a line whose date, category and comment hold no
      separator come back from strip() and split('|') unchanged. */
  lemma SplitSavedLine(e: Expense)
    requires '|' !in e.date && '|' !in e.category && '|' !in CommentText(e.comment)
    requires |CommentText(e.comment)| > 0 ==> !IsSpace(CommentText(e.comment)[|CommentText(e.comment)| - 1])
    ensures Split(Strip(SaveLine(e)), '|') == Fields(e)
  {
    var f := Fields(e);
    var line := SaveLine(e);
    IntToStringShape(e.serial);
    AmountTextShape(e.amount);
    JoinFive(f, '|');
    assert line[0] == f[0][0];
    assert line[|line| - 1] == if |f[4]| > 0 then f[4][|f[4]| - 1] else '|';
    StripUnpadded(line);
    assert forall i :: 0 <= i < 5 ==> '|' !in f[i];
    SplitJoin(f, '|');
  }

  /** Round trip of one line: a writable record saved and loaded again is the
      same record. */
  lemma ParseSaveLine(e: Expense)
    requires Writable(e)
    ensures ParseLine(SaveLine(e)) == Parsed(e)
  {
    SplitSavedLine(e);
    var f := Fields(e);
    ParseAmountOfAmountToString(e.amount);
    ParseIntOfIntToString(e.serial);
    assert ParseFields(f) == Parsed(Expense(e.serial, e.date, e.category, e.amount, Some(CommentText(e.comment))));
  }

  /** A record added without a comment comes back from the file with the
      comment "None", not with an empty one. */
  lemma ParseSaveLineWithoutComment(e: Expense)
    requires e.comment.None? && '|' !in e.date && '|' !in e.category
    requires '\n' !in e.date && '\n' !in e.category && '\r' !in e.date && '\r' !in e.category
    ensures ParseLine(SaveLine(e)) == Parsed(e.(comment := Some("None")))
  {
    SplitSavedLine(e);
    var f := Fields(e);
    ParseAmountOfAmountToString(e.amount);
    ParseIntOfIntToString(e.serial);
    assert ParseFields(f) == Parsed(Expense(e.serial, e.date, e.category, e.amount, Some(CommentText(e.comment))));
  }

  /** The state load_expenses builds: the records so far, serial_counter, and
      whether int() or float() raised, which ends the load. */
  datatype LoadState = LoadState(records: seq<Expense>, counter: int, failed: bool)

  function Max(a: int, b: int): int { if a < b then b else a }

  /** What load_expenses makes of each line of a file, in order. */
  function ParseLines(lines: seq<string>): (ps: seq<LineParse>)
    ensures |ps| == |lines|
  {
    MapSeq(lines, ParseLine)
  }

  /** One iteration of the loop in load_expenses. */
  function LoadStep(st: LoadState, p: LineParse): LoadState
  {
    if st.failed then st
    else
      match p
      case Malformed => st
      case BadNumber => st.(failed := true)
      case Parsed(e) => LoadState(st.records + [e], Max(st.counter, e.serial + 1), false)
  }

  /** The loop of load_expenses over already parsed lines, starting from an
      empty list and serial_counter 1. */
  function LoadParsed(ps: seq<LineParse>): LoadState
  {
    if ps == [] then LoadState([], 1, false)
    else LoadStep(LoadParsed(ps[..|ps| - 1]), ps[|ps| - 1])
  }

  /** load_expenses run over the lines of a file: the list is emptied and the
      counter reset to 1, then each line in turn is appended, skipped, or ends
      the load with ValueError. */
  function LoadLines(lines: seq<string>): LoadState
  {
    LoadParsed(ParseLines(lines))
  }

  /** serial_counter ends as max(1, largest loaded serial + 1). */
  lemma {:induction false} LoadCounter(ps: seq<LineParse>)
    ensures LoadParsed(ps).counter >= 1
    ensures forall r :: r in LoadParsed(ps).records ==> r.serial < LoadParsed(ps).counter
    ensures LoadParsed(ps).counter == 1
         || exists r :: r in LoadParsed(ps).records && r.serial + 1 == LoadParsed(ps).counter
  {
    if ps != [] {
      LoadCounter(ps[..|ps| - 1]);
    }
  }

  /** A line that does not split into five fields changes nothing: the load
      equals the load without that line. */
  lemma {:induction false} LoadSkipsMalformed(done: seq<LineParse>, rest: seq<LineParse>)
    ensures LoadParsed(done + [Malformed] + rest) == LoadParsed(done + rest)
  {
    if rest == [] {
      assert (done + [Malformed] + rest)[..|done|] == done;
      assert done + rest == done;
    } else {
      var n := |rest|;
      LoadSkipsMalformed(done, rest[..n - 1]);
      var all, short := done + [Malformed] + rest, done + rest;
      assert all[..|all| - 1] == done + [Malformed] + rest[..n - 1];
      assert short[..|short| - 1] == done + rest[..n - 1];
      assert all[|all| - 1] == short[|short| - 1];
    }
  }

  /** The same, stated on the lines of a file. */
  lemma LoadSkipsMalformedLine(lines: seq<string>, i: nat)
    requires i < |lines| && ParseLine(lines[i]) == Malformed
    ensures LoadLines(lines) == LoadLines(lines[..i] + lines[i + 1..])
  {
    MapSeqAround(lines, i, ParseLine);
    MapSeqAppend(lines[..i], lines[i + 1..], ParseLine);
    LoadSkipsMalformed(ParseLines(lines[..i]), ParseLines(lines[i + 1..]));
  }

  /** Once int() or float() has raised, the rest of the file is not read. */
  lemma {:induction false} LoadAfterFailure(done: seq<LineParse>, rest: seq<LineParse>)
    requires LoadParsed(done).failed
    ensures LoadParsed(done + rest) == LoadParsed(done)
  {
    if rest != [] {
      var all := done + rest;
      assert all[..|all| - 1] == done + rest[..|rest| - 1];
      LoadAfterFailure(done, rest[..|rest| - 1]);
    } else {
      assert done + rest == done;
    }
  }

  /** Lines that all parse load as exactly their records, in order. */
  lemma {:induction false} LoadAllParsed(ps: seq<LineParse>, es: seq<Expense>)
    requires |ps| == |es|
    requires forall i :: 0 <= i < |ps| ==> ps[i] == Parsed(es[i])
    ensures LoadParsed(ps).records == es && !LoadParsed(ps).failed
  {
    if ps != [] {
      var n := |ps|;
      LoadAllParsed(ps[..n - 1], es[..n - 1]);
      assert es[..n - 1] + [es[n - 1]] == es;
    }
  }

  /** Round trip of the whole store: loading what save_expenses wrote gives
      back the same records, in the same order, without error. */
  lemma LoadSaveLines(es: seq<Expense>)
    requires forall i :: 0 <= i < |es| ==> Writable(es[i])
    ensures LoadLines(SaveLines(es)).records == es
    ensures !LoadLines(SaveLines(es)).failed
  {
    var ps := ParseLines(SaveLines(es));
    MapSeqAt(SaveLines(es), ParseLine);
    forall i | 0 <= i < |es| ensures ps[i] == Parsed(es[i]) {
      ParseSaveLine(es[i]);
    }
    LoadAllParsed(ps, es);
  }

  /** load_expenses over the lines of a file stops at the first line whose
      serial or amount does not convert: nothing after it is read. */
  lemma LoadLinesAfterFailure(lines: seq<string>, i: nat)
    requires i <= |lines| && LoadLines(lines[..i]).failed
    ensures LoadLines(lines) == LoadLines(lines[..i])
  {
    assert lines == lines[..i] + lines[i..];
    MapSeqAppend(lines[..i], lines[i..], ParseLine);
    LoadAfterFailure(ParseLines(lines[..i]), ParseLines(lines[i..]));
  }

  /** The loop of load_expenses ends after the whole file or after the first
      line that raised; either way its state is that of the whole file. */
  lemma LoadLinesStop(lines: seq<string>, i: nat)
    requires i <= |lines|
    requires i == |lines| || LoadParsed(ParseLines(lines[..i])).failed
    ensures LoadLines(lines) == LoadParsed(ParseLines(lines[..i]))
  {
    if i == |lines| {
      assert lines[..i] == lines;
    } else {
      LoadLinesAfterFailure(lines, i);
    }
  }

  /** One more parsed line is one more iteration of the loop. */
  lemma LoadParsedSnoc(ps: seq<LineParse>, p: LineParse)
    ensures LoadParsed(ps + [p]) == LoadStep(LoadParsed(ps), p)
  {
    assert (ps + [p])[..|ps|] == ps;
  }
}
