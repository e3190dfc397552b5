/** parseSourcesOutput of chrony_api_app.go: the rows of `chronyc sources`
    after the `=` rule become records keyed by column name. The code guards
    its reads of tokens 6 and 8 with `len(parts) >= 6` and `len(parts) >= 8`,
    so a row of exactly six or exactly eight tokens indexes past the end of
    the slice and the Go runtime panics; the model makes that outcome explicit
    as `Panicked`, next to a guarded parser that never panics. */
module GoSources {
  import opened Text
  import opened Tables

  /** What parsing a whole output gives: the records, or the index whose
      out-of-range read panicked. */
  datatype Outcome<T> = Parsed(value: T) | Panicked(index: nat)

  /** What one row gives as written. */
  datatype RowOutcome = NoRecord | Record(fields: map<string, string>) | IndexPanic(index: nat)

  type Record = map<string, string>

  predicate IsDigit(c: char) {
    '0' <= c <= '9'
  }

  /** Length of the leading run of decimal digits. */
  function DigitRun(s: string): (n: nat)
    ensures n <= |s|
  {
    if |s| > 0 && IsDigit(s[0]) then 1 + DigitRun(s[1..]) else 0
  }

  /** The capture of `^([+-]\d+ms)` on a token, if it matches. */
  function LeadingDuration(token: string): Option<string> {
    if |token| > 0 && (token[0] == '+' || token[0] == '-') then
      var n := DigitRun(token[1..]);
      if n > 0 && HasPrefix(token[1 + n..], "ms") then Some(token[..n + 3]) else None
    else None
  }

  /** The text `^([+-]\d+ms)` matches: a sign, one or more digits, `ms`. */
  predicate IsDuration(m: string) {
    |m| >= 4 && (m[0] == '+' || m[0] == '-') && m[|m| - 2..] == "ms"
    && forall j :: 1 <= j < |m| - 2 ==> IsDigit(m[j])
  }

  /** The tokens of a row. */
  function SourceTokens(line: string): seq<string> {
    RowTokens(Go, line)
  }

  /** The columns every record carries (chrony_api_app.go:176-184). */
  function BaseRecord(parts: seq<string>, line: string): Record
    requires |parts| >= 6
  {
    map["state" := parts[0], "name" := parts[1], "stratum" := parts[2],
        "poll" := parts[3], "reach" := parts[4], "lastrx" := parts[5], "raw" := line]
  }

  /** Sets `key` to the duration a token starts with, if any. */
  function WithDuration(source: Record, key: string, token: string): Record {
    match LeadingDuration(token)
    case Some(d) => source[key := d]
    case None => source
  }

  /** One row as the code handles it. The guard before reading token 6 only
      repeats `len(parts) >= 6`, so six tokens reach `parts[6]`; the guard
      before token 8 admits eight tokens to `parts[8]`. */
  function RowOfTokens(parts: seq<string>, line: string): RowOutcome {
    if |parts| < 6 then NoRecord
    else
      var source := BaseRecord(parts, line);
      if |parts| <= 6 then IndexPanic(6)
      else
        var source := WithDuration(source, "offset", parts[6]);
        if |parts| < 8 then Record(source)
        else if |parts| <= 8 then IndexPanic(8)
        else Record(WithDuration(source, "delay", parts[8]))
  }

  function SourceRow(line: string): RowOutcome {
    RowOfTokens(SourceTokens(line), line)
  }

  /** What one more row does to the parse so far. */
  function Step(acc: Outcome<seq<Record>>, row: RowOutcome): Outcome<seq<Record>> {
    match acc
    case Panicked(k) => Panicked(k)
    case Parsed(records) =>
      match row
      case NoRecord => Parsed(records)
      case Record(m) => Parsed(records + [m])
      case IndexPanic(k) => Panicked(k)
  }

  /** The records of the data rows, in order; the first panicking row ends the parse. */
  function SourcesOf(rows: seq<string>): Outcome<seq<Record>> {
    if |rows| == 0 then Parsed([])
    else Step(SourcesOf(rows[..|rows| - 1]), SourceRow(rows[|rows| - 1]))
  }

  /** parseSourcesOutput on the text chronyc printed. */
  function ParseSources(output: string): Outcome<seq<Record>> {
    SourcesOf(DataRows(Go, Body(Go, Split(output, '\n'))))
  }

  /** The loop of parseSourcesOutput over the lines of the output. */
  method ParseSourcesLines(lines: seq<string>) returns (r: Outcome<seq<Record>>)
    ensures r == SourcesOf(DataRows(Go, Body(Go, lines)))
  {
    var sources: seq<Record> := [];
    var headerFound := false;
    for i := 0 to |lines|
      invariant headerFound == HasHeader(Go, lines[..i])
      invariant SourcesOf(DataRows(Go, Body(Go, lines[..i]))) == Parsed(sources)
    {
      var line := lines[i];
      RowsSnoc(Go, lines, i);
      if !headerFound {
        if IsHeader(Go, line) {
          headerFound := true;
        }
        continue;
      }
      ghost var before := DataRows(Go, Body(Go, lines[..i]));
      if IsSkipped(Go, line) {
        assert before + [] == before;
        continue;
      }
      assert DataRows(Go, Body(Go, lines[..i + 1])) == before + [line];
      SourcesOfSnoc(before, line);
      var row := SourceRow(line);
      match row
      case IndexPanic(k) =>
        PanicPersists(Go, lines, i + 1);
        return Panicked(k);
      case Record(m) =>
        sources := sources + [m];
      case NoRecord =>
    }
    assert lines[..|lines|] == lines;
    return Parsed(sources);
  }

  /** One more data row: the parse so far, extended by what that row gives. */
  lemma SourcesOfSnoc(rows: seq<string>, line: string)
    ensures SourcesOf(rows + [line]) == Step(SourcesOf(rows), SourceRow(line))
  {
    assert (rows + [line])[..|rows|] == rows;
  }

  /** A panic in the first `n` lines is the outcome of the whole parse. */
  lemma PanicPersists(d: Dialect, lines: seq<string>, n: nat)
    requires d == Go && n <= |lines| && HasHeader(d, lines[..n])
    requires SourcesOf(DataRows(d, Body(d, lines[..n]))).Panicked?
    ensures SourcesOf(DataRows(d, Body(d, lines))) == SourcesOf(DataRows(d, Body(d, lines[..n])))
  {
    var prefix, rest := lines[..n], lines[n..];
    assert prefix + rest == lines;
    BodyAppend(d, prefix, rest);
    DataRowsAppend(d, Body(d, prefix), rest);
    SourcesOfPanicked(DataRows(d, Body(d, prefix)), DataRows(d, rest));
  }

  /** Once a row has panicked, later rows change nothing. */
  lemma {:induction false} SourcesOfPanicked(xs: seq<string>, ys: seq<string>)
    requires SourcesOf(xs).Panicked?
    ensures SourcesOf(xs + ys) == SourcesOf(xs)
    decreases |ys|
  {
    if |ys| == 0 {
      assert xs + ys == xs;
    } else {
      var init := ys[..|ys| - 1];
      SourcesOfPanicked(xs, init);
      assert (xs + ys)[..|xs + ys| - 1] == xs + init;
    }
  }

  /** parseSourcesOutput: split the output on '\n' and run the loop. */
  method ParseSourcesOutput(output: string) returns (r: Outcome<seq<Record>>)
    ensures r == ParseSources(output)
  {
    var lines := Split(output, '\n');
    r := ParseSourcesLines(lines);
  }

  // ---------------------------------------------------------------------------
  // The duration pattern `^([+-]\d+ms)`

  /** The digit run is exactly the leading digits. */
  lemma {:induction false} DigitRunDigits(s: string)
    ensures forall j :: 0 <= j < DigitRun(s) ==> IsDigit(s[j])
    ensures DigitRun(s) < |s| ==> !IsDigit(s[DigitRun(s)])
  {
    if |s| > 0 && IsDigit(s[0]) {
      DigitRunDigits(s[1..]);
      forall j | 1 <= j < DigitRun(s)
        ensures IsDigit(s[j])
      {
        assert s[j] == s[1..][j - 1];
      }
    }
  }

  /** `n` leading digits followed by a non-digit make a digit run of length `n`. */
  lemma {:induction false} DigitRunExact(s: string, n: nat)
    requires n < |s| && !IsDigit(s[n])
    requires forall j :: 0 <= j < n ==> IsDigit(s[j])
    ensures DigitRun(s) == n
  {
    if n > 0 {
      forall j | 0 <= j < n - 1
        ensures IsDigit(s[1..][j])
      {
        assert s[1..][j] == s[j + 1];
      }
      DigitRunExact(s[1..], n - 1);
    }
  }

  /** LeadingDuration finds exactly the match of `^([+-]\d+ms)`: what it
      returns is a duration the token starts with, and any duration the token
      starts with is what it returns. */
  lemma LeadingDurationMatches(token: string)
    ensures LeadingDuration(token).Some? ==>
      HasPrefix(token, LeadingDuration(token).value) && IsDuration(LeadingDuration(token).value)
    ensures forall m :: HasPrefix(token, m) && IsDuration(m) ==> LeadingDuration(token) == Some(m)
  {
    if |token| > 0 && (token[0] == '+' || token[0] == '-') {
      var t := token[1..];
      DigitRunDigits(t);
      var n := DigitRun(t);
      if n > 0 && HasPrefix(token[1 + n..], "ms") {
        var m := token[..n + 3];
        assert m[|m| - 2..] == token[1 + n..][..2];
        forall j | 1 <= j < |m| - 2
          ensures IsDigit(m[j])
        {
          assert m[j] == t[j - 1];
        }
      }
    }
    forall m | HasPrefix(token, m) && IsDuration(m)
      ensures LeadingDuration(token) == Some(m)
    {
      var t := token[1..];
      var n := |m| - 3;
      assert t[n] == m[|m| - 2];
      forall j | 0 <= j < n
        ensures IsDigit(t[j])
      {
        assert t[j] == m[j + 1];
      }
      DigitRunExact(t, n);
      assert token[1 + n..][..2] == m[|m| - 2..];
      assert token[..n + 3] == m;
    }
  }

  // ---------------------------------------------------------------------------
  // Rows as written and as evidently intended

  /** The column names a record can carry. */
  const SourceKeys: set<string> :=
    {"state", "name", "stratum", "poll", "reach", "lastrx", "raw", "offset", "delay"}

  /** A row panics exactly when it has six or eight tokens, at the index one
      past its last token. */
  lemma RowPanics(parts: seq<string>, line: string)
    ensures RowOfTokens(parts, line).IndexPanic? <==> |parts| == 6 || |parts| == 8
    ensures RowOfTokens(parts, line).IndexPanic? ==> RowOfTokens(parts, line).index == |parts|
  {
  }

  /** The row as the guards evidently intend: offset when a seventh token
      exists, delay when a ninth does. */
  function GuardedRow(parts: seq<string>, line: string): Option<Record> {
    if |parts| < 6 then None
    else
      var source := BaseRecord(parts, line);
      var source := if |parts| > 6 then WithDuration(source, "offset", parts[6]) else source;
      Some(if |parts| > 8 then WithDuration(source, "delay", parts[8]) else source)
  }

  /** What a guarded record holds: tokens 0-5 under their column names, the
      untrimmed line under `raw`, and `offset`/`delay` exactly when tokens 6/8
      exist and start with a duration, set to that duration. */
  lemma GuardedRowFields(parts: seq<string>, line: string)
    ensures GuardedRow(parts, line).Some? <==> |parts| >= 6
    ensures GuardedRow(parts, line).Some? ==>
      var m := GuardedRow(parts, line).value;
      m.Keys <= SourceKeys
      && m["state"] == parts[0] && m["name"] == parts[1] && m["stratum"] == parts[2]
      && m["poll"] == parts[3] && m["reach"] == parts[4] && m["lastrx"] == parts[5]
      && m["raw"] == line
      && ("offset" in m <==> |parts| > 6 && LeadingDuration(parts[6]).Some?)
      && ("offset" in m ==> m["offset"] == LeadingDuration(parts[6]).value)
      && ("delay" in m <==> |parts| > 8 && LeadingDuration(parts[8]).Some?)
      && ("delay" in m ==> m["delay"] == LeadingDuration(parts[8]).value)
  {
    if |parts| >= 6 {
      var base := BaseRecord(parts, line);
      assert base.Keys == {"state", "name", "stratum", "poll", "reach", "lastrx", "raw"};
      var offset := if |parts| > 6 then WithDuration(base, "offset", parts[6]) else base;
      if |parts| > 6 {
        WithDurationFields(base, "offset", parts[6]);
      }
      if |parts| > 8 {
        WithDurationFields(offset, "delay", parts[8]);
      }
    }
  }

  /** Setting a duration adds at most its key and changes no other entry. */
  lemma WithDurationFields(source: Record, key: string, token: string)
    ensures var r := WithDuration(source, key, token);
      && (LeadingDuration(token).Some? ==> r.Keys == source.Keys + {key} && r[key] == LeadingDuration(token).value)
      && (LeadingDuration(token).None? ==> r == source)
      && forall k :: k in source && k != key ==> r[k] == source[k]
  {
  }

  /** Where the code does not panic it builds exactly the guarded record. */
  lemma RowAgreesWithGuarded(parts: seq<string>, line: string)
    requires !RowOfTokens(parts, line).IndexPanic?
    ensures RowOfTokens(parts, line).NoRecord? <==> GuardedRow(parts, line).None?
    ensures RowOfTokens(parts, line).Record? ==> GuardedRow(parts, line) == Some(RowOfTokens(parts, line).fields)
  {
  }

  /** The records of the guarded parser, in row order. */
  function GuardedSourcesOf(rows: seq<string>): seq<Record> {
    if |rows| == 0 then []
    else
      var row := rows[|rows| - 1];
      GuardedSourcesOf(rows[..|rows| - 1])
      + match GuardedRow(SourceTokens(row), row) case Some(m) => [m] case None => []
  }

  /** parseSourcesOutput with its index guards corrected. */
  function ParseSourcesGuarded(output: string): seq<Record> {
    GuardedSourcesOf(DataRows(Go, Body(Go, Split(output, '\n'))))
  }

  /** The guarded parser works row by row: records keep the order of their rows. */
  lemma {:induction false} GuardedSourcesAppend(xs: seq<string>, ys: seq<string>)
    ensures GuardedSourcesOf(xs + ys) == GuardedSourcesOf(xs) + GuardedSourcesOf(ys)
    decreases |ys|
  {
    if |ys| == 0 {
      assert xs + ys == xs;
    } else {
      var init := ys[..|ys| - 1];
      GuardedSourcesAppend(xs, init);
      assert (xs + ys)[..|xs + ys| - 1] == xs + init;
      AppendAssoc(GuardedSourcesOf(xs), GuardedSourcesOf(init),
        match GuardedRow(SourceTokens(ys[|ys| - 1]), ys[|ys| - 1]) case Some(m) => [m] case None => []);
    }
  }

  /** A data row that makes the code read past its last token. */
  predicate IndexHazard(row: string) {
    |SourceTokens(row)| == 6 || |SourceTokens(row)| == 8
  }

  /** The parse of one more row has panicked exactly when the shorter parse
      had, or the new row panics. */
  lemma PanickedSnoc(init: seq<string>, row: string)
    ensures SourcesOf(init + [row]).Panicked?
      <==> SourcesOf(init).Panicked? || SourceRow(row).IndexPanic?
  {
    SourcesOfSnoc(init, row);
  }

  /** The parse as written panics exactly when some data row has six or
      eight tokens. */
  lemma {:induction false} SourcesPanicWhen(rows: seq<string>)
    ensures SourcesOf(rows).Panicked? <==> exists row :: row in rows && IndexHazard(row)
  {
    if |rows| > 0 {
      var init, last := rows[..|rows| - 1], rows[|rows| - 1];
      assert rows == init + [last];
      SourcesPanicWhen(init);
      PanickedSnoc(init, last);
      assert SourceRow(last).IndexPanic? <==> IndexHazard(last) by {
        RowPanics(SourceTokens(last), last);
      }
    }
  }

  /** Where the parse as written does not panic, it yields exactly the
      guarded parser's records. */
  lemma {:induction false} SourcesAgreeWithGuarded(rows: seq<string>)
    requires SourcesOf(rows).Parsed?
    ensures SourcesOf(rows).value == GuardedSourcesOf(rows)
  {
    if |rows| > 0 {
      var init, row := rows[..|rows| - 1], rows[|rows| - 1];
      SourcesAgreeWithGuarded(init);
      RowAgreesWithGuarded(SourceTokens(row), row);
    }
  }

  /** A data row of exactly six tokens: the code panics reading token 6,
      where the guarded parser yields the row's record without an offset. */
  lemma SixTokenRowPanics(row: string)
    requires |SourceTokens(row)| == 6
    ensures SourcesOf([row]) == Panicked(6)
    ensures GuardedSourcesOf([row]) == [BaseRecord(SourceTokens(row), row)]
  {
    assert [row][..0] == [];
  }

  /** A data row of exactly eight tokens: the code panics reading token 8,
      where the guarded parser yields a record without a delay. */
  lemma EightTokenRowPanics(row: string)
    requires |SourceTokens(row)| == 8
    ensures SourcesOf([row]) == Panicked(8)
    ensures |GuardedSourcesOf([row])| == 1 && "delay" !in GuardedSourcesOf([row])[0]
  {
    assert [row][..0] == [];
    GuardedRowFields(SourceTokens(row), row);
  }

  /** The row chronyc prints in the comment's example, as its tokens: the
      offset is `+625ms`, and token 8 is `+/-`, so there is no delay. */
  lemma ExampleRow(line: string)
    ensures var parts := ["^*", "202.118.1.130", "2", "6", "377", "19", "+625ms[", "-117ms]", "+/-", "25ms"];
      RowOfTokens(parts, line).Record?
      && RowOfTokens(parts, line).fields["offset"] == "+625ms"
      && "delay" !in RowOfTokens(parts, line).fields
  {
    var parts := ["^*", "202.118.1.130", "2", "6", "377", "19", "+625ms[", "-117ms]", "+/-", "25ms"];
    var offset := parts[6];
    assert offset[1..] == "625ms[";
    assert DigitRun("625ms[") == 3 by {
      DigitRunExact("625ms[", 3);
    }
    assert offset[4..] == "ms[";
    assert HasPrefix(offset[4..], "ms");
    assert offset[..6] == "+625ms";
    assert parts[8][0] == '+' && parts[8][1..] == "/-";
    assert DigitRun("/-") == 0;
  }
}
