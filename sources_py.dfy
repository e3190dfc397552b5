/** parse_sources_output of chrony_api_app.py: the rows of `chronyc sources`
    after the first line whose stripped form starts with `=` become records
    holding the source's name (the second column) and the stripped row. */
module PySources {
  import opened Text
  import opened Tables

  type Record = map<string, string>

  /** One row: a record when it has at least two tokens. */
  function SourceRow(line: string): Option<Record> {
    var parts := RowTokens(Python, line);
    if |parts| >= 2 then Some(map["name" := parts[1], "raw" := Trim(PySpace, line)]) else None
  }

  /** The records of the data rows, in order. */
  function SourcesOf(rows: seq<string>): seq<Record> {
    if |rows| == 0 then []
    else
      var row := rows[|rows| - 1];
      SourcesOf(rows[..|rows| - 1]) + match SourceRow(row) case Some(m) => [m] case None => []
  }

  /** parse_sources_output on the text chronyc printed. */
  function ParseSources(output: string): seq<Record> {
    SourcesOf(DataRows(Python, Body(Python, SplitLines(output))))
  }

  /** The loop of parse_sources_output over the lines of the output. */
  method SourcesLines(lines: seq<string>) returns (servers: seq<Record>)
    ensures servers == SourcesOf(DataRows(Python, Body(Python, lines)))
  {
    servers := [];
    var headerFound := false;
    for i := 0 to |lines|
      invariant (headerFound, servers) == SourcesScan(lines[..i])
    {
      assert lines[..i + 1][..i] == lines[..i];
      headerFound, servers := SourceLine(headerFound, servers, lines[i]);
    }
    assert lines[..|lines|] == lines;
    SourcesScanIsSpec(lines);
  }

  /** The loop's state after `lines`: whether the header was seen, and the
      records so far. */
  function SourcesScan(lines: seq<string>): (bool, seq<Record>) {
    if |lines| == 0 then (false, [])
    else
      var (headerFound, acc) := SourcesScan(lines[..|lines| - 1]);
      var line := lines[|lines| - 1];
      (headerFound || IsHeader(Python, line),
       if !headerFound || IsSkipped(Python, line) then acc
       else acc + match SourceRow(line) case Some(m) => [m] case None => [])
  }

  /** The loop's state is the header flag and the records of the data rows. */
  lemma {:induction false} SourcesScanIsSpec(lines: seq<string>)
    ensures SourcesScan(lines) == (HasHeader(Python, lines), SourcesOf(DataRows(Python, Body(Python, lines))))
  {
    if |lines| > 0 {
      var i := |lines| - 1;
      assert lines[..i] == lines[..|lines| - 1] && lines[..i + 1] == lines;
      SourcesScanIsSpec(lines[..i]);
      SourcesSnoc(lines, i);
    }
  }

  /** The body of the loop for one line: before the header only look for a
      stripped line starting with `=`; after it skip blank and `=` lines and
      add the record of a row of at least two tokens. */
  method SourceLine(headerFound: bool, servers: seq<Record>, line: string)
    returns (found: bool, extended: seq<Record>)
    ensures found == (headerFound || IsHeader(Python, line))
    ensures extended
      == if !headerFound || IsSkipped(Python, line) then servers
         else servers + match SourceRow(line) case Some(m) => [m] case None => []
  {
    found, extended := headerFound, servers;
    if !headerFound {
      if HasPrefix(Trim(PySpace, line), "=") {
        found := true;
      }
      return;
    }
    if Trim(PySpace, line) == "" || HasPrefix(Trim(PySpace, line), "=") {
      return;
    }
    var parts := RowTokens(Python, line);
    if |parts| >= 2 {
      extended := servers + [map["name" := parts[1], "raw" := Trim(PySpace, line)]];
    }
  }

  /** One more line of the loop: the header flag and the records of the
      longer prefix. */
  lemma SourcesSnoc(lines: seq<string>, i: nat)
    requires i < |lines|
    ensures HasHeader(Python, lines[..i + 1]) == (HasHeader(Python, lines[..i]) || IsHeader(Python, lines[i]))
    ensures var before := SourcesOf(DataRows(Python, Body(Python, lines[..i])));
      SourcesOf(DataRows(Python, Body(Python, lines[..i + 1])))
      == if !HasHeader(Python, lines[..i]) || IsSkipped(Python, lines[i]) then before
         else before + match SourceRow(lines[i]) case Some(m) => [m] case None => []
  {
    RowsSnoc(Python, lines, i);
    var rows := DataRows(Python, Body(Python, lines[..i]));
    var next := DataRows(Python, Body(Python, lines[..i + 1]));
    if !HasHeader(Python, lines[..i]) {
      assert rows == [] && next == [];
    } else if IsSkipped(Python, lines[i]) {
      assert next == rows + [];
      assert rows + [] == rows;
    } else {
      assert next == rows + [lines[i]];
      SourcesOfRow(rows, lines[i]);
    }
  }

  lemma SourcesOfRow(rows: seq<string>, line: string)
    ensures SourcesOf(rows + [line]) == SourcesOf(rows) + match SourceRow(line) case Some(m) => [m] case None => []
  {
    assert (rows + [line])[..|rows|] == rows;
  }

  /** parse_sources_output: split the output into lines and run the loop. */
  method ParseSourcesOutput(output: string) returns (servers: seq<Record>)
    ensures servers == ParseSources(output)
  {
    var lines := SplitLines(output);
    servers := SourcesLines(lines);
  }

  /** What a record holds: exactly the name column and the stripped row. */
  lemma SourceRowFields(line: string)
    ensures SourceRow(line).Some? <==> |RowTokens(Python, line)| >= 2
    ensures SourceRow(line).Some? ==>
      var m := SourceRow(line).value;
      m.Keys == {"name", "raw"} && m["name"] == RowTokens(Python, line)[1] && m["raw"] == Trim(PySpace, line)
  {
  }

  /** Rows are parsed one by one: records keep the order of their rows. */
  lemma {:induction false} SourcesAppend(xs: seq<string>, ys: seq<string>)
    ensures SourcesOf(xs + ys) == SourcesOf(xs) + SourcesOf(ys)
    decreases |ys|
  {
    if |ys| == 0 {
      assert xs + ys == xs;
    } else {
      var init, row := ys[..|ys| - 1], ys[|ys| - 1];
      SourcesAppend(xs, init);
      assert (xs + ys)[..|xs + ys| - 1] == xs + init;
      AppendAssoc(SourcesOf(xs), SourcesOf(init), match SourceRow(row) case Some(m) => [m] case None => []);
    }
  }
}
