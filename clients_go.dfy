/** parseClientsOutput of chrony_api_app.go: the rows of `chronyc clients`
    after the `=` rule become records with the address, the untrimmed line,
    and as many of the next three columns as the row has. */
module GoClients {
  import opened Text
  import opened Tables

  type Record = map<string, string>

  /** One row: a record when it has at least two tokens. */
  function ClientRow(line: string): Option<Record> {
    ClientOfTokens(RowTokens(Go, line), line)
  }

  function ClientOfTokens(parts: seq<string>, line: string): Option<Record> {
    if |parts| >= 2 then
      var client := map["address" := parts[0], "raw" := line];
      var client := if |parts| >= 3 then client["ntp_packets" := parts[1]] else client;
      var client := if |parts| >= 4 then client["ntp_dropped" := parts[2]] else client;
      Some(if |parts| >= 5 then client["offset" := parts[3]] else client)
    else None
  }

  /** The records of the data rows, in order. */
  function ClientsOf(rows: seq<string>): seq<Record> {
    if |rows| == 0 then []
    else
      var row := rows[|rows| - 1];
      ClientsOf(rows[..|rows| - 1]) + match ClientRow(row) case Some(m) => [m] case None => []
  }

  /** parseClientsOutput on the text chronyc printed. */
  function ParseClients(output: string): seq<Record> {
    ClientsOf(DataRows(Go, Body(Go, Split(output, '\n'))))
  }

  /** The loop of parseClientsOutput over the lines of the output. */
  method ClientsLines(lines: seq<string>) returns (clients: seq<Record>)
    ensures clients == ClientsOf(DataRows(Go, Body(Go, lines)))
  {
    clients := [];
    var headerFound := false;
    for i := 0 to |lines|
      invariant (headerFound, clients) == ClientsScan(lines[..i])
    {
      assert lines[..i + 1][..i] == lines[..i];
      headerFound, clients := ClientLine(headerFound, clients, lines[i]);
    }
    assert lines[..|lines|] == lines;
    ClientsScanIsSpec(lines);
  }

  /** The loop's state after `lines`: whether the header was seen, and the
      records so far. */
  function ClientsScan(lines: seq<string>): (bool, seq<Record>) {
    if |lines| == 0 then (false, [])
    else
      var (headerFound, acc) := ClientsScan(lines[..|lines| - 1]);
      var line := lines[|lines| - 1];
      (headerFound || IsHeader(Go, line),
       if !headerFound || IsSkipped(Go, line) then acc
       else acc + match ClientRow(line) case Some(m) => [m] case None => [])
  }

  /** The loop's state is the header flag and the records of the data rows. */
  lemma {:induction false} ClientsScanIsSpec(lines: seq<string>)
    ensures ClientsScan(lines) == (HasHeader(Go, lines), ClientsOf(DataRows(Go, Body(Go, lines))))
  {
    if |lines| > 0 {
      var i := |lines| - 1;
      assert lines[..i] == lines[..|lines| - 1] && lines[..i + 1] == lines;
      ClientsScanIsSpec(lines[..i]);
      ClientsSnoc(lines, i);
    }
  }

  /** The body of the loop for one line: before the header only look for
      it; after it skip blank and separator lines and add the record of a
      row of at least two tokens. */
  method ClientLine(headerFound: bool, clients: seq<Record>, line: string)
    returns (found: bool, extended: seq<Record>)
    ensures found == (headerFound || IsHeader(Go, line))
    ensures extended
      == if !headerFound || IsSkipped(Go, line) then clients
         else clients + match ClientRow(line) case Some(m) => [m] case None => []
  {
    found, extended := headerFound, clients;
    if !headerFound {
      if IsHeader(Go, line) {
        found := true;
      }
      return;
    }
    if IsSkipped(Go, line) {
      return;
    }
    var parts := RowTokens(Go, line);
    if |parts| >= 2 {
      var client := BuildClient(parts, line);
      extended := clients + [client];
    }
  }

  /** One more line of the loop: the header flag and the records of the
      longer prefix. */
  lemma ClientsSnoc(lines: seq<string>, i: nat)
    requires i < |lines|
    ensures HasHeader(Go, lines[..i + 1]) == (HasHeader(Go, lines[..i]) || IsHeader(Go, lines[i]))
    ensures var before := ClientsOf(DataRows(Go, Body(Go, lines[..i])));
      ClientsOf(DataRows(Go, Body(Go, lines[..i + 1])))
      == if !HasHeader(Go, lines[..i]) || IsSkipped(Go, lines[i]) then before
         else before + match ClientRow(lines[i]) case Some(m) => [m] case None => []
  {
    RowsSnoc(Go, lines, i);
    var rows := DataRows(Go, Body(Go, lines[..i]));
    var next := DataRows(Go, Body(Go, lines[..i + 1]));
    if !HasHeader(Go, lines[..i]) {
      assert rows == [] && next == [];
    } else if IsSkipped(Go, lines[i]) {
      assert next == rows + [];
      assert rows + [] == rows;
    } else {
      assert next == rows + [lines[i]];
      ClientsOfRow(rows, lines[i]);
    }
  }

  lemma ClientsOfRow(rows: seq<string>, line: string)
    ensures ClientsOf(rows + [line]) == ClientsOf(rows) + match ClientRow(line) case Some(m) => [m] case None => []
  {
    assert (rows + [line])[..|rows|] == rows;
  }

  /** The record the loop body builds from a row of at least two tokens. */
  method BuildClient(parts: seq<string>, line: string) returns (client: Record)
    requires |parts| >= 2
    ensures ClientOfTokens(parts, line) == Some(client)
  {
    client := map["address" := parts[0], "raw" := line];
    if |parts| >= 3 {
      client := client["ntp_packets" := parts[1]];
    }
    if |parts| >= 4 {
      client := client["ntp_dropped" := parts[2]];
    }
    if |parts| >= 5 {
      client := client["offset" := parts[3]];
    }
  }

  /** parseClientsOutput: split the output on '\n' and run the loop. */
  method ParseClientsOutput(output: string) returns (clients: seq<Record>)
    ensures clients == ParseClients(output)
  {
    var lines := Split(output, '\n');
    clients := ClientsLines(lines);
  }

  /** What a client record holds: the address and the untrimmed line, and
      each further column exactly when the row is long enough. */
  lemma ClientRowFields(line: string)
    ensures ClientRow(line).Some? <==> |RowTokens(Go, line)| >= 2
    ensures ClientRow(line).Some? ==>
      var parts, m := RowTokens(Go, line), ClientRow(line).value;
      m.Keys <= {"address", "raw", "ntp_packets", "ntp_dropped", "offset"}
      && m["address"] == parts[0] && m["raw"] == line
      && ("ntp_packets" in m <==> |parts| >= 3) && ("ntp_packets" in m ==> m["ntp_packets"] == parts[1])
      && ("ntp_dropped" in m <==> |parts| >= 4) && ("ntp_dropped" in m ==> m["ntp_dropped"] == parts[2])
      && ("offset" in m <==> |parts| >= 5) && ("offset" in m ==> m["offset"] == parts[3])
  {
  }

  /** Rows are parsed one by one: records keep the order of their rows. */
  lemma {:induction false} ClientsAppend(xs: seq<string>, ys: seq<string>)
    ensures ClientsOf(xs + ys) == ClientsOf(xs) + ClientsOf(ys)
    decreases |ys|
  {
    if |ys| == 0 {
      assert xs + ys == xs;
    } else {
      var init, row := ys[..|ys| - 1], ys[|ys| - 1];
      ClientsAppend(xs, init);
      assert (xs + ys)[..|xs + ys| - 1] == xs + init;
      AppendAssoc(ClientsOf(xs), ClientsOf(init), match ClientRow(row) case Some(m) => [m] case None => []);
    }
  }

  /** Each record comes from a row of at least two tokens, and there is one
      record per such row. */
  lemma {:induction false} ClientsCount(rows: seq<string>)
    ensures |ClientsOf(rows)| <= |rows|
    ensures forall m :: m in ClientsOf(rows) ==> exists row :: row in rows && ClientRow(row) == Some(m)
  {
    if |rows| > 0 {
      var init, row := rows[..|rows| - 1], rows[|rows| - 1];
      ClientsCount(init);
      assert rows == init + [row];
    }
  }
}
