/** The row gating shared by the parsers of tabular chronyc output (`sources`,
    `clients`): every line up to and including the first header line is
    skipped, and among the lines after it blank and separator lines are
    skipped too. The Go variant recognises the header by the 79-character `=`
    rule chronyc prints under the column titles; the Python variant by a
    leading `=`. */
module Tables {
  import opened Text

  /** The width of the rule chronyc prints under the column titles. */
  const RuleWidth := 79

  /** The rule itself: exactly `RuleWidth` `=` characters. */
  predicate IsRule(s: string) {
    |s| == RuleWidth && forall i :: 0 <= i < |s| ==> s[i] == '='
  }

  predicate IsHeader(d: Dialect, line: string) {
    match d
    case Go => IsRule(Trim(GoSpace, line))
    case Python => HasPrefix(Trim(PySpace, line), "=")
  }

  /** The tokens of a row: the trimmed line split on runs of white space
      (Go: regexp `\s+`, whose class is RE2's; Python: re `\s+` on str). */
  function RowTokens(d: Dialect, line: string): seq<string> {
    match d
    case Go => Fields(Re2Space, Trim(GoSpace, line))
    case Python => Fields(PySpace, Trim(PySpace, line))
  }

  /** A line after the header that yields no row. */
  predicate IsSkipped(d: Dialect, line: string) {
    match d
    case Go => Trim(GoSpace, line) == "" || IsRule(Trim(GoSpace, line))
    case Python => Trim(PySpace, line) == "" || HasPrefix(Trim(PySpace, line), "=")
  }

  predicate HasHeader(d: Dialect, lines: seq<string>) {
    exists i :: 0 <= i < |lines| && IsHeader(d, lines[i])
  }

  /** The lines after the first header line; none when there is no header. */
  function Body(d: Dialect, lines: seq<string>): seq<string> {
    if |lines| == 0 then []
    else if IsHeader(d, lines[0]) then lines[1..]
    else Body(d, lines[1..])
  }

  /** The lines of the body that are parsed as rows, in order. */
  function DataRows(d: Dialect, rows: seq<string>): seq<string> {
    if |rows| == 0 then []
    else
      var last := rows[|rows| - 1];
      DataRows(d, rows[..|rows| - 1]) + (if IsSkipped(d, last) then [] else [last])
  }

  /** A header separates what is skipped from what is parsed: with no header
      before it, everything after the first header line is the body. */
  lemma {:induction false} BodyAfterFirstHeader(d: Dialect, before: seq<string>, header: string, after: seq<string>)
    requires !HasHeader(d, before) && IsHeader(d, header)
    ensures Body(d, before + [header] + after) == after
  {
    var lines := before + [header] + after;
    if |before| == 0 {
      assert lines[0] == header && lines[1..] == after;
    } else {
      assert !IsHeader(d, before[0]);
      assert !HasHeader(d, before[1..]) by {
        forall i | 0 <= i < |before[1..]|
          ensures !IsHeader(d, before[1..][i])
        {
          assert before[1..][i] == before[i + 1];
        }
      }
      BodyAfterFirstHeader(d, before[1..], header, after);
      assert lines[0] == before[0] && lines[1..] == before[1..] + [header] + after;
    }
  }

  /** Without a header line nothing is parsed. */
  lemma {:induction false} BodyWithoutHeader(d: Dialect, lines: seq<string>)
    requires !HasHeader(d, lines)
    ensures Body(d, lines) == []
  {
    if |lines| > 0 {
      assert !IsHeader(d, lines[0]);
      assert !HasHeader(d, lines[1..]) by {
        forall i | 0 <= i < |lines[1..]|
          ensures !IsHeader(d, lines[1..][i])
        {
          assert lines[1..][i] == lines[i + 1];
        }
      }
      BodyWithoutHeader(d, lines[1..]);
    }
  }

  /** One more line joins the body exactly when a header came before it. */
  lemma {:induction false} BodySnoc(d: Dialect, lines: seq<string>, line: string)
    ensures HasHeader(d, lines + [line]) == (HasHeader(d, lines) || IsHeader(d, line))
    ensures Body(d, lines + [line]) == if HasHeader(d, lines) then Body(d, lines) + [line] else []
  {
    var ext := lines + [line];
    assert ext[|lines|] == line;
    assert forall i :: 0 <= i < |lines| ==> ext[i] == lines[i];
    if |lines| == 0 {
      assert ext == [line];
    } else {
      assert ext[0] == lines[0] && ext[1..] == lines[1..] + [line];
      assert HasHeader(d, lines) == (IsHeader(d, lines[0]) || HasHeader(d, lines[1..])) by {
        if HasHeader(d, lines) && !IsHeader(d, lines[0]) {
          var i :| 0 <= i < |lines| && IsHeader(d, lines[i]);
          assert lines[1..][i - 1] == lines[i];
        }
        if HasHeader(d, lines[1..]) {
          var i :| 0 <= i < |lines[1..]| && IsHeader(d, lines[1..][i]);
          assert lines[i + 1] == lines[1..][i];
        }
      }
      if !IsHeader(d, lines[0]) {
        BodySnoc(d, lines[1..], line);
      }
    }
  }

  /** Once a header has been seen, every later line belongs to the body. */
  lemma {:induction false} BodyAppend(d: Dialect, lines: seq<string>, more: seq<string>)
    requires HasHeader(d, lines)
    ensures Body(d, lines + more) == Body(d, lines) + more
    decreases |more|
  {
    if |more| == 0 {
      assert lines + more == lines;
    } else {
      var init, line := more[..|more| - 1], more[|more| - 1];
      var prefix := lines + init;
      assert Body(d, prefix) == Body(d, lines) + init by {
        BodyAppend(d, lines, init);
      }
      assert HasHeader(d, prefix) by {
        var i :| 0 <= i < |lines| && IsHeader(d, lines[i]);
        assert prefix[i] == lines[i];
      }
      assert Body(d, prefix + [line]) == Body(d, prefix) + [line] by {
        BodySnoc(d, prefix, line);
      }
      assert prefix + [line] == lines + more;
      AppendAssoc(Body(d, lines), init, [line]);
      assert init + [line] == more;
    }
  }

  /** Selecting data rows works line by line: it distributes over concatenation. */
  lemma {:induction false} DataRowsAppend(d: Dialect, xs: seq<string>, ys: seq<string>)
    ensures DataRows(d, xs + ys) == DataRows(d, xs) + DataRows(d, ys)
    decreases |ys|
  {
    if |ys| == 0 {
      assert xs + ys == xs;
    } else {
      var n := |ys| - 1;
      var last := ys[n];
      var tail := if IsSkipped(d, last) then [] else [last];
      assert DataRows(d, xs + ys[..n]) == DataRows(d, xs) + DataRows(d, ys[..n]) by {
        DataRowsAppend(d, xs, ys[..n]);
      }
      assert DataRows(d, xs + ys) == DataRows(d, xs + ys[..n]) + tail by {
        assert (xs + ys)[..|xs + ys| - 1] == xs + ys[..n];
        assert (xs + ys)[|xs + ys| - 1] == last;
      }
      assert DataRows(d, ys) == DataRows(d, ys[..n]) + tail;
      AppendAssoc(DataRows(d, xs), DataRows(d, ys[..n]), tail);
    }
  }

  /** A single line is a data row exactly when it is not skipped. */
  lemma DataRowsSingle(d: Dialect, line: string)
    ensures DataRows(d, [line]) == if IsSkipped(d, line) then [] else [line]
  {
    assert [line][..0] == [];
  }

  /** The loop step the table parsers share: line `i` joins the data rows
      exactly when a header came before it and it is not skipped. */
  lemma RowsSnoc(d: Dialect, lines: seq<string>, i: nat)
    requires i < |lines|
    ensures HasHeader(d, lines[..i + 1]) == (HasHeader(d, lines[..i]) || IsHeader(d, lines[i]))
    ensures !HasHeader(d, lines[..i]) ==>
      DataRows(d, Body(d, lines[..i])) == [] && DataRows(d, Body(d, lines[..i + 1])) == []
    ensures HasHeader(d, lines[..i]) ==>
      DataRows(d, Body(d, lines[..i + 1]))
      == DataRows(d, Body(d, lines[..i])) + (if IsSkipped(d, lines[i]) then [] else [lines[i]])
  {
    assert lines[..i + 1] == lines[..i] + [lines[i]];
    BodySnoc(d, lines[..i], lines[i]);
    if HasHeader(d, lines[..i]) {
      DataRowsAppend(d, Body(d, lines[..i]), [lines[i]]);
      DataRowsSingle(d, lines[i]);
    } else {
      BodyWithoutHeader(d, lines[..i]);
      assert DataRows(d, []) == [];
    }
  }
}
