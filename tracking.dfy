/** The parsers of `chronyc tracking` output: parseTrackingOutput of
    chrony_api_app.go and parse_tracking_output of chrony_api_app.py. Every
    line holding a `:` is cut at its first colon into a trimmed key and a
    trimmed value; a later line overwrites an earlier one with the same key.
    The Go variant renames `Reference ID` and stores two keys under a second
    name as well. */
module Tracking {
  import opened Text

  type Fields = map<string, string>

  /** The white space each variant trims: strings.TrimSpace or str.strip(). */
  function TrimClass(d: Dialect): SpaceClass {
    match d
    case Go => GoSpace
    case Python => PySpace
  }

  /** The trimmed key of a line holding a colon. */
  function KeyOf(d: Dialect, line: string): string
    requires ':' in line
  {
    Trim(TrimClass(d), SplitAtFirst(line, ':').0)
  }

  /** The trimmed value of a line holding a colon. */
  function ValueOf(d: Dialect, line: string): string
    requires ':' in line
  {
    Trim(TrimClass(d), SplitAtFirst(line, ':').1)
  }

  /** The result keys a parsed key is stored under. */
  function StoredUnder(d: Dialect, key: string): set<string> {
    match d
    case Python => {key}
    case Go =>
      if key == "Reference ID" then {"ReferenceID"}
      else if key == "Update interval" then {"Update interval", "UpdateRate"}
      else if key == "Leap status" then {"Leap status", "LeapStatus"}
      else {key}
  }

  /** What one line contributes. */
  function LineEntries(d: Dialect, line: string): Fields {
    if ':' in line then
      var value := ValueOf(d, line);
      map k | k in StoredUnder(d, KeyOf(d, line)) :: value
    else map[]
  }

  /** The map the loop builds over `lines`: later lines win. */
  function TrackingOf(d: Dialect, lines: seq<string>): Fields {
    if |lines| == 0 then map[]
    else TrackingOf(d, lines[..|lines| - 1]) + LineEntries(d, lines[|lines| - 1])
  }

  /** parseTrackingOutput on the text chronyc printed. */
  function ParseTrackingGo(output: string): Fields {
    TrackingOf(Go, Split(output, '\n'))
  }

  /** parse_tracking_output on the text chronyc printed. */
  function ParseTrackingPy(output: string): Fields {
    TrackingOf(Python, SplitLines(output))
  }

  /** The loop of parseTrackingOutput over the lines of the output. */
  method TrackingLinesGo(lines: seq<string>) returns (result: Fields)
    ensures result == TrackingOf(Go, lines)
  {
    result := map[];
    for i := 0 to |lines|
      invariant result == TrackingOf(Go, lines[..i])
    {
      var line := lines[i];
      assert lines[..i + 1][..i] == lines[..i];
      if ':' in line {
        var parts := SplitAtFirst(line, ':');
        var key := Trim(GoSpace, parts.0);
        var value := Trim(GoSpace, parts.1);
        GoAliases(line);
        if key == "Reference ID" {
          MergeOne(result, "ReferenceID", value);
          result := result["ReferenceID" := value];
        } else if key == "Update interval" {
          MergeTwo(result, "Update interval", "UpdateRate", value);
          result := result["Update interval" := value];
          result := result["UpdateRate" := value];
        } else if key == "Leap status" {
          MergeTwo(result, "Leap status", "LeapStatus", value);
          result := result["Leap status" := value];
          result := result["LeapStatus" := value];
        } else {
          MergeOne(result, key, value);
          result := result[key := value];
        }
      } else {
        assert result + map[] == result;
      }
    }
    assert lines[..|lines|] == lines;
  }

  /** parseTrackingOutput: split the output on '\n' and run the loop. */
  method ParseTrackingOutputGo(output: string) returns (result: Fields)
    ensures result == ParseTrackingGo(output)
  {
    var lines := Split(output, '\n');
    result := TrackingLinesGo(lines);
  }

  /** The loop of parse_tracking_output over the lines of the output. */
  method TrackingLinesPy(lines: seq<string>) returns (result: Fields)
    ensures result == TrackingOf(Python, lines)
  {
    result := map[];
    for i := 0 to |lines|
      invariant result == TrackingOf(Python, lines[..i])
    {
      var line := lines[i];
      assert lines[..i + 1][..i] == lines[..i];
      if ':' in line {
        var parts := SplitAtFirst(line, ':');
        PythonNoAliases(line);
        MergeOne(result, Trim(PySpace, parts.0), Trim(PySpace, parts.1));
        result := result[Trim(PySpace, parts.0) := Trim(PySpace, parts.1)];
      } else {
        assert result + map[] == result;
      }
    }
    assert lines[..|lines|] == lines;
  }

  /** parse_tracking_output: split the output into lines and run the loop. */
  method ParseTrackingOutputPy(output: string) returns (result: Fields)
    ensures result == ParseTrackingPy(output)
  {
    var lines := SplitLines(output);
    result := TrackingLinesPy(lines);
  }

  /** Line `i` stores its value under `k`. */
  predicate Writes(d: Dialect, line: string, k: string) {
    ':' in line && k in StoredUnder(d, KeyOf(d, line))
  }

  /** What one line stores under a key. */
  lemma LineEntriesAt(d: Dialect, line: string, k: string)
    ensures k in LineEntries(d, line) <==> Writes(d, line, k)
    ensures k in LineEntries(d, line) ==> LineEntries(d, line)[k] == ValueOf(d, line)
  {
  }

  /** A key is in the result exactly when some line stores under it. */
  lemma {:induction false} TrackingKeys(d: Dialect, lines: seq<string>, k: string)
    ensures k in TrackingOf(d, lines) <==> exists line :: line in lines && Writes(d, line, k)
  {
    if |lines| > 0 {
      var init, last := lines[..|lines| - 1], lines[|lines| - 1];
      assert lines == init + [last];
      TrackingKeysSnoc(d, init, last, k);
      TrackingKeys(d, init, k);
    }
  }

  lemma TrackingKeysSnoc(d: Dialect, init: seq<string>, last: string, k: string)
    ensures k in TrackingOf(d, init + [last]) <==> k in TrackingOf(d, init) || Writes(d, last, k)
  {
    assert (init + [last])[..|init|] == init;
    LineEntriesAt(d, last, k);
  }

  /** The last line that stores under a key decides its value. */
  lemma {:induction false} LastLineWins(d: Dialect, lines: seq<string>, k: string, i: nat)
    requires i < |lines| && Writes(d, lines[i], k)
    requires forall j :: i < j < |lines| ==> !Writes(d, lines[j], k)
    ensures k in TrackingOf(d, lines) && TrackingOf(d, lines)[k] == ValueOf(d, lines[i])
  {
    var init, line := lines[..|lines| - 1], lines[|lines| - 1];
    LineEntriesAt(d, line, k);
    if i < |init| {
      assert !Writes(d, line, k);
      forall j | i < j < |init|
        ensures !Writes(d, init[j], k)
      {
        assert init[j] == lines[j];
      }
      LastLineWins(d, init, k, i);
    }
  }

  /** In Go, `Reference ID` is never a key of the result: it is stored only
      as `ReferenceID`. */
  lemma ReferenceIdRenamed(lines: seq<string>)
    ensures "Reference ID" !in TrackingOf(Go, lines)
  {
    TrackingKeys(Go, lines, "Reference ID");
  }

  /** In Go, a line with key `Update interval` or `Leap status` stores its
      value under both names; `Reference ID` under `ReferenceID` alone; any
      other key verbatim. */
  lemma GoAliases(line: string)
    requires ':' in line
    ensures KeyOf(Go, line) == "Reference ID" ==> LineEntries(Go, line) == map["ReferenceID" := ValueOf(Go, line)]
    ensures KeyOf(Go, line) == "Update interval" ==>
      LineEntries(Go, line) == map["Update interval" := ValueOf(Go, line), "UpdateRate" := ValueOf(Go, line)]
    ensures KeyOf(Go, line) == "Leap status" ==>
      LineEntries(Go, line) == map["Leap status" := ValueOf(Go, line), "LeapStatus" := ValueOf(Go, line)]
    ensures KeyOf(Go, line) !in {"Reference ID", "Update interval", "Leap status"} ==>
      LineEntries(Go, line) == map[KeyOf(Go, line) := ValueOf(Go, line)]
  {
    var key, value := KeyOf(Go, line), ValueOf(Go, line);
    var keys := StoredUnder(Go, key);
    assert LineEntries(Go, line) == map k | k in keys :: value;
    if key == "Reference ID" {
      ConstantMapOne(keys, "ReferenceID", value);
    } else if key == "Update interval" {
      ConstantMapTwo(keys, "Update interval", "UpdateRate", value);
    } else if key == "Leap status" {
      ConstantMapTwo(keys, "Leap status", "LeapStatus", value);
    } else {
      ConstantMapOne(keys, key, value);
    }
  }

  /** In Python every line with a colon stores its value under its own key. */
  lemma PythonNoAliases(line: string)
    requires ':' in line
    ensures LineEntries(Python, line) == map[KeyOf(Python, line) := ValueOf(Python, line)]
  {
    ConstantMapOne(StoredUnder(Python, KeyOf(Python, line)), KeyOf(Python, line), ValueOf(Python, line));
  }

  lemma ConstantMapOne(keys: set<string>, a: string, v: string)
    requires keys == {a}
    ensures (map k | k in keys :: v) == map[a := v]
  {
  }

  lemma ConstantMapTwo(keys: set<string>, a: string, b: string, v: string)
    requires keys == {a, b}
    ensures (map k | k in keys :: v) == map[a := v, b := v]
  {
  }

  /** Parsing works line by line: the entries of later lines override. */
  lemma {:induction false} TrackingAppend(d: Dialect, xs: seq<string>, ys: seq<string>)
    ensures TrackingOf(d, xs + ys) == TrackingOf(d, xs) + TrackingOf(d, ys)
    decreases |ys|
  {
    if |ys| == 0 {
      assert xs + ys == xs;
    } else {
      var init := ys[..|ys| - 1];
      TrackingAppend(d, xs, init);
      assert (xs + ys)[..|xs + ys| - 1] == xs + init;
      MergeAssoc(TrackingOf(d, xs), TrackingOf(d, init), LineEntries(d, ys[|ys| - 1]));
    }
  }

  /** Two outputs joined by a newline parse to the first map overridden by the second. */
  lemma ParseTrackingGoConcat(x: string, y: string)
    ensures ParseTrackingGo(x + "\n" + y) == ParseTrackingGo(x) + ParseTrackingGo(y)
  {
    SplitAround(x, y, '\n');
    TrackingAppend(Go, Split(x, '\n'), Split(y, '\n'));
  }

  lemma MergeOne(m: Fields, a: string, v: string)
    ensures m + map[a := v] == m[a := v]
  {
  }

  lemma MergeTwo(m: Fields, a: string, b: string, v: string)
    ensures m + map[a := v, b := v] == m[a := v][b := v]
  {
  }

  lemma MergeAssoc(x: Fields, y: Fields, z: Fields)
    ensures x + y + z == x + (y + z)
  {
  }
}
