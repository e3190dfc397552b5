/** parseActivityOutput of chrony_api_app.go: lines of `chronyc activity`
    that mention `sources` and have at least three fields report a count
    (field 0) for a status (field 2). */
module GoActivity {
  import opened Text

  type Counts = map<string, string>

  const BurstOnline: string := "doing burst (return to online)"
  const BurstOffline: string := "doing burst (return to offline)"

  /** The result key the switch on the status field assigns. */
  function CountKey(status: string): Option<string> {
    if status == "online" then Some("ok_count")
    else if status == "offline" then Some("failed_count")
    else if status == BurstOnline then Some("bogus_count")
    else if status == BurstOffline then Some("timeout_count")
    else None
  }

  /** What one line contributes. */
  function LineCounts(line: string): Counts {
    if Contains(line, "sources") then
      var parts := Fields(GoSpace, line);
      if |parts| >= 3 then
        match CountKey(parts[2])
        case Some(key) => map[key := parts[0]]
        case None => map[]
      else map[]
    else map[]
  }

  /** The map the loop builds over `lines`: later lines win. */
  function ActivityOf(lines: seq<string>): Counts {
    if |lines| == 0 then map[]
    else ActivityOf(lines[..|lines| - 1]) + LineCounts(lines[|lines| - 1])
  }

  /** parseActivityOutput on the text chronyc printed. */
  function ParseActivity(output: string): Counts {
    ActivityOf(Split(output, '\n'))
  }

  /** The loop of parseActivityOutput over the lines of the output. */
  method ActivityLines(lines: seq<string>) returns (result: Counts)
    ensures result == ActivityOf(lines)
  {
    result := map[];
    for i := 0 to |lines|
      invariant result == ActivityOf(lines[..i])
    {
      var line := lines[i];
      assert lines[..i + 1][..i] == lines[..i];
      if Contains(line, "sources") {
        var parts := Fields(GoSpace, line);
        if |parts| >= 3 {
          var count := parts[0];
          var status := parts[2];
          if status == "online" {
            result := result["ok_count" := count];
          } else if status == "offline" {
            result := result["failed_count" := count];
          } else if status == BurstOnline {
            result := result["bogus_count" := count];
          } else if status == BurstOffline {
            result := result["timeout_count" := count];
          }
        }
      }
      assert result == ActivityOf(lines[..i]) + LineCounts(line) by {
        MergeLine(ActivityOf(lines[..i]), line);
      }
    }
    assert lines[..|lines|] == lines;
  }

  /** parseActivityOutput: split the output on '\n' and run the loop. */
  method ParseActivityOutput(output: string) returns (result: Counts)
    ensures result == ParseActivity(output)
  {
    var lines := Split(output, '\n');
    result := ActivityLines(lines);
  }

  /** A line reports `status` when the parser reads it as such. */
  predicate Reports(line: string, status: string) {
    Contains(line, "sources") && |Fields(GoSpace, line)| >= 3 && Fields(GoSpace, line)[2] == status
  }

  /** The status field is a single token, so it is never one of the burst
      phrases, which hold spaces: only `ok_count` and `failed_count` are ever set. */
  lemma LineCountsKeys(line: string)
    ensures LineCounts(line).Keys <= {"ok_count", "failed_count"}
    ensures "ok_count" in LineCounts(line) <==> Reports(line, "online")
    ensures "failed_count" in LineCounts(line) <==> Reports(line, "offline")
    ensures "ok_count" in LineCounts(line) ==> LineCounts(line)["ok_count"] == Fields(GoSpace, line)[0]
    ensures "failed_count" in LineCounts(line) ==> LineCounts(line)["failed_count"] == Fields(GoSpace, line)[0]
  {
    if Contains(line, "sources") && |Fields(GoSpace, line)| >= 3 {
      assert BurstOnline[5] == ' ' && BurstOffline[5] == ' ';
      FieldNotPhrase(GoSpace, line, 2, BurstOnline, 5);
      FieldNotPhrase(GoSpace, line, 2, BurstOffline, 5);
    }
  }

  /** The result's keys are always among `ok_count` and `failed_count`. */
  lemma {:induction false} ActivityKeys(lines: seq<string>)
    ensures ActivityOf(lines).Keys <= {"ok_count", "failed_count"}
  {
    if |lines| > 0 {
      ActivityKeys(lines[..|lines| - 1]);
      LineCountsKeys(lines[|lines| - 1]);
    }
  }

  /** `ok_count` is set exactly when some line reports `online`, and
      `failed_count` exactly when some line reports `offline`. */
  lemma {:induction false} ActivityReported(lines: seq<string>)
    ensures "ok_count" in ActivityOf(lines) <==> exists line :: line in lines && Reports(line, "online")
    ensures "failed_count" in ActivityOf(lines) <==> exists line :: line in lines && Reports(line, "offline")
  {
    if |lines| > 0 {
      var init, last := lines[..|lines| - 1], lines[|lines| - 1];
      ActivityReported(init);
      LineCountsKeys(last);
      assert lines == init + [last];
    }
  }

  /** The count of the last line reporting a status is the one kept. */
  lemma {:induction false} LastReportWins(lines: seq<string>, status: string, i: nat)
    requires status == "online" || status == "offline"
    requires i < |lines| && Reports(lines[i], status)
    requires forall j :: i < j < |lines| ==> !Reports(lines[j], status)
    ensures CountKey(status).value in ActivityOf(lines)
    ensures ActivityOf(lines)[CountKey(status).value] == Fields(GoSpace, lines[i])[0]
  {
    var init, last := lines[..|lines| - 1], lines[|lines| - 1];
    LineCountsKeys(last);
    if i < |init| {
      forall j | i < j < |init|
        ensures !Reports(init[j], status)
      {
        assert init[j] == lines[j];
      }
      LastReportWins(init, status, i);
    }
  }

  lemma MergeLine(m: Counts, line: string)
    ensures (if Contains(line, "sources") && |Fields(GoSpace, line)| >= 3 then
        match CountKey(Fields(GoSpace, line)[2])
        case Some(key) => m[key := Fields(GoSpace, line)[0]]
        case None => m
      else m) == m + LineCounts(line)
  {
  }
}
