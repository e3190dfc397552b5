# chrony API service — a Dafny model

The repository is a small HTTP service that supervises `chronyd`, the NTP
daemon, in two near-identical variants: `chrony_api_app.go` (net/http) and
`chrony_api_app.py` (Flask). Each variant does the following:

- It reports status by running `chronyc tracking`, `sources`, `activity` and
  `clients`, and parsing their text output.
- It replaces, clears or resets the NTP sources with `chronyc delete sources`
  and `chronyc add server …`. The Go variant then restarts chronyd.
- It reads and switches "server mode". That is the presence of an `allow`
  directive in `/etc/chrony/chrony.conf`. Writing it rewrites the file line by
  line. The Go variant then restarts chronyd.

The model has these parts:

- **Text** (`text.dfy`). The string functions the parsers rely on, with their
  exact white-space classes:
  - Go's `strings.TrimSpace`, `strings.Fields`, `strings.Split` and
    `strings.Join`;
  - RE2's `\s`;
  - Python's `str.strip`, `str.splitlines` and `readlines`.
- **Tables** (`tables.dfy`). The header and separator gating shared by the
  `sources` and `clients` parsers.
- **ConfigLines, GoConfig, PyConfig, PyLines.** The `allow`-directive store:
  - the rewrite loop, shared by both variants and parameterised by the
    directive test;
  - each variant's text-level read and write;
  - read-after-write, idempotence and "disable drops exactly the directives".
- **GoSources, PySources, Tracking, GoActivity, GoClients.** The output
  parsers. Each loop is a method proved equal to a recursive specification
  function, with lemmas on what that function yields.
- **Effects, GoService, PyService.** The handlers. Each handler is a method
  on a `Host` object:
  - the host records, in its `trace` field, every external effect the
    handler issues: a `chronyc` command, killing or starting chronyd,
    reading or writing chrony.conf;
  - the host gets each effect's answer from a `world` function of the
    history so far and the effect;
  - every handler states the exact trace it produces and the response it
    returns in terms of those answers.

Two defects of the source are recorded under "Findings". The handler models
keep the behaviour as written. The corrected definitions sit beside them with
the intended property proved.

## Model

| member | source | states |
|---|---|---|
| Text.JoinSplit | chrony_api_app.go:126-146 | joining the pieces of `strings.Split(s, sep)` with `sep` gives back `s` exactly |
| Text.SplitJoin | chrony_api_app.go:126-146 | splitting the join of separator-free pieces gives back the pieces |
| Text.Fields | chrony_api_app.go:270 | every field of `strings.Fields` is non-empty and holds no white space |
| Text.TrimEnds | chrony_api_app.go:84 | the trimmed text neither starts nor ends with white space |
| Text.ConcatReadLines | chrony_api_app.py:32-46 | writing back the lines `readlines()` read reproduces the file text |
| Text.ReadLinesTerminated | chrony_api_app.py:32 | every line `readlines()` returns but the last ends in its only `'\n'`; the last does when the text does |
| PyLines.SplitLinesOfRead | chrony_api_app.py:21-36 | when `'\n'` is the only line boundary, `splitlines()` yields the `readlines()` lines less their `'\n'` |
| ConfigLines.RewriteLines | chrony_api_app.go:126-144 | the loop yields the kept lines (all when enabling, all but the directives when disabling), plus the default `allow 0.0.0.0/0` when enabling found no directive |
| ConfigLines.DefaultAllowIsDirective | chrony_api_app.go:143 | the appended default line is itself a directive, in both variants |
| ConfigLines.KeptLinesEnabled | chrony_api_app.go:133-138 | enabling keeps every line unchanged |
| ConfigLines.KeptLinesMembers | chrony_api_app.go:130-140 | every kept line is a line of the input |
| ConfigLines.KeptLinesAppend | chrony_api_app.go:130-140 | lines are judged one by one: keeping distributes over concatenation |
| ConfigLines.DisableDropsExactlyDirectives | chrony_api_app.go:130-140 | disabling yields an order-preserving subsequence holding every non-directive line as often as the input and no directive |
| ConfigLines.DisableLeavesNoDirective | chrony_api_app.go:131-136 | no directive survives disabling |
| ConfigLines.NoDirectiveKeptAll | chrony_api_app.go:130-140 | disabling a directive-free list keeps every line |
| ConfigLines.RewrittenEnabledWithDirective | chrony_api_app.go:142-144 | enabling a list that already has a directive changes nothing |
| ConfigLines.RewrittenHasDirective | chrony_api_app.go:126-146 | the rewritten lines hold a directive exactly when server mode was requested |
| ConfigLines.RewrittenIdempotent | chrony_api_app.go:126-146 | rewriting twice with the same flag equals rewriting once |
| GoConfig.ScanForAllow | chrony_api_app.go:94-100 | the early-exit scan answers whether some line is a non-blank trimmed line starting with `allow` |
| GoConfig.ServerModeOfText | chrony_api_app.go:88-101 | server mode of a readable file is "some `'\n'`-piece is a directive" |
| GoConfig.RewriteText | chrony_api_app.go:126-146 | the text written is the join of the rewritten `'\n'`-pieces |
| GoConfig.SplitRewritten | chrony_api_app.go:146 | the pieces of the written text are the rewritten lines |
| GoConfig.ReadAfterWrite | chrony_api_app.go:88-146 | reading server mode from the written text returns the flag requested, for every file text |
| GoConfig.EnableWhenEnabledIsIdentity | chrony_api_app.go:142-146 | enabling a file that already has a directive writes it back byte for byte |
| GoConfig.EnableAppendsDirective | chrony_api_app.go:142-146 | enabling a file without one appends `"\n" + "allow 0.0.0.0/0"` to its text |
| GoConfig.EnableIdempotent | chrony_api_app.go:120-154 | enabling twice writes what enabling once writes |
| GoConfig.DisableIdempotent | chrony_api_app.go:120-154 | disabling twice writes what disabling once writes |
| GoConfig.DisableUndoesEnable | chrony_api_app.go:120-154 | on a file without a directive, enabling then disabling restores the text exactly |
| PyConfig.GetServerModeStatus | chrony_api_app.py:21-27 | an unreadable file reads as disabled |
| PyConfig.RewriteText | chrony_api_app.py:31-46 | the text written is the concatenation of the rewritten `readlines()` lines |
| PyConfig.ChompDirective | chrony_api_app.py:25-36 | a line is a directive with or without its `'\n'`, since `strip()` removes it |
| PyConfig.HasDirectiveChompAll | chrony_api_app.py:25-36 | the read (over chomped lines) and the rewrite (over `'\n'`-kept lines) see the same directives |
| PyConfig.ReadMatchesRewrite | chrony_api_app.py:21-36 | with `'\n'`-only boundaries, server mode is "some `readlines()` line is a directive" |
| PyConfig.EnableFoundIdentity | chrony_api_app.py:43-46 | enabling a file that already has a directive writes it back unchanged |
| PyConfig.EnableAppendsDirective | chrony_api_app.py:43-46 | enabling a file without one appends `allow 0.0.0.0/0\n` to its text |
| PyConfig.RewrittenWellFormed | chrony_api_app.py:33-46 | the written lines are non-empty, `'\n'`-free within and terminated except the last, when enabling starts from a terminated file |
| PyConfig.ReadAfterWrite | chrony_api_app.py:21-46 | with `'\n'`-only boundaries, reading back returns the flag requested; when enabling, the file must end in `'\n'` or be empty (see Findings) |
| PyConfig.EnableIdempotent | chrony_api_app.py:29-49 | enabling a terminated or empty file twice writes what enabling once writes |
| PyConfig.DisableIdempotent | chrony_api_app.py:29-49 | disabling twice writes what disabling once writes |
| PyConfig.DirectiveReadBack | chrony_api_app.py:43-44 | the appended line is read back as a directive when the file ended in `'\n'` or was empty |
| PyConfig.EnableFusesOntoUnterminatedLine | chrony_api_app.py:43-46 | as written: a one-line file without a trailing `'\n'` gets the directive fused onto that line, so it reads back disabled and enabling again appends again |
| PyConfig.ServerAIsFused | chrony_api_app.py:44 | the file `server a` meets the conditions of the fusion |
| PyConfig.EnableOneLine | chrony_api_app.py:43-46 | enabling a one-line non-directive file appends the default line to its text |
| PyConfig.OnOwnLineReadAfterWrite | chrony_api_app.py:43-46 | corrected: with the directive put on its own line, read-after-write holds for every `'\n'`-only file, terminated or not |
| PyConfig.OnOwnLineEnableIdempotent | chrony_api_app.py:43-46 | corrected: enabling is idempotent on every file |
| Tables.BodyAfterFirstHeader | chrony_api_app.go:161-167 | everything after the first header line, and nothing before it, is the body |
| Tables.BodyWithoutHeader | chrony_api_app.go:161-167 | output without a header line yields no rows |
| Tables.BodySnoc | chrony_api_app.go:161-167 | one more line joins the body exactly when a header came before it |
| Tables.BodyAppend | chrony_api_app.go:161-167 | after a header every later line belongs to the body |
| Tables.DataRowsAppend | chrony_api_app.go:169-171 | blank and separator lines are skipped line by line |
| Tables.RowsSnoc | chrony_api_app.go:161-171 | the rows after one more line: the header flag and the rows extend as the loop extends them |
| GoSources.ParseSourcesLines | chrony_api_app.go:156-209 | the loop yields the records of the data rows in order, or the panic of the first row read out of range |
| GoSources.ParseSourcesOutput | chrony_api_app.go:156-209 | parseSourcesOutput on the output text equals the specification over its `'\n'`-pieces |
| GoSources.PanicPersists | chrony_api_app.go:187-197 | once a row has panicked, later lines do not change the outcome |
| GoSources.SourcesOfPanicked | chrony_api_app.go:187-197 | rows after a panic change nothing |
| GoSources.DigitRunDigits | chrony_api_app.go:190 | the digit run holds only digits and is maximal |
| GoSources.LeadingDurationMatches | chrony_api_app.go:190-200 | the duration extracted is a prefix of the token of the form `[+-]digits ms`, and it is the match whenever one exists |
| GoSources.RowPanics | chrony_api_app.go:175-203 | a row panics exactly when it has 6 or 8 tokens, at the index equal to its token count |
| GoSources.GuardedRowFields | chrony_api_app.go:175-203 | corrected row: a record iff at least 6 tokens; tokens 0-5 under the column names, the line under `raw`, `offset` and `delay` exactly when tokens 6 and 8 exist and start with a duration |
| GoSources.RowAgreesWithGuarded | chrony_api_app.go:175-203 | where the row as written does not panic, it equals the corrected row |
| GoSources.GuardedSourcesAppend | chrony_api_app.go:161-207 | the corrected parse works row by row, keeping row order |
| GoSources.PanickedSnoc | chrony_api_app.go:161-207 | one more row: the parse has panicked iff it had, or the new row panics |
| GoSources.SourcesPanicWhen | chrony_api_app.go:187-197 | as written: the parse panics iff some data row has 6 or 8 tokens |
| GoSources.SourcesAgreeWithGuarded | chrony_api_app.go:175-207 | where the parse as written does not panic, it equals the corrected parse |
| GoSources.SixTokenRowPanics | chrony_api_app.go:187-188 | as written: a 6-token row panics at index 6, where the corrected parser yields its record |
| GoSources.EightTokenRowPanics | chrony_api_app.go:196-197 | as written: an 8-token row panics at index 8, where the corrected parser yields a record without delay |
| GoSources.ExampleRow | chrony_api_app.go:173-201 | the tokens of the example row yield offset `+625ms` and no delay, since token 8 is `+/-` |
| PySources.SourcesLines | chrony_api_app.py:51-70 | the loop yields one record per data row with at least two tokens, in order |
| PySources.SourceLine | chrony_api_app.py:57-69 | one pass of the loop body: before the header only the flag changes; after it blank and `=` lines add nothing, other lines add their record if they have one |
| PySources.SourcesScanIsSpec | chrony_api_app.py:56-69 | the loop's state after any prefix is whether a header was seen and the records of that prefix's data rows |
| PySources.ParseSourcesOutput | chrony_api_app.py:51-70 | parse_sources_output on the text equals the specification over its `splitlines()` |
| PySources.SourceRowFields | chrony_api_app.py:64-69 | a record iff at least two tokens; exactly the keys `name` (token 1) and `raw` (the stripped line) |
| PySources.SourcesAppend | chrony_api_app.py:56-69 | the parse works row by row, keeping row order |
| Tracking.TrackingLinesGo | chrony_api_app.go:211-261 | the switch over keys builds the map of the specification, later lines overriding |
| Tracking.ParseTrackingOutputGo | chrony_api_app.go:211-261 | parseTrackingOutput on the text equals the specification over its `'\n'`-pieces |
| Tracking.TrackingLinesPy | chrony_api_app.py:72-79 | the loop builds the map of the specification, later lines overriding |
| Tracking.ParseTrackingOutputPy | chrony_api_app.py:72-79 | parse_tracking_output on the text equals the specification over its `splitlines()` |
| Tracking.LineEntriesAt | chrony_api_app.go:216-256 | a line stores under a key exactly when it has a colon and its key maps to that key, and it stores the trimmed text after the first colon |
| Tracking.TrackingKeys | chrony_api_app.go:215-259 | a key is in the result exactly when some line stores under it |
| Tracking.LastLineWins | chrony_api_app.go:215-259 | the last line that stores under a key decides its value |
| Tracking.ReferenceIdRenamed | chrony_api_app.go:224-225 | the Go map never holds the key `Reference ID` |
| Tracking.GoAliases | chrony_api_app.go:223-256 | `Reference ID` is stored as `ReferenceID`; `Update interval` also as `UpdateRate`; `Leap status` also as `LeapStatus`; any other key as itself |
| Tracking.PythonNoAliases | chrony_api_app.py:76-78 | in Python every line with a colon stores under its own stripped key |
| Tracking.TrackingAppend | chrony_api_app.go:215-259 | parsing works line by line: the entries of later lines override |
| Tracking.ParseTrackingGoConcat | chrony_api_app.go:213-259 | the parse of two texts joined by `'\n'` is the parse of the first overridden by the second |
| GoActivity.ActivityLines | chrony_api_app.go:263-288 | the loop builds the map of the specification, later lines overriding |
| GoActivity.ParseActivityOutput | chrony_api_app.go:263-288 | parseActivityOutput on the text equals the specification over its `'\n'`-pieces |
| GoActivity.LineCountsKeys | chrony_api_app.go:268-283 | one line sets `ok_count` iff it mentions `sources` and its third field is `online`, `failed_count` iff it is `offline`, to its first field; the burst cases, whose phrases hold spaces, never match a field |
| GoActivity.ActivityKeys | chrony_api_app.go:274-283 | only `ok_count` and `failed_count` ever appear |
| GoActivity.ActivityReported | chrony_api_app.go:267-286 | each count is present exactly when some line reports that status |
| GoActivity.LastReportWins | chrony_api_app.go:267-286 | the last line reporting a status decides its count |
| GoActivity.MergeLine | chrony_api_app.go:268-283 | the switch's update of the map equals merging in the line's counts |
| GoClients.ClientsLines | chrony_api_app.go:290-330 | the loop yields one record per data row with at least two tokens, in order |
| GoClients.ClientLine | chrony_api_app.go:296-327 | one pass of the loop body: before the header only the flag changes; after it blank and rule lines add nothing, other lines add their record if they have one |
| GoClients.ClientsScanIsSpec | chrony_api_app.go:295-328 | the loop's state after any prefix is whether a header was seen and the records of that prefix's data rows |
| GoClients.BuildClient | chrony_api_app.go:309-324 | the record built from at least two tokens is the specification's record |
| GoClients.ParseClientsOutput | chrony_api_app.go:290-330 | parseClientsOutput on the text equals the specification over its `'\n'`-pieces |
| GoClients.ClientRowFields | chrony_api_app.go:308-324 | a record iff at least two tokens; `address` and `raw` always; `ntp_packets`, `ntp_dropped`, `offset` exactly when 3, 4, 5 tokens exist, from tokens 1, 2, 3 |
| GoClients.ClientsAppend | chrony_api_app.go:295-328 | the parse works row by row, keeping row order |
| GoClients.ClientsCount | chrony_api_app.go:295-328 | at most one record per row, and every record comes from some row |
| GoService.RunChronyc | chrony_api_app.go:78-85 | issues one `chronyc` command; on success the trimmed output and no error, else no output and the error text |
| GoService.RestartChrony | chrony_api_app.go:104-118 | issues kill then start; succeeds iff the start succeeds, whatever the kill answered |
| GoService.GetServerModeStatus | chrony_api_app.go:88-101 | one read; enabled iff the read succeeded and the text holds a directive |
| GoService.SetServerModeStatus | chrony_api_app.go:120-154 | read, write the rewritten text, restart; a failed read or write stops there with `false` |
| GoService.ModeUpdateSuccess | chrony_api_app.go:120-154 | success iff the read, the write and the restart all succeeded, and then exactly those four effects were issued |
| GoService.HandleStatus | chrony_api_app.go:396-430 | the server mode and the four reports in order, each parsed with its error; a `sources` row that panics ends the handler before `activity` is run |
| GoService.HandleServersGet | chrony_api_app.go:434-441 | the `chronyc sources` reply, unparsed |
| GoService.HandleServersPut | chrony_api_app.go:443-477 | bad JSON and an empty list are refused with no effect; else delete, one add per server in order with its result, then restart |
| GoService.HandleServersDelete | chrony_api_app.go:479-491 | delete, then restart; the delete's reply and the restart's result |
| GoService.HandleDefaultServers | chrony_api_app.go:498-526 | delete, add `pool.ntp.org`, restart; the add's result and the restart's |
| GoService.HandleServerModeGet | chrony_api_app.go:528-536 | the server mode read from the file |
| GoService.HandleServerModePut | chrony_api_app.go:538-551 | bad JSON is refused with no effect; else the effects and success of setServerModeStatus, echoing the flag requested |
| GoService.AddCommandsShape | chrony_api_app.go:458-467 | the add commands are one per server, in order, none of them a delete |
| GoService.ServerModeRoundTrip | chrony_api_app.go:528-551 | the text a PUT writes is read back by a GET as the flag requested |
| GoService.AddResultsShape | chrony_api_app.go:459-467 | result `i` is the reply to the `i`-th add, issued after the earlier adds |
| PyService.RunChronyc | chrony_api_app.py:13-18 | one `chronyc` command; the stripped output and None, or the stripped error text (`Error` when it is empty) |
| PyService.GetServerModeStatus | chrony_api_app.py:21-27 | one read; a failed read gives False |
| PyService.SetServerModeStatus | chrony_api_app.py:29-49 | read, write the rewritten text; no restart; any failure gives False |
| PyService.ModeUpdateSuccess | chrony_api_app.py:29-49 | success iff the read and the write succeeded, and then exactly those two effects were issued |
| PyService.AddEach | chrony_api_app.py:96-99 | one add per server, in order, each with its result |
| PyService.SetServers | chrony_api_app.py:87-100 | a missing, non-list or empty list is refused with no effect; else delete then the adds with their results, and no restart |
| PyService.ListServers | chrony_api_app.py:82-85 | the `chronyc sources` reply, unparsed |
| PyService.ResetServers | chrony_api_app.py:102-106 | one delete and its reply |
| PyService.SetDefaultServers | chrony_api_app.py:108-117 | delete, then add each default server with its result |
| PyService.ChronyStatus | chrony_api_app.py:119-135 | server mode, then tracking and sources, each parsed only when its output is non-empty |
| PyService.StatusGuardRedundant | chrony_api_app.py:125-128 | the non-empty guard changes nothing: both parsers give the empty result on empty output |
| PyService.GetServerMode | chrony_api_app.py:142-145 | the server mode read from the file |
| PyService.SetServerMode | chrony_api_app.py:147-154 | a missing or non-boolean flag is refused with no effect; else the effects and success of set_server_mode_status, echoing the flag |
| PyService.AddCommandsShape | chrony_api_app.py:97-99 | the add commands are one per server, in order, none of them a delete |
| PyService.AddResultsShape | chrony_api_app.py:96-99 | result `i` is the reply to the `i`-th add, issued after the earlier adds |

## Left out

- HTTP routing, method dispatch (405 responses), JSON encoding and decoding, and response headers. A handler's decoded request is a parameter (`None` for a body that does not decode), and its response is a datatype.
- The version, metadata and health endpoints, build-info loading, `main`, and logging. They are outside the core.
- Concurrency between requests. Each handler runs alone on the host.
- Process and file I/O. They are the answers of an oracle (`World`) to each effect, in the light of the effects issued before. File permissions, partial writes and the truncation before Python's `writelines` are not modelled.
- Go's distinction between a nil and an empty slice in JSON output (`null` versus `[]`).
- Python exceptions other than a failed read or write of chrony.conf. Examples are `chronyc` missing from `PATH` (an uncaught error gives a 500), a non-string entry in the server list, and a body that is not a JSON object.
- Python's universal-newline translation on reading. The text is taken as already translated.
- PyConfig.ReadAfterWrite: stated only for files whose sole line boundary is `'\n'`. `splitlines()` also splits at `\v`, `\f`, `\x1c`-`\x1e`, `\x85`, U+2028 and U+2029, which `readlines()` does not.
- Go `regexp` `\s+` splitting of the trimmed line is modelled as `Fields` over RE2's white-space class. The two agree on the non-blank trimmed lines the parsers tokenise.
- GoSources.ExampleRow: stated over the tokens of the example row rather than its text. Splitting an 80-character literal is not evaluated by the verifier.

## Findings

| source | as written | input that shows it | evidently intended | confidence | as-written member | corrected member |
|---|---|---|---|---|---|---|
| chrony_api_app.go:187-197 | the guards `len(parts) >= 6` and `>= 8` allow reads of `parts[6]` and `parts[8]` | a `chronyc sources` data row with exactly 6 (or 8) tokens: index out of range, and `/chrony/status` panics | `len(parts) > 6` and `> 8`: offset and delay only when those tokens exist | high; not executed | GoSources.SourcesPanicWhen, GoSources.SixTokenRowPanics, GoSources.EightTokenRowPanics | GoSources.GuardedRowFields, GoSources.SourcesAgreeWithGuarded |
| chrony_api_app.py:43-46 | `allow 0.0.0.0/0\n` is appended as a new list element and written with `writelines`, so it continues an unterminated last line | the file `server a` with no trailing newline: enabling writes `server aallow 0.0.0.0/0\n`, which reads back disabled, and enabling again appends again | put the directive on its own line | high; not executed | PyConfig.EnableFusesOntoUnterminatedLine, PyConfig.ServerAIsFused | PyConfig.OnOwnLineReadAfterWrite, PyConfig.OnOwnLineEnableIdempotent |
