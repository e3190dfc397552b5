/** The Flask endpoints of chrony_api_app.py and the helpers they call, over
    the effects they issue. Routing and JSON encoding are not modelled: each
    endpoint is a method, its decoded request a parameter and its response
    a datatype. */
module PyService {
  import opened Text
  import opened Effects
  import PyConfig
  import Tracking
  import PySources

  const DefaultServers: seq<string> := ["pool.ntp.org"]

  /** What run_chronyc returns: the stripped standard output, and None or
      the stripped error text (`Error` when the command printed none). */
  datatype Reply = Reply(output: string, err: Option<string>)

  function ChronycReply(a: Answer): Reply {
    if a.ok then Reply(Trim(PySpace, a.output), None)
    else Reply(Trim(PySpace, a.output), Some(if a.err != "" then Trim(PySpace, a.err) else "Error"))
  }

  const DeleteSources: Effect := Chronyc(["delete", "sources"])

  function AddServer(server: string): Effect {
    Chronyc(["add", "server", server])
  }

  /** The `add server` commands for a list of servers, in order. */
  function AddCommands(servers: seq<string>): seq<Effect> {
    if |servers| == 0 then []
    else AddCommands(servers[..|servers| - 1]) + [AddServer(servers[|servers| - 1])]
  }

  /** What the file read gives get_server_mode_status: its text, or None
      when reading raised. */
  function FileText(file: Answer): Option<string> {
    if file.ok then Some(file.output) else None
  }

  /** run_chronyc. */
  method RunChronyc(host: Host, args: seq<string>) returns (r: Reply)
    modifies host
    ensures host.trace == old(host.trace) + [Chronyc(args)]
    ensures r == ChronycReply(host.world(old(host.trace), Chronyc(args)))
  {
    var a := host.Perform(Chronyc(args));
    if a.ok {
      return Reply(Trim(PySpace, a.output), None);
    }
    var err := if a.err != "" then Trim(PySpace, a.err) else "Error";
    return Reply(Trim(PySpace, a.output), Some(err));
  }

  /** get_server_mode_status: any exception reads as disabled. */
  method GetServerModeStatus(host: Host) returns (enabled: bool)
    modifies host
    ensures host.trace == old(host.trace) + [ReadConf]
    ensures enabled == PyConfig.GetServerModeStatus(FileText(host.world(old(host.trace), ReadConf)))
  {
    var file := host.Perform(ReadConf);
    enabled := PyConfig.GetServerModeStatus(FileText(file));
  }

  /** What set_server_mode_status issues after the effects `before`, and what
      it returns: read, rewrite, write back; any exception gives False. It
      does not restart chronyd. */
  function ModeUpdate(world: World, before: seq<Effect>, enabled: bool): (seq<Effect>, bool) {
    var file := world(before, ReadConf);
    var write := WriteConf(PyConfig.RewriteConfig(file.output, enabled));
    if !file.ok then ([ReadConf], false)
    else ([ReadConf, write], world(before + [ReadConf], write).ok)
  }

  /** set_server_mode_status. */
  method SetServerModeStatus(host: Host, enabled: bool) returns (ok: bool)
    modifies host
    ensures host.trace == old(host.trace) + ModeUpdate(host.world, old(host.trace), enabled).0
    ensures ok == ModeUpdate(host.world, old(host.trace), enabled).1
  {
    var file := host.Perform(ReadConf);
    if !file.ok {
      return false;
    }
    var newContent := PyConfig.RewriteText(file.output, enabled);
    var written := host.Perform(WriteConf(newContent));
    ok := written.ok;
  }

  datatype ServerResult = ServerResult(server: string, output: string, error: Option<string>)

  /** The result of adding `server` after the effects `before`. */
  function AddResult(world: World, before: seq<Effect>, server: string): ServerResult {
    var reply := ChronycReply(world(before, AddServer(server)));
    ServerResult(server, reply.output, reply.err)
  }

  /** The results of adding `servers` one after the other after the effects `before`. */
  function AddResults(world: World, before: seq<Effect>, servers: seq<string>): seq<ServerResult> {
    if |servers| == 0 then []
    else
      var init := servers[..|servers| - 1];
      AddResults(world, before, init) + [AddResult(world, before + AddCommands(init), servers[|servers| - 1])]
  }

  /** The loop of set_servers and set_default_servers: one `add server` per
      server, in order, each with its result. */
  method AddEach(host: Host, servers: seq<string>) returns (responses: seq<ServerResult>)
    modifies host
    ensures host.trace == old(host.trace) + AddCommands(servers)
    ensures responses == AddResults(host.world, old(host.trace), servers)
  {
    responses := [];
    ghost var start := host.trace;
    for i := 0 to |servers|
      invariant host.trace == start + AddCommands(servers[..i])
      invariant responses == AddResults(host.world, start, servers[..i])
    {
      assert servers[..i + 1][..i] == servers[..i];
      var reply := RunChronyc(host, ["add", "server", servers[i]]);
      responses := responses + [ServerResult(servers[i], reply.output, reply.err)];
    }
    assert servers[..|servers|] == servers;
  }

  /** A request refused with status 400, or the servers' results. */
  datatype Replacement = BadRequest(message: string) | Replaced(results: seq<ServerResult>)

  /** set_servers. `request` is the body's `servers` value when it is a list,
      and None when it is missing or any other JSON value. */
  method SetServers(host: Host, request: Option<seq<string>>) returns (r: Replacement)
    modifies host
    ensures request.None? || request == Some([]) ==>
      r == BadRequest("servers must be a non-empty list") && host.trace == old(host.trace)
    ensures request.Some? && request.value != [] ==>
      var servers := request.value;
      host.trace == old(host.trace) + [DeleteSources] + AddCommands(servers)
      && r == Replaced(AddResults(host.world, old(host.trace) + [DeleteSources], servers))
  {
    if request.None? || |request.value| == 0 {
      return BadRequest("servers must be a non-empty list");
    }
    var _ := RunChronyc(host, ["delete", "sources"]);
    var responses := AddEach(host, request.value);
    r := Replaced(responses);
  }

  /** list_servers: the raw `chronyc sources` report. */
  method ListServers(host: Host) returns (r: Reply)
    modifies host
    ensures host.trace == old(host.trace) + [Chronyc(["sources"])]
    ensures r == ChronycReply(host.world(old(host.trace), Chronyc(["sources"])))
  {
    r := RunChronyc(host, ["sources"]);
  }

  /** reset_servers: remove every source; chronyd is not restarted. */
  method ResetServers(host: Host) returns (r: Reply)
    modifies host
    ensures host.trace == old(host.trace) + [DeleteSources]
    ensures r == ChronycReply(host.world(old(host.trace), DeleteSources))
  {
    r := RunChronyc(host, ["delete", "sources"]);
  }

  /** set_default_servers: replace the sources with the default list. */
  method SetDefaultServers(host: Host) returns (results: seq<ServerResult>)
    modifies host
    ensures host.trace == old(host.trace) + [DeleteSources] + AddCommands(DefaultServers)
    ensures results == AddResults(host.world, old(host.trace) + [DeleteSources], DefaultServers)
  {
    var _ := RunChronyc(host, ["delete", "sources"]);
    results := AddEach(host, DefaultServers);
  }

  datatype Status = Status(
    serverModeEnabled: bool,
    tracking: Tracking.Fields, trackingError: Option<string>,
    sources: seq<PySources.Record>, sourcesError: Option<string>)

  /** chrony_status: the server mode and two chronyc reports, each parsed
      only when its command printed something. */
  method ChronyStatus(host: Host) returns (r: Status)
    modifies host
    ensures var t0 := old(host.trace);
      var file := host.world(t0, ReadConf);
      var t1 := t0 + [ReadConf];
      var tracking := ChronycReply(host.world(t1, Chronyc(["tracking"])));
      var t2 := t1 + [Chronyc(["tracking"])];
      var sources := ChronycReply(host.world(t2, Chronyc(["sources"])));
      host.trace == t2 + [Chronyc(["sources"])]
      && r == Status(
        PyConfig.GetServerModeStatus(FileText(file)),
        if tracking.output != "" then Tracking.ParseTrackingPy(tracking.output) else map[], tracking.err,
        if sources.output != "" then PySources.ParseSources(sources.output) else [], sources.err)
  {
    var serverModeEnabled := GetServerModeStatus(host);
    var tracking := RunChronyc(host, ["tracking"]);
    var formattedTracking: Tracking.Fields := map[];
    if tracking.output != "" {
      formattedTracking := Tracking.ParseTrackingOutputPy(tracking.output);
    }
    var sources := RunChronyc(host, ["sources"]);
    var formattedSources: seq<PySources.Record> := [];
    if sources.output != "" {
      formattedSources := PySources.ParseSourcesOutput(sources.output);
    }
    r := Status(serverModeEnabled, formattedTracking, tracking.err, formattedSources, sources.err);
  }

  /** get_server_mode. */
  method GetServerMode(host: Host) returns (enabled: bool)
    modifies host
    ensures host.trace == old(host.trace) + [ReadConf]
    ensures enabled == PyConfig.GetServerModeStatus(FileText(host.world(old(host.trace), ReadConf)))
  {
    enabled := GetServerModeStatus(host);
  }

  /** The response of set_server_mode. */
  datatype ModeChange = NotBoolean | ModeSet(success: bool, serverModeEnabled: bool)

  /** set_server_mode. `request` is the body's `enabled` value when it is a
      boolean, and None when it is missing or any other JSON value. */
  method SetServerMode(host: Host, request: Option<bool>) returns (r: ModeChange)
    modifies host
    ensures request.None? ==> r == NotBoolean && host.trace == old(host.trace)
    ensures request.Some? ==>
      var (issued, success) := ModeUpdate(host.world, old(host.trace), request.value);
      r == ModeSet(success, request.value) && host.trace == old(host.trace) + issued
  {
    if request.None? {
      return NotBoolean;
    }
    var success := SetServerModeStatus(host, request.value);
    r := ModeSet(success, request.value);
  }

  /** set_server_mode_status reports success exactly when it read the file
      and wrote the rewritten text back. */
  lemma ModeUpdateSuccess(world: World, before: seq<Effect>, enabled: bool)
    ensures var file := world(before, ReadConf);
      var write := WriteConf(PyConfig.RewriteConfig(file.output, enabled));
      ModeUpdate(world, before, enabled).1 <==> file.ok && world(before + [ReadConf], write).ok
    ensures ModeUpdate(world, before, enabled).1 ==>
      ModeUpdate(world, before, enabled).0
      == [ReadConf, WriteConf(PyConfig.RewriteConfig(world(before, ReadConf).output, enabled))]
  {
  }

  /** The guard of chrony_status changes nothing: both parsers already give
      the empty result for empty output. */
  lemma StatusGuardRedundant()
    ensures Tracking.ParseTrackingPy("") == map[]
    ensures PySources.ParseSources("") == []
  {
    assert SplitLines("") == [];
  }

  /** What the trace of set_servers consists of: one delete, then one add
      per server in request order, and no other chronyc command. */
  lemma {:induction false} AddCommandsShape(servers: seq<string>)
    ensures |AddCommands(servers)| == |servers|
    ensures forall i :: 0 <= i < |servers| ==> AddCommands(servers)[i] == AddServer(servers[i])
    ensures DeleteSources !in AddCommands(servers)
  {
    if |servers| > 0 {
      var init := servers[..|servers| - 1];
      AddCommandsShape(init);
      forall i | 0 <= i < |init|
        ensures AddCommands(servers)[i] == AddServer(servers[i])
      {
        assert AddCommands(servers)[i] == AddCommands(init)[i];
      }
    }
  }

  /** Result `i` of a replacement is the answer to the `i`-th add, issued
      after the adds of the servers before it. */
  lemma {:induction false} AddResultsShape(world: World, before: seq<Effect>, servers: seq<string>)
    ensures |AddResults(world, before, servers)| == |servers|
    ensures forall i :: 0 <= i < |servers| ==>
      AddResults(world, before, servers)[i] == AddResult(world, before + AddCommands(servers[..i]), servers[i])
  {
    if |servers| > 0 {
      var init := servers[..|servers| - 1];
      AddResultsShape(world, before, init);
      forall i | 0 <= i < |servers|
        ensures AddResults(world, before, servers)[i] == AddResult(world, before + AddCommands(servers[..i]), servers[i])
      {
        if i < |init| {
          assert servers[..i] == init[..i];
        } else {
          assert servers[..i] == init;
        }
      }
    }
  }
}
