/** The HTTP handlers of chrony_api_app.go and the helpers they call, over
    the effects they issue. JSON encoding and the HTTP method dispatch are
    not modelled: each handler is one method per accepted HTTP method, its
    decoded request is a parameter and its response a datatype. */
module GoService {
  import opened Text
  import opened Effects
  import GoConfig
  import GoSources
  import Tracking
  import GoActivity
  import GoClients

  /** The one server handleDefaultServers installs. */
  const DefaultServer: string := "pool.ntp.org"

  /** What runChronyc returns: the trimmed output, or no output and the error text. */
  datatype Reply = Reply(output: string, err: string)

  function ChronycReply(a: Answer): Reply {
    if a.ok then Reply(Trim(GoSpace, a.output), "") else Reply("", a.err)
  }

  const DeleteSources: Effect := Chronyc(["delete", "sources"])

  function AddServer(server: string): Effect {
    Chronyc(["add", "server", server])
  }

  /** The `add server` commands for a list of servers, in order. */
  function AddCommands(servers: seq<string>): seq<Effect> {
    if |servers| == 0 then []
    else AddCommands(servers[..|servers| - 1]) + [AddServer(servers[|servers| - 1])]
  }

  /** runChronyc. */
  method RunChronyc(host: Host, args: seq<string>) returns (r: Reply)
    modifies host
    ensures host.trace == old(host.trace) + [Chronyc(args)]
    ensures r == ChronycReply(host.world(old(host.trace), Chronyc(args)))
  {
    var a := host.Perform(Chronyc(args));
    if !a.ok {
      return Reply("", a.err);
    }
    return Reply(Trim(GoSpace, a.output), "");
  }

  /** restartChrony: kill chronyd, whether or not it runs, then start it;
      the result is whether the start succeeded. */
  method RestartChrony(host: Host) returns (ok: bool)
    modifies host
    ensures host.trace == old(host.trace) + [KillChronyd, StartChronyd]
    ensures ok == host.world(old(host.trace) + [KillChronyd], StartChronyd).ok
  {
    var _ := host.Perform(KillChronyd);
    var started := host.Perform(StartChronyd);
    ok := started.ok;
  }

  /** getServerModeStatus: a file that cannot be read reads as disabled. */
  method GetServerModeStatus(host: Host) returns (enabled: bool)
    modifies host
    ensures host.trace == old(host.trace) + [ReadConf]
    ensures var file := host.world(old(host.trace), ReadConf);
      enabled == (file.ok && GoConfig.AllowEnabled(file.output))
  {
    var file := host.Perform(ReadConf);
    if !file.ok {
      return false;
    }
    enabled := GoConfig.ServerModeOfText(file.output);
  }

  /** What setServerModeStatus issues after the effects `before`, and what
      it returns: read, rewrite, write back, restart chronyd. A failed read
      or write ends it with `false` and issues nothing more. */
  function ModeUpdate(world: World, before: seq<Effect>, enabled: bool): (seq<Effect>, bool) {
    var file := world(before, ReadConf);
    var write := WriteConf(GoConfig.RewriteConfig(file.output, enabled));
    if !file.ok then ([ReadConf], false)
    else if !world(before + [ReadConf], write).ok then ([ReadConf, write], false)
    else ([ReadConf, write, KillChronyd, StartChronyd],
          world(before + [ReadConf, write, KillChronyd], StartChronyd).ok)
  }

  /** setServerModeStatus. */
  method SetServerModeStatus(host: Host, enabled: bool) returns (ok: bool)
    modifies host
    ensures host.trace == old(host.trace) + ModeUpdate(host.world, old(host.trace), enabled).0
    ensures ok == ModeUpdate(host.world, old(host.trace), enabled).1
  {
    var file := host.Perform(ReadConf);
    if !file.ok {
      return false;
    }
    var newContent := GoConfig.RewriteText(file.output, enabled);
    var written := host.Perform(WriteConf(newContent));
    assert host.trace == old(host.trace) + [ReadConf, WriteConf(newContent)];
    if !written.ok {
      return false;
    }
    ok := RestartChrony(host);
    assert old(host.trace) + [ReadConf, WriteConf(newContent)] + [KillChronyd]
      == old(host.trace) + [ReadConf, WriteConf(newContent), KillChronyd];
  }

  datatype Status = Status(
    serverModeEnabled: bool,
    tracking: Tracking.Fields, trackingError: string,
    sources: seq<GoSources.Record>, sourcesError: string,
    activity: GoActivity.Counts, activityError: string,
    clients: seq<GoClients.Record>, clientsError: string)

  /** The response of handleStatus, or the index whose out-of-range read
      made parseSourcesOutput panic, which ends the request. */
  datatype StatusOutcome = Served(status: Status) | Crashed(index: nat)

  /** handleStatus: the server mode and four chronyc reports, each section
      parsed from its own command's output alone. */
  method HandleStatus(host: Host) returns (r: StatusOutcome)
    modifies host
    ensures var t0 := old(host.trace);
      var file := host.world(t0, ReadConf);
      var t1 := t0 + [ReadConf];
      var tracking := ChronycReply(host.world(t1, Chronyc(["tracking"])));
      var t2 := t1 + [Chronyc(["tracking"])];
      var sources := ChronycReply(host.world(t2, Chronyc(["sources"])));
      var t3 := t2 + [Chronyc(["sources"])];
      var activity := ChronycReply(host.world(t3, Chronyc(["activity"])));
      var t4 := t3 + [Chronyc(["activity"])];
      var clients := ChronycReply(host.world(t4, Chronyc(["clients"])));
      match GoSources.ParseSources(sources.output)
      case Panicked(k) => r == Crashed(k) && host.trace == t3
      case Parsed(records) =>
        host.trace == t4 + [Chronyc(["clients"])]
        && r == Served(Status(
          file.ok && GoConfig.AllowEnabled(file.output),
          Tracking.ParseTrackingGo(tracking.output), tracking.err,
          records, sources.err,
          GoActivity.ParseActivity(activity.output), activity.err,
          GoClients.ParseClients(clients.output), clients.err))
  {
    var serverModeEnabled := GetServerModeStatus(host);
    var tracking := RunChronyc(host, ["tracking"]);
    var trackingFields := Tracking.ParseTrackingOutputGo(tracking.output);
    var sources := RunChronyc(host, ["sources"]);
    var parsed := GoSources.ParseSourcesOutput(sources.output);
    if parsed.Panicked? {
      return Crashed(parsed.index);
    }
    var activity := RunChronyc(host, ["activity"]);
    var counts := GoActivity.ParseActivityOutput(activity.output);
    var clients := RunChronyc(host, ["clients"]);
    var clientRecords := GoClients.ParseClientsOutput(clients.output);
    r := Served(Status(serverModeEnabled, trackingFields, tracking.err, parsed.value, sources.err,
      counts, activity.err, clientRecords, clients.err));
  }

  /** handleServers, GET: the raw `chronyc sources` report. */
  method HandleServersGet(host: Host) returns (r: Reply)
    modifies host
    ensures host.trace == old(host.trace) + [Chronyc(["sources"])]
    ensures r == ChronycReply(host.world(old(host.trace), Chronyc(["sources"])))
  {
    r := RunChronyc(host, ["sources"]);
  }

  datatype ServerResult = ServerResult(server: string, output: string, error: string)

  /** A request that was refused with status 400, or the servers' results
      and whether chronyd restarted. */
  datatype Replacement = BadRequest(message: string) | Replaced(results: seq<ServerResult>, restartSuccess: bool)

  /** The result of adding `server` after the effects `before`. */
  function AddResult(world: World, before: seq<Effect>, server: string): ServerResult {
    var reply := ChronycReply(world(before, AddServer(server)));
    ServerResult(server, reply.output, reply.err)
  }

  /** The results of adding `servers` one after the other after the effects `before`. */
  function AddResults(world: World, before: seq<Effect>, servers: seq<string>): seq<ServerResult> {
    if |servers| == 0 then []
    else
      var init := servers[..|servers| - 1];
      AddResults(world, before, init) + [AddResult(world, before + AddCommands(init), servers[|servers| - 1])]
  }

  /** handleServers, PUT. `request` is the decoded body's server list, or
      None when the body is not valid JSON for it. */
  method HandleServersPut(host: Host, request: Option<seq<string>>) returns (r: Replacement)
    modifies host
    ensures request.None? ==> r == BadRequest("Invalid JSON") && host.trace == old(host.trace)
    ensures request == Some([]) ==> r == BadRequest("servers must be a non-empty list") && host.trace == old(host.trace)
    ensures request.Some? && request.value != [] ==>
      var servers := request.value;
      var added := old(host.trace) + [DeleteSources] + AddCommands(servers);
      host.trace == added + [KillChronyd, StartChronyd]
      && r == Replaced(AddResults(host.world, old(host.trace) + [DeleteSources], servers),
                       host.world(added + [KillChronyd], StartChronyd).ok)
  {
    if request.None? {
      return BadRequest("Invalid JSON");
    }
    var servers := request.value;
    if |servers| == 0 {
      return BadRequest("servers must be a non-empty list");
    }
    var _ := RunChronyc(host, ["delete", "sources"]);
    ghost var deleted := host.trace;
    var responses: seq<ServerResult> := [];
    for i := 0 to |servers|
      invariant host.trace == deleted + AddCommands(servers[..i])
      invariant responses == AddResults(host.world, deleted, servers[..i])
    {
      assert servers[..i + 1][..i] == servers[..i];
      var reply := RunChronyc(host, ["add", "server", servers[i]]);
      responses := responses + [ServerResult(servers[i], reply.output, reply.err)];
    }
    assert servers[..|servers|] == servers;
    var restartSuccess := RestartChrony(host);
    r := Replaced(responses, restartSuccess);
  }

  /** handleServers, DELETE: remove every source, then restart chronyd. */
  method HandleServersDelete(host: Host) returns (r: Reply, restartSuccess: bool)
    modifies host
    ensures host.trace == old(host.trace) + [DeleteSources, KillChronyd, StartChronyd]
    ensures r == ChronycReply(host.world(old(host.trace), DeleteSources))
    ensures restartSuccess == host.world(old(host.trace) + [DeleteSources, KillChronyd], StartChronyd).ok
  {
    r := RunChronyc(host, ["delete", "sources"]);
    restartSuccess := RestartChrony(host);
    assert old(host.trace) + [DeleteSources] + [KillChronyd, StartChronyd]
      == old(host.trace) + [DeleteSources, KillChronyd, StartChronyd];
    assert old(host.trace) + [DeleteSources] + [KillChronyd] == old(host.trace) + [DeleteSources, KillChronyd];
  }

  /** handleDefaultServers: replace the sources with pool.ntp.org, then restart chronyd. */
  method HandleDefaultServers(host: Host) returns (r: Replacement)
    modifies host
    ensures var added := old(host.trace) + [DeleteSources, AddServer(DefaultServer)];
      host.trace == added + [KillChronyd, StartChronyd]
      && r == Replaced([AddResult(host.world, old(host.trace) + [DeleteSources], DefaultServer)],
                       host.world(added + [KillChronyd], StartChronyd).ok)
  {
    var _ := RunChronyc(host, ["delete", "sources"]);
    var reply := RunChronyc(host, ["add", "server", DefaultServer]);
    assert host.trace == old(host.trace) + [DeleteSources, AddServer(DefaultServer)];
    var restartSuccess := RestartChrony(host);
    r := Replaced([ServerResult(DefaultServer, reply.output, reply.err)], restartSuccess);
  }

  /** handleServerMode, GET. */
  method HandleServerModeGet(host: Host) returns (enabled: bool)
    modifies host
    ensures host.trace == old(host.trace) + [ReadConf]
    ensures var file := host.world(old(host.trace), ReadConf);
      enabled == (file.ok && GoConfig.AllowEnabled(file.output))
  {
    enabled := GetServerModeStatus(host);
  }

  /** The response of handleServerMode, PUT. */
  datatype ModeChange = InvalidJson | ModeSet(success: bool, serverModeEnabled: bool)

  /** handleServerMode, PUT. `request` is the decoded `enabled` flag (a body
      without the field decodes as false), or None when the body is not valid JSON. */
  method HandleServerModePut(host: Host, request: Option<bool>) returns (r: ModeChange)
    modifies host
    ensures request.None? ==> r == InvalidJson && host.trace == old(host.trace)
    ensures request.Some? ==>
      var (issued, success) := ModeUpdate(host.world, old(host.trace), request.value);
      r == ModeSet(success, request.value) && host.trace == old(host.trace) + issued
  {
    if request.None? {
      return InvalidJson;
    }
    var success := SetServerModeStatus(host, request.value);
    r := ModeSet(success, request.value);
  }

  /** What the trace of a successful replacement consists of: one delete, then
      one add per server in request order, and no other chronyc command. */
  lemma {:induction false} AddCommandsShape(servers: seq<string>)
    ensures |AddCommands(servers)| == |servers|
    ensures forall i :: 0 <= i < |servers| ==> AddCommands(servers)[i] == AddServer(servers[i])
    ensures DeleteSources !in AddCommands(servers)
  {
    if |servers| > 0 {
      var init := servers[..|servers| - 1];
      AddCommandsShape(init);
      forall i | 0 <= i < |init|
        ensures AddCommands(servers)[i] == AddServer(servers[i])
      {
        assert AddCommands(servers)[i] == AddCommands(init)[i];
      }
    }
  }

  /** Writing the server mode and reading it back reports what was written:
      after a successful PUT, a GET that reads the written text answers the
      requested flag. */
  lemma ServerModeRoundTrip(content: string, enabled: bool)
    ensures GoConfig.AllowEnabled(GoConfig.RewriteConfig(content, enabled)) == enabled
  {
    GoConfig.ReadAfterWrite(content, enabled);
  }

  /** setServerModeStatus reports success only when it read the file, wrote
      the rewritten text back, and chronyd started again. */
  lemma ModeUpdateSuccess(world: World, before: seq<Effect>, enabled: bool)
    ensures var file := world(before, ReadConf);
      var write := WriteConf(GoConfig.RewriteConfig(file.output, enabled));
      ModeUpdate(world, before, enabled).1
      <==> file.ok && world(before + [ReadConf], write).ok
           && world(before + [ReadConf, write, KillChronyd], StartChronyd).ok
    ensures ModeUpdate(world, before, enabled).1 ==>
      ModeUpdate(world, before, enabled).0
      == [ReadConf, WriteConf(GoConfig.RewriteConfig(world(before, ReadConf).output, enabled)), KillChronyd, StartChronyd]
  {
  }

  /** Result `i` of a replacement is the answer to the `i`-th add, issued
      after the adds of the servers before it. */
  lemma {:induction false} AddResultsShape(world: World, before: seq<Effect>, servers: seq<string>)
    ensures |AddResults(world, before, servers)| == |servers|
    ensures forall i :: 0 <= i < |servers| ==>
      AddResults(world, before, servers)[i] == AddResult(world, before + AddCommands(servers[..i]), servers[i])
  {
    if |servers| > 0 {
      var init := servers[..|servers| - 1];
      AddResultsShape(world, before, init);
      forall i | 0 <= i < |servers|
        ensures AddResults(world, before, servers)[i] == AddResult(world, before + AddCommands(servers[..i]), servers[i])
      {
        if i < |init| {
          assert servers[..i] == init[..i];
        } else {
          assert servers[..i] == init;
        }
      }
    }
  }
}
