/**
  The executor (executor/runner.py): the AMEN gate and its bypass, the
  artifact files, the first-free-port search, docker image and container
  naming, endpoint synthesis, and dispatch on the runtime.

  Nothing here touches the outside world.  What the world answers is an
  input: the set of ports a bind would succeed on, how each of the three
  docker commands ends, and whether writing into the workspace fails.
  Python exceptions raised along the way are carried as `raised` and end
  the run the way `execute`'s `except Exception` does.
 */
module Executor {
  import opened Wrappers
  import opened Text
  import opened Values
  import opened Models
  import opened Planner

  // ----- configuration and the world -----

  /** The configuration fields the executor reads. */
  datatype ExecConfig = ExecConfig(skipAmenConfirmation: bool, containerPrefix: string, containerPort: int)

  /** How a `subprocess.run` call ended: with an exit status and its
      captured text, or by raising (a timeout, a missing binary). */
  datatype ProcessOutcome = Exited(returncode: int, stdout: string, stderr: string) | Raised(message: string)

  /** Everything the executor learns from outside: the workspace path as
      `str(Path)` shows it, the ports a bind succeeds on, a failure of the
      workspace writes, and the outcomes of `docker build`, `docker rm` and
      `docker run`. */
  datatype World = World(
    workspace: string,
    free: set<int>,
    writeFault: Option<string>,
    build: ProcessOutcome,
    remove: ProcessOutcome,
    run: ProcessOutcome)

  // ----- ports -----

  /** How many ports `_find_available_port` tries. */
  const MaxAttempts: nat := 100

  /** The message of the `OverflowError` a socket bind raises for a port
      outside 0..65535; `_find_available_port` does not catch it. */
  const PortRangeError: string := "bind(): port must be 0-65535."

  /** A port number `socket.bind` accepts at all. */
  predicate InPortRange(p: int) {
    0 <= p <= 65535
  }

  /** Every port in `[lo, hi)` is a valid port number that is in use. */
  predicate AllBusy(lo: int, hi: int, free: set<int>) {
    forall q :: lo <= q < hi ==> InPortRange(q) && q !in free
  }

  /** The loop of `_find_available_port` from `port`, with `left` attempts
      remaining and `fallback` returned when they run out. */
  function Probe(port: int, free: set<int>, left: nat, fallback: int): (r: Result<int, string>)
    decreases left
    ensures r.Ok? && r.value != fallback ==>
              port <= r.value < port + left && InPortRange(r.value) && r.value in free && AllBusy(port, r.value, free)
    ensures r.Ok? && r.value == fallback && !(port <= fallback < port + left) ==> AllBusy(port, port + left, free)
    ensures r.Err? ==>
              r.error == PortRangeError
              && exists p :: port <= p < port + left && !InPortRange(p) && AllBusy(port, p, free)
  {
    if left == 0 then Ok(fallback)
    else if !InPortRange(port) then Err(PortRangeError)
    else if port in free then Ok(port)
    else Probe(port + 1, free, left - 1, fallback)
  }

  /** `_find_available_port(start)`: the first port from `start` on that a
      bind succeeds on, `start + 100` when the hundred ports from `start`
      are all busy, or the error raised on reaching an invalid port number
      first. */
  function FindAvailablePort(start: int, free: set<int>): (r: Result<int, string>)
    ensures r.Ok? && r.value < start + MaxAttempts ==>
              start <= r.value && InPortRange(r.value) && r.value in free && AllBusy(start, r.value, free)
    ensures r.Ok? && r.value >= start + MaxAttempts ==>
              r.value == start + MaxAttempts && AllBusy(start, start + MaxAttempts, free)
    ensures r.Err? ==>
              r.error == PortRangeError
              && exists p :: start <= p < start + MaxAttempts && !InPortRange(p) && AllBusy(start, p, free)
  {
    Probe(start, free, MaxAttempts, start + MaxAttempts)
  }

  /** The port probes of the `for port in ports` loop of `_execute_docker`:
      one `(host port, container port)` mapping per listed port other than
      the container port, or the error one of the probes raised. */
  function ExtraPortMappings(ports: seq<int>, containerPort: int, free: set<int>): (r: Result<seq<(int, int)>, string>)
    ensures r.Ok? ==> forall i :: 0 <= i < |r.value| ==> r.value[i].1 in ports && r.value[i].1 != containerPort
    ensures r.Err? ==> r.error == PortRangeError
  {
    if ports == [] then Ok([])
    else if ports[0] == containerPort then ExtraPortMappings(ports[1..], containerPort, free)
    else
      match FindAvailablePort(ports[0], free)
      case Err(e) => Err(e)
      case Ok(host) =>
        match ExtraPortMappings(ports[1..], containerPort, free)
        case Err(e) => Err(e)
        case Ok(rest) => Ok([(host, ports[0])] + rest)
  }

  // ----- artifacts -----

  /** The content of a written file: plain text, or a JSON document. */
  datatype Content = TextFile(text: string) | JsonFile(doc: Value)

  /** A file `_write_artifacts` writes: its key in `result.artifacts`, its
      name in the workspace, and what goes into it. */
  datatype Artifact = Artifact(key: string, fileName: string, content: Content)

  /** The name of the application file for a language. */
  function AppFileName(language: string): (r: string)
    ensures r == "app.py" <==> language == "python"
    ensures r == "app.js" <==> language == "node"
    ensures r == "app.txt" <==> language != "python" && language != "node"
  {
    if language == "python" then "app.py"
    else if language == "node" then "app.js"
    else "app.txt"
  }

  /** The `dependencies` of the generated package.json. */
  function NodeDependencies(framework: Option<string>): (r: map<string, Value>)
    ensures "express" in r <==> framework == Some("express")
    ensures "express" in r ==> r["express"] == VStr("^4.18.0")
    ensures r.Keys <= {"express"}
  {
    if framework == Some("express") then map["express" := VStr("^4.18.0")] else map[]
  }

  /** The package.json document for a node implementation. */
  function PackageManifest(ir: IntentIR): Value {
    VMap(map["name" := VStr(ir.intent.name), "version" := VStr("1.0.0"), "main" := VStr("app.js"),
             "dependencies" := VMap(NodeDependencies(ir.implementation.framework))])
  }

  /** Python truthiness of an optional string. */
  predicate Filled(o: Option<string>) {
    o.Some? && o.value != []
  }

  lemma ArtifactKeysDistinct()
    ensures "app" != "Dockerfile" && "app" != "package.json" && "Dockerfile" != "package.json"
  {
    assert "app"[0] != "Dockerfile"[0] && "app"[0] != "package.json"[0] && "Dockerfile"[0] != "package.json"[0];
  }

  /** The files `_write_artifacts` writes, in the order it writes them. */
  function PlannedArtifacts(ir: IntentIR): (r: seq<Artifact>)
    ensures |r| <= 3
    ensures (exists i :: 0 <= i < |r| && r[i].key == "app") <==> Filled(ir.generatedCode)
    ensures (exists i :: 0 <= i < |r| && r[i].key == "Dockerfile") <==> Filled(ir.dockerfile)
    ensures (exists i :: 0 <= i < |r| && r[i].key == "package.json") <==> ir.implementation.language == "node"
    ensures forall i :: 0 <= i < |r| && r[i].key == "app" ==>
              i == 0 && r[i].fileName == AppFileName(ir.implementation.language)
              && r[i].content == TextFile(ir.generatedCode.value)
    ensures forall i :: 0 <= i < |r| && r[i].key == "package.json" ==>
              i == |r| - 1 && r[i].content == JsonFile(PackageManifest(ir))
  {
    var lang := ir.implementation.language;
    var app := if Filled(ir.generatedCode)
               then [Artifact("app", AppFileName(lang), TextFile(ir.generatedCode.value))] else [];
    var docker := if Filled(ir.dockerfile)
                  then [Artifact("Dockerfile", "Dockerfile", TextFile(ir.dockerfile.value))] else [];
    var package := if lang == "node"
                   then [Artifact("package.json", "package.json", JsonFile(PackageManifest(ir)))] else [];
    ArtifactKeysDistinct();
    var r := app + docker + package;
    assert Filled(ir.generatedCode) ==> r[0] == app[0];
    assert Filled(ir.dockerfile) ==> r[|app|] == docker[0];
    assert lang == "node" ==> r[|r| - 1] == package[0];
    r
  }

  /** `str(workspace / name)`. */
  function PathIn(workspace: string, fileName: string): string {
    workspace + "/" + fileName
  }

  /** `result.artifacts` after writing `files`: key to path. */
  function ArtifactPaths(workspace: string, files: seq<Artifact>): (r: map<string, string>)
    ensures forall i :: 0 <= i < |files| ==> files[i].key in r
    ensures forall k :: k in r ==> exists i :: 0 <= i < |files| && files[i].key == k && r[k] == PathIn(workspace, files[i].fileName)
  {
    if files == [] then map[]
    else ArtifactPaths(workspace, files[..|files| - 1])[files[|files| - 1].key := PathIn(workspace, files[|files| - 1].fileName)]
  }

  /** The `Written: <name>` log lines. */
  function WrittenLogs(files: seq<Artifact>): (r: seq<string>)
    ensures |r| == |files|
    ensures forall i :: 0 <= i < |files| ==> r[i] == "Written: " + files[i].fileName
  {
    if files == [] then [] else ["Written: " + files[0].fileName] + WrittenLogs(files[1..])
  }

  // ----- the run in progress -----

  /** The `ExecutionResult` fields while the run goes on, the files written
      so far, and the exception raised, if any. */
  datatype Progress = Progress(
    logs: seq<string>,
    artifacts: map<string, string>,
    files: seq<Artifact>,
    containerId: Option<string>,
    endpoints: seq<string>,
    error: Option<string>,
    raised: Option<string>)

  /** Every error message the run sets is a non-empty text. */
  predicate ErrorsFilled(p: Progress) {
    p.error.Some? ==> p.error.value != []
  }

  /** A later state of the same run: the log only grows, and the written
      files and their paths stay as they were. */
  predicate Extends(p: Progress, r: Progress) {
    |p.logs| <= |r.logs| && r.logs[..|p.logs|] == p.logs && r.files == p.files && r.artifacts == p.artifacts
  }

  /** `s[:n]`. */
  function Head(s: string, n: nat): (r: string)
    ensures |r| == if |s| <= n then |s| else n
    ensures r == s[..|r|]
  {
    if |s| <= n then s else s[..n]
  }

  /** `_write_artifacts`: a failing workspace raises at the first write. */
  function WriteArtifacts(p: Progress, ir: IntentIR, w: World): (r: Progress)
    requires p.raised.None?
    ensures |p.logs| <= |r.logs| && r.logs[..|p.logs|] == p.logs
    ensures r.raised.Some? <==> w.writeFault.Some? && PlannedArtifacts(ir) != []
    ensures r.raised.None? ==>
              r == p.(logs := p.logs + WrittenLogs(PlannedArtifacts(ir)),
                      artifacts := ArtifactPaths(w.workspace, PlannedArtifacts(ir)),
                      files := PlannedArtifacts(ir))
    ensures r.raised.Some? ==> r == p.(raised := w.writeFault)
  {
    var files := PlannedArtifacts(ir);
    if files != [] && w.writeFault.Some? then p.(raised := w.writeFault)
    else p.(logs := p.logs + WrittenLogs(files), artifacts := ArtifactPaths(w.workspace, files), files := files)
  }

  function ImageName(prefix: string, name: string): string {
    prefix + "-" + name + ":latest"
  }

  function ContainerName(prefix: string, name: string, id: string): string {
    prefix + "-" + name + "-" + id
  }

  /** The first listed port, or the configured container port. */
  function RequestedPort(env: Environment, cfg: ExecConfig): (r: int)
    ensures env.ports != [] ==> r == env.ports[0]
    ensures env.ports == [] ==> r == cfg.containerPort
  {
    if env.ports != [] then env.ports[0] else cfg.containerPort
  }

  function LocalUrl(port: int): string {
    "http://localhost:" + IntToString(port)
  }

  /** One URL per exposed endpoint, below the base URL. */
  function ExposedUrls(base: string, actions: seq<Action>): (r: seq<string>)
    ensures |r| == |Exposes(actions)|
    ensures forall i :: 0 <= i < |r| ==> r[i] == base + OptText(Exposes(actions)[i].target)
  {
    if actions == [] then []
    else (if actions[0].kind == ApiExpose then [base + OptText(actions[0].target)] else []) + ExposedUrls(base, actions[1..])
  }

  /** The steps of `_execute_docker` after a successful build. */
  function StartContainer(p: Progress, ir: IntentIR, cfg: ExecConfig, w: World, host: int): (r: Progress)
    requires ErrorsFilled(p)
    ensures ErrorsFilled(r) && Extends(p, r)
    ensures r.error.None? && r.raised.None? ==>
              r.endpoints == p.endpoints + [LocalUrl(host)] + ExposedUrls(LocalUrl(host), ir.implementation.actions)
    ensures r.error.None? && r.raised.None? ==> w.remove.Exited? && w.run.Exited? && w.run.returncode == 0
    ensures r.raised.None? && w.run.Exited? && w.run.returncode != 0 ==>
              r.error == Some("Docker run failed: " + w.run.stderr)
    ensures r.error.None? && r.raised.None? && w.run.Exited? ==>
              && r.containerId.Some? && r.containerId.value <= Strip(w.run.stdout)
              && |r.containerId.value| == (if |Strip(w.run.stdout)| < 12 then |Strip(w.run.stdout)| else 12)
    ensures w.remove.Exited? && ExtraPortMappings(ir.environment.ports, cfg.containerPort, w.free).Ok? ==>
              "Starting container: " + ContainerName(cfg.containerPrefix, ir.intent.name, ir.id) in r.logs
  {
    var container := ContainerName(cfg.containerPrefix, ir.intent.name, ir.id);
    if w.remove.Raised? then p.(raised := Some(w.remove.message))
    else
      match ExtraPortMappings(ir.environment.ports, cfg.containerPort, w.free)
      case Err(e) => p.(raised := Some(e))
      case Ok(_) =>
        var logs := p.logs + ["Starting container: " + container];
        match w.run
        case Raised(m) => p.(logs := logs, raised := Some(m))
        case Exited(code, out, err) =>
          if code != 0 then
            p.(logs := logs + ["Run error: " + Head(err, 500)], error := Some("Docker run failed: " + err))
          else
            var id := Head(Strip(out), 12);
            var base := LocalUrl(host);
            p.(logs := logs + ["Container started: " + id], containerId := Some(id),
               endpoints := p.endpoints + [base] + ExposedUrls(base, ir.implementation.actions))
  }

  /** `_execute_docker`. */
  function ExecuteDocker(p: Progress, ir: IntentIR, cfg: ExecConfig, w: World): (r: Progress)
    requires ErrorsFilled(p)
    ensures ErrorsFilled(r) && Extends(p, r)
    ensures var found := FindAvailablePort(RequestedPort(ir.environment, cfg), w.free);
            r.error.None? && r.raised.None? ==>
              && found.Ok?
              && r.endpoints == p.endpoints + [LocalUrl(found.value)]
                                + ExposedUrls(LocalUrl(found.value), ir.implementation.actions)
              && w.build.Exited? && w.build.returncode == 0
    ensures r.raised.None? && FindAvailablePort(RequestedPort(ir.environment, cfg), w.free).Ok?
            && w.build.Exited? && w.build.returncode != 0 ==>
              r.error == Some("Docker build failed: " + w.build.stderr)
    ensures FindAvailablePort(RequestedPort(ir.environment, cfg), w.free).Ok? ==>
              "Building Docker image: " + ImageName(cfg.containerPrefix, ir.intent.name) in r.logs
  {
    var image := ImageName(cfg.containerPrefix, ir.intent.name);
    var requested := RequestedPort(ir.environment, cfg);
    match FindAvailablePort(requested, w.free)
    case Err(e) => p.(raised := Some(e))
    case Ok(host) =>
      var moved := if host != requested
                   then ["Port " + IntToString(requested) + " in use, using " + IntToString(host)] else [];
      var logs := p.logs + moved + ["Building Docker image: " + image];
      match w.build
      case Raised(m) => p.(logs := logs, raised := Some(m))
      case Exited(code, _, err) =>
        if code != 0 then
          p.(logs := logs + ["Build error: " + Head(err, 500)], error := Some("Docker build failed: " + err))
        else
          StartContainer(p.(logs := logs + ["Docker image built successfully"]), ir, cfg, w, host)
  }

  /** `_execute_local`: the artifact and language checks, then the port. */
  function ExecuteLocal(p: Progress, ir: IntentIR, cfg: ExecConfig, w: World): (r: Progress)
    requires ErrorsFilled(p)
    ensures ErrorsFilled(r) && Extends(p, r)
    ensures "app" !in p.artifacts || p.artifacts["app"] == [] ==>
              r == p.(error := Some("No application file generated"))
    ensures "app" in p.artifacts && p.artifacts["app"] != [] && ir.implementation.language !in ["python", "node"] ==>
              r.error == Some("Unsupported language for local execution: " + ir.implementation.language)
    ensures r.error.None? && r.raised.None? ==>
              && "app" in p.artifacts && ir.implementation.language in ["python", "node"]
              && FindAvailablePort(cfg.containerPort, w.free).Ok?
              && r.endpoints == p.endpoints + [LocalUrl(FindAvailablePort(cfg.containerPort, w.free).value)]
  {
    if "app" !in p.artifacts || p.artifacts["app"] == [] then p.(error := Some("No application file generated"))
    else
      var app := p.artifacts["app"];
      var lang := ir.implementation.language;
      var logs := p.logs + ["Starting local execution: " + app];
      if lang != "python" && lang != "node" then
        p.(logs := logs, error := Some("Unsupported language for local execution: " + lang))
      else
        var command := lang + " " + app;
        var logs2 := logs + ["Command: " + command, "Application would start here (non-blocking in production)"];
        match FindAvailablePort(cfg.containerPort, w.free)
        case Err(e) => p.(logs := logs2, raised := Some(e))
        case Ok(port) => p.(logs := logs2, endpoints := p.endpoints + [LocalUrl(port)])
  }

  /** The runtime dispatch inside `execute`'s `try`. */
  function Dispatch(p: Progress, ir: IntentIR, cfg: ExecConfig, w: World): (r: Progress)
    requires ErrorsFilled(p)
    ensures ErrorsFilled(r) && Extends(p, r)
    ensures ir.environment.runtime == Kubernetes ==>
              r == p.(logs := p.logs + ["Runtime kubernetes not yet supported"],
                      error := Some("Unsupported runtime: kubernetes"))
    ensures ir.environment.runtime == Docker ==> r == ExecuteDocker(p, ir, cfg, w)
    ensures ir.environment.runtime == Local ==> r == ExecuteLocal(p, ir, cfg, w)
  {
    match ir.environment.runtime
    case Docker => ExecuteDocker(p, ir, cfg, w)
    case Local => ExecuteLocal(p, ir, cfg, w)
    case Kubernetes =>
      p.(logs := p.logs + ["Runtime kubernetes not yet supported"], error := Some("Unsupported runtime: kubernetes"))
  }

  // ----- execute -----

  datatype ExecutionResult = ExecutionResult(
    success: bool,
    logs: seq<string>,
    artifacts: map<string, string>,
    containerId: Option<string>,
    endpoints: seq<string>,
    error: Option<string>)

  /** The IR after the run (the bypass may approve it), the result, and the
      files written into the workspace. */
  datatype Executed = Executed(ir: IntentIR, result: ExecutionResult, files: seq<Artifact>)

  const NotApproved: string := "Intent not approved. Call approve_amen() first."
  const StillDryRun: string := "Intent is in dry-run mode. Change to transactional mode."

  /** A run the AMEN gate stopped: one log line, the error, nothing else. */
  function Blocked(error: string, log: string): ExecutionResult {
    ExecutionResult(false, [log], map[], None, [], Some(error))
  }

  /** Whether the AMEN check is skipped: the explicit argument when given,
      else the configuration. */
  function SkipCheck(skipAmenCheck: Option<bool>, cfg: ExecConfig): bool {
    skipAmenCheck.GetOr(cfg.skipAmenConfirmation)
  }

  lemma PrefixOfPrefix(a: seq<string>, b: seq<string>, c: seq<string>)
    requires |a| <= |b| && b[..|a|] == a
    requires |b| <= |c| && c[..|b|] == b
    ensures |a| <= |c| && c[..|a|] == a
  {
    assert c[..|a|] == c[..|b|][..|a|];
  }

  /** The endpoints a successful run reports: for docker the base URL of the
      host port and one URL per exposed endpoint below it; for a local run
      the base URL of the configured port; none otherwise. */
  function SuccessEndpoints(env: Environment, actions: seq<Action>, cfg: ExecConfig, w: World): seq<string> {
    match env.runtime
    case Docker =>
      var found := FindAvailablePort(RequestedPort(env, cfg), w.free);
      if found.Ok? then [LocalUrl(found.value)] + ExposedUrls(LocalUrl(found.value), actions) else []
    case Local =>
      var found := FindAvailablePort(cfg.containerPort, w.free);
      if found.Ok? then [LocalUrl(found.value)] else []
    case Kubernetes => []
  }

  /** The end of `execute`: an exception becomes the error and an
      `ERROR:` log line; otherwise the run succeeds when no error was set. */
  function Finish(ir: IntentIR, p: Progress): (r: Executed)
    requires ErrorsFilled(p)
    ensures r.ir == ir && r.files == p.files && r.result.artifacts == p.artifacts
    ensures r.result.success <==> p.raised.None? && p.error.None?
    ensures r.result.success <==> r.result.error.None?
    ensures |p.logs| <= |r.result.logs| && r.result.logs[..|p.logs|] == p.logs
    ensures r.result.success ==>
              |r.result.logs| > 0 && r.result.logs[|r.result.logs| - 1] == "Execution completed successfully"
    ensures p.raised.Some? ==> r.result.error == p.raised && r.result.logs == p.logs + ["ERROR: " + p.raised.value]
    ensures p.raised.None? ==> r.result.error == p.error
  {
    if p.raised.Some? then
      var e := p.raised.value;
      Executed(ir, ExecutionResult(false, p.logs + ["ERROR: " + e], p.artifacts, p.containerId, p.endpoints, Some(e)), p.files)
    else if p.error.None? || p.error.value == [] then
      Executed(ir, ExecutionResult(true, p.logs + ["Execution completed successfully"], p.artifacts, p.containerId, p.endpoints, None), p.files)
    else
      Executed(ir, ExecutionResult(false, p.logs, p.artifacts, p.containerId, p.endpoints, p.error), p.files)
  }

  /** The `try` block and its `except`, from the state after the gate. */
  function RunApproved(ir: IntentIR, cfg: ExecConfig, w: World, logs: seq<string>): (r: Executed)
    ensures r.ir == ir
    ensures r.result.success <==> r.result.error.None?
    ensures |logs| <= |r.result.logs| && r.result.logs[..|logs|] == logs
    ensures r.result.success ==>
              |r.result.logs| > 0 && r.result.logs[|r.result.logs| - 1] == "Execution completed successfully"
    ensures r.result.success ==> r.result.endpoints == SuccessEndpoints(ir.environment, ir.implementation.actions, cfg, w)
  {
    var written := WriteArtifacts(Start(logs), ir, w);
    var p := AfterWrite(written, ir, cfg, w);
    PrefixOfPrefix(logs, written.logs, p.logs);
    var r := Finish(ir, p);
    PrefixOfPrefix(logs, p.logs, r.result.logs);
    if written.raised.None? && p.raised.None? && p.error.None? then
      DispatchEndpoints(written, ir, cfg, w);
      r
    else
      r
  }

  /** The progress before anything is written: only the opening log lines. */
  function Start(logs: seq<string>): Progress {
    Progress(logs, map[], [], None, [], None, None)
  }

  /** The dispatch, unless writing the artifacts already raised. */
  function AfterWrite(written: Progress, ir: IntentIR, cfg: ExecConfig, w: World): (r: Progress)
    requires ErrorsFilled(written)
    ensures ErrorsFilled(r) && Extends(written, r)
    ensures written.raised.Some? ==> r == written
  {
    if written.raised.Some? then written else Dispatch(written, ir, cfg, w)
  }

  /** A dispatch that ends with neither error nor exception reports the
      endpoints of a successful run. */
  lemma DispatchEndpoints(p: Progress, ir: IntentIR, cfg: ExecConfig, w: World)
    requires ErrorsFilled(p) && p.endpoints == []
    requires var r := Dispatch(p, ir, cfg, w); r.raised.None? && r.error.None?
    ensures Dispatch(p, ir, cfg, w).endpoints == SuccessEndpoints(ir.environment, ir.implementation.actions, cfg, w)
  {
    match ir.environment.runtime
    case Docker => DockerEndpoints(p, ir, cfg, w);
    case Local => LocalEndpoints(p, ir, cfg, w);
    case Kubernetes =>
  }

  lemma DockerEndpoints(p: Progress, ir: IntentIR, cfg: ExecConfig, w: World)
    requires ErrorsFilled(p) && p.endpoints == []
    requires var r := ExecuteDocker(p, ir, cfg, w); r.raised.None? && r.error.None?
    ensures ExecuteDocker(p, ir, cfg, w).endpoints
            == SuccessEndpoints(ir.environment.(runtime := Docker), ir.implementation.actions, cfg, w)
  {
    var found := FindAvailablePort(RequestedPort(ir.environment, cfg), w.free);
    assert found.Ok?;
    DockerSuccessEndpoints(ir.environment, ir.implementation.actions, cfg, w);
    assert p.endpoints + [LocalUrl(found.value)] == [LocalUrl(found.value)];
  }

  lemma DockerSuccessEndpoints(env: Environment, actions: seq<Action>, cfg: ExecConfig, w: World)
    requires FindAvailablePort(RequestedPort(env, cfg), w.free).Ok?
    ensures var url := LocalUrl(FindAvailablePort(RequestedPort(env, cfg), w.free).value);
            SuccessEndpoints(env.(runtime := Docker), actions, cfg, w) == [url] + ExposedUrls(url, actions)
  {
    var docker := env.(runtime := Docker);
    assert RequestedPort(docker, cfg) == RequestedPort(env, cfg);
  }

  lemma LocalEndpoints(p: Progress, ir: IntentIR, cfg: ExecConfig, w: World)
    requires ErrorsFilled(p) && p.endpoints == []
    requires var r := ExecuteLocal(p, ir, cfg, w); r.raised.None? && r.error.None?
    ensures ExecuteLocal(p, ir, cfg, w).endpoints
            == SuccessEndpoints(ir.environment.(runtime := Local), ir.implementation.actions, cfg, w)
  {
    var found := FindAvailablePort(cfg.containerPort, w.free);
    assert found.Ok?;
  }

  /** What the artifact writing decides: a failing workspace ends the run
      with the write error and nothing written; otherwise every planned
      file is written, and a kubernetes target fails as unsupported. */
  lemma RunApprovedOutcomes(ir: IntentIR, cfg: ExecConfig, w: World, logs: seq<string>)
    ensures var r := RunApproved(ir, cfg, w, logs);
            && (w.writeFault.Some? && PlannedArtifacts(ir) != [] ==>
                  r.files == [] && r.result.error == w.writeFault
                  && r.result.logs == logs + ["ERROR: " + w.writeFault.value])
            && (w.writeFault.None? || PlannedArtifacts(ir) == [] ==>
                  r.files == PlannedArtifacts(ir)
                  && r.result.artifacts == ArtifactPaths(w.workspace, PlannedArtifacts(ir)))
            && ((w.writeFault.None? || PlannedArtifacts(ir) == []) && ir.environment.runtime == Kubernetes ==>
                  r.result.error == Some("Unsupported runtime: kubernetes"))
  {
    var written := WriteArtifacts(Start(logs), ir, w);
    var p := AfterWrite(written, ir, cfg, w);
    assert RunApproved(ir, cfg, w, logs) == Finish(ir, p);
  }

  /** `execute(ir, skip_amen_check)` at clock reading `now`. */
  function Execute(ir: IntentIR, skipAmenCheck: Option<bool>, cfg: ExecConfig, w: World, now: string): (r: Executed)
    ensures r.result.success <==> r.result.error.None?
    ensures !SkipCheck(skipAmenCheck, cfg) && !ir.amenApproved ==>
              r == Executed(ir, Blocked(NotApproved, "ERROR: Execution blocked - AMEN boundary not passed"), [])
    ensures !SkipCheck(skipAmenCheck, cfg) && ir.amenApproved && ir.executionMode != Transactional ==>
              r == Executed(ir, Blocked(StillDryRun, "ERROR: Execution blocked - still in dry-run mode"), [])
    ensures SkipCheck(skipAmenCheck, cfg) && !ir.amenApproved ==>
              r.ir == ApproveAmen(ir, now)
              && |r.result.logs| > 0 && r.result.logs[0] == "Auto-approved intent (SKIP_AMEN_CONFIRMATION=true)"
    ensures ir.amenApproved ==> r.ir == ir
    ensures r.files != [] || r.result.success ==> r.ir.amenApproved
    ensures r.result.success && !SkipCheck(skipAmenCheck, cfg) ==> r.ir.executionMode == Transactional
    ensures r.result.success ==> r.result.endpoints == SuccessEndpoints(ir.environment, ir.implementation.actions, cfg, w)
  {
    var skip := SkipCheck(skipAmenCheck, cfg);
    if !skip && !ir.amenApproved then
      Executed(ir, Blocked(NotApproved, "ERROR: Execution blocked - AMEN boundary not passed"), [])
    else if !skip && ir.executionMode != Transactional then
      Executed(ir, Blocked(StillDryRun, "ERROR: Execution blocked - still in dry-run mode"), [])
    else
      var promote := skip && !ir.amenApproved;
      var approved := if promote then ApproveAmen(ir, now) else ir;
      var opening := (if promote then ["Auto-approved intent (SKIP_AMEN_CONFIRMATION=true)"] else [])
                     + ["Starting execution for: " + ir.intent.name, "Workspace: " + w.workspace];
      var r := RunApproved(approved, cfg, w, opening);
      assert approved.environment == ir.environment && approved.implementation == ir.implementation;
      assert approved.amenApproved;
      assert promote ==> r.result.logs[0] == r.result.logs[..|opening|][0] == opening[0];
      r
  }
}
