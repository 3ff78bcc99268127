/**
  The dry-run planner (planner/simulator.py): code generation per language
  and framework, the Dockerfile, the per-action simulation log, the
  resource estimate, and `dry_run`, which writes its logs and artifacts
  back onto the IR.

  Log lines are the messages `add_log` receives; the `[HH:MM:SS] ` prefix
  it puts in front of each one reads the clock and is left out.
 */
module Planner {
  import opened Wrappers
  import opened Text
  import opened Models
  import opened Seqs

  // ----- endpoints -----

  predicate IsUnderscore(c: char) {
    c == '_'
  }

  predicate NotSlash(c: char) {
    c != '/'
  }

  /** The handler name of an endpoint: slashes become underscores, the
      underscores at either end are dropped, and nothing left means `root`. */
  function HandlerName(endpoint: string): (r: string)
    ensures r != []
    ensures forall i :: 0 <= i < |r| ==> r[i] != '/'
    ensures r[0] != '_' && r[|r| - 1] != '_'
  {
    var replaced := ReplaceChar(endpoint, '/', '_');
    var h := StripBy(replaced, IsUnderscore);
    StripByKeeps(replaced, IsUnderscore, NotSlash);
    if h == [] then "root" else h
  }

  /** The actions that expose an endpoint, in plan order. */
  function Exposes(actions: seq<Action>): (r: seq<Action>)
    ensures |r| <= |actions|
    ensures forall i :: 0 <= i < |r| ==> r[i].kind == ApiExpose
  {
    if actions == [] then []
    else (if actions[0].kind == ApiExpose then [actions[0]] else []) + Exposes(actions[1..])
  }

  /** The concatenation of one block of lines per item. */
  function Blocks(items: seq<Action>, block: Action -> seq<string>): seq<string> {
    if items == [] then [] else block(items[0]) + Blocks(items[1..], block)
  }

  // ----- Python -----

  function FastApiHeader(name: string, goal: string): seq<string> {
    ["from fastapi import FastAPI, HTTPException",
     "from pydantic import BaseModel",
     "from typing import Optional, List",
     "import uvicorn",
     "",
     "app = FastAPI(title=\"" + name + "\", description=\"" + goal + "\")",
     ""]
  }

  /** `@app.<method>("<endpoint>")`, the method lower-cased. */
  function FastApiDecorator(a: Action): string {
    "@app." + Lower(OrDefault(a.httpMethod, "GET")) + "(\"" + OrDefault(a.target, "/") + "\")"
  }

  /** `async def <handler>():`, the handler named after the endpoint. */
  function FastApiHandler(a: Action): string {
    "async def " + HandlerName(OrDefault(a.target, "/")) + "():"
  }

  /** The docstring and the response of a FastAPI endpoint; the response
      reports the method upper-cased again. */
  function FastApiBody(a: Action): seq<string> {
    var verb := Lower(OrDefault(a.httpMethod, "GET"));
    var endpoint := OrDefault(a.target, "/");
    ["    \"\"\"Auto-generated endpoint for " + endpoint + "\"\"\"",
     "    return {\"status\": \"ok\", \"endpoint\": \"" + endpoint + "\", \"method\": \"" + Upper(verb) + "\"}"]
  }

  /** The five lines of one FastAPI endpoint. */
  function FastApiRoute(a: Action): seq<string> {
    [FastApiDecorator(a), FastApiHandler(a)] + FastApiBody(a) + [""]
  }

  const FastApiFooter: seq<string> := [
    "",
    "if __name__ == \"__main__\":",
    "    uvicorn.run(app, host=\"0.0.0.0\", port=8000)"
  ]

  function FastApiLines(ir: IntentIR): seq<string> {
    FastApiHeader(ir.intent.name, ir.intent.goal)
    + Blocks(Exposes(ir.implementation.actions), FastApiRoute)
    + FastApiFooter
  }

  const FlaskHeader: seq<string> := [
    "from flask import Flask, jsonify, request",
    "",
    "app = Flask(__name__)",
    ""
  ]

  /** The four lines of one Flask route; the method keeps its case. */
  function FlaskRoute(a: Action): seq<string> {
    var verb := OrDefault(a.httpMethod, "GET");
    var endpoint := OrDefault(a.target, "/");
    ["@app.route(\"" + endpoint + "\", methods=[\"" + verb + "\"])",
     "def " + HandlerName(endpoint) + "():",
     "    return jsonify({\"status\": \"ok\", \"endpoint\": \"" + endpoint + "\"})",
     ""]
  }

  const FlaskFooter: seq<string> := [
    "if __name__ == \"__main__\":",
    "    app.run(host=\"0.0.0.0\", port=8000)"
  ]

  function FlaskLines(ir: IntentIR): seq<string> {
    FlaskHeader + Blocks(Exposes(ir.implementation.actions), FlaskRoute) + FlaskFooter
  }

  function BasicPythonScript(name: string, goal: string): string {
    "#!/usr/bin/env python3\n\"\"\"\nAuto-generated script for: " + name + "\nGoal: " + goal
    + "\n\"\"\"\n\ndef main():\n    print(\"Intent: " + name + "\")\n    print(\"Goal: " + goal
    + "\")\n    # TODO: Implement actions\n    \nif __name__ == \"__main__\":\n    main()\n"
  }

  /** `_generate_python_code`: FastAPI, Flask, or a plain script. */
  function PythonCode(ir: IntentIR): string {
    var framework := ir.implementation.framework;
    if framework == Some("fastapi") then Join(FastApiLines(ir), "\n")
    else if framework == Some("flask") then Join(FlaskLines(ir), "\n")
    else BasicPythonScript(ir.intent.name, ir.intent.goal)
  }

  // ----- Node -----

  const ExpressHeader: seq<string> := [
    "const express = require('express');",
    "const app = express();",
    "",
    "app.use(express.json());",
    ""
  ]

  /** The four lines of one Express route. */
  function ExpressRoute(a: Action): seq<string> {
    var verb := Lower(OrDefault(a.httpMethod, "GET"));
    var endpoint := OrDefault(a.target, "/");
    ["app." + verb + "('" + endpoint + "', (req, res) => {",
     "    res.json({ status: 'ok', endpoint: '" + endpoint + "', method: '" + Upper(verb) + "' });",
     "});",
     ""]
  }

  function ExpressFooter(name: string): seq<string> {
    ["const PORT = process.env.PORT || 8000;",
     "app.listen(PORT, () => {",
     "    console.log(`" + name + " running on port ${PORT}`);",
     "});"]
  }

  function ExpressLines(ir: IntentIR): seq<string> {
    ExpressHeader + Blocks(Exposes(ir.implementation.actions), ExpressRoute) + ExpressFooter(ir.intent.name)
  }

  function BasicNodeScript(name: string, goal: string): string {
    "// Auto-generated script for: " + name + "\n// Goal: " + goal + "\n\nconsole.log(\"Intent: " + name
    + "\");\nconsole.log(\"Goal: " + goal + "\");\n// TODO: Implement actions\n"
  }

  /** `_generate_node_code`: Express or a plain script. */
  function NodeCode(ir: IntentIR): string {
    if ir.implementation.framework == Some("express") then Join(ExpressLines(ir), "\n")
    else BasicNodeScript(ir.intent.name, ir.intent.goal)
  }

  /** The `code_generators` table: the code for the IR's language, if the
      planner has a generator for it. */
  function GenerateCode(ir: IntentIR): (r: Option<string>)
    ensures r.Some? <==> ir.implementation.language in ["python", "node"]
  {
    if ir.implementation.language == "python" then Some(PythonCode(ir))
    else if ir.implementation.language == "node" then Some(NodeCode(ir))
    else None
  }

  /** Which generator the `code_generators` table picks: FastAPI, Flask or
      the basic script for Python, Express or the basic script for Node. */
  lemma GenerateCodeDispatch(ir: IntentIR)
    ensures var lang := ir.implementation.language;
            var framework := ir.implementation.framework;
            && (lang == "python" && framework == Some("fastapi") ==> GenerateCode(ir) == Some(Join(FastApiLines(ir), "\n")))
            && (lang == "python" && framework == Some("flask") ==> GenerateCode(ir) == Some(Join(FlaskLines(ir), "\n")))
            && (lang == "python" && framework != Some("fastapi") && framework != Some("flask") ==>
                  GenerateCode(ir) == Some(BasicPythonScript(ir.intent.name, ir.intent.goal)))
            && (lang == "node" && framework == Some("express") ==> GenerateCode(ir) == Some(Join(ExpressLines(ir), "\n")))
            && (lang == "node" && framework != Some("express") ==>
                  GenerateCode(ir) == Some(BasicNodeScript(ir.intent.name, ir.intent.goal)))
  {
    var lang := ir.implementation.language;
    var framework := ir.implementation.framework;
    if lang == "python" {
      assert GenerateCode(ir) == Some(PythonCode(ir));
      if framework == Some("fastapi") {
        assert PythonCode(ir) == Join(FastApiLines(ir), "\n");
      } else if framework == Some("flask") {
        assert PythonCode(ir) == Join(FlaskLines(ir), "\n");
      } else {
        assert PythonCode(ir) == BasicPythonScript(ir.intent.name, ir.intent.goal);
      }
    } else if lang == "node" {
      assert GenerateCode(ir) == Some(NodeCode(ir));
    }
  }

  // ----- Dockerfile -----

  function DockerHeader(ir: IntentIR): seq<string> {
    ["# Auto-generated Dockerfile for: " + ir.intent.name,
     "FROM " + ir.environment.baseImage,
     "",
     "WORKDIR /app",
     ""]
  }

  /** The packages `pip install` gets: uvicorn for FastAPI, then the
      framework itself when it is set. */
  function PipDependencies(framework: Option<string>): (r: seq<string>)
    ensures r == [] <==> framework.None? || framework.value == []
    ensures |r| == 2 <==> framework == Some("fastapi")
    ensures r != [] ==> r[|r| - 1] == framework.value
    ensures framework == Some("fastapi") ==> r == ["uvicorn", "fastapi"]
    ensures framework.Some? && framework.value != [] && framework != Some("fastapi") ==> r == [framework.value]
    ensures "uvicorn" in r <==> framework == Some("fastapi") || framework == Some("uvicorn")
  {
    (if framework == Some("fastapi") then ["uvicorn"] else [])
    + (if framework.Some? && framework.value != [] then [framework.value] else [])
  }

  /** The language-specific part of the Dockerfile. */
  function LanguageSteps(ir: IntentIR): seq<string> {
    var lang := ir.implementation.language;
    if lang == "python" then
      var deps := PipDependencies(ir.implementation.framework);
      (if deps != [] then ["RUN pip install --no-cache-dir " + Join(deps, " "), ""] else [])
      + ["COPY app.py .", "", "EXPOSE 8000", "", "CMD [\"python\", \"app.py\"]"]
    else if lang == "node" then
      ["COPY package*.json ./", "RUN npm install", "", "COPY . .", "", "EXPOSE 8000", "", "CMD [\"node\", \"app.js\"]"]
    else []
  }

  /** The port the generated applications listen on. */
  const AppPort: int := 8000

  /** `lines.insert(-2, line)`: before the last two lines, or at the front of
      a list shorter than two. */
  function InsertBeforeLastTwo(lines: seq<string>, line: string): (r: seq<string>)
    ensures |r| == |lines| + 1
  {
    var k := if |lines| >= 2 then |lines| - 2 else 0;
    lines[..k] + [line] + lines[k..]
  }

  /** The `for port in ports` loop of `_generate_dockerfile`. */
  function InsertPorts(lines: seq<string>, ports: seq<int>): seq<string>
    decreases |ports|
  {
    if ports == [] then lines
    else
      var next := if ports[0] != AppPort then InsertBeforeLastTwo(lines, "EXPOSE " + IntToString(ports[0])) else lines;
      InsertPorts(next, ports[1..])
  }

  /** The EXPOSE lines for the ports other than the application port, in
      port order. */
  function ExtraExposes(ports: seq<int>): (r: seq<string>)
    ensures |r| <= |ports|
  {
    if ports == [] then []
    else (if ports[0] != AppPort then ["EXPOSE " + IntToString(ports[0])] else []) + ExtraExposes(ports[1..])
  }

  function DockerfileLines(ir: IntentIR): (r: seq<string>)
    ensures |r| >= 5
    ensures r[1] == "FROM " + ir.environment.baseImage
  {
    var base := DockerHeader(ir) + LanguageSteps(ir);
    InsertPortsClosedForm(base, ir.environment.ports);
    InsertPorts(base, ir.environment.ports)
  }

  function Dockerfile(ir: IntentIR): string {
    Join(DockerfileLines(ir), "\n")
  }

  /** Inserting every extra port before the last two lines puts them all
      there in port order: the loop keeps the tail of the file in place. */
  lemma {:induction false} InsertPortsClosedForm(lines: seq<string>, ports: seq<int>)
    requires |lines| >= 2
    decreases |ports|
    ensures InsertPorts(lines, ports)
            == lines[..|lines| - 2] + ExtraExposes(ports) + lines[|lines| - 2..]
  {
    if ports != [] {
      var n := |lines|;
      var extra := if ports[0] != AppPort then ["EXPOSE " + IntToString(ports[0])] else [];
      var next := lines[..n - 2] + extra + lines[n - 2..];
      InsertStep(lines, ports);
      InsertPortsClosedForm(next, ports[1..]);
      SplitAroundExtra(lines[..n - 2], extra, lines[n - 2..]);
      assert ExtraExposes(ports) == extra + ExtraExposes(ports[1..]);
      Regroup(lines[..n - 2], extra, ExtraExposes(ports[1..]), lines[n - 2..]);
    }
  }

  /** One turn of the port loop, written as an insertion before the tail. */
  lemma InsertStep(lines: seq<string>, ports: seq<int>)
    requires |lines| >= 2 && ports != []
    ensures var n := |lines|;
            var extra := if ports[0] != AppPort then ["EXPOSE " + IntToString(ports[0])] else [];
            InsertPorts(lines, ports) == InsertPorts(lines[..n - 2] + extra + lines[n - 2..], ports[1..])
  {
    var n := |lines|;
    if ports[0] == AppPort {
      assert lines[..n - 2] + [] + lines[n - 2..] == lines;
    }
  }

  /** The head and the two-line tail of a text with lines inserted before its tail. */
  lemma SplitAroundExtra(head: seq<string>, extra: seq<string>, tail: seq<string>)
    requires |tail| == 2
    ensures var next := head + extra + tail;
            next[..|next| - 2] == head + extra && next[|next| - 2..] == tail
  {
  }

  // ----- simulation -----

  /** `action_str`: the type token, then the method and target when set. */
  function ActionText(a: Action): string {
    ActionToken(a.kind)
    + (if a.httpMethod.Some? && a.httpMethod.value != [] then " " + a.httpMethod.value else "")
    + (if a.target.Some? && a.target.value != [] then " " + a.target.value else "")
  }

  /** The second log line of `_simulate_action`, by action type. */
  function OutcomeLine(a: Action): string {
    match a.kind
    case ApiExpose => "    \U{2713} Would expose endpoint: " + OptText(a.httpMethod) + " " + OptText(a.target)
    case DbCreate => "    \U{2713} Would create table: " + OptText(a.target)
    case DbAddColumn => "    \U{2713} Would add column to: " + OptText(a.target)
    case ShellExec => "    \U{26A0} Would execute shell command: " + OptText(a.target)
    case RestCall => "    \U{2713} Would call: " + OptText(a.httpMethod) + " " + OptText(a.target)
    case FileCreate => "    \U{2713} Would create file: " + OptText(a.target)
  }

  /** The log lines and warnings of simulating the actions in order. */
  function SimulateActions(actions: seq<Action>): (r: (seq<string>, seq<string>))
    ensures |r.0| == 2 * |actions|
    ensures |r.1| <= |actions|
  {
    if actions == [] then ([], [])
    else
      var a := actions[0];
      var (logs, warnings) := SimulateActions(actions[1..]);
      var mine := if a.kind == ShellExec then ["Shell execution planned: " + OptText(a.target)] else [];
      (["  \U{2192} Simulating: " + ActionText(a), OutcomeLine(a)] + logs, mine + warnings)
  }

  /** The shell commands of a plan, in order. */
  function ShellCommands(actions: seq<Action>): seq<Action> {
    if actions == [] then []
    else (if actions[0].kind == ShellExec then [actions[0]] else []) + ShellCommands(actions[1..])
  }

  // ----- resources -----

  datatype Resources = Resources(memory: string, cpu: string, buildTime: string, startupTime: string)

  /** `_estimate_resources`. */
  function EstimateResources(impl: Implementation): (r: Resources)
    ensures r.memory in ["128MB", "256MB", "512MB"]
    ensures r.memory == "512MB" <==> impl.framework in [Some("fastapi"), Some("django")]
    ensures r.memory == "128MB" <==> impl.language == "node" && impl.framework !in [Some("fastapi"), Some("django")]
    ensures r.cpu == "0.5" && r.buildTime == "30s" && r.startupTime == "5s"
  {
    var byLanguage := if impl.language == "node" then "128MB" else "256MB";
    var memory := if impl.framework in [Some("fastapi"), Some("django")] then "512MB" else byLanguage;
    Resources(memory, "0.5", "30s", "5s")
  }

  // ----- dry run -----

  datatype DryRunResult = DryRunResult(
    success: bool,
    logs: seq<string>,
    generatedCode: string,
    dockerfile: string,
    warnings: seq<string>,
    resources: Resources)

  datatype Planned = Planned(ir: IntentIR, result: DryRunResult)

  /** The log lines of the code generation step. */
  function CodeLogs(ir: IntentIR): seq<string> {
    match GenerateCode(ir)
    case Some(code) => ["Generating " + ir.implementation.language + " code...",
                        "Generated " + IntToString(|code|) + " bytes of code"]
    case None => []
  }

  function DockerLogs(ir: IntentIR): seq<string> {
    if ir.environment.runtime == Docker then ["Generating Dockerfile...", "Dockerfile generated"] else []
  }

  /** The warnings of a dry run: the missing generator, then the
      simulation's. */
  function PlanWarnings(ir: IntentIR): seq<string> {
    (if GenerateCode(ir).None? then ["No code generator for language: " + ir.implementation.language] else [])
    + SimulateActions(ir.implementation.actions).1
  }

  /** The log of a dry run: the opening lines, the code and Dockerfile
      steps, two lines per simulated action, and the closing lines. */
  function DryRunLogs(ir: IntentIR): (r: seq<string>)
    ensures |r| == 6 + |CodeLogs(ir)| + |DockerLogs(ir)| + 2 * |ir.implementation.actions|
    ensures r[0] == "Starting dry-run for intent: " + ir.intent.name
    ensures r[|r| - 1] == "Dry-run completed successfully"
  {
    var resources := EstimateResources(ir.implementation);
    var opening := ["Starting dry-run for intent: " + ir.intent.name, "Goal: " + ir.intent.goal];
    var middle := CodeLogs(ir) + DockerLogs(ir) + ["Simulating actions..."] + SimulateActions(ir.implementation.actions).0;
    var closing := ["Estimated memory: " + resources.memory, "Estimated CPU: " + resources.cpu,
                    "Dry-run completed successfully"];
    Ends(opening, middle, closing);
    opening + middle + closing
  }

  /** `dry_run(ir)`: the result, and the IR with the logs, the code and the
      Dockerfile written onto it. */
  function DryRun(ir: IntentIR): (r: Planned)
    ensures r.result.success
    ensures r.ir == ir.(dryRunLogs := r.result.logs, generatedCode := Some(r.result.generatedCode),
                        dockerfile := Some(r.result.dockerfile))
    ensures r.result.generatedCode == GenerateCode(ir).GetOr("")
    ensures r.result.dockerfile == (if ir.environment.runtime == Docker then Dockerfile(ir) else "")
    ensures |r.result.logs| == 6 + |CodeLogs(ir)| + |DockerLogs(ir)| + 2 * |ir.implementation.actions|
    ensures r.result.logs[0] == "Starting dry-run for intent: " + ir.intent.name
    ensures r.result.logs[|r.result.logs| - 1] == "Dry-run completed successfully"
    ensures r.result.warnings == PlanWarnings(ir)
    ensures r.result.resources == EstimateResources(ir.implementation)
  {
    var dockerfile := if ir.environment.runtime == Docker then Dockerfile(ir) else "";
    var logs := DryRunLogs(ir);
    var result := DryRunResult(true, logs, GenerateCode(ir).GetOr(""), dockerfile, PlanWarnings(ir),
                               EstimateResources(ir.implementation));
    Planned(ir.(dryRunLogs := logs, generatedCode := Some(result.generatedCode), dockerfile := Some(dockerfile)), result)
  }

  // ----- lemmas -----

  /** A dry run leaves the iteration record and the approval state alone. */
  lemma DryRunPreserves(ir: IntentIR)
    ensures var r := DryRun(ir).ir;
            && (IterationConsistent(ir) ==> IterationConsistent(r))
            && (HistoryNumbered(ir) ==> HistoryNumbered(r))
            && (ApprovalCommitted(ir) ==> ApprovalCommitted(r))
  {
  }

  /** On a path whose segments are already clean, the handler name is the
      path without its leading slash and with `_` for every inner `/`. */
  lemma HandlerNameOfPath(w: string)
    requires w != [] && w[0] != '/' && w[0] != '_'
    requires w[|w| - 1] != '/' && w[|w| - 1] != '_'
    ensures HandlerName("/" + w) == ReplaceChar(w, '/', '_')
  {
    var replaced := ReplaceChar("/" + w, '/', '_');
    var inner := ReplaceChar(w, '/', '_');
    assert replaced == "_" + inner;
    assert DropWhile(replaced, IsUnderscore) == inner;
    assert DropWhileEnd(inner, IsUnderscore) == inner;
  }

  /** The characters `strip("_")` removes once `/` has become `_`. */
  predicate Separator(c: char) {
    c == '/' || c == '_'
  }

  /** `e[lo..hi]` is `e` without its leading and trailing separators, and
      is not empty. */
  predicate Trimmed(e: string, lo: nat, hi: nat) {
    && lo < hi <= |e|
    && (forall j :: 0 <= j < lo ==> Separator(e[j]))
    && (forall j :: hi <= j < |e| ==> Separator(e[j]))
    && !Separator(e[lo]) && !Separator(e[hi - 1])
  }

  /** For every endpoint: the handler is `root` exactly when the endpoint
      consists of separators only; otherwise it is the endpoint without its
      leading and trailing separators, with each `/` (and nothing else)
      turned into `_`. */
  lemma HandlerNameShape(e: string)
    ensures (forall j :: 0 <= j < |e| ==> Separator(e[j])) ==> HandlerName(e) == "root"
    ensures (exists j :: 0 <= j < |e| && !Separator(e[j])) ==>
              exists lo: nat, hi: nat :: Trimmed(e, lo, hi) && HandlerName(e) == ReplaceChar(e[lo..hi], '/', '_')
  {
    var replaced := ReplaceChar(e, '/', '_');
    var lo, hi := UnderscoreBounds(replaced);
    var h := StripBy(replaced, IsUnderscore);
    assert HandlerName(e) == if h == [] then "root" else h;
    assert h == replaced[lo..hi];
    forall j | 0 <= j < |e|
      ensures replaced[j] == '_' <==> Separator(e[j])
    {
    }
    if lo < hi {
      assert Trimmed(e, lo, hi);
      ReplaceSlice(e, lo, hi);
    }
  }

  lemma ReplaceSlice(e: string, lo: nat, hi: nat)
    requires lo <= hi <= |e|
    ensures ReplaceChar(e[lo..hi], '/', '_') == ReplaceChar(e, '/', '_')[lo..hi]
  {
  }

  /** Where `strip("_")` cuts a string. */
  lemma UnderscoreBounds(x: string) returns (lo: nat, hi: nat)
    ensures lo <= hi <= |x| && StripBy(x, IsUnderscore) == x[lo..hi]
    ensures forall j :: 0 <= j < lo ==> x[j] == '_'
    ensures forall j :: hi <= j < |x| ==> x[j] == '_'
    ensures lo < hi ==> x[lo] != '_' && x[hi - 1] != '_'
    ensures lo == hi ==> forall j :: 0 <= j < |x| ==> x[j] == '_'
  {
    var d := DropWhile(x, IsUnderscore);
    var h := DropWhileEnd(d, IsUnderscore);
    lo := |x| - |d|;
    hi := lo + |h|;
    assert d == x[lo..];
    assert h == d[..|h|];
    assert forall j :: 0 <= j < lo ==> IsUnderscore(x[j]);
    assert forall j :: |h| <= j < |d| ==> IsUnderscore(d[j]);
    forall j | hi <= j < |x|
      ensures x[j] == '_'
    {
      assert x[j] == d[j - lo];
    }
  }

  /** The root path and the empty target both name the handler `root`. */
  lemma HandlerNameOfRoot()
    ensures HandlerName("/") == "root"
    ensures HandlerName(OrDefault(None, "/")) == "root"
  {
    assert ReplaceChar("/", '/', '_') == "_";
    assert DropWhile("_", IsUnderscore) == [];
  }

  /** An action is among the exposed ones exactly when it is in the plan and
      exposes an endpoint. */
  lemma {:induction false} ExposesMembership(actions: seq<Action>, a: Action)
    ensures a in Exposes(actions) <==> a in actions && a.kind == ApiExpose
  {
    if actions != [] {
      ExposesMembership(actions[1..], a);
      assert actions == [actions[0]] + actions[1..];
    }
  }

  /** With blocks of `k` lines each, item `i` occupies lines `k*i` to
      `k*i + k` of the concatenation. */
  lemma {:induction false} BlocksLayout(items: seq<Action>, block: Action -> seq<string>, k: nat, i: nat)
    requires forall j :: 0 <= j < |items| ==> |block(items[j])| == k
    requires i < |items|
    ensures |Blocks(items, block)| == k * |items|
    ensures k * i + k <= |Blocks(items, block)|
    ensures Blocks(items, block)[k * i .. k * i + k] == block(items[i])
  {
    BlocksLength(items, block, k);
    var rest := Blocks(items[1..], block);
    assert Blocks(items, block) == block(items[0]) + rest;
    if i > 0 {
      BlocksLayout(items[1..], block, k, i - 1);
      assert k * i == k + k * (i - 1);
      assert Blocks(items, block)[k * i .. k * i + k] == rest[k * (i - 1) .. k * (i - 1) + k];
    }
  }

  lemma {:induction false} BlocksLength(items: seq<Action>, block: Action -> seq<string>, k: nat)
    requires forall j :: 0 <= j < |items| ==> |block(items[j])| == k
    ensures |Blocks(items, block)| == k * |items|
  {
    if items != [] {
      BlocksLength(items[1..], block, k);
      assert k * |items| == k + k * |items[1..]|;
    }
  }

  lemma RouteLengths(a: Action)
    ensures |FastApiRoute(a)| == 5 && |FlaskRoute(a)| == 4 && |ExpressRoute(a)| == 4
  {
  }

  /** The generated applications have a fixed frame around one route block
      per exposed endpoint: FastAPI 7 + 5n + 3 lines, Flask 4 + 4n + 2,
      Express 5 + 4n + 4. */
  lemma GeneratedLineCounts(ir: IntentIR)
    ensures var n := |Exposes(ir.implementation.actions)|;
            && |FastApiLines(ir)| == 7 + 5 * n + 3
            && |FlaskLines(ir)| == 4 + 4 * n + 2
            && |ExpressLines(ir)| == 5 + 4 * n + 4
  {
    var ex := Exposes(ir.implementation.actions);
    forall j | 0 <= j < |ex| { RouteLengths(ex[j]); }
    BlocksLength(ex, FastApiRoute, 5);
    BlocksLength(ex, FlaskRoute, 4);
    BlocksLength(ex, ExpressRoute, 4);
  }

  /** The Dockerfile exposes an extra port exactly when the environment
      lists it and it is not the application port. */
  lemma {:induction false} ExtraExposesMembership(ports: seq<int>, p: int)
    ensures ("EXPOSE " + IntToString(p)) in ExtraExposes(ports) <==> p in ports && p != AppPort
  {
    if ports != [] {
      ExtraExposesMembership(ports[1..], p);
      var q := ports[0];
      var head := if q != AppPort then ["EXPOSE " + IntToString(q)] else [];
      assert ExtraExposes(ports) == head + ExtraExposes(ports[1..]);
      assert p in ports <==> p == q || p in ports[1..];
      ExposeLineInjective(p, q);
    }
  }

  /** Two `EXPOSE` lines are equal exactly when their ports are. */
  lemma ExposeLineInjective(p: int, q: int)
    ensures "EXPOSE " + IntToString(p) == "EXPOSE " + IntToString(q) <==> p == q
  {
    if "EXPOSE " + IntToString(q) == "EXPOSE " + IntToString(p) {
      assert IntToString(q) == ("EXPOSE " + IntToString(q))[7..];
      assert IntToString(p) == ("EXPOSE " + IntToString(p))[7..];
      ParseIntOfIntToString(p);
      ParseIntOfIntToString(q);
    }
  }

  /** The simulation warns once per shell command, in plan order, naming its
      target; no other action type produces a warning. */
  lemma {:induction false} SimulationWarnings(actions: seq<Action>)
    ensures var shells := ShellCommands(actions);
            && |SimulateActions(actions).1| == |shells|
            && forall i :: 0 <= i < |shells| ==>
                 shells[i].kind == ShellExec
                 && SimulateActions(actions).1[i] == "Shell execution planned: " + OptText(shells[i].target)
  {
    if actions != [] {
      SimulationWarnings(actions[1..]);
      var a := actions[0];
      var w, wt := SimulateActions(actions).1, SimulateActions(actions[1..]).1;
      var sh, st := ShellCommands(actions), ShellCommands(actions[1..]);
      var mine := if a.kind == ShellExec then ["Shell execution planned: " + OptText(a.target)] else [];
      var head := if a.kind == ShellExec then [a] else [];
      assert w == mine + wt;
      assert sh == head + st;
      forall i | |head| <= i < |sh|
        ensures sh[i] == st[i - |head|] && w[i] == wt[i - |head|]
      {
      }
    }
  }

  /** Route `i` of the FastAPI application sits after the seven header
      lines and the five-line routes before it. */
  lemma FastApiRouteLines(ir: IntentIR, i: nat)
    requires i < |Exposes(ir.implementation.actions)|
    ensures var lines := FastApiLines(ir);
            && 7 + 5 * i + 5 <= |lines|
            && lines[7 + 5 * i .. 7 + 5 * i + 5] == FastApiRoute(Exposes(ir.implementation.actions)[i])
  {
    var ex := Exposes(ir.implementation.actions);
    forall j | 0 <= j < |ex| { FastApiRouteLength(ex[j]); }
    var header := FastApiHeader(ir.intent.name, ir.intent.goal);
    FastApiHeaderLength(ir.intent.name, ir.intent.goal);
    var lines := FastApiLines(ir);
    var route := FastApiRoute(ex[i]);
    FramedBlock(lines, header, ex, FastApiRoute, FastApiFooter, 7, 5, i, route);
    assert lines[7 + 5 * i .. 7 + 5 * i + 5] == route;
  }

  /** Route `i` of the Flask application sits after the four header lines
      and the four-line routes before it. */
  lemma FlaskRouteLines(ir: IntentIR, i: nat)
    requires i < |Exposes(ir.implementation.actions)|
    ensures var lines := FlaskLines(ir);
            && 4 + 4 * i + 4 <= |lines|
            && lines[4 + 4 * i .. 4 + 4 * i + 4] == FlaskRoute(Exposes(ir.implementation.actions)[i])
  {
    var ex := Exposes(ir.implementation.actions);
    forall j | 0 <= j < |ex| { FlaskRouteLength(ex[j]); }
    var lines := FlaskLines(ir);
    var route := FlaskRoute(ex[i]);
    FramedBlock(lines, FlaskHeader, ex, FlaskRoute, FlaskFooter, 4, 4, i, route);
    assert lines[4 + 4 * i .. 4 + 4 * i + 4] == route;
  }

  /** Route `i` of the Express application sits after the five header lines
      and the four-line routes before it. */
  lemma ExpressRouteLines(ir: IntentIR, i: nat)
    requires i < |Exposes(ir.implementation.actions)|
    ensures var lines := ExpressLines(ir);
            && 5 + 4 * i + 4 <= |lines|
            && lines[5 + 4 * i .. 5 + 4 * i + 4] == ExpressRoute(Exposes(ir.implementation.actions)[i])
  {
    var ex := Exposes(ir.implementation.actions);
    forall j | 0 <= j < |ex| { ExpressRouteLength(ex[j]); }
    var lines := ExpressLines(ir);
    var route := ExpressRoute(ex[i]);
    FramedBlock(lines, ExpressHeader, ex, ExpressRoute, ExpressFooter(ir.intent.name), 5, 4, i, route);
    assert lines[5 + 4 * i .. 5 + 4 * i + 4] == route;
  }

  /** The code a dry run writes onto a FastAPI plan: the lines of the
      application joined by newlines, with one five-line route per exposed
      endpoint, in plan order, after the seven header lines. */
  lemma DryRunFastApiCode(ir: IntentIR)
    requires ir.implementation.language == "python" && ir.implementation.framework == Some("fastapi")
    ensures var lines := FastApiLines(ir);
            var ex := Exposes(ir.implementation.actions);
            && DryRun(ir).ir.generatedCode == Some(Join(lines, "\n"))
            && |lines| == 10 + 5 * |ex|
            && forall i :: 0 <= i < |ex| ==> lines[7 + 5 * i .. 7 + 5 * i + 5] == FastApiRoute(ex[i])
  {
    GenerateCodeDispatch(ir);
    GeneratedLineCounts(ir);
    var ex := Exposes(ir.implementation.actions);
    forall i | 0 <= i < |ex|
      ensures FastApiLines(ir)[7 + 5 * i .. 7 + 5 * i + 5] == FastApiRoute(ex[i])
    {
      FastApiRouteLines(ir, i);
    }
  }

  /** The code a dry run writes onto a Flask plan: one four-line route per
      exposed endpoint, in plan order, after the four header lines. */
  lemma DryRunFlaskCode(ir: IntentIR)
    requires ir.implementation.language == "python" && ir.implementation.framework == Some("flask")
    ensures var lines := FlaskLines(ir);
            var ex := Exposes(ir.implementation.actions);
            && DryRun(ir).ir.generatedCode == Some(Join(lines, "\n"))
            && |lines| == 6 + 4 * |ex|
            && forall i :: 0 <= i < |ex| ==> lines[4 + 4 * i .. 4 + 4 * i + 4] == FlaskRoute(ex[i])
  {
    GenerateCodeDispatch(ir);
    GeneratedLineCounts(ir);
    var ex := Exposes(ir.implementation.actions);
    forall i | 0 <= i < |ex|
      ensures FlaskLines(ir)[4 + 4 * i .. 4 + 4 * i + 4] == FlaskRoute(ex[i])
    {
      FlaskRouteLines(ir, i);
    }
  }

  /** The code a dry run writes onto an Express plan: one four-line route
      per exposed endpoint, in plan order, after the five header lines. */
  lemma DryRunExpressCode(ir: IntentIR)
    requires ir.implementation.language == "node" && ir.implementation.framework == Some("express")
    ensures var lines := ExpressLines(ir);
            var ex := Exposes(ir.implementation.actions);
            && DryRun(ir).ir.generatedCode == Some(Join(lines, "\n"))
            && |lines| == 9 + 4 * |ex|
            && forall i :: 0 <= i < |ex| ==> lines[5 + 4 * i .. 5 + 4 * i + 4] == ExpressRoute(ex[i])
  {
    GenerateCodeDispatch(ir);
    GeneratedLineCounts(ir);
    var ex := Exposes(ir.implementation.actions);
    forall i | 0 <= i < |ex|
      ensures ExpressLines(ir)[5 + 4 * i .. 5 + 4 * i + 4] == ExpressRoute(ex[i])
    {
      ExpressRouteLines(ir, i);
    }
  }

  lemma FastApiHeaderLength(name: string, goal: string)
    ensures |FastApiHeader(name, goal)| == 7
  {
  }

  lemma FlaskRouteLength(a: Action)
    ensures |FlaskRoute(a)| == 4
  {
  }

  lemma ExpressRouteLength(a: Action)
    ensures |ExpressRoute(a)| == 4
  {
  }

  lemma FastApiRouteLength(a: Action)
    ensures |FastApiRoute(a)| == 5
  {
  }

  /** A FastAPI route opens with its decorator and then its handler. */
  lemma FastApiRouteOpens(a: Action)
    ensures |FastApiRoute(a)| >= 2
    ensures FastApiRoute(a)[0] == FastApiDecorator(a)
    ensures FastApiRoute(a)[1] == FastApiHandler(a)
  {
  }

  /** The block of item `i` in a text framed by a header of `h` lines and a
      footer, when every block has `k` lines. */
  lemma FramedBlock(lines: seq<string>, header: seq<string>, items: seq<Action>, block: Action -> seq<string>,
                    footer: seq<string>, h: nat, k: nat, i: nat, b: seq<string>)
    requires lines == header + Blocks(items, block) + footer && |header| == h
    requires forall m :: 0 <= m < |items| ==> |block(items[m])| == k
    requires i < |items| && b == block(items[i])
    ensures h + k * i + k <= |lines|
    ensures lines[h + k * i .. h + k * i + k] == b
  {
    BlocksLayout(items, block, k, i);
    SliceOfMiddle(header, Blocks(items, block), footer, k * i, k * i + k);
  }

  /** For python and node the extra EXPOSE lines go in before the last two
      lines, so the Dockerfile still ends with a blank line and the `CMD`. */
  lemma DockerfileKeepsCmdLast(ir: IntentIR)
    requires ir.implementation.language in ["python", "node"]
    ensures var lines := DockerfileLines(ir);
            var base := DockerHeader(ir) + LanguageSteps(ir);
            && |lines| == |base| + |ExtraExposes(ir.environment.ports)|
            && lines[|lines| - 2] == ""
            && lines[|lines| - 1] == (if ir.implementation.language == "python" then "CMD [\"python\", \"app.py\"]"
                                      else "CMD [\"node\", \"app.js\"]")
  {
    var base := DockerHeader(ir) + LanguageSteps(ir);
    var extra := ExtraExposes(ir.environment.ports);
    InsertPortsClosedForm(base, ir.environment.ports);
    var n := |base|;
    var lines := base[..n - 2] + extra + base[n - 2..];
    assert lines[|lines| - 1] == base[n - 1];
    assert lines[|lines| - 2] == base[n - 2];
  }

  /** The dry run warns first about a missing generator, if any, and then
      once per shell command in plan order. */
  lemma DryRunWarnings(ir: IntentIR)
    ensures var w := PlanWarnings(ir);
            var shells := ShellCommands(ir.implementation.actions);
            var k := if GenerateCode(ir).None? then 1 else 0;
            && |w| == k + |shells|
            && (GenerateCode(ir).None? ==> w[0] == "No code generator for language: " + ir.implementation.language)
            && forall i :: 0 <= i < |shells| ==> w[k + i] == "Shell execution planned: " + OptText(shells[i].target)
  {
    var missing := if GenerateCode(ir).None? then ["No code generator for language: " + ir.implementation.language] else [];
    var sim := SimulateActions(ir.implementation.actions).1;
    var shells := ShellCommands(ir.implementation.actions);
    SimulationWarnings(ir.implementation.actions);
    assert PlanWarnings(ir) == missing + sim;
    forall i | 0 <= i < |shells|
      ensures (missing + sim)[|missing| + i] == sim[i]
    {
      InMiddle(missing, sim, [], i);
      assert missing + sim + [] == missing + sim;
    }
  }

  /** Two IRs that agree on what the planner reads. */
  predicate SamePlan(a: IntentIR, b: IntentIR) {
    a.intent == b.intent && a.environment == b.environment && a.implementation == b.implementation
  }

  lemma GeneratorsReadPlan(a: IntentIR, b: IntentIR)
    requires SamePlan(a, b)
    ensures GenerateCode(a) == GenerateCode(b)
  {
    assert FastApiLines(a) == FastApiLines(b);
    assert FlaskLines(a) == FlaskLines(b);
    assert ExpressLines(a) == ExpressLines(b);
    assert PythonCode(a) == PythonCode(b);
    assert NodeCode(a) == NodeCode(b);
  }

  lemma DockerfileReadsPlan(a: IntentIR, b: IntentIR)
    requires SamePlan(a, b)
    ensures Dockerfile(a) == Dockerfile(b)
  {
    assert DockerHeader(a) == DockerHeader(b);
    assert LanguageSteps(a) == LanguageSteps(b);
    assert DockerfileLines(a) == DockerfileLines(b);
  }

  /** The dry run reads only the intent, the environment and the
      implementation: two IRs that agree on those get the same result. */
  lemma DryRunReadsPlan(a: IntentIR, b: IntentIR)
    requires SamePlan(a, b)
    ensures DryRun(a).result == DryRun(b).result
  {
    GeneratorsReadPlan(a, b);
    DockerfileReadsPlan(a, b);
    assert CodeLogs(a) == CodeLogs(b);
    assert DockerLogs(a) == DockerLogs(b);
    assert PlanWarnings(a) == PlanWarnings(b);
    assert DryRunLogs(a) == DryRunLogs(b);
  }

  /** Rerunning the dry run on the IR it produced gives the same result and
      the same IR. */
  lemma DryRunIdempotent(ir: IntentIR)
    ensures DryRun(DryRun(ir).ir) == DryRun(ir)
  {
    var ir2 := DryRun(ir).ir;
    assert SamePlan(ir2, ir);
    DryRunReadsPlan(ir2, ir);
  }
}
