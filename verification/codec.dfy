/**
  `to_dict` / `from_dict` of every IR record (ir/models.py), at the level
  of decoded documents: enums are written as their value tokens, absent
  optional fields take the same defaults the parser uses, and a missing
  required key, an unknown enum token or a value of the wrong shape is an
  error value instead of a Python exception.
 */
module Codec {
  import opened Wrappers
  import opened Values
  import opened Models

  datatype DecodeError =
    | MissingKey(key: string)                    // Python's KeyError
    | InvalidEnum(enumName: string, token: Value) // Python's ValueError from an enum lookup
    | WrongType(key: string)                     // a value of another shape than the field's type

  // ----- field readers: `data.get(key, default)` with the field's type -----

  function GetStr(m: map<string, Value>, key: string, default: string): Result<string, DecodeError> {
    if key !in m then Ok(default)
    else if m[key].VStr? then Ok(m[key].s)
    else Err(WrongType(key))
  }

  /** An optional string field: absent and `None` both read as `None`. */
  function GetOptStr(m: map<string, Value>, key: string): Result<Option<string>, DecodeError> {
    if key !in m || m[key] == VNull then Ok(None)
    else if m[key].VStr? then Ok(Some(m[key].s))
    else Err(WrongType(key))
  }

  function GetInt(m: map<string, Value>, key: string, default: int): Result<int, DecodeError> {
    if key !in m then Ok(default)
    else if m[key].VInt? then Ok(m[key].i)
    else Err(WrongType(key))
  }

  function GetBool(m: map<string, Value>, key: string, default: bool): Result<bool, DecodeError> {
    if key !in m then Ok(default)
    else if m[key].VBool? then Ok(m[key].b)
    else Err(WrongType(key))
  }

  function GetList(m: map<string, Value>, key: string): Result<seq<Value>, DecodeError> {
    if key !in m then Ok([])
    else if m[key].VList? then Ok(m[key].items)
    else Err(WrongType(key))
  }

  /** A nested mapping, `{}` when absent. */
  function GetMap(m: map<string, Value>, key: string): Result<map<string, Value>, DecodeError> {
    if key !in m then Ok(map[])
    else if m[key].VMap? then Ok(m[key].entries)
    else Err(WrongType(key))
  }

  function GetStrList(m: map<string, Value>, key: string): Result<seq<string>, DecodeError> {
    var items :- GetList(m, key);
    if forall i :: 0 <= i < |items| ==> items[i].VStr?
    then Ok(seq(|items|, i requires 0 <= i < |items| && items[i].VStr? => items[i].s))
    else Err(WrongType(key))
  }

  function GetIntList(m: map<string, Value>, key: string): Result<seq<int>, DecodeError> {
    var items :- GetList(m, key);
    if forall i :: 0 <= i < |items| ==> items[i].VInt?
    then Ok(seq(|items|, i requires 0 <= i < |items| && items[i].VInt? => items[i].i))
    else Err(WrongType(key))
  }

  function GetStrMap(m: map<string, Value>, key: string): Result<map<string, string>, DecodeError> {
    var entries :- GetMap(m, key);
    if forall k :: k in entries ==> entries[k].VStr?
    then Ok(map k | k in entries :: entries[k].s)
    else Err(WrongType(key))
  }

  // ----- writers -----

  function EncodeOptStr(o: Option<string>): Value {
    match o
    case None => VNull
    case Some(s) => VStr(s)
  }

  function EncodeStrList(xs: seq<string>): Value {
    VList(seq(|xs|, i requires 0 <= i < |xs| => VStr(xs[i])))
  }

  function EncodeIntList(xs: seq<int>): Value {
    VList(seq(|xs|, i requires 0 <= i < |xs| => VInt(xs[i])))
  }

  function EncodeStrMap(m: map<string, string>): Value {
    VMap(map k | k in m :: VStr(m[k]))
  }

  // ----- Action -----

  /** `Action.to_dict()`. */
  function EncodeAction(a: Action): Value {
    VMap(map["type" := VStr(ActionToken(a.kind)),
             "method" := EncodeOptStr(a.httpMethod),
             "target" := EncodeOptStr(a.target),
             "params" := VMap(a.params)])
  }

  /** `Action.from_dict(data)`: `type` is required and must be a known token. */
  function DecodeAction(v: Value): (r: Result<Action, DecodeError>)
    ensures v.VMap? && "type" !in v.entries ==> r == Err(MissingKey("type"))
    ensures v.VMap? && "type" in v.entries && ActionKindOf(v.entries["type"]).None?
            ==> r == Err(InvalidEnum("ActionType", v.entries["type"]))
    ensures r.Ok? ==> v.VMap? && "type" in v.entries && v.entries["type"] == VStr(ActionToken(r.value.kind))
  {
    if !v.VMap? then Err(WrongType("action"))
    else
      var m := v.entries;
      if "type" !in m then Err(MissingKey("type"))
      else
        var token := m["type"];
        var kind := ActionKindOf(token);
        if kind.None? then Err(InvalidEnum("ActionType", token))
        else
          var httpMethod :- GetOptStr(m, "method");
          var target :- GetOptStr(m, "target");
          var params :- GetMap(m, "params");
          Ok(Action(kind.value, httpMethod, target, params))
  }

  function EncodeActions(actions: seq<Action>): Value {
    VList(seq(|actions|, i requires 0 <= i < |actions| => EncodeAction(actions[i])))
  }

  /** `[Action.from_dict(a) for a in items]`: it succeeds exactly when every
      item decodes, with the items' actions in order; otherwise the first
      failure is raised. */
  function DecodeActions(items: seq<Value>): (r: Result<seq<Action>, DecodeError>)
    ensures r.Ok? <==> forall i :: 0 <= i < |items| ==> DecodeAction(items[i]).Ok?
    ensures r.Ok? ==> |r.value| == |items| && forall i :: 0 <= i < |items| ==> r.value[i] == DecodeAction(items[i]).value
    ensures r.Err? ==> exists k :: 0 <= k < |items| && DecodeAction(items[k]).Err?
                                   && r.error == DecodeAction(items[k]).error
                                   && forall i :: 0 <= i < k ==> DecodeAction(items[i]).Ok?
  {
    if items == [] then Ok([])
    else
      var a :- DecodeAction(items[0]);
      var rest :- DecodeActions(items[1..]);
      Ok([a] + rest)
  }

  lemma DecodeEncodeAction(a: Action)
    ensures DecodeAction(EncodeAction(a)) == Ok(a)
  {
  }

  lemma {:induction false} DecodeEncodeActions(actions: seq<Action>)
    ensures DecodeActions(EncodeActions(actions).items) == Ok(actions)
  {
    var items := EncodeActions(actions).items;
    if actions != [] {
      DecodeEncodeAction(actions[0]);
      assert items[1..] == EncodeActions(actions[1..]).items;
      DecodeEncodeActions(actions[1..]);
      assert [actions[0]] + actions[1..] == actions;
    }
  }

  // ----- Environment, Implementation, Intent -----

  /** `Environment.to_dict()`. */
  function EncodeEnvironment(e: Environment): Value {
    VMap(map["runtime" := VStr(RuntimeToken(e.runtime)),
             "base_image" := VStr(e.baseImage),
             "services" := EncodeStrList(e.services),
             "ports" := EncodeIntList(e.ports),
             "volumes" := EncodeStrList(e.volumes),
             "env_vars" := EncodeStrMap(e.envVars)])
  }

  /** `Environment.from_dict(data)`: every field has a default; a runtime
      value that is not a member's token fails. */
  function DecodeEnvironment(m: map<string, Value>): (r: Result<Environment, DecodeError>)
    ensures "runtime" !in m && r.Ok? ==> r.value.runtime == Docker
    ensures "base_image" !in m && r.Ok? ==> r.value.baseImage == DefaultBaseImage
    ensures "runtime" in m && RuntimeOf(m["runtime"]).None? ==> r == Err(InvalidEnum("RuntimeType", m["runtime"]))
    ensures "runtime" in m && r.Ok? ==> Some(r.value.runtime) == RuntimeOf(m["runtime"])
  {
    var token := if "runtime" in m then m["runtime"] else VStr("docker");
    var runtime := RuntimeOf(token);
    if runtime.None? then Err(InvalidEnum("RuntimeType", token))
    else
      var baseImage :- GetStr(m, "base_image", DefaultBaseImage);
      var services :- GetStrList(m, "services");
      var ports :- GetIntList(m, "ports");
      var volumes :- GetStrList(m, "volumes");
      var envVars :- GetStrMap(m, "env_vars");
      Ok(Environment(runtime.value, baseImage, services, ports, volumes, envVars))
  }

  /** `Implementation.to_dict()`. */
  function EncodeImplementation(impl: Implementation): Value {
    VMap(map["language" := VStr(impl.language),
             "framework" := EncodeOptStr(impl.framework),
             "actions" := EncodeActions(impl.actions)])
  }

  /** Some entry of an action list lacks `type` or names no action type, or
      is not a mapping at all. */
  predicate SomeActionInvalid(items: seq<Value>) {
    exists i :: 0 <= i < |items| && DecodeAction(items[i]).Err?
  }

  /** `Implementation.from_dict(data)`. */
  function DecodeImplementation(m: map<string, Value>): (r: Result<Implementation, DecodeError>)
    ensures "language" !in m && r.Ok? ==> r.value.language == DefaultLanguage
    ensures "actions" !in m && r.Ok? ==> r.value.actions == []
    ensures "actions" in m && m["actions"].VList? && SomeActionInvalid(m["actions"].items) ==> r.Err?
  {
    var language :- GetStr(m, "language", DefaultLanguage);
    var framework :- GetOptStr(m, "framework");
    var items :- GetList(m, "actions");
    var actions :- DecodeActions(items);
    Ok(Implementation(language, framework, actions))
  }

  /** `Intent.to_dict()`. */
  function EncodeIntent(it: Intent): Value {
    VMap(map["name" := VStr(it.name), "goal" := VStr(it.goal), "description" := EncodeOptStr(it.description)])
  }

  /** `Intent.from_dict(data)`: `name` and `goal` are required. */
  function DecodeIntent(m: map<string, Value>): (r: Result<Intent, DecodeError>)
    ensures "name" !in m ==> r == Err(MissingKey("name"))
    ensures "name" in m && m["name"].VStr? && "goal" !in m ==> r == Err(MissingKey("goal"))
    ensures r.Ok? ==> "name" in m && "goal" in m
                      && m["name"] == VStr(r.value.name) && m["goal"] == VStr(r.value.goal)
  {
    if "name" !in m then Err(MissingKey("name"))
    else if !m["name"].VStr? then Err(WrongType("name"))
    else if "goal" !in m then Err(MissingKey("goal"))
    else if !m["goal"].VStr? then Err(WrongType("goal"))
    else
      var description :- GetOptStr(m, "description");
      Ok(Intent(m["name"].s, m["goal"].s, description))
  }

  // ----- IntentIR -----

  /** `IntentIR.to_dict()`. */
  function EncodeIntentIR(ir: IntentIR): Value {
    VMap(map[
      "id" := VStr(ir.id),
      "version" := VInt(ir.version),
      "created_at" := VStr(ir.createdAt),
      "updated_at" := VStr(ir.updatedAt),
      "intent" := EncodeIntent(ir.intent),
      "environment" := EncodeEnvironment(ir.environment),
      "implementation" := EncodeImplementation(ir.implementation),
      "execution_mode" := VStr(ModeToken(ir.executionMode)),
      "amen_approved" := VBool(ir.amenApproved),
      "iteration_count" := VInt(ir.iterationCount),
      "iteration_history" := VList(ir.iterationHistory),
      "generated_code" := EncodeOptStr(ir.generatedCode),
      "dockerfile" := EncodeOptStr(ir.dockerfile),
      "dry_run_logs" := EncodeStrList(ir.dryRunLogs)])
  }

  /** The three nested records of `IntentIR.from_dict`, read in Python's
      keyword-argument order. */
  function DecodeSections(m: map<string, Value>): Result<(Intent, Environment, Implementation), DecodeError> {
    var intentData :- GetMap(m, "intent");
    var intent :- DecodeIntent(intentData);
    var envData :- GetMap(m, "environment");
    var environment :- DecodeEnvironment(envData);
    var implData :- GetMap(m, "implementation");
    var implementation :- DecodeImplementation(implData);
    Ok((intent, environment, implementation))
  }

  /** The execution-state fields of an IR, as `from_dict` reads them. */
  datatype RunState = RunState(
    mode: ExecutionMode, approved: bool, count: int, history: seq<Value>,
    code: Option<string>, dockerfile: Option<string>, logs: seq<string>)

  function DecodeRunState(m: map<string, Value>): Result<RunState, DecodeError> {
    var modeToken := if "execution_mode" in m then m["execution_mode"] else VStr("dry-run");
    var mode := ModeOf(modeToken);
    if mode.None? then Err(InvalidEnum("ExecutionMode", modeToken))
    else
      var approved :- GetBool(m, "amen_approved", false);
      var count :- GetInt(m, "iteration_count", 0);
      var history :- GetList(m, "iteration_history");
      var code :- GetOptStr(m, "generated_code");
      var dockerfile :- GetOptStr(m, "dockerfile");
      var logs :- GetStrList(m, "dry_run_logs");
      Ok(RunState(mode.value, approved, count, history, code, dockerfile, logs))
  }

  /** The action list of a document's implementation record, if it has one. */
  function ActionListOf(v: Value): seq<Value> {
    if v.VMap? && "implementation" in v.entries && v.entries["implementation"].VMap?
       && "actions" in v.entries["implementation"].entries
       && v.entries["implementation"].entries["actions"].VList?
    then v.entries["implementation"].entries["actions"].items
    else []
  }

  /** `IntentIR.from_dict(data)`.  `f` holds the uuid and the two clock
      readings Python draws for an absent `id` and absent timestamps. */
  function DecodeIntentIR(v: Value, f: Fresh): (r: Result<IntentIR, DecodeError>)
    ensures r.Ok? ==> v.VMap? && "intent" in v.entries && v.entries["intent"].VMap?
                      && "name" in v.entries["intent"].entries && "goal" in v.entries["intent"].entries
    ensures r.Ok? && "id" !in v.entries ==> r.value.id == f.id
    ensures r.Ok? && "created_at" !in v.entries ==> r.value.createdAt == f.createdAt
    ensures r.Ok? && "updated_at" !in v.entries ==> r.value.updatedAt == f.updatedAt
    ensures r.Ok? && "execution_mode" !in v.entries ==> r.value.executionMode == DryRun
    ensures r.Ok? && "amen_approved" !in v.entries ==> !r.value.amenApproved
    ensures SomeActionInvalid(ActionListOf(v)) ==> r.Err?
  {
    if !v.VMap? then Err(WrongType("data"))
    else
      var m := v.entries;
      var id :- GetStr(m, "id", f.id);
      var version :- GetInt(m, "version", 1);
      var createdAt :- GetStr(m, "created_at", f.createdAt);
      var updatedAt :- GetStr(m, "updated_at", f.updatedAt);
      var sections :- DecodeSections(m);
      var st :- DecodeRunState(m);
      Ok(IntentIR(id, version, createdAt, updatedAt, sections.0, sections.1, sections.2,
                  st.mode, st.approved, st.count, st.history, st.code, st.dockerfile, st.logs))
  }

  lemma ReadEncodedStrList(m: map<string, Value>, key: string, xs: seq<string>)
    requires key in m && m[key] == EncodeStrList(xs)
    ensures GetStrList(m, key) == Ok(xs)
  {
    var items := m[key].items;
    assert GetList(m, key) == Ok(items);
    assert forall i :: 0 <= i < |items| ==> items[i] == VStr(xs[i]);
    var ys := seq(|items|, i requires 0 <= i < |items| && items[i].VStr? => items[i].s);
    assert ys == xs;
  }

  lemma ReadEncodedIntList(m: map<string, Value>, key: string, xs: seq<int>)
    requires key in m && m[key] == EncodeIntList(xs)
    ensures GetIntList(m, key) == Ok(xs)
  {
    var items := m[key].items;
    assert GetList(m, key) == Ok(items);
    assert forall i :: 0 <= i < |items| ==> items[i] == VInt(xs[i]);
    var ys := seq(|items|, i requires 0 <= i < |items| && items[i].VInt? => items[i].i);
    assert ys == xs;
  }

  lemma ReadEncodedStrMap(m: map<string, Value>, key: string, sm: map<string, string>)
    requires key in m && m[key] == EncodeStrMap(sm)
    ensures GetStrMap(m, key) == Ok(sm)
  {
    var entries := m[key].entries;
    assert GetMap(m, key) == Ok(entries);
    assert forall k :: k in entries ==> entries[k] == VStr(sm[k]);
    var back := map k | k in entries :: entries[k].s;
    assert back == sm;
  }

  lemma DecodeEncodeEnvironment(e: Environment)
    ensures DecodeEnvironment(EncodeEnvironment(e).entries) == Ok(e)
  {
    var m := EncodeEnvironment(e).entries;
    ReadEncodedStrList(m, "services", e.services);
    ReadEncodedIntList(m, "ports", e.ports);
    ReadEncodedStrList(m, "volumes", e.volumes);
    ReadEncodedStrMap(m, "env_vars", e.envVars);
  }

  lemma DecodeEncodeImplementation(impl: Implementation)
    ensures DecodeImplementation(EncodeImplementation(impl).entries) == Ok(impl)
  {
    DecodeEncodeActions(impl.actions);
  }

  /** The entries `to_dict()` writes for the three nested records. */
  lemma EncodedSectionEntries(ir: IntentIR)
    ensures var m := EncodeIntentIR(ir).entries;
            && "intent" in m && m["intent"] == EncodeIntent(ir.intent)
            && "environment" in m && m["environment"] == EncodeEnvironment(ir.environment)
            && "implementation" in m && m["implementation"] == EncodeImplementation(ir.implementation)
  {
  }

  /** The entries `to_dict()` writes for the execution state. */
  lemma EncodedStateEntries(ir: IntentIR)
    ensures var m := EncodeIntentIR(ir).entries;
            && "execution_mode" in m && m["execution_mode"] == VStr(ModeToken(ir.executionMode))
            && "amen_approved" in m && m["amen_approved"] == VBool(ir.amenApproved)
            && "iteration_count" in m && m["iteration_count"] == VInt(ir.iterationCount)
            && "iteration_history" in m && m["iteration_history"] == VList(ir.iterationHistory)
            && "generated_code" in m && m["generated_code"] == EncodeOptStr(ir.generatedCode)
            && "dockerfile" in m && m["dockerfile"] == EncodeOptStr(ir.dockerfile)
            && "dry_run_logs" in m && m["dry_run_logs"] == EncodeStrList(ir.dryRunLogs)
  {
  }

  /** How the nested records read once their encoded entries are known. */
  lemma DecodeSectionsOf(m: map<string, Value>, it: Intent, env: Environment, impl: Implementation)
    requires "intent" in m && m["intent"] == EncodeIntent(it)
    requires "environment" in m && m["environment"] == EncodeEnvironment(env)
    requires "implementation" in m && m["implementation"] == EncodeImplementation(impl)
    ensures DecodeSections(m) == Ok((it, env, impl))
  {
    assert GetMap(m, "intent") == Ok(EncodeIntent(it).entries);
    assert DecodeIntent(EncodeIntent(it).entries) == Ok(it);
    assert GetMap(m, "environment") == Ok(EncodeEnvironment(env).entries);
    DecodeEncodeEnvironment(env);
    assert GetMap(m, "implementation") == Ok(EncodeImplementation(impl).entries);
    DecodeEncodeImplementation(impl);
  }

  /** How the execution state reads once its encoded entries are known. */
  lemma DecodeRunStateOf(m: map<string, Value>, ir: IntentIR)
    requires "execution_mode" in m && m["execution_mode"] == VStr(ModeToken(ir.executionMode))
    requires "amen_approved" in m && m["amen_approved"] == VBool(ir.amenApproved)
    requires "iteration_count" in m && m["iteration_count"] == VInt(ir.iterationCount)
    requires "iteration_history" in m && m["iteration_history"] == VList(ir.iterationHistory)
    requires "generated_code" in m && m["generated_code"] == EncodeOptStr(ir.generatedCode)
    requires "dockerfile" in m && m["dockerfile"] == EncodeOptStr(ir.dockerfile)
    requires "dry_run_logs" in m && m["dry_run_logs"] == EncodeStrList(ir.dryRunLogs)
    ensures DecodeRunState(m)
            == Ok(RunState(ir.executionMode, ir.amenApproved, ir.iterationCount, ir.iterationHistory,
                           ir.generatedCode, ir.dockerfile, ir.dryRunLogs))
  {
    assert GetBool(m, "amen_approved", false) == Ok(ir.amenApproved);
    assert GetInt(m, "iteration_count", 0) == Ok(ir.iterationCount);
    assert GetList(m, "iteration_history") == Ok(ir.iterationHistory);
    assert GetOptStr(m, "generated_code") == Ok(ir.generatedCode);
    assert GetOptStr(m, "dockerfile") == Ok(ir.dockerfile);
    ReadEncodedStrList(m, "dry_run_logs", ir.dryRunLogs);
  }

  lemma DecodeEncodeSections(ir: IntentIR)
    ensures DecodeSections(EncodeIntentIR(ir).entries) == Ok((ir.intent, ir.environment, ir.implementation))
  {
    EncodedSectionEntries(ir);
    DecodeSectionsOf(EncodeIntentIR(ir).entries, ir.intent, ir.environment, ir.implementation);
  }

  lemma DecodeEncodeRunState(ir: IntentIR)
    ensures DecodeRunState(EncodeIntentIR(ir).entries)
            == Ok(RunState(ir.executionMode, ir.amenApproved, ir.iterationCount, ir.iterationHistory,
                           ir.generatedCode, ir.dockerfile, ir.dryRunLogs))
  {
    EncodedStateEntries(ir);
    DecodeRunStateOf(EncodeIntentIR(ir).entries, ir);
  }

  /** `from_dict(to_dict(x)) == x` field by field, whatever id and clock a
      decoder would fall back on; hence serialising again is stable. */
  lemma RoundTrip(ir: IntentIR, f: Fresh)
    ensures DecodeIntentIR(EncodeIntentIR(ir), f) == Ok(ir)
    ensures EncodeIntentIR(DecodeIntentIR(EncodeIntentIR(ir), f).value) == EncodeIntentIR(ir)
  {
    var m := EncodeIntentIR(ir).entries;
    EncodedHeaderEntries(ir);
    assert GetStr(m, "id", f.id) == Ok(ir.id);
    assert GetInt(m, "version", 1) == Ok(ir.version);
    assert GetStr(m, "created_at", f.createdAt) == Ok(ir.createdAt);
    assert GetStr(m, "updated_at", f.updatedAt) == Ok(ir.updatedAt);
    DecodeEncodeSections(ir);
    DecodeEncodeRunState(ir);
  }

  /** The identity and timestamp entries `to_dict()` writes. */
  lemma EncodedHeaderEntries(ir: IntentIR)
    ensures var m := EncodeIntentIR(ir).entries;
            && "id" in m && m["id"] == VStr(ir.id)
            && "version" in m && m["version"] == VInt(ir.version)
            && "created_at" in m && m["created_at"] == VStr(ir.createdAt)
            && "updated_at" in m && m["updated_at"] == VStr(ir.updatedAt)
  {
  }

  /** A document holding only the intent's name and goal decodes with every
      default: docker runtime, the default base image, python, dry-run. */
  lemma DecodeFillsDefaults(name: string, goal: string, f: Fresh)
    ensures var doc := VMap(map["intent" := VMap(map["name" := VStr(name), "goal" := VStr(goal)])]);
            var r := DecodeIntentIR(doc, f);
            && r.Ok?
            && r.value.intent == Intent(name, goal, None)
            && r.value.environment == Environment(Docker, "python:3.12-slim", [], [], [], map[])
            && r.value.implementation == Implementation("python", None, [])
            && r.value.executionMode == DryRun
            && !r.value.amenApproved && r.value.iterationCount == 0 && r.value.iterationHistory == []
            && r.value.version == 1 && r.value == NewIntentIR(f).(intent := Intent(name, goal, None))
            && r.value.generatedCode == None && r.value.dockerfile == None && r.value.dryRunLogs == []
  {
    var m := map["intent" := VMap(map["name" := VStr(name), "goal" := VStr(goal)])];
    DefaultSections(name, goal);
    AbsentRunState(m);
  }

  /** The nested records of a document holding only an intent name and goal. */
  lemma DefaultSections(name: string, goal: string)
    ensures DecodeSections(map["intent" := VMap(map["name" := VStr(name), "goal" := VStr(goal)])])
            == Ok((Intent(name, goal, None), DefaultEnvironment(), DefaultImplementation()))
  {
    var m := map["intent" := VMap(map["name" := VStr(name), "goal" := VStr(goal)])];
    assert GetMap(m, "intent") == Ok(map["name" := VStr(name), "goal" := VStr(goal)]);
    assert DecodeIntent(map["name" := VStr(name), "goal" := VStr(goal)]) == Ok(Intent(name, goal, None));
    assert GetMap(m, "environment") == Ok(map[]) && GetMap(m, "implementation") == Ok(map[]);
    EmptyEnvironment();
    EmptyImplementation();
  }

  /** An empty environment mapping decodes to the default environment. */
  lemma EmptyEnvironment()
    ensures DecodeEnvironment(map[]) == Ok(DefaultEnvironment())
  {
    var empty: map<string, Value> := map[];
    assert RuntimeFromToken("docker") == Some(Docker);
    AbsentLists(empty, "services");
    AbsentLists(empty, "volumes");
    AbsentLists(empty, "ports");
    assert GetStrMap(empty, "env_vars") == Ok(map[]);
  }

  /** An absent list field reads as the empty list. */
  lemma AbsentLists(m: map<string, Value>, key: string)
    requires key !in m
    ensures GetStrList(m, key) == Ok([]) && GetIntList(m, key) == Ok([])
  {
    assert GetList(m, key) == Ok([]);
    assert GetStrList(m, key).Ok? && |GetStrList(m, key).value| == 0;
    assert GetIntList(m, key).Ok? && |GetIntList(m, key).value| == 0;
  }

  /** An empty implementation mapping decodes to the default implementation. */
  lemma EmptyImplementation()
    ensures DecodeImplementation(map[]) == Ok(DefaultImplementation())
  {
  }

  /** With none of the execution-state keys present every state field takes its default. */
  lemma AbsentRunState(m: map<string, Value>)
    requires "execution_mode" !in m && "amen_approved" !in m && "iteration_count" !in m
    requires "iteration_history" !in m && "generated_code" !in m && "dockerfile" !in m
    requires "dry_run_logs" !in m
    ensures DecodeRunState(m) == Ok(RunState(DryRun, false, 0, [], None, None, []))
  {
    assert ModeFromToken("dry-run") == Some(DryRun);
    AbsentLists(m, "dry_run_logs");
  }
}
