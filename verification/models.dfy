/**
  The intermediate representation (IR) of an intent: the enums with their
  value tokens, the `Action` / `Environment` / `Implementation` / `Intent`
  records, the root `IntentIR`, and its two mutators `AddIteration` and
  `ApproveAmen`.  Mutators return the updated record; the clock reading
  that Python takes from `datetime.now()` is a parameter.
 */
module Models {
  import opened Wrappers
  import opened Values

  datatype ExecutionMode = DryRun | Transactional

  /** The value token of an execution mode. */
  function ModeToken(m: ExecutionMode): string {
    match m
    case DryRun => "dry-run"
    case Transactional => "transactional"
  }

  /** `ExecutionMode(t)`: the member whose token is `t`, if any. */
  function ModeFromToken(t: string): (r: Option<ExecutionMode>)
    ensures forall m :: r == Some(m) <==> ModeToken(m) == t
  {
    if t == "dry-run" then Some(DryRun)
    else if t == "transactional" then Some(Transactional)
    else None
  }

  datatype RuntimeType = Docker | Kubernetes | Local

  function RuntimeToken(rt: RuntimeType): string {
    match rt
    case Docker => "docker"
    case Kubernetes => "kubernetes"
    case Local => "local"
  }

  /** `RuntimeType(t)`: the member whose token is `t`, if any. */
  function RuntimeFromToken(t: string): (r: Option<RuntimeType>)
    ensures forall rt :: r == Some(rt) <==> RuntimeToken(rt) == t
  {
    if t == "docker" then Some(Docker)
    else if t == "kubernetes" then Some(Kubernetes)
    else if t == "local" then Some(Local)
    else None
  }

  datatype ActionType = ApiExpose | DbCreate | DbAddColumn | ShellExec | RestCall | FileCreate

  function ActionToken(k: ActionType): string {
    match k
    case ApiExpose => "api.expose"
    case DbCreate => "db.create"
    case DbAddColumn => "db.add_column"
    case ShellExec => "shell.exec"
    case RestCall => "rest.call"
    case FileCreate => "file.create"
  }

  /** The action types in declaration order. */
  const ActionTypes: seq<ActionType> := [ApiExpose, DbCreate, DbAddColumn, ShellExec, RestCall, FileCreate]

  /** `ActionType(t)`: the member whose token is `t`, if any. */
  function ActionFromToken(t: string): (r: Option<ActionType>)
    ensures forall k :: r == Some(k) <==> ActionToken(k) == t
  {
    if t == "api.expose" then Some(ApiExpose)
    else if t == "db.create" then Some(DbCreate)
    else if t == "db.add_column" then Some(DbAddColumn)
    else if t == "shell.exec" then Some(ShellExec)
    else if t == "rest.call" then Some(RestCall)
    else if t == "file.create" then Some(FileCreate)
    else None
  }

  // `ExecutionMode(v)`, `RuntimeType(v)` and `ActionType(v)` on a decoded
  // value: only a string can be a member's token, anything else raises
  // `ValueError` as an unknown token does.

  function ModeOf(v: Value): Option<ExecutionMode> {
    if v.VStr? then ModeFromToken(v.s) else None
  }

  function RuntimeOf(v: Value): Option<RuntimeType> {
    if v.VStr? then RuntimeFromToken(v.s) else None
  }

  function ActionKindOf(v: Value): Option<ActionType> {
    if v.VStr? then ActionFromToken(v.s) else None
  }

  /** One step of the implementation plan. */
  datatype Action = Action(
    kind: ActionType,
    httpMethod: Option<string>,
    target: Option<string>,
    params: map<string, Value>)

  const DefaultBaseImage: string := "python:3.12-slim"
  const DefaultLanguage: string := "python"

  datatype Environment = Environment(
    runtime: RuntimeType,
    baseImage: string,
    services: seq<string>,
    ports: seq<int>,
    volumes: seq<string>,
    envVars: map<string, string>)

  function DefaultEnvironment(): Environment {
    Environment(Docker, DefaultBaseImage, [], [], [], map[])
  }

  datatype Implementation = Implementation(
    language: string,
    framework: Option<string>,
    actions: seq<Action>)

  function DefaultImplementation(): Implementation {
    Implementation(DefaultLanguage, None, [])
  }

  datatype Intent = Intent(name: string, goal: string, description: Option<string>)

  /** The root aggregate.  `iterationHistory` holds the history records as
      the decoded mappings Python keeps in its list of dicts. */
  datatype IntentIR = IntentIR(
    id: string,
    version: int,
    createdAt: string,
    updatedAt: string,
    intent: Intent,
    environment: Environment,
    implementation: Implementation,
    executionMode: ExecutionMode,
    amenApproved: bool,
    iterationCount: int,
    iterationHistory: seq<Value>,
    generatedCode: Option<string>,
    dockerfile: Option<string>,
    dryRunLogs: seq<string>)

  /** The iteration counter agrees with the history length. */
  predicate IterationConsistent(ir: IntentIR) {
    ir.iterationCount == |ir.iterationHistory|
  }

  /** The `"iteration"` number of a history record, if it has one. */
  function IterationOf(record: Value): Option<int> {
    if record.VMap? && "iteration" in record.entries && record.entries["iteration"].VInt?
    then Some(record.entries["iteration"].i)
    else None
  }

  /** Each history record carries its own 1-based position. */
  predicate HistoryNumbered(ir: IntentIR) {
    forall i :: 0 <= i < |ir.iterationHistory| ==> IterationOf(ir.iterationHistory[i]) == Some(i + 1)
  }

  /** Approval only ever comes together with transactional mode. */
  predicate ApprovalCommitted(ir: IntentIR) {
    ir.amenApproved ==> ir.executionMode == Transactional
  }

  /** What `IntentIR()` draws for the fields it is not given: the first
      eight characters of a fresh uuid, and one clock reading for each
      timestamp, since each default factory calls `datetime.now()` itself. */
  datatype Fresh = Fresh(id: string, createdAt: string, updatedAt: string)

  /** A freshly constructed `IntentIR()`, with its generated id and clock
      readings supplied by the caller. */
  function NewIntentIR(f: Fresh): (ir: IntentIR)
    ensures !ir.amenApproved && ir.executionMode == DryRun
    ensures ir.version == 1 && ir.iterationCount == 0 && ir.iterationHistory == []
    ensures ir.id == f.id && ir.createdAt == f.createdAt && ir.updatedAt == f.updatedAt
    ensures IterationConsistent(ir) && HistoryNumbered(ir) && ApprovalCommitted(ir)
  {
    IntentIR(f.id, 1, f.createdAt, f.updatedAt, Intent("", "", None), DefaultEnvironment(), DefaultImplementation(),
             DryRun, false, 0, [], None, None, [])
  }

  /** The mapping `add_iteration` appends to the history. */
  function HistoryRecord(iteration: int, timestamp: string, source: string, changes: map<string, Value>): Value {
    VMap(map["iteration" := VInt(iteration), "timestamp" := VStr(timestamp),
             "source" := VStr(source), "changes" := VMap(changes)])
  }

  /** `add_iteration(changes, source)` at clock reading `now`. */
  function AddIteration(ir: IntentIR, changes: map<string, Value>, source: string, now: string): (r: IntentIR)
    ensures r.iterationCount == ir.iterationCount + 1
    ensures |r.iterationHistory| == |ir.iterationHistory| + 1
    ensures r.iterationHistory[..|ir.iterationHistory|] == ir.iterationHistory
    ensures var last := r.iterationHistory[|ir.iterationHistory|];
            && last.VMap?
            && last.entries.Keys == {"iteration", "timestamp", "source", "changes"}
            && last.entries["iteration"] == VInt(r.iterationCount)
            && last.entries["timestamp"] == VStr(r.updatedAt)
            && last.entries["source"] == VStr(source)
            && last.entries["changes"] == VMap(changes)
    ensures r.updatedAt == now
    ensures r == ir.(iterationCount := r.iterationCount, updatedAt := r.updatedAt,
                     iterationHistory := r.iterationHistory)
  {
    var count := ir.iterationCount + 1;
    ir.(iterationCount := count,
        updatedAt := now,
        iterationHistory := ir.iterationHistory + [HistoryRecord(count, now, source, changes)])
  }

  /** Recording an iteration keeps the counter in step with the history,
      numbers the new record after the old ones, and leaves the approval
      state alone. */
  lemma AddIterationPreserves(ir: IntentIR, changes: map<string, Value>, source: string, now: string)
    ensures var r := AddIteration(ir, changes, source, now);
            && (IterationConsistent(ir) ==> IterationConsistent(r))
            && (IterationConsistent(ir) && HistoryNumbered(ir) ==> HistoryNumbered(r))
            && (ApprovalCommitted(ir) ==> ApprovalCommitted(r))
  {
  }

  /** `approve_amen()` at clock reading `now`: the AMEN boundary. */
  function ApproveAmen(ir: IntentIR, now: string): (r: IntentIR)
    ensures r.amenApproved && r.executionMode == Transactional
    ensures r.updatedAt == now
    ensures r == ir.(amenApproved := true, executionMode := Transactional, updatedAt := now)
    ensures ApprovalCommitted(r)
  {
    ir.(amenApproved := true, executionMode := Transactional, updatedAt := now)
  }

  /** Approving twice is approving once (up to the clock reading). */
  lemma ApproveAmenIdempotent(ir: IntentIR, t1: string, t2: string)
    ensures ApproveAmen(ApproveAmen(ir, t1), t2) == ApproveAmen(ir, t2)
    ensures ApproveAmen(ApproveAmen(ir, t1), t2).amenApproved == ApproveAmen(ir, t1).amenApproved
    ensures ApproveAmen(ApproveAmen(ir, t1), t2).executionMode == ApproveAmen(ir, t1).executionMode
  {
  }
}
