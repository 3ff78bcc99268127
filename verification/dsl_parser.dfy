/**
  `DSLParser.parse` (parser/dsl_parser.py): from a decoded YAML document to
  an `IntentIR`, collecting errors and warnings section by section.

  The YAML decoder is outside the model: its result is a `Decoded` value,
  either the decoder's complaint or the document.  The parser's three
  exits are outcomes: `ParseError` and `ValidationFailed` are the two
  exceptions it raises, `Parsed` the IR it returns with the warnings it
  collected.  A fourth outcome, `Unsupported`, stands for the inputs on
  which Python raises an exception the parser does not catch, or builds
  an IR holding a value of another type than the field declares (a number
  as the language, say), which the typed model cannot hold.
 */
module DslParser {
  import opened Wrappers
  import opened Text
  import opened Values
  import opened Models
  import opened Codec
  import opened ActionGrammar
  import opened Seqs

  /** What `yaml.safe_load` produced. */
  datatype Decoded = Malformed(detail: string) | Document(data: Value)

  datatype Outcome =
    | ParseError(message: string)
    | ValidationFailed(errors: seq<string>)
    | Parsed(ir: IntentIR, warnings: seq<string>)
    | Unsupported(reason: string)

  /** How faithfully a section's typed value stands for what Python builds. */
  datatype Fidelity =
    | Exact      // the typed value is the one Python builds
    | IllTyped   // Python stores a value of another type than the field's
    | Unordered  // Python visits mapping keys in an insertion order the model does not keep
    | Crashes    // Python raises an exception the parser does not catch

  /** The result of parsing one section: the value Python keeps, and what the
      section appended to the parser's error and warning lists. */
  datatype Section<T> = Section(value: T, errors: seq<string>, warnings: seq<string>, fidelity: Fidelity)

  function Worst(a: Fidelity, b: Fidelity): Fidelity {
    if a == Crashes || b == Crashes then Crashes
    else if a == Unordered || b == Unordered then Unordered
    else if a == IllTyped || b == IllTyped then IllTyped
    else Exact
  }

  function FidelityOf<T>(r: Result<T, DecodeError>): (f: Fidelity)
    ensures f == Exact || f == IllTyped
  {
    if r.Ok? then Exact else IllTyped
  }

  function ValueOr<T>(r: Result<T, DecodeError>, default: T): T {
    if r.Ok? then r.value else default
  }

  // ----- INTENT -----

  /** `_parse_intent`. */
  function ParseIntent(v: Value): (r: Section<Intent>)
    ensures !v.VMap? ==> r.errors == ["INTENT must be a dictionary"]
    ensures v.VMap? ==>
              ("INTENT.name is required" in r.errors <==> !Truthy(Get(v.entries, "name", VStr(""))))
              && ("INTENT.goal is required" in r.errors <==> !Truthy(Get(v.entries, "goal", VStr(""))))
    ensures v.VMap? ==>
              |r.errors| == (if Truthy(Get(v.entries, "name", VStr(""))) then 0 else 1)
                            + (if Truthy(Get(v.entries, "goal", VStr(""))) then 0 else 1)
    ensures |r.errors| == 2 ==> r.errors == ["INTENT.name is required", "INTENT.goal is required"]
    ensures r.errors == [] && r.fidelity == Exact ==> r.value.name != [] && r.value.goal != []
    ensures r.warnings == []
  {
    if !v.VMap? then Section(Intent("", "", None), ["INTENT must be a dictionary"], [], Exact)
    else
      var m := v.entries;
      var name := Get(m, "name", VStr(""));
      var goal := Get(m, "goal", VStr(""));
      var description := GetOptStr(m, "description");
      var errors := (if Truthy(name) then [] else ["INTENT.name is required"])
                    + (if Truthy(goal) then [] else ["INTENT.goal is required"]);
      var fidelity := if name.VStr? && goal.VStr? && description.Ok? then Exact else IllTyped;
      var it := Intent(if name.VStr? then name.s else "", if goal.VStr? then goal.s else "", ValueOr(description, None));
      Section(it, errors, [], fidelity)
  }

  // ----- ENVIRONMENT -----

  /** `_parse_environment`: an unknown runtime is a warning, not an error,
      and the environment runs on docker. */
  function ParseEnvironment(v: Value): (r: Section<Environment>)
    ensures !v.VMap? ==> r.errors == ["ENVIRONMENT must be a dictionary"] && r.value == DefaultEnvironment()
                         && r.warnings == []
    ensures v.VMap? ==> r.errors == []
    ensures v.VMap? && "runtime" !in v.entries ==> r.value.runtime == Docker && r.warnings == []
    ensures v.VMap? && "runtime" in v.entries && RuntimeOf(v.entries["runtime"]).Some?
            ==> Some(r.value.runtime) == RuntimeOf(v.entries["runtime"]) && r.warnings == []
    ensures v.VMap? && "runtime" in v.entries && RuntimeOf(v.entries["runtime"]).None?
            ==> r.value.runtime == Docker
                && r.warnings == ["Unknown runtime '" + Render(v.entries["runtime"]) + "', defaulting to docker"]
  {
    if !v.VMap? then Section(DefaultEnvironment(), ["ENVIRONMENT must be a dictionary"], [], Exact)
    else
      var m := v.entries;
      var token := Get(m, "runtime", VStr("docker"));
      var known := RuntimeOf(token);
      var warnings := if known.Some? then [] else ["Unknown runtime '" + Render(token) + "', defaulting to docker"];
      var baseImage := GetStr(m, "base_image", DefaultBaseImage);
      var services := GetStrList(m, "services");
      var ports := GetIntList(m, "ports");
      var volumes := GetStrList(m, "volumes");
      var envVars := GetStrMap(m, "env_vars");
      var fidelity := Worst(Worst(FidelityOf(baseImage), FidelityOf(services)),
                            Worst(Worst(FidelityOf(ports), FidelityOf(volumes)), FidelityOf(envVars)));
      var env := Environment(known.GetOr(Docker), ValueOr(baseImage, DefaultBaseImage), ValueOr(services, []),
                             ValueOr(ports, []), ValueOr(volumes, []), ValueOr(envVars, map[]));
      Section(env, [], warnings, fidelity)
  }

  // ----- IMPLEMENTATION -----

  /** What `_parse_action` makes of one entry of the action list. */
  datatype ActionEntry =
    | Accepted(action: Action)
    | Rejected(error: string)
    | EntryIllTyped

  /** The message of the `ValueError` that `ActionType(x)` raises. */
  function InvalidActionTypeError(token: Value): string {
    "Invalid action type: " + Repr(token) + " is not a valid ActionType"
  }

  /** `_parse_action`: a mapping takes the dictionary path, anything else is
      turned into its `str` and matched as an action line. */
  function ParseActionEntry(entry: Value): (r: ActionEntry)
    ensures entry.VMap? ==> (r.Rejected? <==> ActionKindOf(Get(entry.entries, "type", VStr(""))).None?)
    ensures entry.VMap? && r.Accepted? ==>
              "type" in entry.entries && entry.entries["type"] == VStr(ActionToken(r.action.kind))
    ensures entry.VMap? && r.Rejected? ==> r.error == InvalidActionTypeError(Get(entry.entries, "type", VStr("")))
    ensures !entry.VMap? ==> !r.EntryIllTyped?
    ensures !entry.VMap? && r.Accepted? ==> ParseActionLine(Render(entry)) == Ok(r.action)
    ensures !entry.VMap? && r.Rejected? ==> ParseActionLine(Render(entry)) == Err(r.error)
  {
    if entry.VMap? then
      var m := entry.entries;
      var token := Get(m, "type", VStr(""));
      var kind := ActionKindOf(token);
      if kind.None? then Rejected(InvalidActionTypeError(token))
      else
        var httpMethod := GetOptStr(m, "method");
        var target := GetOptStr(m, "target");
        var params := GetMap(m, "params");
        if httpMethod.Err? || target.Err? || params.Err? then EntryIllTyped
        else Accepted(Action(kind.value, httpMethod.value, target.value, params.value))
    else
      match ParseActionLine(Render(entry))
      case Ok(a) => Accepted(a)
      case Err(e) => Rejected(e)
  }

  /** The actions kept from a list of entries, in order. */
  function AcceptedActions(entries: seq<ActionEntry>): seq<Action> {
    if entries == [] then [] else AcceptedOf(entries[0]) + AcceptedActions(entries[1..])
  }

  /** The errors recorded for a list of entries, in order. */
  function RejectionErrors(entries: seq<ActionEntry>): seq<string> {
    if entries == [] then [] else ErrorOf(entries[0]) + RejectionErrors(entries[1..])
  }

  /** The action one entry adds, if it was accepted. */
  function AcceptedOf(e: ActionEntry): seq<Action> {
    if e.Accepted? then [e.action] else []
  }

  /** The error one entry records, if it was rejected. */
  function ErrorOf(e: ActionEntry): seq<string> {
    if e.Rejected? then [e.error] else []
  }

  function ParseEntries(items: seq<Value>): (r: seq<ActionEntry>)
    ensures |r| == |items|
  {
    seq(|items|, i requires 0 <= i < |items| => ParseActionEntry(items[i]))
  }

  /** What `for action_str in data.get("actions", [])` visits. */
  datatype Visit =
    | Items(items: seq<Value>)  // the items of a list, the characters of a string
    | MappingKeys               // the keys of a non-empty mapping, in insertion order
    | NotIterable               // `None`, a boolean or a number: the loop raises `TypeError`

  function ActionItems(v: Value): (r: Visit)
    ensures v.VList? ==> r == Items(v.items)
    ensures v.VStr? ==> r.Items? && |r.items| == |v.s| && forall i :: 0 <= i < |v.s| ==> r.items[i] == VStr([v.s[i]])
    ensures v == VMap(map[]) ==> r == Items([])
    ensures r.MappingKeys? <==> v.VMap? && v.entries != map[]
    ensures r.NotIterable? <==> v.VNull? || v.VBool? || v.VInt?
  {
    match v
    case VList(items) => Items(items)
    case VStr(s) => Items(seq(|s|, i requires 0 <= i < |s| => VStr([s[i]])))
    case VMap(entries) => if entries == map[] then Items([]) else MappingKeys
    case _ => NotIterable
  }

  /** `_parse_implementation`. */
  function ParseImplementation(v: Value): (r: Section<Implementation>)
    ensures !v.VMap? ==> r.errors == ["IMPLEMENTATION must be a dictionary"] && r.value == DefaultImplementation()
    ensures r.warnings == []
    ensures v.VMap? ==> (r.fidelity == Crashes <==> ActionItems(Get(v.entries, "actions", VList([]))).NotIterable?)
    ensures v.VMap? ==> (r.fidelity == Unordered <==> ActionItems(Get(v.entries, "actions", VList([]))).MappingKeys?)
    ensures v.VMap? && ActionItems(Get(v.entries, "actions", VList([]))).Items? ==>
              var entries := ParseEntries(ActionItems(Get(v.entries, "actions", VList([]))).items);
              r.value.actions == AcceptedActions(entries) && r.errors == RejectionErrors(entries)
  {
    if !v.VMap? then Section(DefaultImplementation(), ["IMPLEMENTATION must be a dictionary"], [], Exact)
    else
      var m := v.entries;
      var language := GetStr(m, "language", DefaultLanguage);
      var framework := GetOptStr(m, "framework");
      match ActionItems(Get(m, "actions", VList([])))
      case NotIterable => Section(DefaultImplementation(), [], [], Crashes)
      case MappingKeys => Section(DefaultImplementation(), [], [], Unordered)
      case Items(items) =>
        var entries := ParseEntries(items);
        var typed := forall i :: 0 <= i < |entries| ==> !entries[i].EntryIllTyped?;
        var declared := Worst(FidelityOf(language), FidelityOf(framework));
        var fidelity := if declared == IllTyped || !typed then IllTyped else Exact;
        var impl := Implementation(ValueOr(language, DefaultLanguage), ValueOr(framework, None), AcceptedActions(entries));
        Section(impl, RejectionErrors(entries), [], fidelity)
  }

  // ----- EXECUTION -----

  /** `_parse_execution`: an unknown mode is a warning and means dry-run. */
  function ParseExecution(v: Value): (r: Section<ExecutionMode>)
    ensures !v.VMap? ==> r.errors == ["EXECUTION must be a dictionary"] && r.value == DryRun && r.warnings == []
    ensures v.VMap? ==> r.errors == []
    ensures r.value == Transactional <==>
              v.VMap? && Get(v.entries, "mode", VStr("dry-run")) == VStr("transactional")
    ensures v.VMap? && ModeOf(Get(v.entries, "mode", VStr("dry-run"))).Some? ==>
              Some(r.value) == ModeOf(Get(v.entries, "mode", VStr("dry-run"))) && r.warnings == []
    ensures v.VMap? && ModeOf(Get(v.entries, "mode", VStr("dry-run"))).None? ==>
              r.value == DryRun
              && r.warnings == ["Unknown execution mode '" + Render(Get(v.entries, "mode", VStr("dry-run"))) + "', defaulting to dry-run"]
    ensures r.fidelity == Exact
  {
    if !v.VMap? then Section(DryRun, ["EXECUTION must be a dictionary"], [], Exact)
    else
      var token := Get(v.entries, "mode", VStr("dry-run"));
      var known := ModeOf(token);
      if known.Some? then Section(known.value, [], [], Exact)
      else Section(DryRun, [], ["Unknown execution mode '" + Render(token) + "', defaulting to dry-run"], Exact)
  }

  // ----- validation -----

  /** The framework/language pairs `_validate` checks, with the error each
      mismatch records. */
  const Compatibility: seq<(string, string, string)> := [
    ("fastapi", "python", "FastAPI requires Python language"),
    ("express", "node", "Express requires Node.js language")
  ]

  /** The compatibility errors for the framework and language values, in
      table order. */
  function CompatErrors(framework: Value, language: Value, table: seq<(string, string, string)>): (r: seq<string>)
    ensures |r| <= |table|
  {
    if table == [] then []
    else
      var (fw, lang, message) := table[0];
      (if framework == VStr(fw) && language != VStr(lang) then [message] else [])
      + CompatErrors(framework, language, table[1..])
  }

  /** The frameworks the parser knows run only on their own language. */
  predicate Compatible(framework: Value, language: Value) {
    && (framework == VStr("fastapi") ==> language == VStr("python"))
    && (framework == VStr("express") ==> language == VStr("node"))
  }

  predicate RunsAsRoot(a: Action) {
    a.kind == ShellExec && MentionsRoot(VMap(a.params))
  }

  /** The warnings of `_validate`'s loop: one per shell command whose
      parameters mention root, in action order. */
  function RootWarnings(actions: seq<Action>): (r: seq<string>)
    ensures |r| <= |actions|
  {
    if actions == [] then [] else RootWarning(actions[0]) + RootWarnings(actions[1..])
  }

  /** The warning one action draws, if it runs as root. */
  function RootWarning(a: Action): seq<string> {
    if RunsAsRoot(a) then ["Action '" + OptText(a.target) + "' may run as root - review carefully"] else []
  }

  // ----- the whole document -----

  predicate EndsWith(s: seq<string>, suffix: seq<string>) {
    |suffix| <= |s| && s[|s| - |suffix|..] == suffix
  }

  /** The four top-level section names. */
  const SectionKeys: seq<string> := ["INTENT", "ENVIRONMENT", "IMPLEMENTATION", "EXECUTION"]

  /** `key in data` for a string or list document: a substring test on a
      string, a membership test on a list.  (On a number or a boolean the
      test itself raises `TypeError`.) */
  predicate NamesSection(data: Value, key: string) {
    match data
    case VStr(s) => Contains(s, key)
    case VList(items) => VStr(key) in items
    case _ => false
  }

  /** The section value, or `None` when the document has no such key. */
  function SectionOf(m: map<string, Value>, key: string): Option<Value> {
    if key in m then Some(m[key]) else None
  }

  /** `parse(dsl_content)` on the decoder's result; `f` holds the identifier
      and clock readings the new `IntentIR()` takes. */
  function ParseDocument(d: Decoded, f: Fresh): (r: Outcome)
    ensures d.Malformed? ==> r == ParseError("Invalid YAML: " + d.detail)
    ensures d.Document? && !Truthy(d.data) ==> r == ParseError("Empty DSL content")
    ensures d.Document? && Truthy(d.data) && (d.data.VInt? || d.data.VBool?) ==> r.Unsupported?
    ensures r.ValidationFailed? ==> r.errors != []
    ensures d.Document? && d.data.VMap? && "INTENT" !in d.data.entries && Truthy(d.data) ==>
              r.Unsupported? || (r.ValidationFailed? && r.errors[0] == "Missing required section: INTENT")
    ensures d.Document? && d.data.VMap? && r.ValidationFailed? ==>
              r.errors == AllErrors(ReadSections(d.data.entries, NewIntentIR(f)), d.data.entries)
    ensures d.Document? && (d.data.VStr? || d.data.VList?) && r.ValidationFailed? ==>
              r.errors == ["Missing required section: INTENT"]
    ensures r.Parsed? ==> d.Document? && d.data.VMap? && "INTENT" in d.data.entries
    ensures r.Parsed? ==> r.ir.intent.name != [] && r.ir.intent.goal != []
    ensures r.Parsed? ==> r.ir == NewIntentIR(f).(intent := r.ir.intent,
                                                   environment := r.ir.environment,
                                                   implementation := r.ir.implementation,
                                                   executionMode := r.ir.executionMode)
    ensures r.Parsed? ==> EndsWith(r.warnings, RootWarnings(r.ir.implementation.actions))
  {
    match d
    case Malformed(detail) => ParseError("Invalid YAML: " + detail)
    case Document(data) =>
      if !Truthy(data) then ParseError("Empty DSL content")
      else if data.VInt? || data.VBool? then Unsupported("a membership test on a number")
      else if !data.VMap? then
        if exists i :: 0 <= i < |SectionKeys| && NamesSection(data, SectionKeys[i])
        then Unsupported("a section of a document that is not a mapping")
        else ValidationFailed(["Missing required section: INTENT"])
      else ParseSections(data.entries, NewIntentIR(f))
  }

  /** The four sections as `parse` reads them, a missing section leaving
      the fresh IR's value in place. */
  datatype Sections = Sections(
    intent: Section<Intent>,
    env: Section<Environment>,
    impl: Section<Implementation>,
    exec: Section<ExecutionMode>)

  function ReadSections(m: map<string, Value>, base: IntentIR): (s: Sections)
    ensures "INTENT" !in m ==> s.intent.errors == ["Missing required section: INTENT"] && s.intent.fidelity == Exact
    ensures "INTENT" in m ==> s.intent == ParseIntent(m["INTENT"])
  {
    var intent := match SectionOf(m, "INTENT")
      case None => Section(base.intent, ["Missing required section: INTENT"], [], Exact)
      case Some(v) => ParseIntent(v);
    var env := match SectionOf(m, "ENVIRONMENT")
      case None => Section(base.environment, [], [], Exact)
      case Some(v) => ParseEnvironment(v);
    var impl := match SectionOf(m, "IMPLEMENTATION")
      case None => Section(base.implementation, [], [], Exact)
      case Some(v) => ParseImplementation(v);
    var exec := match SectionOf(m, "EXECUTION")
      case None => Section(base.executionMode, [], [], Exact)
      case Some(v) => ParseExecution(v);
    Sections(intent, env, impl, exec)
  }

  /** The framework and language values `_validate` compares: the raw
      values of the IMPLEMENTATION mapping, or the defaults. */
  function FrameworkValue(m: map<string, Value>): Value {
    var implData := Get(m, "IMPLEMENTATION", VMap(map[]));
    if implData.VMap? then Get(implData.entries, "framework", VNull) else VNull
  }

  function LanguageValue(m: map<string, Value>): Value {
    var implData := Get(m, "IMPLEMENTATION", VMap(map[]));
    if implData.VMap? then Get(implData.entries, "language", VStr(DefaultLanguage)) else VStr(DefaultLanguage)
  }

  /** The errors of `parse`, in the order it records them. */
  function AllErrors(s: Sections, m: map<string, Value>): (r: seq<string>)
    ensures s.intent.errors != [] ==> r != [] && r[0] == s.intent.errors[0]
    ensures r == [] ==> s.intent.errors == []
  {
    s.intent.errors + s.env.errors + s.impl.errors + s.exec.errors
    + CompatErrors(FrameworkValue(m), LanguageValue(m), Compatibility)
  }

  function Overall(s: Sections): Fidelity {
    Worst(Worst(s.intent.fidelity, s.env.fidelity), Worst(s.impl.fidelity, s.exec.fidelity))
  }

  /** The section-by-section part of `parse`, starting from the fresh IR:
      it raises `ValidationError` with every collected error exactly when
      there is one and no section crashed, and returns the IR exactly when
      there is none and every section is exact. */
  function ParseSections(m: map<string, Value>, base: IntentIR): (r: Outcome)
    ensures var s := ReadSections(m, base);
            && (r.ValidationFailed? <==> (Overall(s) == Exact || Overall(s) == IllTyped) && AllErrors(s, m) != [])
            && (r.ValidationFailed? ==> r.errors == AllErrors(s, m))
            && (r.Parsed? <==> Overall(s) == Exact && AllErrors(s, m) == [])
    ensures r.ValidationFailed? ==> r.errors != []
    ensures "INTENT" !in m ==> r.Unsupported? || (r.ValidationFailed? && r.errors[0] == "Missing required section: INTENT")
    ensures r.Parsed? ==> "INTENT" in m && r.ir.intent.name != [] && r.ir.intent.goal != []
    ensures r.Parsed? ==> r.ir == base.(intent := r.ir.intent, environment := r.ir.environment,
                                        implementation := r.ir.implementation, executionMode := r.ir.executionMode)
    ensures r.Parsed? ==> EndsWith(r.warnings, RootWarnings(r.ir.implementation.actions))
  {
    var s := ReadSections(m, base);
    var ir := base.(intent := s.intent.value, environment := s.env.value,
                    implementation := s.impl.value, executionMode := s.exec.value);
    var errors := AllErrors(s, m);
    var rootWarnings := RootWarnings(ir.implementation.actions);
    var warnings := s.env.warnings + s.exec.warnings + rootWarnings;
    var fidelity := Overall(s);
    if fidelity == Crashes then Unsupported("an exception the parser does not catch")
    else if fidelity == Unordered then Unsupported("action entries read in mapping key order")
    else if errors != [] then ValidationFailed(errors)
    else if fidelity == IllTyped then Unsupported("a field value of another type than the field's")
    else
      assert s.intent.fidelity == Exact;
      assert warnings[|warnings| - |rootWarnings|..] == rootWarnings;
      Parsed(ir, warnings)
  }

  // ----- properties -----

  /** The compatibility table records no error exactly when the framework
      runs on its language. */
  lemma CompatErrorsNoneIffCompatible(framework: Value, language: Value)
    ensures CompatErrors(framework, language, Compatibility) == [] <==> Compatible(framework, language)
  {
    var rest := Compatibility[1..];
    assert CompatErrors(framework, language, rest)
           == (if framework == VStr("express") && language != VStr("node") then ["Express requires Node.js language"] else [])
              + CompatErrors(framework, language, rest[1..]);
  }

  /** A parsed document never pairs a framework with the wrong language. */
  lemma ParsedIsCompatible(m: map<string, Value>, base: IntentIR)
    requires ParseSections(m, base).Parsed?
    ensures Compatible(FrameworkValue(m), LanguageValue(m))
  {
    var s := ReadSections(m, base);
    assert AllErrors(s, m) == [];
    CompatErrorsNoneIffCompatible(FrameworkValue(m), LanguageValue(m));
  }

  /** `_validate` warns about root exactly when some shell command mentions it. */
  lemma {:induction false} RootWarningsNoneIff(actions: seq<Action>)
    ensures RootWarnings(actions) == [] <==> forall i :: 0 <= i < |actions| ==> !RunsAsRoot(actions[i])
  {
    if actions != [] {
      RootWarningsNoneIff(actions[1..]);
      assert forall i :: 1 <= i < |actions| ==> actions[i] == actions[1..][i - 1];
    }
  }

  /** One warning per shell command that mentions root: the warnings of a
      list are those of its parts. */
  lemma {:induction false} RootWarningsAppend(a: seq<Action>, b: seq<Action>)
    ensures RootWarnings(a + b) == RootWarnings(a) + RootWarnings(b)
  {
    if a == [] {
      assert a + b == b;
    } else {
      assert (a + b)[0] == a[0] && (a + b)[1..] == a[1..] + b;
      RootWarningsAppend(a[1..], b);
      var w := RootWarning(a[0]);
      assert RootWarnings(a + b) == w + (RootWarnings(a[1..]) + RootWarnings(b));
      assert RootWarnings(a) == w + RootWarnings(a[1..]);
      AppendAssoc(w, RootWarnings(a[1..]), RootWarnings(b));
    }
  }

  /** `Action.to_dict()` output is accepted by the dictionary path of
      `_parse_action` and gives back the action. */
  lemma DictEntryRoundTrip(a: Action)
    ensures ParseActionEntry(EncodeAction(a)) == Accepted(a)
  {
  }

  // ----- the action loop -----

  lemma {:induction false} AcceptedActionsSnoc(entries: seq<ActionEntry>, e: ActionEntry)
    ensures AcceptedActions(entries + [e]) == AcceptedActions(entries) + AcceptedOf(e)
  {
    if entries == [] {
      assert entries + [e] == [e];
      assert AcceptedActions([e]) == AcceptedOf(e) + AcceptedActions([]);
    } else {
      var x := AcceptedOf(entries[0]);
      assert (entries + [e])[0] == entries[0] && (entries + [e])[1..] == entries[1..] + [e];
      AcceptedActionsSnoc(entries[1..], e);
      assert AcceptedActions(entries + [e]) == x + (AcceptedActions(entries[1..]) + AcceptedOf(e));
      AppendAssoc(x, AcceptedActions(entries[1..]), AcceptedOf(e));
    }
  }

  lemma {:induction false} RejectionErrorsSnoc(entries: seq<ActionEntry>, e: ActionEntry)
    ensures RejectionErrors(entries + [e]) == RejectionErrors(entries) + ErrorOf(e)
  {
    if entries == [] {
      assert entries + [e] == [e];
      assert RejectionErrors([e]) == ErrorOf(e) + RejectionErrors([]);
    } else {
      var x := ErrorOf(entries[0]);
      assert (entries + [e])[0] == entries[0] && (entries + [e])[1..] == entries[1..] + [e];
      RejectionErrorsSnoc(entries[1..], e);
      assert RejectionErrors(entries + [e]) == x + (RejectionErrors(entries[1..]) + ErrorOf(e));
      AppendAssoc(x, RejectionErrors(entries[1..]), ErrorOf(e));
    }
  }

  /** The `for action_str in ...` loop of `_parse_implementation`, appending
      each accepted action and each error as it goes; it agrees with the
      entry-by-entry reading. */
  method ParseActionList(items: seq<Value>) returns (actions: seq<Action>, errors: seq<string>)
    ensures actions == AcceptedActions(ParseEntries(items))
    ensures errors == RejectionErrors(ParseEntries(items))
  {
    var entries := ParseEntries(items);
    actions := [];
    errors := [];
    var i := 0;
    while i < |items|
      invariant 0 <= i <= |items|
      invariant actions == AcceptedActions(entries[..i])
      invariant errors == RejectionErrors(entries[..i])
    {
      var entry := entries[i];
      PrefixSnoc(entries, i);
      AcceptedActionsSnoc(entries[..i], entry);
      RejectionErrorsSnoc(entries[..i], entry);
      // an accepted entry appends its action, a rejected one its error
      actions := actions + AcceptedOf(entry);
      errors := errors + ErrorOf(entry);
      i := i + 1;
    }
    PrefixAll(entries);
  }

  // ----- documents written from an IR -----

  /** The DSL document whose sections are the `to_dict` forms of an IR's
      intent, environment and implementation, with its execution mode. */
  function DslDocument(it: Intent, env: Environment, impl: Implementation, mode: ExecutionMode): Value {
    VMap(map["INTENT" := EncodeIntent(it),
             "ENVIRONMENT" := EncodeEnvironment(env),
             "IMPLEMENTATION" := EncodeImplementation(impl),
             "EXECUTION" := VMap(map["mode" := VStr(ModeToken(mode))])])
  }

  lemma IntentSectionRoundTrip(it: Intent)
    requires it.name != [] && it.goal != []
    ensures ParseIntent(EncodeIntent(it)) == Section(it, [], [], Exact)
  {
  }

  lemma EnvironmentSectionRoundTrip(env: Environment)
    ensures ParseEnvironment(EncodeEnvironment(env)) == Section(env, [], [], Exact)
  {
    var m := EncodeEnvironment(env).entries;
    ReadEncodedStrList(m, "services", env.services);
    ReadEncodedIntList(m, "ports", env.ports);
    ReadEncodedStrList(m, "volumes", env.volumes);
    ReadEncodedStrMap(m, "env_vars", env.envVars);
    assert RuntimeFromToken(RuntimeToken(env.runtime)) == Some(env.runtime);
  }

  lemma {:induction false} EncodedEntriesAccepted(actions: seq<Action>)
    ensures AcceptedActions(ParseEntries(EncodeActions(actions).items)) == actions
    ensures RejectionErrors(ParseEntries(EncodeActions(actions).items)) == []
    ensures forall i :: 0 <= i < |actions| ==> ParseEntries(EncodeActions(actions).items)[i] == Accepted(actions[i])
  {
    var entries := ParseEntries(EncodeActions(actions).items);
    forall i | 0 <= i < |actions|
      ensures entries[i] == Accepted(actions[i])
    {
      DictEntryRoundTrip(actions[i]);
    }
    if actions != [] {
      EncodedEntriesAccepted(actions[1..]);
      var tail := ParseEntries(EncodeActions(actions[1..]).items);
      assert entries[1..] == tail;
      assert [actions[0]] + actions[1..] == actions;
    }
  }

  lemma ImplementationSectionRoundTrip(impl: Implementation)
    ensures ParseImplementation(EncodeImplementation(impl)) == Section(impl, [], [], Exact)
  {
    EncodedEntriesAccepted(impl.actions);
  }

  lemma ExecutionSectionRoundTrip(mode: ExecutionMode)
    ensures ParseExecution(VMap(map["mode" := VStr(ModeToken(mode))])) == Section(mode, [], [], Exact)
  {
  }

  /** The sections of a written-out document read back exactly, without
      errors. */
  lemma DslDocumentSections(it: Intent, env: Environment, impl: Implementation, mode: ExecutionMode, base: IntentIR)
    requires it.name != [] && it.goal != []
    requires Compatible(EncodeOptStr(impl.framework), VStr(impl.language))
    ensures var m := DslDocument(it, env, impl, mode).entries;
            var s := ReadSections(m, base);
            && s == Sections(Section(it, [], [], Exact), Section(env, [], [], Exact),
                             Section(impl, [], [], Exact), Section(mode, [], [], Exact))
            && AllErrors(s, m) == [] && Overall(s) == Exact
  {
    var m := DslDocument(it, env, impl, mode).entries;
    DslDocumentReadSections(it, env, impl, mode, base);
    DslDocumentValidation(it, env, impl, mode);
    CleanSections(ReadSections(m, base), m, it, env, impl, mode);
  }

  /** Sections read without errors or losses, on a document whose framework
      matches its language, collect no error and are exact overall. */
  lemma CleanSections(s: Sections, m: map<string, Value>, it: Intent, env: Environment, impl: Implementation,
                      mode: ExecutionMode)
    requires s == Sections(Section(it, [], [], Exact), Section(env, [], [], Exact),
                           Section(impl, [], [], Exact), Section(mode, [], [], Exact))
    requires CompatErrors(FrameworkValue(m), LanguageValue(m), Compatibility) == []
    ensures AllErrors(s, m) == [] && Overall(s) == Exact
  {
    assert AllErrors(s, m) == [] + [] + [] + [] + [];
  }

  lemma DslDocumentReadSections(it: Intent, env: Environment, impl: Implementation, mode: ExecutionMode, base: IntentIR)
    requires it.name != [] && it.goal != []
    ensures ReadSections(DslDocument(it, env, impl, mode).entries, base)
            == Sections(Section(it, [], [], Exact), Section(env, [], [], Exact),
                        Section(impl, [], [], Exact), Section(mode, [], [], Exact))
  {
    var m := DslDocument(it, env, impl, mode).entries;
    assert SectionOf(m, "INTENT") == Some(EncodeIntent(it));
    assert SectionOf(m, "ENVIRONMENT") == Some(EncodeEnvironment(env));
    assert SectionOf(m, "IMPLEMENTATION") == Some(EncodeImplementation(impl));
    assert SectionOf(m, "EXECUTION") == Some(VMap(map["mode" := VStr(ModeToken(mode))]));
    IntentSectionRoundTrip(it);
    EnvironmentSectionRoundTrip(env);
    ImplementationSectionRoundTrip(impl);
    ExecutionSectionRoundTrip(mode);
  }

  lemma DslDocumentValidation(it: Intent, env: Environment, impl: Implementation, mode: ExecutionMode)
    requires Compatible(EncodeOptStr(impl.framework), VStr(impl.language))
    ensures var m := DslDocument(it, env, impl, mode).entries;
            CompatErrors(FrameworkValue(m), LanguageValue(m), Compatibility) == []
  {
    var m := DslDocument(it, env, impl, mode).entries;
    assert Get(m, "IMPLEMENTATION", VMap(map[])) == EncodeImplementation(impl);
    EncodedImplementationValues(impl);
    CompatErrorsNoneIffCompatible(FrameworkValue(m), LanguageValue(m));
  }

  lemma EncodedImplementationValues(impl: Implementation)
    ensures Get(EncodeImplementation(impl).entries, "language", VStr(DefaultLanguage)) == VStr(impl.language)
    ensures Get(EncodeImplementation(impl).entries, "framework", VNull) == EncodeOptStr(impl.framework)
  {
  }

  /** Writing an IR's sections out as a DSL document and parsing it gives the
      IR back, whenever its intent has a name and a goal and its framework
      matches its language; the only warnings are the root warnings. */
  lemma DocumentRoundTrip(it: Intent, env: Environment, impl: Implementation, mode: ExecutionMode,
                          f: Fresh)
    requires it.name != [] && it.goal != []
    requires Compatible(EncodeOptStr(impl.framework), VStr(impl.language))
    ensures ParseDocument(Document(DslDocument(it, env, impl, mode)), f)
            == Parsed(NewIntentIR(f).(intent := it, environment := env, implementation := impl,
                                                 executionMode := mode),
                      RootWarnings(impl.actions))
  {
    var m := DslDocument(it, env, impl, mode).entries;
    var base := NewIntentIR(f);
    DslDocumentSections(it, env, impl, mode, base);
    CleanSectionsParse(m, base);
    assert [] + [] + RootWarnings(impl.actions) == RootWarnings(impl.actions);
    assert "INTENT" in m;
    MappingDocument(m, f);
  }

  /** A non-empty mapping is parsed section by section from a fresh IR. */
  lemma MappingDocument(m: map<string, Value>, f: Fresh)
    requires m != map[]
    ensures ParseDocument(Document(VMap(m)), f) == ParseSections(m, NewIntentIR(f))
  {
    assert Truthy(VMap(m));
  }

  /** With no errors and every section exact, `parse` returns the IR its
      sections built. */
  lemma CleanSectionsParse(m: map<string, Value>, base: IntentIR)
    requires AllErrors(ReadSections(m, base), m) == [] && Overall(ReadSections(m, base)) == Exact
    ensures var s := ReadSections(m, base);
            ParseSections(m, base)
            == Parsed(base.(intent := s.intent.value, environment := s.env.value,
                            implementation := s.impl.value, executionMode := s.exec.value),
                      s.env.warnings + s.exec.warnings + RootWarnings(s.impl.value.actions))
  {
    var s := ReadSections(m, base);
    var fidelity := Overall(s);
    assert fidelity != Crashes && fidelity != Unordered && fidelity != IllTyped;
  }
}
