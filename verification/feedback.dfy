/**
  The deterministic helpers of the feedback loop (ai_gateway/feedback_loop.py):
  pulling an action line out of free text, the fixed next-step rules,
  applying suggestions to an IR, and the code-fence and plain-text
  fallback parts of reading a model's answer.  The language-model calls
  themselves and the JSON decoding of an answer are not modelled.
 */
module Feedback {
  import opened Wrappers
  import opened Text
  import opened Values
  import opened Models
  import opened ActionGrammar
  import opened Seqs

  // ----- extracting an action from text -----

  /** The type tokens `_extract_action` looks for, in the order it tries them. */
  const ActionTokens: seq<string> := ["api.expose", "db.create", "db.add_column", "shell.exec", "rest.call", "file.create"]

  /** The list is the value tokens of the action types, in declaration order. */
  lemma ActionTokensAreTypeTokens()
    ensures |ActionTokens| == |ActionTypes|
    ensures forall i :: 0 <= i < |ActionTokens| ==> ActionTokens[i] == ActionToken(ActionTypes[i])
  {
  }

  /** `text.find("\n", start)`, with the end of the text for -1. */
  function LineEnd(text: string, start: nat): (r: nat)
    requires start <= |text|
    decreases |text| - start
    ensures start <= r <= |text|
    ensures forall j :: start <= j < r ==> text[j] != '\n'
    ensures r < |text| ==> text[r] == '\n'
  {
    if start == |text| || text[start] == '\n' then start else LineEnd(text, start + 1)
  }

  /** The line of `text` from position `start` on. */
  function LineFrom(text: string, start: nat): string
    requires start <= |text|
  {
    text[start..LineEnd(text, start)]
  }

  /** The position in `tokens` of the first token that occurs in `text`. */
  function FirstFound(text: string, tokens: seq<string>): (r: Option<nat>)
    ensures r.None? <==> forall i :: 0 <= i < |tokens| ==> !Contains(text, tokens[i])
    ensures r.Some? ==> r.value < |tokens| && Contains(text, tokens[r.value])
    ensures r.Some? ==> forall j :: 0 <= j < r.value ==> !Contains(text, tokens[j])
  {
    if tokens == [] then None
    else if Contains(text, tokens[0]) then Some(0)
    else
      match FirstFound(text, tokens[1..])
      case None => None
      case Some(i) => Some(i + 1)
  }

  /** `_extract_action(text)`: the stripped rest of the line from the first
      occurrence of the first type token that occurs, or `None` when none
      occurs. */
  function ExtractAction(text: string): (r: Option<string>)
    ensures r.None? <==> forall i :: 0 <= i < |ActionTokens| ==> !Contains(text, ActionTokens[i])
  {
    match FirstFound(text, ActionTokens)
    case None => None
    case Some(i) => Some(Strip(LineFrom(text, Find(text, ActionTokens[i]).value)))
  }

  /** No type token holds whitespace, so none holds a newline. */
  lemma ActionTokensAreWords()
    ensures forall i :: 0 <= i < |ActionTokens| ==> IsWord(ActionTokens[i])
  {
    assert IsWord("api.expose");
    assert IsWord("db.create");
    assert IsWord("db.add_column");
    assert IsWord("shell.exec");
    assert IsWord("rest.call");
    assert IsWord("file.create");
  }

  /** A line that starts with a word keeps that word through `strip()`. */
  lemma StripKeepsLeadingWord(s: string, w: string)
    requires IsWord(w) && |w| <= |s| && s[..|w|] == w
    ensures |w| <= |Strip(s)| && Strip(s)[..|w|] == w
  {
    assert s[0] == w[0] && s[|w| - 1] == w[|w| - 1];
    DropWhileNone(s, IsSpace);
    DropWhileEndKeepsPrefix(s, IsSpace, |w|);
  }

  /** The line from an occurrence of a word on keeps the whole word. */
  lemma LineKeepsWord(text: string, w: string, start: nat)
    requires IsWord(w) && OccursAt(text, w, start)
    ensures start + |w| <= LineEnd(text, start)
    ensures LineFrom(text, start)[..|w|] == w
  {
    var end := LineEnd(text, start);
    forall j | start <= j < start + |w|
      ensures text[j] != '\n'
    {
      assert text[j] == w[j - start];
    }
    assert text[start..start + |w|] == w;
  }

  /** The line from the first occurrence of a word, stripped, starts with
      that word. */
  lemma StrippedLineStartsWith(text: string, w: string)
    requires IsWord(w) && Contains(text, w)
    ensures var r := Strip(LineFrom(text, Find(text, w).value));
            |w| <= |r| && r[..|w|] == w
  {
    var start := Find(text, w).value;
    LineKeepsWord(text, w, start);
    StripKeepsLeadingWord(LineFrom(text, start), w);
  }

  /** The extracted text always begins with one of the type tokens: what
      `_extract_action` returns is the start of an action line. */
  lemma ExtractedStartsWithToken(text: string)
    requires ExtractAction(text).Some?
    ensures exists i :: 0 <= i < |ActionTokens|
                        && |ActionTokens[i]| <= |ExtractAction(text).value|
                        && ExtractAction(text).value[..|ActionTokens[i]|] == ActionTokens[i]
  {
    var i := FirstFound(text, ActionTokens).value;
    ActionTokensAreWords();
    StrippedLineStartsWith(text, ActionTokens[i]);
  }

  /** When the text mentions a type token, the earliest-listed one that
      occurs is the one extracted, whatever comes before it in the text. */
  lemma ExtractPrefersListOrder(text: string, i: nat)
    requires i < |ActionTokens| && Contains(text, ActionTokens[i])
    requires forall j :: 0 <= j < i ==> !Contains(text, ActionTokens[j])
    ensures ExtractAction(text) == Some(Strip(LineFrom(text, Find(text, ActionTokens[i]).value)))
  {
    var k := FirstFound(text, ActionTokens).value;
    assert !(k < i) && !(i < k);
  }

  // ----- next steps -----

  /** The rules of `suggest_next_steps`, in the order they are listed. */
  datatype NextStep = HealthCheck | Ping | Docs | MoreEndpoints | RunDryRun | Iterate

  function StepText(step: NextStep): string {
    match step
    case HealthCheck => "Add health check endpoint: api.expose GET /health"
    case Ping => "Add ping endpoint: api.expose GET /ping"
    case Docs => "FastAPI includes /docs automatically for OpenAPI"
    case MoreEndpoints => "Consider adding more endpoints for a complete API"
    case RunDryRun => "Run dry-run to see generated code and validate intent"
    case Iterate => "Use 'iterate' command to refine the intent with LLM assistance"
  }

  /** The rule a suggested line comes from: the one whose text it is. */
  function StepOfText(t: string): Option<NextStep> {
    if t == StepText(HealthCheck) then Some(HealthCheck)
    else if t == StepText(Ping) then Some(Ping)
    else if t == StepText(Docs) then Some(Docs)
    else if t == StepText(MoreEndpoints) then Some(MoreEndpoints)
    else if t == StepText(RunDryRun) then Some(RunDryRun)
    else if t == StepText(Iterate) then Some(Iterate)
    else None
  }

  /** Each text decodes to its own rule: the six texts are pairwise
      distinct, by length except for the two 49-character ones, which
      differ in their last character. */
  lemma StepOfStepText(step: NextStep)
    ensures StepOfText(StepText(step)) == Some(step)
  {
    var h, p, d, m, r, i := StepText(HealthCheck), StepText(Ping), StepText(Docs),
                            StepText(MoreEndpoints), StepText(RunDryRun), StepText(Iterate);
    assert |h| == 49 && |p| == 39 && |d| == 48 && |m| == 49 && |r| == 53 && |i| == 62;
    assert h[48] != m[48];
  }

  /** Different rules print different lines. */
  lemma StepTextInjective(a: NextStep, b: NextStep)
    requires StepText(a) == StepText(b)
    ensures a == b
  {
    StepOfStepText(a);
    StepOfStepText(b);
  }

  /** Some exposed endpoint's target contains `fragment`. */
  predicate ExposesPath(actions: seq<Action>, fragment: string) {
    exists i :: 0 <= i < |actions| && actions[i].kind == ApiExpose && Contains(OrDefault(actions[i].target, ""), fragment)
  }

  /** `any(fragment in (e or "") for e in endpoints)`, scanning in order. */
  function AnyEndpointContains(actions: seq<Action>, fragment: string): (r: bool)
    ensures r <==> ExposesPath(actions, fragment)
  {
    if actions == [] then false
    else
      ExposesPathCons(actions, fragment);
      (actions[0].kind == ApiExpose && Contains(OrDefault(actions[0].target, ""), fragment))
      || AnyEndpointContains(actions[1..], fragment)
  }

  lemma ExposesPathCons(actions: seq<Action>, fragment: string)
    requires actions != []
    ensures ExposesPath(actions, fragment) <==>
              (actions[0].kind == ApiExpose && Contains(OrDefault(actions[0].target, ""), fragment))
              || ExposesPath(actions[1..], fragment)
  {
    if ExposesPath(actions[1..], fragment) {
      var i :| 0 <= i < |actions[1..]| && actions[1..][i].kind == ApiExpose
               && Contains(OrDefault(actions[1..][i].target, ""), fragment);
      assert actions[i + 1] == actions[1..][i];
    }
    if ExposesPath(actions, fragment) {
      var i :| 0 <= i < |actions| && actions[i].kind == ApiExpose && Contains(OrDefault(actions[i].target, ""), fragment);
      if i > 0 {
        assert actions[1..][i - 1] == actions[i];
      }
    }
  }

  /** The rules in the order `suggest_next_steps` checks them. */
  const AllSteps: seq<NextStep> := [HealthCheck, Ping, Docs, MoreEndpoints, RunDryRun, Iterate]

  function Rank(step: NextStep): nat {
    match step
    case HealthCheck => 0
    case Ping => 1
    case Docs => 2
    case MoreEndpoints => 3
    case RunDryRun => 4
    case Iterate => 5
  }

  /** Whether a rule fires, computed as the source scans the endpoints. */
  function RuleFires(ir: IntentIR, step: NextStep): bool {
    var actions := ir.implementation.actions;
    match step
    case HealthCheck => !AnyEndpointContains(actions, "/health")
    case Ping => !AnyEndpointContains(actions, "/ping")
    case Docs => ir.implementation.framework == Some("fastapi") && !AnyEndpointContains(actions, "/docs")
    case MoreEndpoints => |actions| < 3
    case RunDryRun => ir.dryRunLogs == []
    case Iterate => ir.iterationCount == 0
  }

  /** The rules of `steps` that fire, in their order. */
  function Firing(ir: IntentIR, steps: seq<NextStep>): seq<NextStep> {
    if steps == [] then []
    else (if RuleFires(ir, steps[0]) then [steps[0]] else []) + Firing(ir, steps[1..])
  }

  /** A rule is kept exactly when it is listed and fires. */
  lemma {:induction false} FiringMembership(ir: IntentIR, steps: seq<NextStep>, x: NextStep)
    ensures x in Firing(ir, steps) <==> x in steps && RuleFires(ir, x)
  {
    if steps != [] {
      FiringMembership(ir, steps[1..], x);
      assert x in steps <==> x == steps[0] || x in steps[1..];
    }
  }

  predicate RankSorted(steps: seq<NextStep>) {
    forall i, j :: 0 <= i < j < |steps| ==> Rank(steps[i]) < Rank(steps[j])
  }

  /** Filtering keeps the rule order. */
  lemma {:induction false} FiringSorted(ir: IntentIR, steps: seq<NextStep>)
    requires RankSorted(steps)
    ensures RankSorted(Firing(ir, steps))
  {
    if steps != [] {
      var rest := steps[1..];
      FiringSorted(ir, rest);
      forall x | x in Firing(ir, rest)
        ensures Rank(steps[0]) < Rank(x)
      {
        FiringMembership(ir, rest, x);
        var m :| 0 <= m < |rest| && rest[m] == x;
        assert steps[m + 1] == x;
      }
    }
  }

  /** Every rule is listed. */
  lemma AllStepsListed(x: NextStep)
    ensures x in AllSteps
  {
    assert AllSteps[Rank(x)] == x;
  }

  /** The rules are listed by rank. */
  lemma AllStepsSorted()
    ensures RankSorted(AllSteps)
  {
    assert forall i :: 0 <= i < |AllSteps| ==> Rank(AllSteps[i]) == i;
  }

  /** Among all the rules, a rule is kept exactly when it fires. */
  lemma FiresExactly(ir: IntentIR, x: NextStep)
    ensures x in Firing(ir, AllSteps) <==> RuleFires(ir, x)
  {
    AllStepsListed(x);
    FiringMembership(ir, AllSteps, x);
  }

  /** The rules that fire for an IR, in rule order. */
  function NextSteps(ir: IntentIR): (r: seq<NextStep>)
    ensures HealthCheck in r <==> !ExposesPath(ir.implementation.actions, "/health")
    ensures Ping in r <==> !ExposesPath(ir.implementation.actions, "/ping")
    ensures Docs in r <==> ir.implementation.framework == Some("fastapi")
                           && !ExposesPath(ir.implementation.actions, "/docs")
    ensures MoreEndpoints in r <==> |ir.implementation.actions| < 3
    ensures RunDryRun in r <==> ir.dryRunLogs == []
    ensures Iterate in r <==> ir.iterationCount == 0
    ensures RankSorted(r)
  {
    FiresExactly(ir, HealthCheck);
    FiresExactly(ir, Ping);
    FiresExactly(ir, Docs);
    FiresExactly(ir, MoreEndpoints);
    FiresExactly(ir, RunDryRun);
    FiresExactly(ir, Iterate);
    AllStepsSorted();
    FiringSorted(ir, AllSteps);
    Firing(ir, AllSteps)
  }

  function StepTexts(steps: seq<NextStep>): (r: seq<string>)
    ensures |r| == |steps|
    ensures forall i :: 0 <= i < |steps| ==> r[i] == StepText(steps[i])
  {
    if steps == [] then [] else [StepText(steps[0])] + StepTexts(steps[1..])
  }

  /** `suggest_next_steps(ir)`. */
  function SuggestNextSteps(ir: IntentIR): seq<string> {
    StepTexts(NextSteps(ir))
  }

  /** A rule's line is suggested exactly when the rule fires. */
  lemma SuggestedIffFires(ir: IntentIR, step: NextStep)
    ensures StepText(step) in SuggestNextSteps(ir) <==> step in NextSteps(ir)
  {
    StepTextsMembership(NextSteps(ir), step);
  }

  /** A line is among the lines of some steps exactly when its step is. */
  lemma StepTextsMembership(steps: seq<NextStep>, step: NextStep)
    ensures StepText(step) in StepTexts(steps) <==> step in steps
  {
    forall a, b | StepText(a) == StepText(b)
      ensures a == b
    {
      StepTextInjective(a, b);
    }
    ImageMembership(steps, StepTexts(steps), StepText, step);
  }

  /** Under a one-to-one map, an image is listed exactly when its source is. */
  lemma ImageMembership<T, U>(xs: seq<T>, ys: seq<U>, f: T -> U, x: T)
    requires |ys| == |xs| && forall i :: 0 <= i < |xs| ==> ys[i] == f(xs[i])
    requires forall a, b :: f(a) == f(b) ==> a == b
    ensures f(x) in ys <==> x in xs
  {
    if f(x) in ys {
      var i :| 0 <= i < |ys| && ys[i] == f(x);
      assert f(xs[i]) == f(x);
    }
    if x in xs {
      var i :| 0 <= i < |xs| && xs[i] == x;
      assert ys[i] == f(x);
    }
  }

  /** A plan with no actions, no framework, never planned or iterated gets
      the health, ping, more-endpoints, dry-run and iterate suggestions. */
  lemma EmptyPlanSteps(ir: IntentIR)
    requires ir.implementation.actions == [] && ir.implementation.framework == None
    requires ir.dryRunLogs == [] && ir.iterationCount == 0
    ensures NextSteps(ir) == [HealthCheck, Ping, MoreEndpoints, RunDryRun, Iterate]
  {
    assert RuleFires(ir, HealthCheck) && RuleFires(ir, Ping) && !RuleFires(ir, Docs);
    assert RuleFires(ir, MoreEndpoints) && RuleFires(ir, RunDryRun) && RuleFires(ir, Iterate);
    FiringCons(ir, Iterate, []);
    FiringCons(ir, RunDryRun, [Iterate]);
    FiringCons(ir, MoreEndpoints, [RunDryRun, Iterate]);
    FiringCons(ir, Docs, [MoreEndpoints, RunDryRun, Iterate]);
    FiringCons(ir, Ping, [Docs, MoreEndpoints, RunDryRun, Iterate]);
    FiringCons(ir, HealthCheck, [Ping, Docs, MoreEndpoints, RunDryRun, Iterate]);
    assert AllSteps == [HealthCheck] + [Ping, Docs, MoreEndpoints, RunDryRun, Iterate];
    assert Firing(ir, AllSteps) == [HealthCheck, Ping, MoreEndpoints, RunDryRun, Iterate];
  }

  lemma FiringCons(ir: IntentIR, head: NextStep, tail: seq<NextStep>)
    ensures Firing(ir, [head] + tail) == (if RuleFires(ir, head) then [head] else []) + Firing(ir, tail)
  {
    assert ([head] + tail)[1..] == tail;
  }

  /** A freshly constructed IR is such a plan. */
  lemma FreshIntentSteps(f: Fresh)
    ensures NextSteps(NewIntentIR(f)) == [HealthCheck, Ping, MoreEndpoints, RunDryRun, Iterate]
  {
    EmptyPlanSteps(NewIntentIR(f));
  }

  // ----- applying suggestions -----

  /** `FeedbackSuggestion`; `kind` is its `type` field. */
  datatype Suggestion = Suggestion(kind: string, description: string, actionCode: Option<string>,
                                   priority: string, autoApply: bool)

  /** `FeedbackSuggestion.to_dict()`. */
  function SuggestionValue(s: Suggestion): Value {
    VMap(map["type" := VStr(s.kind), "description" := VStr(s.description),
             "action_code" := (if s.actionCode.Some? then VStr(s.actionCode.value) else VNull),
             "priority" := VStr(s.priority), "auto_apply" := VBool(s.autoApply)])
  }

  /** A suggestion the loop considers: every one, or only the auto-apply
      ones under `auto_only`. */
  predicate Selected(s: Suggestion, autoOnly: bool) {
    !autoOnly || s.autoApply
  }

  /** An action added to the plan, with the code it was parsed from. */
  datatype Applied = Applied(action: Action, code: string)

  /** A line parser: `DSLParser._parse_action` on a string, which the
      model takes as `ActionGrammar.ParseActionLine`; an error stands for
      its `None`. */
  type LineParser = string -> Result<Action, string>

  /** What one suggestion contributes: its action, when it is selected, has
      a non-empty action code, and that code parses as an action line. */
  function Contribution(s: Suggestion, autoOnly: bool, parse: LineParser): (r: seq<Applied>)
    ensures |r| <= 1
  {
    if Selected(s, autoOnly) && s.actionCode.Some? && s.actionCode.value != [] then
      match parse(s.actionCode.value)
      case Ok(a) => [Applied(a, s.actionCode.value)]
      case Err(_) => []
    else []
  }

  /** The actions the suggestions contribute, in suggestion order. */
  function AppliedFrom(suggestions: seq<Suggestion>, autoOnly: bool, parse: LineParser): (r: seq<Applied>)
    decreases |suggestions|
    ensures |r| <= |suggestions|
  {
    if suggestions == [] then []
    else AppliedFrom(suggestions[..|suggestions| - 1], autoOnly, parse)
         + Contribution(suggestions[|suggestions| - 1], autoOnly, parse)
  }

  function ActionsOf(applied: seq<Applied>): (r: seq<Action>)
    ensures |r| == |applied|
  {
    if applied == [] then [] else ActionsOf(applied[..|applied| - 1]) + [applied[|applied| - 1].action]
  }

  function ChangeMessages(applied: seq<Applied>): (r: seq<string>)
    ensures |r| == |applied|
  {
    if applied == [] then [] else ChangeMessages(applied[..|applied| - 1]) + ["Added action: " + applied[|applied| - 1].code]
  }

  /** The `to_dict()` of every auto-apply suggestion, in order: what the
      recorded iteration lists under `auto_applied`. */
  function AutoApplied(suggestions: seq<Suggestion>): seq<Value> {
    if suggestions == [] then []
    else (if suggestions[0].autoApply then [SuggestionValue(suggestions[0])] else []) + AutoApplied(suggestions[1..])
  }

  /** Suggestion `s` yields the applied action `x`: it is selected, its code
      is non-empty, and the code parses to `x`'s action. */
  predicate Yields(s: Suggestion, autoOnly: bool, parse: LineParser, x: Applied) {
    Selected(s, autoOnly) && s.actionCode == Some(x.code) && x.code != []
    && parse(x.code) == Ok(x.action)
  }

  lemma AppliedFromLast(suggestions: seq<Suggestion>, autoOnly: bool, parse: LineParser)
    requires suggestions != []
    ensures var n := |suggestions| - 1;
            forall x :: x in AppliedFrom(suggestions, autoOnly, parse) <==>
                          x in AppliedFrom(suggestions[..n], autoOnly, parse) || Yields(suggestions[n], autoOnly, parse, x)
  {
  }

  /** An action is applied exactly when some selected suggestion carries a
      non-empty code that parses to it. */
  lemma {:induction false} AppliedMembership(suggestions: seq<Suggestion>, autoOnly: bool, parse: LineParser, x: Applied)
    decreases |suggestions|
    ensures x in AppliedFrom(suggestions, autoOnly, parse) <==>
              exists i :: 0 <= i < |suggestions| && Yields(suggestions[i], autoOnly, parse, x)
  {
    if suggestions != [] {
      var n := |suggestions| - 1;
      var init := suggestions[..n];
      AppliedMembership(init, autoOnly, parse, x);
      AppliedFromLast(suggestions, autoOnly, parse);
      if x in AppliedFrom(suggestions, autoOnly, parse) {
        if x in AppliedFrom(init, autoOnly, parse) {
          var i :| 0 <= i < |init| && Yields(init[i], autoOnly, parse, x);
          assert suggestions[i] == init[i];
        } else {
          assert Yields(suggestions[n], autoOnly, parse, x);
        }
      }
      if exists i :: 0 <= i < |suggestions| && Yields(suggestions[i], autoOnly, parse, x) {
        var i :| 0 <= i < |suggestions| && Yields(suggestions[i], autoOnly, parse, x);
        if i < n {
          assert init[i] == suggestions[i];
        }
      }
    }
  }

  /** One more suggestion appends its contribution. */
  lemma AppliedFromSnoc(suggestions: seq<Suggestion>, autoOnly: bool, parse: LineParser, i: nat)
    requires i < |suggestions|
    ensures AppliedFrom(suggestions[..i + 1], autoOnly, parse)
            == AppliedFrom(suggestions[..i], autoOnly, parse) + Contribution(suggestions[i], autoOnly, parse)
  {
    assert suggestions[..i + 1][..i] == suggestions[..i];
  }

  lemma {:induction false} ActionsOfAppend(a: seq<Applied>, b: seq<Applied>)
    decreases |b|
    ensures ActionsOf(a + b) == ActionsOf(a) + ActionsOf(b)
  {
    if b == [] {
      assert a + b == a;
    } else {
      var n := |b| - 1;
      assert (a + b)[..|a + b| - 1] == a + b[..n];
      assert (a + b)[|a + b| - 1] == b[n];
      ActionsOfAppend(a, b[..n]);
      assert ActionsOf(b) == ActionsOf(b[..n]) + [b[n].action];
      assert ActionsOf(a + b) == (ActionsOf(a) + ActionsOf(b[..n])) + [b[n].action];
    }
  }

  lemma {:induction false} ChangeMessagesAppend(a: seq<Applied>, b: seq<Applied>)
    decreases |b|
    ensures ChangeMessages(a + b) == ChangeMessages(a) + ChangeMessages(b)
  {
    if b == [] {
      assert a + b == a;
    } else {
      var n := |b| - 1;
      assert (a + b)[..|a + b| - 1] == a + b[..n];
      assert (a + b)[|a + b| - 1] == b[n];
      ChangeMessagesAppend(a, b[..n]);
      assert ChangeMessages(b) == ChangeMessages(b[..n]) + ["Added action: " + b[n].code];
      assert ChangeMessages(a + b) == (ChangeMessages(a) + ChangeMessages(b[..n])) + ["Added action: " + b[n].code];
    }
  }

  /** What one more suggestion adds to the actions and the messages. */
  lemma AppliedStep(suggestions: seq<Suggestion>, autoOnly: bool, parse: LineParser, i: nat)
    requires i < |suggestions|
    ensures var done := AppliedFrom(suggestions[..i], autoOnly, parse);
            var step := Contribution(suggestions[i], autoOnly, parse);
            && ActionsOf(AppliedFrom(suggestions[..i + 1], autoOnly, parse)) == ActionsOf(done) + ActionsOf(step)
            && ChangeMessages(AppliedFrom(suggestions[..i + 1], autoOnly, parse)) == ChangeMessages(done) + ChangeMessages(step)
  {
    var done := AppliedFrom(suggestions[..i], autoOnly, parse);
    var step := Contribution(suggestions[i], autoOnly, parse);
    AppliedFromSnoc(suggestions, autoOnly, parse, i);
    ActionsOfAppend(done, step);
    ChangeMessagesAppend(done, step);
  }

  /** The loop of `apply_suggestions` over any line parser. */
  method ApplyWith(ir: IntentIR, suggestions: seq<Suggestion>, autoOnly: bool, now: string, parse: LineParser)
    returns (r: IntentIR, changes: seq<string>, warnings: seq<string>)
    ensures changes == ChangeMessages(AppliedFrom(suggestions, autoOnly, parse))
    ensures warnings == []
    ensures changes == [] ==> r == ir
    ensures changes != [] ==>
              r == AddIteration(
                     ir.(implementation := ir.implementation.(actions := ir.implementation.actions
                                                               + ActionsOf(AppliedFrom(suggestions, autoOnly, parse)))),
                     map["auto_applied" := VList(AutoApplied(suggestions))], "feedback_loop", now)
  {
    var added: seq<Action> := [];
    changes := [];
    warnings := [];
    var i := 0;
    while i < |suggestions|
      invariant 0 <= i <= |suggestions|
      invariant added == ActionsOf(AppliedFrom(suggestions[..i], autoOnly, parse))
      invariant changes == ChangeMessages(AppliedFrom(suggestions[..i], autoOnly, parse))
    {
      // the branch on selection, non-empty code and a successful parse
      // lives in `Contribution`
      var step := Contribution(suggestions[i], autoOnly, parse);
      AppliedStep(suggestions, autoOnly, parse, i);
      added := added + ActionsOf(step);
      changes := changes + ChangeMessages(step);
      i := i + 1;
    }
    PrefixAll(suggestions);
    assert added == ActionsOf(AppliedFrom(suggestions, autoOnly, parse));
    if changes == [] {
      // nothing was appended, so the IR is left as it was
      r := ir;
    } else {
      var updated := ir.(implementation := ir.implementation.(actions := ir.implementation.actions + added));
      r := AddIteration(updated, map["auto_applied" := VList(AutoApplied(suggestions))], "feedback_loop", now);
    }
  }

  /** `apply_suggestions(ir, suggestions, auto_only)` at clock reading
      `now`: the updated IR, the applied-change messages and the warnings.
      An IR gains one iteration exactly when some action was added. */
  method ApplySuggestions(ir: IntentIR, suggestions: seq<Suggestion>, autoOnly: bool, now: string)
    returns (r: IntentIR, changes: seq<string>, warnings: seq<string>)
    ensures changes == ChangeMessages(AppliedFrom(suggestions, autoOnly, ParseActionLine))
    ensures warnings == []
    ensures r.implementation.actions
            == ir.implementation.actions + ActionsOf(AppliedFrom(suggestions, autoOnly, ParseActionLine))
    ensures r.iterationCount == ir.iterationCount + (if changes == [] then 0 else 1)
    ensures changes == [] ==> r == ir
    ensures IterationConsistent(ir) ==> IterationConsistent(r)
    ensures ApprovalCommitted(ir) ==> ApprovalCommitted(r)
  {
    r, changes, warnings := ApplyWith(ir, suggestions, autoOnly, now, ParseActionLine);
    if changes != [] {
      var added := ActionsOf(AppliedFrom(suggestions, autoOnly, ParseActionLine));
      AddIterationPreserves(ir.(implementation := ir.implementation.(actions := ir.implementation.actions + added)),
                            map["auto_applied" := VList(AutoApplied(suggestions))], "feedback_loop", now);
    }
  }

  // ----- reading an answer -----

  /** Python's `s.split(sep)` for a non-empty separator. */
  function SplitOn(s: string, sep: string): (r: seq<string>)
    requires sep != []
    decreases |s|
    ensures |r| >= 1
    ensures forall i :: 0 <= i < |r| ==> !Contains(r[i], sep)
    ensures Contains(s, sep) <==> |r| >= 2
    ensures |r[0]| <= |s| && r[0] == s[..|r[0]|]
    ensures |r[0]| == |s| || OccursAt(s, sep, |r[0]|)
  {
    match Find(s, sep)
    case None => [s]
    case Some(i) =>
      NoEarlierOccurrence(s, sep, i);
      [s[..i]] + SplitOn(s[i + |sep|..], sep)
  }

  /** Before the first occurrence of `sep` there is none. */
  lemma NoEarlierOccurrence(s: string, sep: string, i: nat)
    requires sep != [] && i <= |s|
    requires forall j :: 0 <= j < i ==> !OccursAt(s, sep, j)
    ensures !Contains(s[..i], sep)
  {
    forall j | 0 <= j <= i - |sep|
      ensures !OccursAt(s[..i], sep, j)
    {
      assert s[..i][j..j + |sep|] == s[j..j + |sep|];
      assert !OccursAt(s, sep, j);
    }
  }

  /** Splitting and joining back with the same separator is the identity. */
  lemma {:induction false} JoinSplitOn(s: string, sep: string)
    requires sep != []
    decreases |s|
    ensures Join(SplitOn(s, sep), sep) == s
  {
    match Find(s, sep)
    case None =>
    case Some(i) =>
      var rest := s[i + |sep|..];
      JoinSplitOn(rest, sep);
      var tail := SplitOn(rest, sep);
      var parts := [s[..i]] + tail;
      assert SplitOn(s, sep) == parts;
      assert parts[1..] == tail;
      assert Join(parts, sep) == s[..i] + sep + Join(tail, sep);
      assert s == s[..i] + sep + rest;
  }

  /** A string contains every prefix of any pattern it contains. */
  lemma ContainsPrefixOf(text: string, pat: string, pre: string)
    requires pre <= pat && Contains(text, pat)
    ensures Contains(text, pre)
  {
    var i :| 0 <= i <= |text| - |pat| && OccursAt(text, pat, i);
    assert text[i..i + |pre|] == text[i..i + |pat|][..|pre|];
    assert OccursAt(text, pre, i);
  }

  /** The fence `open` begins with three backticks. */
  predicate IsFence(open: string) {
    |open| >= 3 && open[..3] == "```"
  }

  /** `s.split(sep)[0]`: the text before the first `sep`, or all of `s`. */
  function Before(s: string, sep: string): (r: string)
    requires sep != []
    ensures |r| <= |s| && r == s[..|r|]
    ensures |r| == |s| || OccursAt(s, sep, |r|)
    ensures !Contains(r, sep)
  {
    match Find(s, sep)
    case None => s
    case Some(q) =>
      NoEarlierOccurrence(s, sep, q);
      s[..q]
  }

  lemma BeforeIsFirstPiece(s: string, sep: string)
    requires sep != []
    ensures Before(s, sep) == SplitOn(s, sep)[0]
  {
  }

  /** The text after the first `open` fence, up to the first "```" of the
      piece that ends at the next `open`, as
      `content.split(open)[1].split("```")[0]` computes it (see
      `FenceBodyIsSplit`): it starts right after the first `open`, holds no
      "```", and stops where one starts or at the end of the content. */
  function FenceBody(content: string, open: string): (r: string)
    requires IsFence(open) && Contains(content, open)
    ensures !Contains(r, "```")
    ensures var after := content[Find(content, open).value + |open|..];
            && |r| <= |after| && r == after[..|r|]
            && (|r| == |after| || OccursAt(after, "```", |r|))
  {
    var k := Find(content, open).value;
    var after := content[k + |open|..];
    var p1 := Before(after, open);
    var r := Before(p1, "```");
    CutOfCut(after, p1, r, open);
    r
  }

  /** `FenceBody` is the text the two splits of `_parse_suggestions` keep. */
  lemma FenceBodyIsSplit(content: string, open: string)
    requires IsFence(open) && Contains(content, open)
    ensures |SplitOn(content, open)| >= 2
    ensures FenceBody(content, open) == SplitOn(SplitOn(content, open)[1], "```")[0]
  {
    var k := Find(content, open).value;
    var after := content[k + |open|..];
    SecondPiece(content, open);
    BeforeIsFirstPiece(after, open);
    BeforeIsFirstPiece(Before(after, open), "```");
  }

  /** The second piece of a split is the first piece of what follows the
      first separator. */
  lemma SecondPiece(content: string, sep: string)
    requires sep != [] && Contains(content, sep)
    ensures |SplitOn(content, sep)| >= 2
    ensures var k := Find(content, sep).value;
            SplitOn(content, sep)[1] == SplitOn(content[k + |sep|..], sep)[0]
  {
  }

  /** Cutting at a fence (or at `open`, which starts with one) and then
      again at a fence cuts at a fence. */
  lemma CutOfCut(after: string, p1: string, r: string, open: string)
    requires IsFence(open)
    requires |p1| <= |after| && p1 == after[..|p1|]
    requires |p1| == |after| || OccursAt(after, open, |p1|)
    requires |r| <= |p1| && r == p1[..|r|]
    requires |r| == |p1| || OccursAt(p1, "```", |r|)
    ensures r == after[..|r|]
    ensures |r| == |after| || OccursAt(after, "```", |r|)
  {
    if |r| < |p1| {
      assert p1[|r|..|r| + 3] == after[|r|..|r| + 3];
    } else if |p1| < |after| {
      assert after[|p1|..|p1| + 3] == after[|p1|..|p1| + |open|][..3];
    }
  }

  /** The code-fence extraction at the start of `_parse_suggestions`: the
      body of the first ```` ```json ```` fence if there is one, else of the
      first plain fence, else the whole content. */
  function ExtractFenced(content: string): (r: string)
    ensures Contains(content, "```") ==> !Contains(r, "```")
    ensures !Contains(content, "```") ==> r == content
    ensures Contains(content, "```json") ==> r == FenceBody(content, "```json")
    ensures !Contains(content, "```json") && Contains(content, "```") ==> r == FenceBody(content, "```")
  {
    if Contains(content, "```json") then
      ContainsPrefixOf(content, "```json", "```");
      FenceBody(content, "```json")
    else if Contains(content, "```") then FenceBody(content, "```")
    else content
  }

  /** A body that holds no fence and does not end in a backtick, so that the
      closing fence cannot start inside it. */
  predicate FenceFree(body: string) {
    !Contains(body, "```") && (body == [] || body[|body| - 1] != '`')
  }

  /** A ```` ```json ```` block is read back as the text inside the fence,
      whatever precedes it, when the closing fence is not followed by
      another backtick. */
  lemma FencedJsonRoundTrip(prefix: string, body: string, rest: string)
    requires !Contains(prefix, "```json")
    requires FenceFree(body)
    requires rest == [] || rest[0] != '`'
    ensures ExtractFenced(prefix + "```json" + body + "```" + rest) == body
  {
    var open := "```json";
    var content := prefix + open + body + "```" + rest;
    assert OccursAt(content, open, |prefix|) by {
      assert content[|prefix|..|prefix| + 7] == open;
    }
    forall j | 0 <= j < |prefix|
      ensures !OccursAt(content, open, j)
    {
      if j + 7 <= |prefix| {
        assert content[j..j + 7] == prefix[j..j + 7];
        assert !OccursAt(prefix, open, j);
      } else if j + 7 <= |content| {
        JsonFenceNoOverlap(content, |prefix|, j);
      }
    }
    FenceBodyOfParts(content, prefix, open, body + "```" + rest, body, rest);
  }

  /** ```` ```json ```` cannot overlap a later occurrence of itself. */
  lemma JsonFenceNoOverlap(content: string, p: nat, j: nat)
    requires OccursAt(content, "```json", p) && j < p < j + 7 <= |content|
    ensures content[j..j + 7] != "```json"
  {
    var m := p - j;
    var w := content[j..j + 7];
    var f := content[p..p + 7];
    assert f == "```json";
    assert content[p] == f[0] && content[p + 1] == f[1] && content[p + 2] == f[2];
    if m == 1 {
      assert w[3] == content[p + 2];
    } else if m == 2 {
      assert w[3] == content[p + 1];
    } else {
      assert w[m] == content[p];
    }
  }

  /** A plain fenced block is read back as the text inside the fence when
      nothing before it holds or ends in a backtick run and the content
      holds no ```` ```json ```` fence. */
  lemma FencedPlainRoundTrip(prefix: string, body: string, rest: string)
    requires FenceFree(prefix)
    requires FenceFree(body)
    requires !Contains(prefix + "```" + body + "```" + rest, "```json")
    ensures ExtractFenced(prefix + "```" + body + "```" + rest) == body
  {
    var open := "```";
    var content := prefix + open + body + "```" + rest;
    assert OccursAt(content, open, |prefix|) by {
      assert content[|prefix|..|prefix| + 3] == open;
    }
    forall j | 0 <= j < |prefix|
      ensures !OccursAt(content, open, j)
    {
      if j + 3 <= |prefix| {
        assert content[j..j + 3] == prefix[j..j + 3];
        assert !OccursAt(prefix, open, j);
      } else {
        var w := content[j..j + 3];
        var k := |prefix| - 1 - j;
        assert content[|prefix| - 1] == prefix[|prefix| - 1];
        assert w[k] == content[|prefix| - 1];
        assert w[k] != open[k];
      }
    }
    PlainFenceBodyOfParts(content, prefix, body + "```" + rest, body, rest);
  }

  /** When a plain fence first occurs right after `prefix`, the fence body of
      `prefix + "```" + body + "```" + rest` is `body`, whatever `rest` is. */
  lemma PlainFenceBodyOfParts(content: string, prefix: string, after: string, body: string, rest: string)
    requires content == prefix + "```" + after && after == body + "```" + rest
    requires OccursAt(content, "```", |prefix|)
    requires forall j :: 0 <= j < |prefix| ==> !OccursAt(content, "```", j)
    requires FenceFree(body)
    ensures Contains(content, "```")
    ensures FenceBody(content, "```") == body
  {
    var k := Find(content, "```").value;
    assert k == |prefix| by {
      assert !(k < |prefix|);
      assert !(k > |prefix|);
    }
    assert content[k + 3..] == after;
    NoFenceInsideBody(body, rest, after);
    BeforeAtFirst(after, "```", |body|);
    assert after[..|body|] == body;
    BeforeWithout(body, "```");
  }

  /** When `open` first occurs right after `prefix`, the fence body of
      `prefix + open + body + "```" + rest` is `body`. */
  lemma FenceBodyOfParts(content: string, prefix: string, open: string, after: string, body: string, rest: string)
    requires content == prefix + open + after && after == body + "```" + rest
    requires IsFence(open)
    requires OccursAt(content, open, |prefix|)
    requires forall j :: 0 <= j < |prefix| ==> !OccursAt(content, open, j)
    requires FenceFree(body)
    requires rest == [] || rest[0] != '`'
    ensures Contains(content, open)
    ensures FenceBody(content, open) == body
  {
    var k := Find(content, open).value;
    assert k == |prefix| by {
      assert !(k < |prefix|);
      assert !(k > |prefix|);
    }
    assert content[k + |open|..] == after;
    var r := FenceBody(content, open);
    FirstFenceAfterBody(body, rest, after);
    CutLength(after, |body|, r);
    assert r == after[..|body|];
  }

  /** A prefix of `after` that holds no fence and ends at a fence or at the
      end is exactly the part before the first fence, when that fence at `b`
      is not followed by a backtick. */
  lemma CutLength(after: string, b: nat, r: string)
    requires b + 3 <= |after|
    requires forall t :: 0 <= t < b ==> !OccursAt(after, "```", t)
    requires !OccursAt(after, "```", b + 1) && !OccursAt(after, "```", b + 2)
    requires forall n :: b + 3 <= n <= |after| ==> Contains(after[..n], "```")
    requires |r| <= |after| && r == after[..|r|] && !Contains(r, "```")
    requires |r| == |after| || OccursAt(after, "```", |r|)
    ensures |r| == b
  {
    assert |r| >= b + 3 ==> Contains(r, "```");
  }

  /** In `body + "```" + rest` the first fence is the one after `body`, and
      any longer prefix than `body` plus that fence holds it. */
  lemma FirstFenceAfterBody(body: string, rest: string, after: string)
    requires FenceFree(body)
    requires rest == [] || rest[0] != '`'
    requires after == body + "```" + rest
    ensures forall t :: 0 <= t < |body| ==> !OccursAt(after, "```", t)
    ensures !OccursAt(after, "```", |body| + 1) && !OccursAt(after, "```", |body| + 2)
    ensures forall n :: |body| + 3 <= n <= |after| ==> Contains(after[..n], "```")
  {
    NoFenceInsideBody(body, rest, after);
    if rest != [] {
      assert after[|body| + 3] == rest[0];
      assert |body| + 4 <= |after|;
      assert after[|body| + 1..|body| + 4][2] == rest[0];
      if |body| + 5 <= |after| {
        assert after[|body| + 2..|body| + 5][1] == rest[0];
      }
    }
    forall n | |body| + 3 <= n <= |after|
      ensures Contains(after[..n], "```")
    {
      assert after[..n][|body|..|body| + 3] == "```";
      assert OccursAt(after[..n], "```", |body|);
    }
  }

  /** In `body + "```" + rest` no fence starts inside `body`, and one
      starts right after it. */
  lemma NoFenceInsideBody(body: string, rest: string, after: string)
    requires FenceFree(body)
    requires after == body + "```" + rest
    ensures forall t :: 0 <= t < |body| ==> !OccursAt(after, "```", t)
    ensures OccursAt(after, "```", |body|)
  {
    forall t | 0 <= t < |body|
      ensures !OccursAt(after, "```", t)
    {
      if t + 3 <= |body| {
        assert after[t..t + 3] == body[t..t + 3];
        assert !OccursAt(body, "```", t);
      } else {
        assert after[t..t + 3][|body| - 1 - t] == body[|body| - 1];
      }
    }
    assert after[|body|..|body| + 3] == "```";
  }

  /** `Before` cuts at the first occurrence of the separator. */
  lemma BeforeAtFirst(s: string, sep: string, q: nat)
    requires sep != []
    requires OccursAt(s, sep, q) && forall j :: 0 <= j < q ==> !OccursAt(s, sep, j)
    ensures Before(s, sep) == s[..q]
  {
    assert Contains(s, sep);
    var v := Find(s, sep).value;
    assert !(v < q);
    assert !(q < v);
  }

  /** `Before` keeps a text without the separator whole. */
  lemma BeforeWithout(s: string, sep: string)
    requires sep != [] && !Contains(s, sep)
    ensures Before(s, sep) == s
  {
  }

  /** The line mentions one of the two tokens the fallback looks for. */
  predicate MentionsAction(line: string) {
    Contains(line, "api.expose") || Contains(line, "db.create")
  }

  /** A suggestion as the fallback builds it: an action with the default
      priority, not auto-applied, with an action code. */
  predicate IsFallback(s: Suggestion) {
    s.kind == "action" && s.priority == "medium" && !s.autoApply && s.actionCode.Some?
  }

  /** The suggestion the fallback builds from a line that mentions an
      action. */
  function FallbackFor(line: string): Suggestion {
    Suggestion("action", Strip(line), ExtractAction(line), "medium", false)
  }

  /** The suggestion the fallback makes for one line, if any. */
  function LineSuggestion(line: string): (r: seq<Suggestion>)
    ensures |r| <= 1 && (r == [] <==> !MentionsAction(line))
    ensures r != [] ==> IsFallback(r[0]) && r[0] == FallbackFor(line) && r[0].description == Strip(line)
  {
    if MentionsAction(line) then
      MentionExtracts(line);
      [FallbackFor(line)]
    else []
  }

  /** The lines that mention `api.expose` or `db.create`, in order. */
  function MentioningLines(lines: seq<string>): (r: seq<string>)
    ensures |r| <= |lines|
    ensures forall x :: x in r <==> x in lines && MentionsAction(x)
  {
    if lines == [] then []
    else
      assert lines == [lines[0]] + lines[1..];
      (if MentionsAction(lines[0]) then [lines[0]] else []) + MentioningLines(lines[1..])
  }

  /** The fallback of `_parse_suggestions` for an answer that is not JSON:
      exactly one action suggestion per line that mentions `api.expose` or
      `db.create`, in order, with the stripped line as description and the
      extracted action as code. */
  function FallbackSuggestions(lines: seq<string>): (r: seq<Suggestion>)
    ensures |r| == |MentioningLines(lines)|
    ensures forall i :: 0 <= i < |r| ==> IsFallback(r[i])
    ensures forall i :: 0 <= i < |r| ==> r[i] == FallbackFor(MentioningLines(lines)[i])
  {
    if lines == [] then []
    else
      var tail := FallbackSuggestions(lines[1..]);
      var later := MentioningLines(lines[1..]);
      assert lines == [lines[0]] + lines[1..];
      FallbackCons(lines[0], tail, later);
      LineSuggestion(lines[0]) + tail
  }

  /** One more line in front keeps one fallback suggestion per mentioning
      line. */
  lemma FallbackCons(line: string, ts: seq<Suggestion>, mt: seq<string>)
    requires |ts| == |mt|
    requires forall i :: 0 <= i < |ts| ==> ts[i] == FallbackFor(mt[i])
    requires forall i :: 0 <= i < |ts| ==> IsFallback(ts[i])
    ensures var ms := if MentionsAction(line) then [line] else [];
            var r := LineSuggestion(line) + ts;
            |r| == |ms + mt| &&
            (forall i :: 0 <= i < |r| ==> r[i] == FallbackFor((ms + mt)[i])) &&
            (forall i :: 0 <= i < |r| ==> IsFallback(r[i]))
  {
    var hs := LineSuggestion(line);
    if MentionsAction(line) {
      var ms := [line];
      assert |hs| == 1 && hs[0] == FallbackFor(ms[0]) && IsFallback(hs[0]);
      forall i | 0 <= i < |hs|
        ensures hs[i] == FallbackFor(ms[i]) && IsFallback(hs[i])
      {
        assert i == 0;
      }
      FallbackConcat(hs, ms, ts, mt);
    } else {
      assert hs == [];
      assert hs + ts == ts;
      assert [] + mt == mt;
    }
  }

  /** One suggestion per line carries over to concatenations. */
  lemma FallbackConcat(hs: seq<Suggestion>, ms: seq<string>, ts: seq<Suggestion>, mt: seq<string>)
    requires |hs| == |ms| && |ts| == |mt|
    requires forall i :: 0 <= i < |hs| ==> hs[i] == FallbackFor(ms[i]) && IsFallback(hs[i])
    requires forall i :: 0 <= i < |ts| ==> ts[i] == FallbackFor(mt[i])
    requires forall i :: 0 <= i < |ts| ==> IsFallback(ts[i])
    ensures forall i :: 0 <= i < |hs + ts| ==> (hs + ts)[i] == FallbackFor((ms + mt)[i])
    ensures forall i :: 0 <= i < |hs + ts| ==> IsFallback((hs + ts)[i])
  {
    forall i | 0 <= i < |hs + ts|
      ensures (hs + ts)[i] == FallbackFor((ms + mt)[i]) && IsFallback((hs + ts)[i])
    {
      if i >= |hs| {
        assert (hs + ts)[i] == ts[i - |hs|];
        assert (ms + mt)[i] == mt[i - |hs|];
      }
    }
  }

  /** A line that mentions `api.expose` or `db.create` yields an action. */
  lemma MentionExtracts(line: string)
    requires MentionsAction(line)
    ensures ExtractAction(line).Some?
  {
    assert ActionTokens[0] == "api.expose" && ActionTokens[1] == "db.create";
  }

  /** `_parse_suggestions` when the JSON decoding of the fenced text fails. */
  function ParseSuggestionsFallback(content: string): seq<Suggestion> {
    FallbackSuggestions(SplitChar(ExtractFenced(content), '\n'))
  }

  /** Every fallback suggestion carries an action code that starts with a
      type token. */
  lemma {:induction false} FallbackCodesStartWithToken(lines: seq<string>, i: nat)
    requires i < |FallbackSuggestions(lines)|
    decreases |lines|
    ensures var code := FallbackSuggestions(lines)[i].actionCode.value;
            exists k :: 0 <= k < |ActionTokens| && |ActionTokens[k]| <= |code| && code[..|ActionTokens[k]|] == ActionTokens[k]
  {
    var line := lines[0];
    var mine := LineSuggestion(line);
    if i < |mine| {
      MentionExtracts(line);
      ExtractedStartsWithToken(line);
    } else {
      FallbackCodesStartWithToken(lines[1..], i - |mine|);
    }
  }
}
