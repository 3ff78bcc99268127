/**
  The one-line action grammar of the DSL parser:

      <type> [<METHOD>] <target> [<param tokens>]

  Python matches the stripped line against the regular expression
  `^([\w.]+)\s+(?:(GET|POST|PUT|DELETE|PATCH)\s+)?(\S+)(?:\s+(.+))?$`.
  Here that match is computed directly: the type is the maximal run of
  word characters and dots and must be followed by whitespace; the method
  is taken only when a verb is followed by whitespace; the target is the
  next maximal run of non-whitespace; the parameter text is the rest after
  whitespace, and since `.` does not match a newline the match fails when
  that rest contains one.
 */
module ActionGrammar {
  import opened Wrappers
  import opened Text
  import opened Values
  import opened Models

  /** The verbs the optional method group accepts, in alternation order. */
  const Verbs: seq<string> := ["GET", "POST", "PUT", "DELETE", "PATCH"]

  /** The class `[\w.]`, with `\w` taken as ASCII letters, digits and `_`. */
  predicate IsTypeChar(c: char) {
    ('a' <= c <= 'z') || ('A' <= c <= 'Z') || IsDigit(c) || c == '_' || c == '.'
  }

  predicate AllTypeChars(w: string) {
    forall j :: 0 <= j < |w| ==> IsTypeChar(w[j])
  }

  /** The named groups of a successful match. */
  datatype LineMatch = LineMatch(typeToken: string, verb: Option<string>, target: string, params: Option<string>)

  /** `r` starts with `v` followed by whitespace. */
  predicate StartsWithVerb(r: string, v: string) {
    |r| > |v| && r[..|v|] == v && IsSpace(r[|v|])
  }

  /** The verb the method group matches at the start of `r`, if any. */
  function LeadingVerb(r: string): (res: Option<string>)
    ensures res.Some? ==> res.value in Verbs && StartsWithVerb(r, res.value)
    ensures res.None? ==> forall v :: v in Verbs ==> !StartsWithVerb(r, v)
  {
    if StartsWithVerb(r, "GET") then Some("GET")
    else if StartsWithVerb(r, "POST") then Some("POST")
    else if StartsWithVerb(r, "PUT") then Some("PUT")
    else if StartsWithVerb(r, "DELETE") then Some("DELETE")
    else if StartsWithVerb(r, "PATCH") then Some("PATCH")
    else None
  }

  /** The target group and the optional parameter group, matched at the
      start of `rest`. */
  function MatchTarget(rest: string): (r: Option<(string, Option<string>)>)
    ensures r.Some? ==> IsWord(r.value.0)
    ensures r.Some? && r.value.1.Some? ==> r.value.1.value != [] && '\n' !in r.value.1.value
  {
    var target := TakeWhile(rest, NotSpace);
    var tail := rest[|target|..];
    if target == [] then None
    else if tail == [] then Some((target, None))
    else
      var p := TrimStart(tail);
      if p == [] || '\n' in p then None
      else Some((target, Some(p)))
  }

  /** The optional method group followed by the target and parameters,
      matched at the start of `r`, the text after the type token. */
  function MatchAfterType(t: string, r: string): (res: Option<LineMatch>)
    ensures res.Some? ==> res.value.typeToken == t && IsWord(res.value.target)
    ensures res.Some? && res.value.verb.Some? ==> res.value.verb.value in Verbs
    ensures res.Some? && res.value.params.Some? ==> res.value.params.value != [] && '\n' !in res.value.params.value
    ensures res.Some? && res.value.verb.None? && res.value.target in Verbs ==> res.value.params.None?
  {
    var verb := LeadingVerb(r);
    var rest := if verb.Some? then TrimStart(r[|verb.value|..]) else r;
    match MatchTarget(rest)
    case None => None
    case Some((target, params)) => Some(LineMatch(t, verb, target, params))
  }

  /** `ACTION_PATTERN.match(s)` for a stripped line `s`. */
  function MatchActionLine(s: string): (r: Option<LineMatch>)
    requires IsStripped(s)
    ensures r.Some? ==> r.value.typeToken != [] && AllTypeChars(r.value.typeToken)
    ensures r.Some? && r.value.verb.Some? ==> r.value.verb.value in Verbs
    ensures r.Some? ==> IsWord(r.value.target)
    ensures r.Some? && r.value.params.Some? ==> r.value.params.value != [] && '\n' !in r.value.params.value
  {
    var t := TakeWhile(s, IsTypeChar);
    if t == [] || |t| == |s| || !IsSpace(s[|t|]) then None
    else MatchAfterType(t, TrimStart(s[|t|..]))
  }

  // ----- parameters -----

  /** The key of a parameter token: the text before its first `=`, or the
      whole token when it has none. */
  function ParamKey(token: string): string {
    TakeWhile(token, IsKeyChar)
  }

  predicate IsKeyChar(c: char) {
    c != '='
  }

  /** The value of a parameter token: the text after its first `=`, or
      `True` for a bare flag. */
  function ParamValue(token: string): Value {
    var key := ParamKey(token);
    if |key| < |token| then VStr(token[|key| + 1..]) else VBool(true)
  }

  /** The parameter map built from the tokens left to right, a later token
      overwriting an earlier one with the same key. */
  function ParamsOf(tokens: seq<string>): map<string, Value> {
    if tokens == [] then map[]
    else ParamsOf(tokens[..|tokens| - 1])[ParamKey(tokens[|tokens| - 1]) := ParamValue(tokens[|tokens| - 1])]
  }

  /** Exactly the keys of the tokens end up in the map. */
  lemma {:induction false} ParamsKeys(tokens: seq<string>, k: string)
    ensures k in ParamsOf(tokens) <==> exists i :: 0 <= i < |tokens| && ParamKey(tokens[i]) == k
  {
    if tokens != [] {
      var n := |tokens| - 1;
      var init := tokens[..n];
      ParamsKeys(init, k);
      if k == ParamKey(tokens[n]) {
      } else {
        if k in ParamsOf(init) {
          var i :| 0 <= i < |init| && ParamKey(init[i]) == k;
          assert tokens[i] == init[i];
        }
        if exists i :: 0 <= i < |tokens| && ParamKey(tokens[i]) == k {
          var i :| 0 <= i < |tokens| && ParamKey(tokens[i]) == k;
          assert init[i] == tokens[i];
        }
      }
    }
  }

  /** The value kept for a key is the one its last token carries. */
  lemma {:induction false} ParamsLastTokenWins(tokens: seq<string>, i: nat)
    requires i < |tokens|
    requires forall j :: i < j < |tokens| ==> ParamKey(tokens[j]) != ParamKey(tokens[i])
    ensures ParamKey(tokens[i]) in ParamsOf(tokens)
    ensures ParamsOf(tokens)[ParamKey(tokens[i])] == ParamValue(tokens[i])
  {
    var n := |tokens| - 1;
    if i < n {
      var init := tokens[..n];
      assert init[i] == tokens[i];
      forall j | i < j < |init|
        ensures ParamKey(init[j]) != ParamKey(init[i])
      {
        assert init[j] == tokens[j];
      }
      ParamsLastTokenWins(init, i);
    }
  }

  /** `_parse_action` for a string entry: the action, or the error message
      the parser records.  A line the pattern rejects is a format error; a
      matched line whose type token names no action type is an unknown-type
      error; otherwise the parameter words become the parameter map. */
  function ParseActionLine(raw: string): (r: Result<Action, string>)
    ensures r.Ok? ==> r.value.target.Some? && IsWord(r.value.target.value)
    ensures r.Ok? && r.value.httpMethod.Some? ==> r.value.httpMethod.value in Verbs
    ensures MatchActionLine(Strip(raw)).None? ==> r == Err("Invalid action format: '" + raw + "'")
    ensures MatchActionLine(Strip(raw)).Some? ==>
              var lm := MatchActionLine(Strip(raw)).value;
              && (ActionFromToken(lm.typeToken).None? ==> r == Err("Unknown action type: '" + lm.typeToken + "'"))
              && (ActionFromToken(lm.typeToken).Some? ==>
                    r == Ok(Action(ActionFromToken(lm.typeToken).value, lm.verb, Some(lm.target),
                                   ParamsOf(ParamWords(lm.params)))))
  {
    var s := Strip(raw);
    StripIsStripped(raw);
    match MatchActionLine(s)
    case None => Err("Invalid action format: '" + raw + "'")
    case Some(lm) =>
      match ActionFromToken(lm.typeToken)
      case None => Err("Unknown action type: '" + lm.typeToken + "'")
      case Some(kind) =>
        var params := if lm.params.Some? then ParamsOf(Words(lm.params.value)) else map[];
        Ok(Action(kind, lm.verb, Some(lm.target), params))
  }

  // ----- the match against `split()` -----

  lemma {:induction false} TakeWhileIsPrefix(s: string, p: char -> bool, a: string)
    requires a <= s
    requires forall i :: 0 <= i < |a| ==> p(a[i])
    requires |a| == |s| || !p(s[|a|])
    ensures TakeWhile(s, p) == a
    decreases |s|
  {
    if a != [] {
      TakeWhileIsPrefix(s[1..], p, a[1..]);
    }
  }

  /** A string is its leading whitespace followed by what `lstrip` keeps. */
  lemma TrimStartSplit(x: string)
    ensures x == x[..|x| - |TrimStart(x)|] + TrimStart(x)
    ensures forall i :: 0 <= i < |x| - |TrimStart(x)| ==> IsSpace(x[i])
    ensures Words(x) == Words(TrimStart(x))
  {
    var k := |x| - |TrimStart(x)|;
    assert x == x[..k] + x[k..];
    WordsSkipsSpace(x[..k], x[k..]);
  }

  /** The words of the parameter group, if it matched. */
  function ParamWords(params: Option<string>): seq<string> {
    if params.Some? then Words(params.value) else []
  }

  /** The words of the target and parameter part of a line. */
  lemma TargetWords(rest: string)
    requires MatchTarget(rest).Some?
    ensures Words(rest) == [MatchTarget(rest).value.0] + ParamWords(MatchTarget(rest).value.1)
  {
    var target := TakeWhile(rest, NotSpace);
    var tail := rest[|target|..];
    assert rest == target + tail;
    WordsCons(target, tail);
    TrimStartSplit(tail);
  }

  lemma VerbIsWord(v: string)
    requires v in Verbs
    ensures IsWord(v)
  {
  }

  /** The words a match accounts for after the type token. */
  function WordsAfterType(m: LineMatch): seq<string> {
    var targetOn := [m.target] + ParamWords(m.params);
    if m.verb.Some? then [m.verb.value] + targetOn else targetOn
  }

  /** The words of the line after its type token. */
  lemma AfterTypeWords(t: string, r: string)
    requires MatchAfterType(t, r).Some?
    ensures Words(r) == WordsAfterType(MatchAfterType(t, r).value)
  {
    var m := MatchAfterType(t, r).value;
    var verb := LeadingVerb(r);
    if verb.Some? {
      var rest := TrimStart(r[|verb.value|..]);
      assert MatchTarget(rest) == Some((m.target, m.params));
      AfterVerbWords(r, verb.value, rest);
    } else {
      assert MatchTarget(r) == Some((m.target, m.params));
      TargetWords(r);
    }
  }

  /** The words of a line that starts with a verb and whitespace. */
  lemma AfterVerbWords(r: string, v: string, rest: string)
    requires v in Verbs && StartsWithVerb(r, v)
    requires rest == TrimStart(r[|v|..]) && MatchTarget(rest).Some?
    ensures Words(r) == [v] + ([MatchTarget(rest).value.0] + ParamWords(MatchTarget(rest).value.1))
  {
    var after := r[|v|..];
    assert r == v + after;
    VerbIsWord(v);
    WordsCons(v, after);
    TrimStartSplit(after);
    TargetWords(rest);
  }

  /** A match splits the line into exactly the words `split()` finds: the
      type, the method if one was recognised, the target, then the words of
      the parameter text. */
  lemma MatchAgreesWithWords(s: string)
    requires IsStripped(s)
    requires MatchActionLine(s).Some?
    ensures Words(s) == [MatchActionLine(s).value.typeToken] + WordsAfterType(MatchActionLine(s).value)
  {
    var t := TakeWhile(s, IsTypeChar);
    MatchSplitsAtType(s);
    var after := s[|t|..];
    var r := TrimStart(after);
    assert s == t + after;
    TypeTokenIsWord(t);
    WordsCons(t, after);
    TrimStartSplit(after);
    AfterTypeWords(t, r);
  }

  /** A match ends its type token at whitespace and matches the rest after
      that whitespace. */
  lemma MatchSplitsAtType(s: string)
    requires IsStripped(s)
    requires MatchActionLine(s).Some?
    ensures var t := TakeWhile(s, IsTypeChar);
            && t != [] && |t| < |s| && IsSpace(s[|t|])
            && MatchActionLine(s) == MatchAfterType(t, TrimStart(s[|t|..]))
  {
  }

  lemma TypeTokenIsWord(t: string)
    requires t != [] && AllTypeChars(t)
    ensures IsWord(t)
  {
    forall i | 0 <= i < |t|
      ensures !IsSpace(t[i])
    {
      assert IsTypeChar(t[i]);
    }
  }

  /** `lstrip` of a string with exactly one leading space. */
  lemma TrimOneSpace(x: string)
    requires |x| >= 2 && x[0] == ' ' && !IsSpace(x[1])
    ensures TrimStart(x) == x[1..]
  {
    TakeWhileIsPrefix(x, IsSpace, " ");
  }

  lemma PingTarget()
    ensures MatchTarget("/ping") == Some(("/ping", None))
  {
    TakeWhileIsPrefix("/ping", NotSpace, "/ping");
  }

  lemma PingAfterType()
    ensures MatchAfterType("api.expose", "GET /ping") == Some(LineMatch("api.expose", Some("GET"), "/ping", None))
  {
    var r := "GET /ping";
    assert LeadingVerb(r) == Some("GET");
    assert r[3..] == " /ping";
    TrimOneSpace(r[3..]);
    assert TrimStart(r[3..]) == "/ping";
    PingTarget();
  }

  lemma PingTypeToken()
    ensures TakeWhile("api.expose GET /ping", IsTypeChar) == "api.expose"
  {
    TakeWhileIsPrefix("api.expose GET /ping", IsTypeChar, "api.expose");
  }

  lemma PingAfterTypeText()
    ensures "api.expose GET /ping"[10..] == " GET /ping"
    ensures TrimStart("api.expose GET /ping"[10..]) == "GET /ping"
  {
    var after := " GET /ping";
    assert "api.expose GET /ping"[10..] == after;
    TrimOneSpace(after);
  }

  /** How `ParseActionLine` reads a line once its match and type are known. */
  lemma ParseMatchedLine(raw: string, lm: LineMatch, kind: ActionType)
    requires IsStripped(Strip(raw)) && MatchActionLine(Strip(raw)) == Some(lm)
    requires ActionFromToken(lm.typeToken) == Some(kind)
    ensures ParseActionLine(raw) == Ok(Action(kind, lm.verb, Some(lm.target), ParamsOf(ParamWords(lm.params))))
  {
  }

  lemma PingStripped()
    ensures Strip("api.expose GET /ping") == "api.expose GET /ping"
  {
    var s := "api.expose GET /ping";
    assert s[0] == 'a' && s[|s| - 1] == 'g';
    StripOfStripped(s);
  }

  /** How `MatchActionLine` reads a line once its type token and the text
      after it are known. */
  lemma MatchAtType(s: string, t: string, r: string, m: LineMatch)
    requires IsStripped(s) && TakeWhile(s, IsTypeChar) == t
    requires t != [] && |t| < |s| && IsSpace(s[|t|])
    requires TrimStart(s[|t|..]) == r && MatchAfterType(t, r) == Some(m)
    ensures MatchActionLine(s) == Some(m)
  {
  }

  lemma PingMatch()
    ensures MatchActionLine("api.expose GET /ping") == Some(LineMatch("api.expose", Some("GET"), "/ping", None))
  {
    var s := "api.expose GET /ping";
    var t := "api.expose";
    PingStripped();
    StripIsStripped(s);
    PingTypeToken();
    PingAfterTypeText();
    PingAfterType();
    assert s[10] == s[10..][0] == " GET /ping"[0] == ' ';
    MatchAtType(s, t, "GET /ping", LineMatch("api.expose", Some("GET"), "/ping", None));
  }

  /** `"api.expose GET /ping"` is an endpoint action with method GET,
      target `/ping` and no parameters. */
  lemma PingLine()
    ensures ParseActionLine("api.expose GET /ping") == Ok(Action(ApiExpose, Some("GET"), Some("/ping"), map[]))
  {
    var s := "api.expose GET /ping";
    PingStripped();
    StripIsStripped(s);
    PingMatch();
    ParseMatchedLine(s, LineMatch("api.expose", Some("GET"), "/ping", None), ApiExpose);
  }

  // ----- acceptance in terms of `split()` -----

  /** The text after some position of a single-line string that does not
      end in whitespace: what is left of a stripped entry as the pattern
      consumes it. */
  predicate SingleLineTail(x: string) {
    '\n' !in x && (x == [] || !IsSpace(x[|x| - 1]))
  }

  lemma SuffixOfTail(x: string, k: nat)
    requires SingleLineTail(x) && k <= |x|
    ensures SingleLineTail(x[k..])
  {
    forall j | 0 <= j < |x| - k
      ensures x[k..][j] != '\n'
    {
      assert x[k..][j] == x[k + j];
    }
    if k < |x| {
      assert x[k..][|x| - k - 1] == x[|x| - 1];
    }
  }

  /** `lstrip` of such a tail is again such a tail, and empty only when the
      tail was. */
  lemma TrimTail(x: string)
    requires SingleLineTail(x)
    ensures SingleLineTail(TrimStart(x))
    ensures x != [] ==> TrimStart(x) != [] && !IsSpace(TrimStart(x)[0])
  {
    var r := TrimStart(x);
    SuffixOfTail(x, |x| - |r|);
  }

  lemma MatchTargetOfTail(rest: string)
    requires SingleLineTail(rest) && rest != [] && !IsSpace(rest[0])
    ensures MatchTarget(rest).Some?
  {
    var target := TakeWhile(rest, NotSpace);
    assert target != [];
    SuffixOfTail(rest, |target|);
    TrimTail(rest[|target|..]);
  }

  lemma MatchAfterTypeOfTail(t: string, r: string)
    requires SingleLineTail(r) && r != [] && !IsSpace(r[0])
    ensures MatchAfterType(t, r).Some?
  {
    match LeadingVerb(r)
    case Some(v) =>
      SuffixOfTail(r, |v|);
      TrimTail(r[|v|..]);
      MatchTargetOfTail(TrimStart(r[|v|..]));
    case None =>
      MatchTargetOfTail(r);
  }

  /** A stripped single-line string whose first word is a run of word
      characters and dots, and which has a second word, matches the
      pattern: the converse of `MatchAgreesWithWords`. */
  lemma MatchOfWords(s: string)
    requires IsStripped(s) && '\n' !in s
    requires |Words(s)| >= 2 && AllTypeChars(Words(s)[0])
    ensures MatchActionLine(s).Some?
  {
    assert s != [];
    DropWhileNone(s, IsSpace);
    var w0 := TakeWhile(s, NotSpace);
    assert Words(s) == [w0] + Words(s[|w0|..]);
    assert IsSpace(s[|w0|]);
    TakeWhileIsPrefix(s, IsTypeChar, w0);
    SuffixOfTail(s, |w0|);
    TrimTail(s[|w0|..]);
    MatchAfterTypeOfTail(w0, TrimStart(s[|w0|..]));
  }

  /** Every action type token is a run of word characters and dots. */
  lemma ActionTokenIsTypeRun(t: string)
    requires ActionFromToken(t).Some?
    ensures t != [] && AllTypeChars(t)
  {
    assert ActionToken(ActionFromToken(t).value) == t;
  }

  /** The action a split line stands for: the type word; the method when
      the second word is a verb and a target word follows it; the target;
      then the parameter words, a later key overriding an earlier one. */
  function ActionOfWords(w: seq<string>): Action
    requires |w| >= 2 && ActionFromToken(w[0]).Some?
  {
    var kind := ActionFromToken(w[0]).value;
    if |w| >= 3 && w[1] in Verbs then Action(kind, Some(w[1]), Some(w[2]), ParamsOf(w[3..]))
    else Action(kind, None, Some(w[1]), ParamsOf(w[2..]))
  }

  /** On a single-line entry `_parse_action` decides by the entry's words
      alone: it accepts exactly when there are at least two words and the
      first is an action type, and then builds the action from the words;
      a first word of word characters and dots that names no type is an
      unknown-type error; anything else is a format error. */
  lemma ParseActionLineByWords(raw: string)
    requires '\n' !in raw
    ensures var w := Words(raw);
            && (ParseActionLine(raw).Ok? <==> |w| >= 2 && ActionFromToken(w[0]).Some?)
            && (|w| >= 2 && ActionFromToken(w[0]).Some? ==> ParseActionLine(raw) == Ok(ActionOfWords(w)))
            && (|w| >= 2 && AllTypeChars(w[0]) && ActionFromToken(w[0]).None? ==>
                  ParseActionLine(raw) == Err("Unknown action type: '" + w[0] + "'"))
            && (|w| < 2 || !AllTypeChars(w[0]) ==> ParseActionLine(raw) == Err("Invalid action format: '" + raw + "'"))
  {
    var s := Strip(raw);
    StripIsStripped(raw);
    WordsOfStrip(raw);
    StripKeepsOut(raw, '\n');
    var w := Words(s);
    match MatchActionLine(s)
    case Some(lm) =>
      MatchAgreesWithWords(s);
      MatchSplitsAtType(s);
      assert w[0] == lm.typeToken;
      if ActionFromToken(lm.typeToken).Some? {
        MatchedAction(lm, w);
      }
    case None =>
      if |w| >= 2 && AllTypeChars(w[0]) {
        MatchOfWords(s);
      }
      if |w| >= 2 && ActionFromToken(w[0]).Some? {
        ActionTokenIsTypeRun(w[0]);
        MatchOfWords(s);
      }
  }

  /** The action built from a match is the one its words describe. */
  lemma MatchedAction(lm: LineMatch, w: seq<string>)
    requires w == [lm.typeToken] + WordsAfterType(lm)
    requires ActionFromToken(lm.typeToken).Some?
    requires lm.verb.Some? ==> lm.verb.value in Verbs
    requires lm.verb.None? && lm.target in Verbs ==> lm.params.None?
    ensures |w| >= 2
    ensures ActionOfWords(w) == Action(ActionFromToken(lm.typeToken).value, lm.verb, Some(lm.target),
                                       ParamsOf(ParamWords(lm.params)))
  {
    var pw := ParamWords(lm.params);
    if lm.verb.Some? {
      assert w == [lm.typeToken, lm.verb.value, lm.target] + pw;
      assert w[3..] == pw;
    } else {
      assert w == [lm.typeToken, lm.target] + pw;
      assert w[2..] == pw;
    }
  }
}
