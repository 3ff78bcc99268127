/**
  The configuration helpers of config.py: the fallback `.env` reader of
  `load_dotenv`, `get_env`, `get_env_bool`, `get_env_int`, and the
  execution settings `AppConfig` reads from the environment.  The process
  environment is a map from names to values; a `.env` file is the
  sequence of lines that iterating over it yields.
 */
module Config {
  import opened Wrappers
  import opened Text
  import Executor

  /** `os.environ`. */
  type Env = map<string, string>

  // ----- the .env reader -----

  /** One `KEY=VALUE` assignment read from a `.env` line. */
  datatype Assignment = Assignment(key: string, value: string)

  /** `value.strip().strip('"').strip("'")`. */
  function Unquote(value: string): (r: string)
    ensures r == [] || (r[0] != '\'' && r[|r| - 1] != '\'')
  {
    StripChar(StripChar(Strip(value), '"'), '\'')
  }

  /** The text before the first `=` holds no `=`. */
  lemma BeforeFirstEquals(line: string, i: nat)
    requires Find(line, "=") == Some(i)
    ensures forall j :: 0 <= j < |line[..i]| ==> line[..i][j] != '='
  {
    forall j | 0 <= j < i
      ensures line[j] != '='
    {
      assert !OccursAt(line, "=", j);
      assert line[j..j + 1] == [line[j]];
    }
  }

  /** What the fallback loop of `load_dotenv` reads from one line: nothing
      for a blank line, a `#` comment or a line without `=`; otherwise the
      stripped text before the first `=` as key and the unquoted rest as
      value. */
  function ReadLine(raw: string): (r: Option<Assignment>)
    ensures r.None? <==> Strip(raw) == [] || Strip(raw)[0] == '#' || !Contains(Strip(raw), "=")
    ensures r.Some? ==> IsStripped(r.value.key)
                        && forall j :: 0 <= j < |r.value.key| ==> r.value.key[j] != '='
  {
    var line := Strip(raw);
    if line == [] || line[0] == '#' then None
    else
      match Find(line, "=")
      case None => None
      case Some(i) =>
        BeforeFirstEquals(line, i);
        StripIsStripped(line[..i]);
        StripByKeeps(line[..i], IsSpace, c => c != '=');
        Some(Assignment(Strip(line[..i]), Unquote(line[i + 1..])))
  }

  /** A clean `KEY=VALUE` line, with any whitespace around it, is read back
      as exactly that key and value. */
  lemma ReadLineOfAssignment(pad: string, key: string, value: string)
    requires forall j :: 0 <= j < |pad| ==> IsSpace(pad[j])
    requires key != [] && IsStripped(key) && key[0] != '#'
    requires forall j :: 0 <= j < |key| ==> key[j] != '='
    requires CleanValue(value)
    ensures ReadLine(pad + key + "=" + value + pad) == Some(Assignment(key, value))
  {
    var line := key + "=" + value;
    var raw := pad + line + pad;
    assert pad + key + "=" + value + pad == raw;
    AssignmentStripped(key, value);
    StripPadded(pad, line);
    FirstEqualsAfterKey(key, value);
    StripOfStripped(key);
    UnquoteClean(value);
    ReadLineAt(raw, line, |key|);
  }

  /** How `ReadLine` reads a line whose stripped form has an `=`. */
  lemma ReadLineAt(raw: string, line: string, i: nat)
    requires Strip(raw) == line && line != [] && line[0] != '#'
    requires Find(line, "=") == Some(i)
    ensures ReadLine(raw) == Some(Assignment(Strip(line[..i]), Unquote(line[i + 1..])))
  {
  }

  lemma AssignmentStripped(key: string, value: string)
    requires key != [] && IsStripped(key)
    requires CleanValue(value)
    ensures IsStripped(key + "=" + value) && (key + "=" + value)[0] == key[0]
  {
    var line := key + "=" + value;
    assert line[0] == key[0];
    if value == [] {
      assert line[|line| - 1] == '=';
    } else {
      assert line[|line| - 1] == value[|value| - 1];
    }
  }

  /** A value `Unquote` leaves alone: no whitespace or quote at either end. */
  predicate CleanValue(value: string) {
    value == [] || (IsStripped(value) && value[0] != '"' && value[0] != '\''
                    && value[|value| - 1] != '"' && value[|value| - 1] != '\'')
  }

  lemma UnquoteClean(value: string)
    requires CleanValue(value)
    ensures Unquote(value) == value
  {
    StripOfStripped(value);
    StripByClean(value, x => x == '"');
    StripByClean(value, x => x == '\'');
  }

  /** In `key=value` with no `=` in the key, the first `=` follows the key. */
  lemma FirstEqualsAfterKey(key: string, value: string)
    requires forall j :: 0 <= j < |key| ==> key[j] != '='
    ensures Find(key + "=" + value, "=") == Some(|key|)
    ensures (key + "=" + value)[..|key|] == key && (key + "=" + value)[|key| + 1..] == value
  {
    var line := key + "=" + value;
    assert line[|key|..|key| + 1] == "=";
    assert OccursAt(line, "=", |key|);
    forall j | 0 <= j < |key|
      ensures !OccursAt(line, "=", j)
    {
      assert line[j..j + 1][0] == key[j];
    }
  }

  /** Whitespace around a stripped, non-empty line is what `strip()` removes. */
  lemma StripPadded(pad: string, line: string)
    requires forall j :: 0 <= j < |pad| ==> IsSpace(pad[j])
    requires line != [] && IsStripped(line)
    ensures Strip(pad + line + pad) == line
  {
    var s := pad + line + pad;
    TakeWhileAppend(pad, line + pad, IsSpace);
    assert s == pad + (line + pad);
    assert TakeWhile(line + pad, IsSpace) == [];
    var d := DropWhile(s, IsSpace);
    assert d == line + pad;
    DropWhileEndPadded(line, pad);
  }

  lemma {:induction false} DropWhileEndPadded(line: string, pad: string)
    requires forall j :: 0 <= j < |pad| ==> IsSpace(pad[j])
    requires line != [] && !IsSpace(line[|line| - 1])
    decreases |pad|
    ensures DropWhileEnd(line + pad, IsSpace) == line
  {
    if pad == [] {
      assert line + pad == line;
    } else {
      var s := line + pad;
      assert s[..|s| - 1] == line + pad[..|pad| - 1];
      DropWhileEndPadded(line, pad[..|pad| - 1]);
    }
  }

  /** What the reader makes of each line, in order. */
  function ReadLines(lines: seq<string>): (r: seq<Option<Assignment>>)
    ensures |r| == |lines|
    ensures forall i :: 0 <= i < |lines| ==> r[i] == ReadLine(lines[i])
  {
    if lines == [] then [] else [ReadLine(lines[0])] + ReadLines(lines[1..])
  }

  /** Whether `os.environ[key] = value` can store an assignment: the
      platform's `setenv` refuses an empty name, and Python refuses a NUL
      character in a name or a value before it gets there. */
  predicate Storable(a: Assignment) {
    a.key != [] && '\0' !in a.key && '\0' !in a.value
  }

  /** The environment after the loop of `load_dotenv`, and whether the
      loop raised.  A raise ends the loop and leaves `load_dotenv` (and the
      import of config.py with it); what was stored before it stays. */
  datatype Loaded = Loaded(env: Env, raised: bool)

  /** The fallback loop of `load_dotenv` over what was read from the lines
      of a `.env` file: each assignment is stored unless its key is already
      set, so a name set before, or earlier in the file, keeps its value;
      an assignment that cannot be stored raises. */
  function Load(env: Env, entries: seq<Option<Assignment>>): (r: Loaded)
    decreases |entries|
    ensures env.Keys <= r.env.Keys
    ensures forall k :: k in env ==> r.env[k] == env[k]
    ensures forall k :: k in r.env && k !in env ==> k != [] && '\0' !in k && '\0' !in r.env[k]
  {
    if entries == [] then Loaded(env, false)
    else
      match entries[0]
      case None => Load(env, entries[1..])
      case Some(a) =>
        if a.key in env then Load(env, entries[1..])
        else if !Storable(a) then Loaded(env, true)
        else Load(env[a.key := a.value], entries[1..])
  }

  /** The value of the first assignment to `key`, if any. */
  function FirstValue(entries: seq<Option<Assignment>>, key: string): Option<string>
    decreases |entries|
  {
    if entries == [] then None
    else
      match entries[0]
      case Some(a) => if a.key == key then Some(a.value) else FirstValue(entries[1..], key)
      case None => FirstValue(entries[1..], key)
  }

  /** After a load that does not raise, a name holds its earlier value if
      it had one, and otherwise the value of its first assignment in the
      file; a name that is neither set nor assigned stays unset. */
  lemma {:induction false} LoadLookup(env: Env, entries: seq<Option<Assignment>>, key: string)
    decreases |entries|
    ensures !Load(env, entries).raised ==>
              (key in Load(env, entries).env <==> key in env || FirstValue(entries, key).Some?)
    ensures !Load(env, entries).raised && key in Load(env, entries).env ==>
              Load(env, entries).env[key] == (if key in env then env[key] else FirstValue(entries, key).value)
  {
    if entries != [] {
      match entries[0]
      case None => LoadLookup(env, entries[1..], key);
      case Some(a) =>
        if a.key in env {
          LoadLookup(env, entries[1..], key);
        } else if Storable(a) {
          LoadLookup(env[a.key := a.value], entries[1..], key);
        }
    }
  }

  /** A file whose every assignment can be stored loads without raising. */
  lemma {:induction false} LoadStorableNeverRaises(env: Env, entries: seq<Option<Assignment>>)
    requires forall i :: 0 <= i < |entries| && entries[i].Some? ==> Storable(entries[i].value)
    decreases |entries|
    ensures !Load(env, entries).raised
  {
    if entries != [] {
      assert forall i :: 0 <= i < |entries[1..]| ==> entries[1..][i] == entries[i + 1];
      match entries[0]
      case None => LoadStorableNeverRaises(env, entries[1..]);
      case Some(a) =>
        assert Storable(a);
        if a.key in env {
          LoadStorableNeverRaises(env, entries[1..]);
        } else {
          LoadStorableNeverRaises(env[a.key := a.value], entries[1..]);
        }
    }
  }

  /** Loading a file is loading its first `i` lines and then the rest,
      when the first `i` lines do not raise. */
  lemma {:induction false} LoadSplit(env: Env, entries: seq<Option<Assignment>>, i: nat)
    requires i <= |entries|
    requires !Load(env, entries[..i]).raised
    decreases i
    ensures Load(env, entries) == Load(Load(env, entries[..i]).env, entries[i..])
  {
    if i == 0 {
      assert entries[..0] == [] && entries[0..] == entries;
    } else {
      var head := entries[..i];
      assert head[0] == entries[0] && head[1..] == entries[1..][..i - 1];
      assert entries[1..][i - 1..] == entries[i..];
      match entries[0]
      case None => LoadSplit(env, entries[1..], i - 1);
      case Some(a) =>
        if a.key in env {
          LoadSplit(env, entries[1..], i - 1);
        } else if Storable(a) {
          LoadSplit(env[a.key := a.value], entries[1..], i - 1);
        }
    }
  }

  /** A line whose assignment is not yet set and cannot be stored raises,
      and only the lines before it have been loaded. */
  lemma LoadStopsAt(env: Env, entries: seq<Option<Assignment>>, i: nat)
    requires i < |entries|
    requires !Load(env, entries[..i]).raised
    requires entries[i].Some? && entries[i].value.key !in Load(env, entries[..i]).env
    requires !Storable(entries[i].value)
    ensures Load(env, entries) == Loaded(Load(env, entries[..i]).env, true)
  {
    LoadSplit(env, entries, i);
    assert entries[i..][0] == entries[i];
  }

  /** A load that raises does so at a line of the kind `LoadStopsAt`
      describes, keeping what the lines before it stored. */
  lemma {:induction false} LoadRaisesAt(env: Env, entries: seq<Option<Assignment>>)
    requires Load(env, entries).raised
    decreases |entries|
    ensures exists i :: 0 <= i < |entries| && !Load(env, entries[..i]).raised
                        && entries[i].Some? && entries[i].value.key !in Load(env, entries[..i]).env
                        && !Storable(entries[i].value)
                        && Load(env, entries).env == Load(env, entries[..i]).env
  {
    if entries[0].Some? && entries[0].value.key !in env && !Storable(entries[0].value) {
      assert entries[..0] == [];
      assert Load(env, entries[..0]) == Loaded(env, false);
    } else {
      var next := match entries[0]
        case Some(a) => if a.key in env then env else env[a.key := a.value]
        case None => env;
      assert Load(env, entries) == Load(next, entries[1..]);
      LoadRaisesAt(next, entries[1..]);
      var j :| 0 <= j < |entries[1..]| && !Load(next, entries[1..][..j]).raised
               && entries[1..][j].Some? && entries[1..][j].value.key !in Load(next, entries[1..][..j]).env
               && !Storable(entries[1..][j].value)
               && Load(next, entries[1..]).env == Load(next, entries[1..][..j]).env;
      var head := entries[..j + 1];
      assert head[0] == entries[0] && head[1..] == entries[1..][..j];
      assert Load(env, head) == Load(next, entries[1..][..j]);
      assert entries[j + 1] == entries[1..][j];
    }
  }

  /** `load_dotenv` without the optional `getv` library: a missing file
      changes nothing, and a present one never overwrites a variable. */
  function LoadDotenv(env: Env, file: Option<seq<string>>): (r: Loaded)
    ensures file.None? ==> r == Loaded(env, false)
    ensures env.Keys <= r.env.Keys && forall k :: k in env ==> r.env[k] == env[k]
  {
    match file
    case None => Loaded(env, false)
    case Some(lines) => Load(env, ReadLines(lines))
  }

  // ----- typed lookups -----

  /** `get_env(key, default)`. */
  function GetEnv(env: Env, key: string, default: Option<string>): (r: Option<string>)
    ensures key in env ==> r == Some(env[key])
    ensures key !in env ==> r == default
  {
    if key in env then Some(env[key]) else default
  }

  /** `str(b)` for a Python bool. */
  function BoolText(b: bool): string {
    if b then "True" else "False"
  }

  /** The lower-cased spellings `get_env_bool` reads as true. */
  const TrueWords: set<string> := {"true", "1", "yes", "on"}

  /** `get_env_bool(key, default)`: the value, or `str(default)`, lower-cased
      and looked up among the true spellings. */
  function GetEnvBool(env: Env, key: string, default: bool): bool {
    Lower(if key in env then env[key] else BoolText(default)) in TrueWords
  }

  /** An unset name reads as the default: `str(default).lower()` is `"true"`
      exactly for `True`. */
  lemma GetEnvBoolDefault(env: Env, key: string, default: bool)
    requires key !in env
    ensures GetEnvBool(env, key, default) == default
  {
    if default {
      assert Lower("True") == "true";
    } else {
      assert Lower("False") == "false";
      assert "false" !in TrueWords;
    }
  }

  /** Writing `str(b)` into the environment reads back as `b`. */
  lemma GetEnvBoolRoundTrip(env: Env, key: string, b: bool, default: bool)
    ensures GetEnvBool(env[key := BoolText(b)], key, default) == b
  {
    if b {
      assert Lower("True") == "true";
    } else {
      assert Lower("False") == "false";
      assert "false" !in TrueWords;
    }
  }

  /** Case does not matter: a value and its lower-cased form read alike. */
  lemma GetEnvBoolIgnoresCase(env: Env, key: string, value: string, default: bool)
    ensures GetEnvBool(env[key := value], key, default) == GetEnvBool(env[key := Lower(value)], key, default)
  {
    LowerIdempotent(value);
  }

  lemma LowerIdempotent(s: string)
    ensures Lower(Lower(s)) == Lower(s)
  {
  }

  /** `get_env_int(key, default)`: `int()` of the value, or of
      `str(default)`, and the default where `int()` raises `ValueError`. */
  function GetEnvInt(env: Env, key: string, default: int): int {
    match ParseInt(if key in env then env[key] else IntToString(default))
    case Some(n) => n
    case None => default
  }

  /** An unset name reads as the default, since `int(str(default))` is the
      default. */
  lemma GetEnvIntDefault(env: Env, key: string, default: int)
    requires key !in env
    ensures GetEnvInt(env, key, default) == default
  {
    ParseIntOfIntToString(default);
  }

  /** Writing `str(n)` into the environment reads back as `n`. */
  lemma GetEnvIntRoundTrip(env: Env, key: string, n: int, default: int)
    ensures GetEnvInt(env[key := IntToString(n)], key, n) == n
    ensures GetEnvInt(env[key := IntToString(n)], key, default) == n
  {
    ParseIntOfIntToString(n);
  }

  // ----- the execution settings -----

  /** The settings of `AppConfig` the executor reads. */
  function ExecSettings(env: Env): Executor.ExecConfig {
    Executor.ExecConfig(GetEnvBool(env, "SKIP_AMEN_CONFIRMATION", true),
                        GetEnv(env, "CONTAINER_PREFIX", Some("intent")).value,
                        GetEnvInt(env, "CONTAINER_PORT", 8000))
  }

  /** With nothing set, confirmation is skipped, containers are prefixed
      `intent` and listen on port 8000. */
  lemma DefaultExecSettings()
    ensures ExecSettings(map[]) == Executor.ExecConfig(true, "intent", 8000)
  {
    GetEnvBoolDefault(map[], "SKIP_AMEN_CONFIRMATION", true);
    GetEnvIntDefault(map[], "CONTAINER_PORT", 8000);
  }
}
