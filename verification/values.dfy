/**
  Decoded documents: the values a YAML or JSON decoder hands to the parser
  and to `from_dict`.  Mappings have string keys; their insertion order is
  not kept.
 */
module Values {
  import opened Text

  datatype Value =
    | VNull
    | VBool(b: bool)
    | VInt(i: int)
    | VStr(s: string)
    | VList(items: seq<Value>)
    | VMap(entries: map<string, Value>)

  /** Python truthiness: `None`, `False`, `0`, `""`, `[]` and `{}` are false. */
  predicate Truthy(v: Value) {
    match v
    case VNull => false
    case VBool(b) => b
    case VInt(i) => i != 0
    case VStr(s) => s != []
    case VList(items) => items != []
    case VMap(entries) => entries != map[]
  }

  /** Python's `str(v)`.  A list shows the `repr` of its items; a mapping
      shows a placeholder, since the model keeps no key order. */
  function Render(v: Value): string
    decreases v, 1
  {
    match v
    case VNull => "None"
    case VBool(b) => if b then "True" else "False"
    case VInt(i) => IntToString(i)
    case VStr(s) => s
    case VList(items) => "[" + Join(ReprItems(v, items), ", ") + "]"
    case VMap(_) => "{...}"
  }

  /** The `repr` of each item of a list `owner` holds. */
  function ReprItems(owner: Value, items: seq<Value>): (r: seq<string>)
    requires owner.VList? && |items| <= |owner.items| && items == owner.items[|owner.items| - |items|..]
    ensures |r| == |items|
    decreases owner, 0, |items|
  {
    if items == [] then []
    else
      assert items[0] == owner.items[|owner.items| - |items|];
      [Repr(items[0])] + ReprItems(owner, items[1..])
  }

  /** Python's `repr(v)`: a string is quoted with `'`, or with `"` when it
      holds a `'` and no `"`; everything else shows as `str` does. */
  function Repr(v: Value): string
    decreases v, 2
  {
    match v
    case VStr(s) => if '\'' in s && '"' !in s then "\"" + s + "\"" else "'" + s + "'"
    case _ => Render(v)
  }

  /** `"root" in str(v).lower()` for a value built from strings, lists and
      mappings: the quotes and separators `str` adds cannot complete the
      word, so it occurs exactly when some string inside does. */
  predicate MentionsRoot(v: Value) {
    match v
    case VStr(s) => Contains(Lower(s), "root")
    case VList(items) => exists i :: 0 <= i < |items| && MentionsRoot(items[i])
    case VMap(entries) => exists k :: k in entries && (Contains(Lower(k), "root") || MentionsRoot(entries[k]))
    case _ => false
  }

  /** `data.get(key, default)` on a decoded mapping. */
  function Get(m: map<string, Value>, key: string, default: Value): Value {
    if key in m then m[key] else default
  }
}
