/**
  String primitives shared by every component: Python's `str.strip`,
  `str.split`, `in` / `find`, `lower`, `replace` for one character, `join`,
  and the decimal rendering and parsing of integers (`str(n)`, `int(s)`).
  Strings are sequences of characters; nothing here knows about encodings.
 */
module Text {
  import opened Wrappers

  /** Python's `str.isspace`: the characters `strip()`, `split()` and the
      regular-expression class `\s` treat as whitespace. */
  predicate IsSpace(c: char) {
    || c == ' '
    || ('\t' <= c <= '\r')
    || ('\U{1c}' <= c <= '\U{1f}')
    || c == '\U{85}'
    || c == '\U{a0}'
    || c == '\U{1680}'
    || ('\U{2000}' <= c <= '\U{200a}')
    || c == '\U{2028}'
    || c == '\U{2029}'
    || c == '\U{202f}'
    || c == '\U{205f}'
    || c == '\U{3000}'
  }

  predicate NotSpace(c: char) {
    !IsSpace(c)
  }

  predicate IsDigit(c: char) {
    '0' <= c <= '9'
  }

  /** Python's `s or default` for an optional string: an absent or empty
      string gives way to the default. */
  function OrDefault(s: Option<string>, default: string): (r: string)
    ensures s.Some? && s.value != [] ==> r == s.value
    ensures s.None? || s.value == [] ==> r == default
  {
    if s.Some? && s.value != [] then s.value else default
  }

  /** The text `str(x)` shows for an optional string. */
  function OptText(o: Option<string>): string {
    if o.Some? then o.value else "None"
  }

  /** The longest prefix of `s` whose characters all satisfy `p`. */
  function TakeWhile(s: string, p: char -> bool): (r: string)
    ensures r <= s
    ensures forall i :: 0 <= i < |r| ==> p(r[i])
    ensures |r| == |s| || !p(s[|r|])
  {
    if s == [] || !p(s[0]) then [] else [s[0]] + TakeWhile(s[1..], p)
  }

  /** `s` without its longest prefix of `p` characters. */
  function DropWhile(s: string, p: char -> bool): (r: string)
    ensures |r| <= |s| && r == s[|s| - |r|..]
    ensures r == [] || !p(r[0])
    ensures forall i :: 0 <= i < |s| - |r| ==> p(s[i])
  {
    s[|TakeWhile(s, p)|..]
  }

  /** `s` without its longest suffix of `p` characters. */
  function DropWhileEnd(s: string, p: char -> bool): (r: string)
    ensures r <= s
    ensures r == [] || !p(r[|r| - 1])
    ensures forall i :: |r| <= i < |s| ==> p(s[i])
  {
    if s == [] || !p(s[|s| - 1]) then s else DropWhileEnd(s[..|s| - 1], p)
  }

  /** `s.strip(chars)`: removes `p` characters from both ends. */
  function StripBy(s: string, p: char -> bool): (r: string)
    ensures r == [] || (!p(r[0]) && !p(r[|r| - 1]))
    ensures Contains(s, r)
  {
    var d := DropWhile(s, p);
    var r := DropWhileEnd(d, p);
    assert OccursAt(s, r, |s| - |d|);
    r
  }

  /** `strip(chars)` leaves a string that neither starts nor ends with one
      of the stripped characters as it is. */
  lemma StripByClean(s: string, p: char -> bool)
    requires s == [] || (!p(s[0]) && !p(s[|s| - 1]))
    ensures StripBy(s, p) == s
  {
    if s != [] {
      assert TakeWhile(s, p) == [];
      assert DropWhile(s, p) == s;
    }
  }

  /** Dropping a suffix of `p` characters keeps every prefix that ends
      in a character outside `p`. */
  lemma DropWhileEndKeepsPrefix(s: string, p: char -> bool, k: nat)
    requires 0 < k <= |s| && !p(s[k - 1])
    ensures k <= |DropWhileEnd(s, p)| && DropWhileEnd(s, p)[..k] == s[..k]
  {
    var r := DropWhileEnd(s, p);
    assert r == s[..|r|];
  }

  /** Nothing to drop when the first character is outside `p`. */
  lemma DropWhileNone(s: string, p: char -> bool)
    requires s != [] && !p(s[0])
    ensures DropWhile(s, p) == s
  {
    assert TakeWhile(s, p) == [];
  }

  /** Stripping keeps only characters of the original string. */
  lemma StripByKeeps(s: string, p: char -> bool, q: char -> bool)
    requires forall i :: 0 <= i < |s| ==> q(s[i])
    ensures forall i :: 0 <= i < |StripBy(s, p)| ==> q(StripBy(s, p)[i])
  {
    var r := StripBy(s, p);
    var d := DropWhile(s, p);
    assert r == DropWhileEnd(d, p);
    forall i | 0 <= i < |r|
      ensures q(r[i])
    {
      assert r[i] == d[i] == s[|s| - |d| + i];
    }
  }

  /** Python's `s.strip()`. */
  function Strip(s: string): string {
    StripBy(s, IsSpace)
  }

  /** Python's `s.strip(c)` for a single character `c`. */
  function StripChar(s: string, c: char): string {
    StripBy(s, x => x == c)
  }

  /** Python's `s.lstrip()`. */
  function TrimStart(s: string): string {
    DropWhile(s, IsSpace)
  }

  /** Neither end of `s` is whitespace: what `strip()` returns. */
  predicate IsStripped(s: string) {
    s == [] || (!IsSpace(s[0]) && !IsSpace(s[|s| - 1]))
  }

  lemma StripIsStripped(s: string)
    ensures IsStripped(Strip(s))
  {
  }

  /** `strip()` leaves a string with no whitespace at either end as it is. */
  lemma {:induction false} StripOfStripped(s: string)
    requires IsStripped(s)
    ensures Strip(s) == s
  {
    if s != [] {
      assert TakeWhile(s, IsSpace) == [];
      assert DropWhile(s, IsSpace) == s;
    }
  }

  /** A non-empty string without whitespace: one piece of `split()`. */
  predicate IsWord(w: string) {
    w != [] && forall j :: 0 <= j < |w| ==> !IsSpace(w[j])
  }

  /** Python's `s.split()` without arguments: the maximal runs of
      non-whitespace characters, in order. */
  function Words(s: string): (r: seq<string>)
    decreases |s|
    ensures forall i :: 0 <= i < |r| ==> IsWord(r[i])
  {
    var t := TrimStart(s);
    if t == [] then []
    else
      var w := TakeWhile(t, NotSpace);
      [w] + Words(t[|w|..])
  }

  /** Leading whitespace does not change the words of a string. */
  lemma {:induction false} WordsSkipsSpace(ws: string, s: string)
    requires forall i :: 0 <= i < |ws| ==> IsSpace(ws[i])
    ensures Words(ws + s) == Words(s)
  {
    var t := TrimStart(ws + s);
    assert TakeWhile(ws + s, IsSpace) == ws + TakeWhile(s, IsSpace) by {
      TakeWhileAppend(ws, s, IsSpace);
    }
    assert t == TrimStart(s);
  }

  lemma {:induction false} TakeWhileAppend(a: string, b: string, p: char -> bool)
    requires forall i :: 0 <= i < |a| ==> p(a[i])
    ensures TakeWhile(a + b, p) == a + TakeWhile(b, p)
    decreases |a|
  {
    if a != [] {
      assert (a + b)[1..] == a[1..] + b;
      TakeWhileAppend(a[1..], b, p);
    } else {
      assert a + b == b;
    }
  }

  /** A non-empty run of non-whitespace followed by whitespace or the end is
      the first word. */
  lemma {:induction false} WordsCons(w: string, rest: string)
    requires w != []
    requires forall i :: 0 <= i < |w| ==> !IsSpace(w[i])
    requires rest == [] || IsSpace(rest[0])
    ensures Words(w + rest) == [w] + Words(rest)
  {
    var s := w + rest;
    assert TakeWhile(s, IsSpace) == [];
    assert TrimStart(s) == s;
    assert TakeWhile(s, NotSpace) == w by {
      TakeWhileAppend(w, rest, NotSpace);
      assert TakeWhile(rest, NotSpace) == [];
    }
    assert s[|w|..] == rest;
  }

  /** A string of whitespace has no words. */
  lemma NoWordsInSpace(ws: string)
    requires forall i :: 0 <= i < |ws| ==> IsSpace(ws[i])
    ensures Words(ws) == []
  {
    TakeWhileAppend(ws, [], IsSpace);
    assert ws + [] == ws;
  }

  /** Trailing whitespace does not change the words of a string. */
  lemma {:induction false} WordsDropsTrailingSpace(e: string, ws: string)
    requires forall i :: 0 <= i < |ws| ==> IsSpace(ws[i])
    ensures Words(e + ws) == Words(e)
    decreases |e|
  {
    if e == [] {
      assert e + ws == ws;
      NoWordsInSpace(ws);
    } else if IsSpace(e[0]) {
      var tail := e[1..];
      assert e == [e[0]] + tail;
      assert e + ws == [e[0]] + (tail + ws);
      WordsSkipsSpace([e[0]], tail);
      WordsSkipsSpace([e[0]], tail + ws);
      WordsDropsTrailingSpace(tail, ws);
    } else {
      var w := TakeWhile(e, NotSpace);
      var rest := e[|w|..];
      assert e == w + rest;
      assert e + ws == w + (rest + ws);
      WordsCons(w, rest);
      assert rest + ws == [] || IsSpace((rest + ws)[0]);
      WordsCons(w, rest + ws);
      WordsDropsTrailingSpace(rest, ws);
    }
  }

  /** `split()` of a string and of its `strip()` agree. */
  lemma WordsOfStrip(x: string)
    ensures Words(Strip(x)) == Words(x)
  {
    var d := DropWhile(x, IsSpace);
    WordsOfTrimStart(x);
    WordsOfTrimEnd(d);
  }

  lemma WordsOfTrimStart(x: string)
    ensures Words(DropWhile(x, IsSpace)) == Words(x)
  {
    var d := DropWhile(x, IsSpace);
    var lead := x[..|x| - |d|];
    assert x == lead + d;
    WordsSkipsSpace(lead, d);
  }

  lemma WordsOfTrimEnd(d: string)
    ensures Words(DropWhileEnd(d, IsSpace)) == Words(d)
  {
    var e := DropWhileEnd(d, IsSpace);
    var trail := d[|e|..];
    assert d == e + trail;
    assert forall i :: 0 <= i < |trail| ==> IsSpace(trail[i]) by {
      forall i | 0 <= i < |trail|
        ensures IsSpace(trail[i])
      {
        assert trail[i] == d[|e| + i];
      }
    }
    WordsDropsTrailingSpace(e, trail);
  }

  /** `strip()` keeps only characters of its argument. */
  lemma StripKeepsOut(x: string, c: char)
    requires c !in x
    ensures c !in Strip(x)
  {
    var r := Strip(x);
    var i :| 0 <= i <= |x| - |r| && OccursAt(x, r, i);
    forall j | 0 <= j < |r|
      ensures r[j] != c
    {
      assert r[j] == x[i..i + |r|][j] == x[i + j];
    }
  }

  /** `pat` occurs in `text` at position `i`. */
  predicate OccursAt(text: string, pat: string, i: int) {
    0 <= i && i + |pat| <= |text| && text[i..i + |pat|] == pat
  }

  /** Python's `pat in text`. */
  predicate Contains(text: string, pat: string) {
    exists i :: 0 <= i <= |text| - |pat| && OccursAt(text, pat, i)
  }

  /** Python's `text.find(pat, start)`, with `None` for -1. */
  function FindFrom(text: string, pat: string, start: nat): (r: Option<nat>)
    decreases |text| - start
    ensures r.Some? ==> start <= r.value && OccursAt(text, pat, r.value)
    ensures r.Some? ==> forall j :: start <= j < r.value ==> !OccursAt(text, pat, j)
    ensures r.None? ==> forall j :: start <= j ==> !OccursAt(text, pat, j)
  {
    if start + |pat| > |text| then None
    else if text[start..start + |pat|] == pat then Some(start)
    else FindFrom(text, pat, start + 1)
  }

  /** Python's `text.find(pat)`: the first occurrence, `None` exactly when
      `pat` does not occur. */
  function Find(text: string, pat: string): (r: Option<nat>)
    ensures r.Some? <==> Contains(text, pat)
    ensures r.Some? ==> OccursAt(text, pat, r.value)
    ensures r.Some? ==> forall j :: 0 <= j < r.value ==> !OccursAt(text, pat, j)
  {
    FindFrom(text, pat, 0)
  }

  function LowerChar(c: char): char {
    if 'A' <= c <= 'Z' then (c as int - 'A' as int + 'a' as int) as char else c
  }

  /** Python's `s.lower()` on ASCII letters; other characters are kept. */
  function Lower(s: string): (r: string)
    ensures |r| == |s|
    ensures forall i :: 0 <= i < |s| ==> r[i] == LowerChar(s[i])
  {
    if s == [] then [] else [LowerChar(s[0])] + Lower(s[1..])
  }

  function UpperChar(c: char): char {
    if 'a' <= c <= 'z' then (c as int - 'a' as int + 'A' as int) as char else c
  }

  /** Python's `s.upper()` on ASCII letters; other characters are kept. */
  function Upper(s: string): (r: string)
    ensures |r| == |s|
    ensures forall i :: 0 <= i < |s| ==> r[i] == UpperChar(s[i])
  {
    if s == [] then [] else [UpperChar(s[0])] + Upper(s[1..])
  }

  /** Python's `s.replace(a, b)` for single characters. */
  function ReplaceChar(s: string, a: char, b: char): (r: string)
    ensures |r| == |s|
    ensures forall i :: 0 <= i < |s| ==> r[i] == (if s[i] == a then b else s[i])
  {
    if s == [] then [] else [if s[0] == a then b else s[0]] + ReplaceChar(s[1..], a, b)
  }

  /** Python's `sep.join(parts)`. */
  function Join(parts: seq<string>, sep: string): string
    decreases |parts|
  {
    if parts == [] then []
    else if |parts| == 1 then parts[0]
    else parts[0] + sep + Join(parts[1..], sep)
  }

  /** The text before the first `c`, or all of `s` when it has none. */
  function UntilChar(s: string, c: char): (r: string)
    ensures r <= s
    ensures forall i :: 0 <= i < |r| ==> r[i] != c
    ensures |r| == |s| || s[|r|] == c
  {
    if s == [] || s[0] == c then [] else [s[0]] + UntilChar(s[1..], c)
  }

  /** Python's `s.split(c)` for one separator character: every piece between
      separators, so there is always one piece more than separators. */
  function SplitChar(s: string, c: char): (r: seq<string>)
    decreases |s|
    ensures |r| >= 1
    ensures forall i, j :: 0 <= i < |r| && 0 <= j < |r[i]| ==> r[i][j] != c
  {
    var head := UntilChar(s, c);
    if |head| == |s| then [s]
    else [head] + SplitChar(s[|head| + 1..], c)
  }

  /** Joining a list of two or more pieces puts the separator after the first. */
  lemma JoinCons(head: string, rest: seq<string>, sep: string)
    requires rest != []
    ensures Join([head] + rest, sep) == head + sep + Join(rest, sep)
  {
    assert ([head] + rest)[1..] == rest;
  }

  /** A text cut around one of its characters. */
  lemma CutAt(s: string, k: nat)
    requires k < |s|
    ensures s == s[..k] + [s[k]] + s[k + 1..]
  {
  }

  /** Splitting and joining again with the same separator gives the input back. */
  lemma {:induction false} JoinSplitChar(s: string, c: char)
    ensures Join(SplitChar(s, c), [c]) == s
    decreases |s|
  {
    var head := UntilChar(s, c);
    if |head| < |s| {
      var tail := s[|head| + 1..];
      var rest := SplitChar(tail, c);
      JoinSplitChar(tail, c);
      assert SplitChar(s, c) == [head] + rest;
      JoinCons(head, rest, [c]);
      CutAt(s, |head|);
      assert head == s[..|head|];
    } else {
      assert SplitChar(s, c) == [s];
    }
  }

  /** The decimal digit of a value below ten. */
  function DigitChar(d: nat): char
    requires d < 10
  {
    "0123456789"[d]
  }

  function DigitValue(c: char): nat
    requires IsDigit(c)
  {
    c as int - '0' as int
  }

  /** Python's `str(n)` for a natural number. */
  function NatToString(n: nat): (r: string)
    ensures r != []
    ensures forall i :: 0 <= i < |r| ==> IsDigit(r[i])
    decreases n
  {
    if n < 10 then [DigitChar(n)] else NatToString(n / 10) + [DigitChar(n % 10)]
  }

  /** Python's `str(i)` for any integer. */
  function IntToString(i: int): string {
    if i < 0 then "-" + NatToString(-i) else NatToString(i)
  }

  /** The value of a string of decimal digits. */
  function DecimalValue(s: string): nat
    requires forall i :: 0 <= i < |s| ==> IsDigit(s[i])
    decreases |s|
  {
    if s == [] then 0 else DecimalValue(s[..|s| - 1]) * 10 + DigitValue(s[|s| - 1])
  }

  lemma {:induction false} DecimalOfNatToString(n: nat)
    ensures DecimalValue(NatToString(n)) == n
    decreases n
  {
    var s := NatToString(n);
    if n >= 10 {
      DecimalOfNatToString(n / 10);
      assert s[..|s| - 1] == NatToString(n / 10);
    }
  }

  /** The digit groups Python's `int()` accepts: digits, with single
      underscores allowed between two digits. */
  predicate IsDigitGroup(s: string) {
    && s != []
    && IsDigit(s[0])
    && IsDigit(s[|s| - 1])
    && (forall i :: 0 <= i < |s| ==> IsDigit(s[i]) || s[i] == '_')
    && (forall i :: 0 <= i < |s| - 1 ==> !(s[i] == '_' && s[i + 1] == '_'))
  }

  function WithoutUnderscores(s: string): (r: string)
    ensures (forall i :: 0 <= i < |s| ==> IsDigit(s[i]) || s[i] == '_') ==>
              forall i :: 0 <= i < |r| ==> IsDigit(r[i])
    ensures (forall i :: 0 <= i < |s| ==> s[i] != '_') ==> r == s
  {
    if s == [] then [] else (if s[0] == '_' then [] else [s[0]]) + WithoutUnderscores(s[1..])
  }

  /** Base-ten `int(s)` on ASCII digits: surrounding whitespace, an optional
      sign, then one group of the digits `0`-`9`; `None` where Python raises
      `ValueError`, and also for digits outside ASCII, which Python would
      accept. */
  function ParseInt(s: string): Option<int> {
    var t := Strip(s);
    if t == [] then None
    else
      var negative := t[0] == '-';
      var body := if t[0] == '-' || t[0] == '+' then t[1..] else t;
      if !IsDigitGroup(body) then None
      else
        var magnitude: int := DecimalValue(WithoutUnderscores(body));
        Some(if negative then -magnitude else magnitude)
  }

  /** A non-empty run of digits is a digit group with nothing to drop. */
  lemma DigitsAreGroup(d: string)
    requires d != [] && forall i :: 0 <= i < |d| ==> IsDigit(d[i])
    ensures IsDigitGroup(d) && WithoutUnderscores(d) == d
  {
  }

  /** `int()` of a run of digits. */
  lemma ParseDigits(d: string)
    requires d != [] && forall i :: 0 <= i < |d| ==> IsDigit(d[i])
    ensures ParseInt(d) == Some(DecimalValue(d) as int)
  {
    assert !IsSpace(d[0]) && !IsSpace(d[|d| - 1]);
    StripOfStripped(d);
    DigitsAreGroup(d);
    assert d[0] != '-' && d[0] != '+';
  }

  /** How `int()` reads a stripped text once its sign and digit group are known. */
  lemma ParseSigned(s: string, body: string, magnitude: nat)
    requires Strip(s) == s && s != [] && (s[0] == '-' || s[0] == '+')
    requires body == s[1..] && IsDigitGroup(body)
    requires WithoutUnderscores(body) == body && DecimalValue(body) == magnitude
    ensures ParseInt(s) == Some(if s[0] == '-' then -(magnitude as int) else magnitude as int)
  {
  }

  /** `int()` of a minus sign followed by a run of digits. */
  lemma ParseNegativeDigits(s: string, d: string)
    requires d != [] && forall i :: 0 <= i < |d| ==> IsDigit(d[i])
    requires |s| == |d| + 1 && s[0] == '-' && s[1..] == d
    ensures ParseInt(s) == Some(-(DecimalValue(d) as int))
  {
    var m := DecimalValue(d);
    assert s[|s| - 1] == d[|d| - 1];
    StripOfStripped(s);
    DigitsAreGroup(d);
    ParseSigned(s, d, m);
  }

  /** `int(str(i)) == i`: parsing undoes rendering. */
  lemma ParseIntOfIntToString(i: int)
    ensures ParseInt(IntToString(i)) == Some(i)
  {
    var n: nat := if i < 0 then -i else i;
    DecimalOfNatToString(n);
    if i < 0 {
      ParseNegativeDigits(IntToString(i), NatToString(n));
    } else {
      ParseDigits(NatToString(n));
    }
  }
}
