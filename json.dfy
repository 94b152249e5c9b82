/**
 * The dynamically typed values the source passes around: graph records, attribute maps and
 * the JSON read from data files. A Python `dict` is an association list in insertion order
 * (its keys are strings here); `Truthy` is Python's truth test and `PyStr` is `str()`.
 */
module Json {
  import opened Wrappers
  import opened Text

  datatype Json =
    | JNull
    | JBool(b: bool)
    | JInt(i: int)
    | JStr(s: string)
    | JList(items: seq<Json>)
    | JDict(entries: seq<(string, Json)>)

  /** Python's truth value of the value. */
  predicate Truthy(v: Json) {
    match v
    case JNull => false
    case JBool(b) => b
    case JInt(i) => i != 0
    case JStr(s) => s != ""
    case JList(items) => items != []
    case JDict(entries) => entries != []
  }

  /** Values Python can put in a `set` or use as a `dict` key; a list or a dict raises `TypeError`. */
  predicate Hashable(v: Json) {
    !v.JList? && !v.JDict?
  }

  /** Python's `==` on hashable values: equal values, or a boolean and the integer it equals. */
  predicate PyEquals(a: Json, b: Json) {
    a == b ||
    (a.JBool? && b.JInt? && b.i == (if a.b then 1 else 0)) ||
    (b.JBool? && a.JInt? && a.i == (if b.b then 1 else 0))
  }

  /**
   * The identity of a hashable value inside a Python `set` or `dict`: `True == 1` and
   * `False == 0` there, so a boolean shares its key with the matching integer.
   */
  function HashKey(v: Json): (k: Json)
    ensures !k.JBool?
    ensures !v.JBool? ==> k == v
  {
    if v.JBool? then JInt(if v.b then 1 else 0) else v
  }

  /** Two hashable values have the same key exactly when Python finds them equal. */
  lemma HashKeyIsPyEquals(a: Json, b: Json)
    requires Hashable(a) && Hashable(b)
    ensures HashKey(a) == HashKey(b) <==> PyEquals(a, b)
  {
  }

  /** `d.get(k)`: the value stored under `k`, if any. */
  function Get(entries: seq<(string, Json)>, k: string): (r: Option<Json>)
  {
    if entries == [] then None
    else if entries[0].0 == k then Some(entries[0].1)
    else Get(entries[1..], k)
  }

  /** `Get` finds the first entry with the key, and misses only keys that are absent. */
  lemma {:induction false} GetIsFirst(entries: seq<(string, Json)>, k: string)
    ensures Get(entries, k).None? <==> forall i :: 0 <= i < |entries| ==> entries[i].0 != k
    ensures Get(entries, k).Some? ==>
      exists i :: 0 <= i < |entries| && entries[i] == (k, Get(entries, k).value) &&
        forall j :: 0 <= j < i ==> entries[j].0 != k
  {
    if entries != [] && entries[0].0 != k {
      GetIsFirst(entries[1..], k);
      if Get(entries, k).Some? {
        var i :| 0 <= i < |entries[1..]| && entries[1..][i] == (k, Get(entries, k).value) &&
          forall j :: 0 <= j < i ==> entries[1..][j].0 != k;
        assert entries[i + 1] == (k, Get(entries, k).value);
      }
    } else if entries != [] {
      assert entries[0] == (k, Get(entries, k).value);
    }
  }

  /** `d.get(k)` of a dict value: `None` also when `v` is not a dict. */
  function Field(v: Json, k: string): Option<Json> {
    if v.JDict? then Get(v.entries, k) else None
  }

  /** Python's `record.get(k)` is truthy. */
  predicate HasTruthy(entries: seq<(string, Json)>, k: string) {
    var g := Get(entries, k);
    g.Some? && Truthy(g.value)
  }

  function HexDigit(d: nat): char
    requires d < 16
  {
    if d < 10 then ('0' as int + d) as char else ('a' as int + d - 10) as char
  }

  /** The characters `repr` writes as a `\xhh` escape: C0 and C1 controls, DEL, U+00A0 and U+00AD. */
  predicate IsHexEscaped(c: char) {
    c < ' ' || ('\U{007F}' <= c <= '\U{00A0}') || c == '\U{00AD}'
  }

  /**
   * The characters above U+00FF that `repr` writes as a `\uhhhh` escape, among those the
   * model knows: the space, line and paragraph separators and the common format characters
   * (U+180E, U+200B..U+200F, U+202A..U+202E, U+2060..U+206F, U+FEFF).
   */
  predicate IsUnicodeEscaped(c: char) {
    || c == '\U{1680}' || c == '\U{180E}' || '\U{2000}' <= c <= '\U{200F}' || '\U{2028}' <= c <= '\U{202F}'
    || '\U{205F}' <= c <= '\U{206F}' || c == '\U{3000}' || c == '\U{FEFF}'
  }

  /** How `repr` writes one character of a string quoted with `quote`. */
  function EscapeChar(c: char, quote: char): string {
    if c == '\\' then "\\\\"
    else if c == quote then ['\\', c]
    else if c == '\t' then "\\t"
    else if c == '\n' then "\\n"
    else if c == '\r' then "\\r"
    else if IsHexEscaped(c) then
      ['\\', 'x', HexDigit((c as int) / 16), HexDigit((c as int) % 16)]
    else if IsUnicodeEscaped(c) then
      ['\\', 'u', HexDigit((c as int) / 4096), HexDigit((c as int) / 256 % 16),
       HexDigit((c as int) / 16 % 16), HexDigit((c as int) % 16)]
    else [c]
  }

  function EscapeAll(s: string, quote: char): string {
    if s == [] then "" else EscapeChar(s[0], quote) + EscapeAll(s[1..], quote)
  }

  /** `repr(s)`: single quotes unless `s` holds a `'` and no `"`. */
  function StrRepr(s: string): (r: string)
    ensures |r| >= 2
  {
    var quote := if '\'' in s && '"' !in s then '"' else '\'';
    [quote] + EscapeAll(s, quote) + [quote]
  }

  /** `repr(v)`. */
  function Repr(v: Json): string
    decreases v
  {
    match v
    case JNull => "None"
    case JBool(b) => if b then "True" else "False"
    case JInt(i) => IntToString(i)
    case JStr(s) => StrRepr(s)
    case JList(items) =>
      "[" + Join(seq(|items|, i requires 0 <= i < |items| => Repr(items[i])), ", ") + "]"
    case JDict(entries) =>
      "{" + Join(seq(|entries|, i requires 0 <= i < |entries| =>
                   StrRepr(entries[i].0) + ": " + Repr(entries[i].1)), ", ") + "}"
  }

  /** `str(v)`: a string is itself, every other value its `repr`. */
  function PyStr(v: Json): (r: string)
    ensures v.JStr? ==> r == v.s
  {
    if v.JStr? then v.s else Repr(v)
  }

  /** `str(t)` of a tuple of strings. */
  function TupleRepr(ss: seq<string>): string {
    if |ss| == 1 then "(" + StrRepr(ss[0]) + ",)"
    else "(" + Join(seq(|ss|, i requires 0 <= i < |ss| => StrRepr(ss[i])), ", ") + ")"
  }
}
