/**
 * String operations the Python source takes from its standard library
 * (`str.strip`, `in`, `str.find`, `str.join`, `str.lower`, `re.sub(r'\s+', ' ', ...)`,
 * `str()` of a non-negative int), written out once for every module.
 */
module Text {

  /**
   * Python's `str.isspace`, which is also what `re`'s `\s` and the argument-less `str.strip()`
   * and `str.split()` treat as whitespace: the ASCII controls U+0009..U+000D and U+001C..U+001F,
   * the space, U+0085, and the Unicode space separators, line and paragraph separators.
   */
  predicate IsSpace(c: char) {
    || '\U{0009}' <= c <= '\U{000D}' || '\U{001C}' <= c <= '\U{0020}'
    || c == '\U{0085}' || c == '\U{00A0}' || c == '\U{1680}'
    || '\U{2000}' <= c <= '\U{200A}' || c == '\U{2028}' || c == '\U{2029}'
    || c == '\U{202F}' || c == '\U{205F}' || c == '\U{3000}'
  }

  predicate AllSpace(s: string) {
    forall i :: 0 <= i < |s| ==> IsSpace(s[i])
  }

  /** `str.lstrip()`: drops the leading run of whitespace and nothing else. */
  function TrimLeft(s: string): (r: string)
    ensures |r| <= |s| && r == s[|s| - |r|..]
    ensures forall i :: 0 <= i < |s| - |r| ==> IsSpace(s[i])
    ensures r != [] ==> !IsSpace(r[0])
  {
    if s != [] && IsSpace(s[0]) then TrimLeft(s[1..]) else s
  }

  /** `str.rstrip()`: drops the trailing run of whitespace and nothing else. */
  function TrimRight(s: string): (r: string)
    ensures |r| <= |s| && r == s[..|r|]
    ensures forall i :: |r| <= i < |s| ==> IsSpace(s[i])
    ensures r != [] ==> !IsSpace(r[|r| - 1])
  {
    if s != [] && IsSpace(s[|s| - 1]) then TrimRight(s[..|s| - 1]) else s
  }

  /** `str.strip()`. */
  function Strip(s: string): (r: string)
    ensures |r| <= |s|
    ensures r != [] ==> !IsSpace(r[0]) && !IsSpace(r[|r| - 1])
    ensures r == [] <==> AllSpace(s)
    ensures forall c :: c in r ==> c in s
  {
    var l := TrimLeft(s);
    assert forall c :: c in l ==> c in s by {
      forall c | c in l ensures c in s {
        var i :| 0 <= i < |l| && l[i] == c;
        assert s[|s| - |l| + i] == c;
      }
    }
    var r := TrimRight(l);
    assert r == [] ==> AllSpace(s) by {
      if r == [] {
        assert l == [];
      }
    }
    assert r != [] ==> !AllSpace(s) by {
      if r != [] { assert s[|s| - |l|] == l[0] == r[0]; }
    }
    r
  }

  /** A string already without surrounding whitespace is its own `strip()`. */
  lemma StripUnchanged(s: string)
    requires s != [] ==> !IsSpace(s[0]) && !IsSpace(s[|s| - 1])
    ensures Strip(s) == s
  {
    assert TrimLeft(s) == s;
    assert TrimRight(s) == s;
  }

  /** `p` occurs in `s` starting at index `i`. */
  predicate OccursAt(s: string, p: string, i: int) {
    0 <= i && i + |p| <= |s| && s[i..i + |p|] == p
  }

  /** Python's substring test `p in s`. */
  predicate Contains(s: string, p: string) {
    exists i | 0 <= i <= |s| :: OccursAt(s, p, i)
  }

  /** `s.find(p, start)`: the first occurrence at or after `start`, or -1. */
  function FindFrom(s: string, p: string, start: nat): (r: int)
    ensures r == -1 || (start <= r && OccursAt(s, p, r))
    decreases |s| + 1 - start
  {
    if start + |p| > |s| then -1
    else if s[start..start + |p|] == p then start
    else FindFrom(s, p, start + 1)
  }

  /** No occurrence at or after `start` comes before the one `FindFrom` reports; none at all when it reports -1. */
  lemma {:induction false} FindFromFirst(s: string, p: string, start: nat)
    ensures var r := FindFrom(s, p, start);
      forall i :: start <= i && (r == -1 || i < r) ==> !OccursAt(s, p, i)
    decreases |s| + 1 - start
  {
    if start + |p| <= |s| && s[start..start + |p|] != p {
      FindFromFirst(s, p, start + 1);
    }
  }

  /** `s.find(p)`. */
  function Find(s: string, p: string): int {
    FindFrom(s, p, 0)
  }

  /** -1 exactly when `p` does not occur in `s`; otherwise the first place it occurs. */
  lemma FindSpec(s: string, p: string)
    ensures Find(s, p) == -1 <==> !Contains(s, p)
    ensures Find(s, p) >= 0 ==> OccursAt(s, p, Find(s, p)) && forall i :: 0 <= i < Find(s, p) ==> !OccursAt(s, p, i)
  {
    FindFromFirst(s, p, 0);
  }

  lemma EmptyOccursAtZero(s: string)
    ensures OccursAt(s, "", 0) && Contains(s, "")
  {
    assert OccursAt(s, "", 0);
  }

  /** `sep.join(parts)`. */
  function Join(parts: seq<string>, sep: string): string
  {
    if |parts| == 0 then ""
    else if |parts| == 1 then parts[0]
    else parts[0] + sep + Join(parts[1..], sep)
  }

  /** In `x + [sep] + y` with no `sep` in `x`, the first `sep` is at index `|x|`. */
  lemma FirstSep(x: string, y: string, sep: char)
    requires sep !in x
    ensures (x + [sep] + y)[|x|] == sep
    ensures forall k :: 0 <= k < |x| ==> (x + [sep] + y)[k] != sep
  {
    forall k | 0 <= k < |x| ensures (x + [sep] + y)[k] != sep {
      assert (x + [sep] + y)[k] == x[k];
    }
  }

  /** The pieces of `sep.join(parts)` are recovered when none of them holds `sep`. */
  lemma SplitAtSep(x: string, y: string, x': string, y': string, sep: char)
    requires sep !in x && sep !in x'
    requires x + [sep] + y == x' + [sep] + y'
    ensures x == x' && y == y'
  {
    var s := x + [sep] + y;
    FirstSep(x, y, sep);
    FirstSep(x', y', sep);
    assert |x| == |x'|;
    assert x == s[..|x|] == x';
    assert y == s[|x| + 1..] == y';
  }

  lemma JoinHasSep(parts: seq<string>, sep: char)
    requires |parts| >= 2
    ensures sep in Join(parts, [sep])
  {
    assert Join(parts, [sep])[|parts[0]|] == sep;
  }

  lemma {:induction false} JoinInjective(a: seq<string>, b: seq<string>, sep: char)
    requires |a| >= 1 && |b| >= 1
    requires forall i :: 0 <= i < |a| ==> sep !in a[i]
    requires forall i :: 0 <= i < |b| ==> sep !in b[i]
    requires Join(a, [sep]) == Join(b, [sep])
    ensures a == b
    decreases |a|
  {
    if |a| == 1 && |b| == 1 {
    } else if |a| == 1 {
      JoinHasSep(b, sep);
      assert false;
    } else if |b| == 1 {
      JoinHasSep(a, sep);
      assert false;
    } else {
      SplitAtSep(a[0], Join(a[1..], [sep]), b[0], Join(b[1..], [sep]), sep);
      JoinInjective(a[1..], b[1..], sep);
      assert a == [a[0]] + a[1..];
      assert b == [b[0]] + b[1..];
    }
  }

  function LowerChar(c: char): char {
    if 'A' <= c <= 'Z' then (c as int + 32) as char else c
  }

  /** `str.lower()` on the ASCII letters; every other character is kept. */
  function Lower(s: string): (r: string)
    ensures |r| == |s|
    ensures forall i :: 0 <= i < |s| ==> r[i] == LowerChar(s[i])
  {
    seq(|s|, i requires 0 <= i < |s| => LowerChar(s[i]))
  }

  /** `p` has no ASCII lower-case letter, so lowering cannot have produced it. */
  predicate NoLowerAscii(p: string) {
    forall k :: 0 <= k < |p| ==> !('a' <= p[k] <= 'z')
  }

  /** A phrase without ASCII lower-case letters found in the lowered text is in the text itself. */
  lemma LowerContains(s: string, p: string)
    requires NoLowerAscii(p) && Contains(Lower(s), p)
    ensures Contains(s, p)
  {
    var i :| 0 <= i <= |s| && OccursAt(Lower(s), p, i);
    forall k | 0 <= k < |p| ensures s[i + k] == p[k] {
      assert Lower(s)[i..i + |p|][k] == p[k];
      assert LowerChar(s[i + k]) == p[k];
    }
    assert s[i..i + |p|] == p;
    assert OccursAt(s, p, i);
  }

  /** `re.sub(r'\s+', ' ', s)`: every maximal run of whitespace becomes one space. */
  function CollapseSpaces(s: string): (r: string)
    ensures |r| <= |s|
    ensures r == [] <==> s == []
    decreases |s|
  {
    if s == [] then []
    else if IsSpace(s[0]) then
      var rest := TrimLeft(s[1..]);
      assert rest == s[|s| - |rest|..];
      [' '] + CollapseSpaces(rest)
    else [s[0]] + CollapseSpaces(s[1..])
  }

  /** Every whitespace character of `r` is a plain space. */
  predicate PlainSpaces(r: string) {
    forall i :: 0 <= i < |r| ==> (IsSpace(r[i]) ==> r[i] == ' ')
  }

  lemma PlainSpacesMembers(r: string)
    requires PlainSpaces(r)
    ensures forall c :: c in r && IsSpace(c) ==> c == ' '
  {
    forall c | c in r && IsSpace(c) ensures c == ' ' {
      var i :| 0 <= i < |r| && r[i] == c;
    }
  }

  /** Every character of `r` is in `s` or is a plain space. */
  predicate DrawnOrSpace(r: string, s: string) {
    forall c :: c in r ==> c in s || c == ' '
  }

  /** Every character of the result comes from the input or is a space; its only whitespace is plain spaces. */
  lemma CollapseSpacesHas(s: string)
    ensures PlainSpaces(CollapseSpaces(s))
    ensures DrawnOrSpace(CollapseSpaces(s), s)
  {
    CollapsePlain(s);
    CollapseDrawn(s);
  }

  /** What `CollapseSpaces` recurses on after the first character. */
  function CollapseRest(s: string): (rest: string)
    requires s != []
    ensures |rest| < |s| && rest == s[|s| - |rest|..]
  {
    if IsSpace(s[0]) then TrimLeft(s[1..]) else s[1..]
  }

  lemma CollapseUnfold(s: string)
    requires s != []
    ensures CollapseSpaces(s) == [if IsSpace(s[0]) then ' ' else s[0]] + CollapseSpaces(CollapseRest(s))
  {
  }

  lemma {:induction false} CollapsePlain(s: string)
    ensures PlainSpaces(CollapseSpaces(s))
    decreases |s|
  {
    if s != [] {
      var rest := CollapseRest(s);
      CollapsePlain(rest);
      CollapseUnfold(s);
      var c := CollapseSpaces(rest);
      var r := CollapseSpaces(s);
      forall i | 0 <= i < |r| && IsSpace(r[i]) ensures r[i] == ' ' {
        if i > 0 {
          assert r[i] == c[i - 1];
        }
      }
    }
  }

  lemma {:induction false} CollapseDrawn(s: string)
    ensures DrawnOrSpace(CollapseSpaces(s), s)
    decreases |s|
  {
    if s != [] {
      var rest := CollapseRest(s);
      CollapseDrawn(rest);
      CollapseUnfold(s);
      assert forall x :: x in rest ==> x in s;
    }
  }

  /** `str(n)` for a non-negative integer: its decimal digits. */
  function NatToString(n: nat): (r: string)
    ensures |r| >= 1
    ensures forall i :: 0 <= i < |r| ==> '0' <= r[i] <= '9'
  {
    if n < 10 then [DigitChar(n)] else NatToString(n / 10) + [DigitChar(n % 10)]
  }

  function DigitChar(d: nat): (c: char)
    requires d < 10
    ensures '0' <= c <= '9'
  {
    ('0' as int + d) as char
  }

  /** `str(i)` for any Python int. */
  function IntToString(i: int): string {
    if i < 0 then "-" + NatToString(-i) else NatToString(i)
  }

  /** `s[:n]` for a non-negative `n`. */
  function Take<T>(s: seq<T>, n: nat): (r: seq<T>)
    ensures |r| <= n && |r| <= |s|
    ensures |s| <= n ==> r == s
    ensures |s| > n ==> |r| == n
    ensures r == s[..|r|]
  {
    if |s| <= n then s else s[..n]
  }

  function EndsWith(s: string, suffix: string): bool {
    |suffix| <= |s| && s[|s| - |suffix|..] == suffix
  }
}
