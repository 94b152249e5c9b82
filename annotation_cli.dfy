/**
 * `SimpleRelationAnnotationCLI` in generate_data/ae/relation_annotation_cli.py: an
 * interactive tool that walks through predicted (head, tail) pairs, proposes the first rule
 * whose head and tail types match, and records the pairs the user accepts. The file
 * contents (vocabulary rows, rule lines, prediction items), the user's answer and the
 * timestamp are parameters; reading and writing the files is left out.
 */
module AnnotationCli {
  import opened Wrappers
  import opened Text
  import opened Json
  import opened Dedup
  import Seqs

  /** `get_entity_type`'s answer for an entity the vocabulary lacks. */
  const UnknownType: string := "Unknown"

  // ---------------------------------------------------------------------------------------
  // Loading the vocabulary (`load_entity_types`).

  /** The (entity, type) a `vocab_dict.csv` row contributes: rows with fewer than two fields add nothing. */
  function TypeEntry(row: seq<string>): Option<(string, string)> {
    if |row| >= 2 then Some((Strip(row[0]), Strip(row[1]))) else None
  }

  /** `row` assigns a type to `k`. */
  predicate Defines<R>(entry: R -> Option<(string, string)>, row: R, k: string) {
    entry(row).Some? && entry(row).value.0 == k
  }

  /**
   * The vocabulary after the rows have been read in order, each overriding earlier ones;
   * `entry` is what a row contributes (`TypeEntry` for the rows of `vocab_dict.csv`).
   */
  function TypesFrom<R>(types: map<string, string>, rows: seq<R>, entry: R -> Option<(string, string)>): map<string, string>
    decreases |rows|
  {
    if rows == [] then types
    else
      var e := entry(rows[0]);
      TypesFrom(if e.Some? then types[e.value.0 := e.value.1] else types, rows[1..], entry)
  }

  /** An entity is typed exactly when it was typed before or some row defines it. */
  lemma {:induction false} TypesFromHas<R>(types: map<string, string>, rows: seq<R>, entry: R -> Option<(string, string)>, k: string)
    ensures k in TypesFrom(types, rows, entry) <==> k in types || exists i :: 0 <= i < |rows| && Defines(entry, rows[i], k)
    decreases |rows|
  {
    if rows != [] {
      var e := entry(rows[0]);
      var types' := if e.Some? then types[e.value.0 := e.value.1] else types;
      var rest := rows[1..];
      TypesFromHas(types', rest, entry, k);
      assert k in types' <==> k in types || Defines(entry, rows[0], k);
      if exists i :: 0 <= i < |rows| && Defines(entry, rows[i], k) {
        var i :| 0 <= i < |rows| && Defines(entry, rows[i], k);
        if i > 0 {
          assert rest[i - 1] == rows[i];
        }
      }
      if exists i :: 0 <= i < |rest| && Defines(entry, rest[i], k) {
        var i :| 0 <= i < |rest| && Defines(entry, rest[i], k);
        assert rows[i + 1] == rest[i];
      }
    }
  }

  /** An entity no row defines keeps its earlier type. */
  lemma {:induction false} TypesFromUntouched<R>(types: map<string, string>, rows: seq<R>, entry: R -> Option<(string, string)>, k: string)
    requires k in types && forall i :: 0 <= i < |rows| ==> !Defines(entry, rows[i], k)
    ensures k in TypesFrom(types, rows, entry) && TypesFrom(types, rows, entry)[k] == types[k]
    decreases |rows|
  {
    if rows != [] {
      var e := entry(rows[0]);
      var types' := if e.Some? then types[e.value.0 := e.value.1] else types;
      var rest := rows[1..];
      assert !Defines(entry, rows[0], k);
      forall j | 0 <= j < |rest| ensures !Defines(entry, rest[j], k) {
        assert rest[j] == rows[j + 1];
      }
      TypesFromUntouched(types', rest, entry, k);
    }
  }

  /** The last row that defines an entity gives its type. */
  lemma {:induction false} TypesFromLast<R>(types: map<string, string>, rows: seq<R>, entry: R -> Option<(string, string)>, i: nat, k: string)
    requires i < |rows| && Defines(entry, rows[i], k)
    requires forall j :: i < j < |rows| ==> !Defines(entry, rows[j], k)
    ensures k in TypesFrom(types, rows, entry) && TypesFrom(types, rows, entry)[k] == entry(rows[i]).value.1
    decreases |rows|
  {
    var e := entry(rows[0]);
    var types' := if e.Some? then types[e.value.0 := e.value.1] else types;
    var rest := rows[1..];
    if i == 0 {
      forall j | 0 <= j < |rest| ensures !Defines(entry, rest[j], k) {
        assert rest[j] == rows[j + 1];
      }
      TypesFromUntouched(types', rest, entry, k);
    } else {
      forall j | i - 1 < j < |rest| ensures !Defines(entry, rest[j], k) {
        assert rest[j] == rows[j + 1];
      }
      assert rest[i - 1] == rows[i];
      TypesFromLast(types', rest, entry, i - 1, k);
    }
  }

  // ---------------------------------------------------------------------------------------
  // The rules (`self.relations`), a dict kept in insertion order.

  /** A rule of `relation.csv`. */
  datatype Rule = Rule(headType: string, tailType: string, index: int)

  /** `self.relations`: (relation, rule) pairs in insertion order. */
  type Rules = seq<(string, Rule)>

  function Keys(d: Rules): (ks: seq<string>)
    ensures |ks| == |d| && forall i :: 0 <= i < |d| ==> ks[i] == d[i].0
  {
    seq(|d|, i requires 0 <= i < |d| => d[i].0)
  }

  /** A dict never holds a key twice. */
  ghost predicate KeysDistinct(d: Rules) {
    forall i, j :: 0 <= i < j < |d| ==> d[i].0 != d[j].0
  }

  /** `d.get(k)`. */
  function Lookup(d: Rules, k: string): Option<Rule>
    decreases |d|
  {
    if d == [] then None else if d[0].0 == k then Some(d[0].1) else Lookup(d[1..], k)
  }

  lemma {:induction false} LookupNone(d: Rules, k: string)
    ensures Lookup(d, k).None? <==> k !in Keys(d)
    decreases |d|
  {
    if d != [] {
      LookupNone(d[1..], k);
      assert Keys(d) == [d[0].0] + Keys(d[1..]);
    }
  }

  /** `d[k] = v`: an existing key keeps its place and gets the new value, a new key goes last. */
  function Assign(d: Rules, k: string, v: Rule): Rules
    decreases |d|
  {
    if d == [] then [(k, v)]
    else if d[0].0 == k then [(k, v)] + d[1..]
    else [d[0]] + Assign(d[1..], k, v)
  }

  /** After `d[k] = v`, `k` maps to `v` and every other key keeps its value. */
  lemma {:induction false} AssignLookup(d: Rules, k: string, v: Rule)
    ensures Lookup(Assign(d, k, v), k) == Some(v)
    ensures forall k' :: k' != k ==> Lookup(Assign(d, k, v), k') == Lookup(d, k')
    decreases |d|
  {
    if d != [] && d[0].0 != k {
      AssignLookup(d[1..], k, v);
      assert Assign(d, k, v)[1..] == Assign(d[1..], k, v);
    }
  }

  /** `d[k] = v` keeps the key order, appending `k` when it is new. */
  lemma {:induction false} AssignKeys(d: Rules, k: string, v: Rule)
    ensures Keys(Assign(d, k, v)) == if k in Keys(d) then Keys(d) else Keys(d) + [k]
    decreases |d|
  {
    if d != [] {
      assert Keys(d) == [d[0].0] + Keys(d[1..]);
      if d[0].0 == k {
        assert Keys(Assign(d, k, v)) == [k] + Keys(d[1..]);
      } else {
        AssignKeys(d[1..], k, v);
        var rest := Keys(d[1..]);
        assert Keys(Assign(d, k, v)) == [d[0].0] + Keys(Assign(d[1..], k, v));
        assert k in Keys(d) <==> k in rest;
        if k !in rest {
          assert [d[0].0] + (rest + [k]) == ([d[0].0] + rest) + [k];
        }
      }
    }
  }

  /** `d[k] = v` never repeats a key. */
  lemma AssignDistinct(d: Rules, k: string, v: Rule)
    requires KeysDistinct(d)
    ensures KeysDistinct(Assign(d, k, v))
  {
    AssignKeys(d, k, v);
    var r := Assign(d, k, v);
    var ks := Keys(r);
    assert forall i :: 0 <= i < |d| ==> Keys(d)[i] == d[i].0;
    forall i, j | 0 <= i < j < |r| ensures r[i].0 != r[j].0 {
      assert ks[i] == r[i].0 && ks[j] == r[j].0;
      if j == |d| {
        assert k !in Keys(d);
        assert ks[i] == Keys(d)[i];
      } else {
        assert ks[i] == d[i].0 && ks[j] == d[j].0;
      }
    }
  }

  /** The rule matches the two types. */
  predicate Matches(rule: Rule, headType: string, tailType: string) {
    rule.headType == headType && rule.tailType == tailType
  }

  /** `get_suggested_relation` as a value: the first rule in dict order that matches. */
  function Suggested(d: Rules, headType: string, tailType: string): Option<string>
    decreases |d|
  {
    if d == [] then None
    else if Matches(d[0].1, headType, tailType) then Some(d[0].0)
    else Suggested(d[1..], headType, tailType)
  }

  /**
   * There is no suggestion exactly when no rule matches; a suggestion is the relation of a
   * matching rule that no earlier rule precedes.
   */
  lemma {:induction false} SuggestedSpec(d: Rules, headType: string, tailType: string)
    ensures Suggested(d, headType, tailType).None? <==> forall i :: 0 <= i < |d| ==> !Matches(d[i].1, headType, tailType)
    ensures Suggested(d, headType, tailType).Some? ==>
      exists i :: 0 <= i < |d| && d[i].0 == Suggested(d, headType, tailType).value &&
        Matches(d[i].1, headType, tailType) && forall j :: 0 <= j < i ==> !Matches(d[j].1, headType, tailType)
    decreases |d|
  {
    if d != [] && !Matches(d[0].1, headType, tailType) {
      var rest := d[1..];
      SuggestedSpec(rest, headType, tailType);
      assert forall i :: 1 <= i < |d| ==> d[i] == rest[i - 1];
      if Suggested(d, headType, tailType).Some? {
        var i :| 0 <= i < |rest| && rest[i].0 == Suggested(d, headType, tailType).value &&
          Matches(rest[i].1, headType, tailType) && forall j :: 0 <= j < i ==> !Matches(rest[j].1, headType, tailType);
        assert d[i + 1] == rest[i];
      }
    } else if d != [] {
      assert d[0].0 == Suggested(d, headType, tailType).value;
    }
  }

  // ---------------------------------------------------------------------------------------
  // Loading the rules (`load_relations`).

  /** A line survives the filter as its stripped text when that is neither blank nor a `#` comment. */
  function KeptLine(line: string): (r: Option<string>)
    ensures r.Some? ==> r.value != [] && r.value[0] != '#' && r.value == Strip(line)
    ensures r.None? ==> Strip(line) == [] || Strip(line)[0] == '#'
  {
    var l := Strip(line);
    if l != [] && l[0] != '#' then Some(l) else None
  }

  /** `line.split(',')`: the CSV fields of a line without quotes. */
  function SplitFields(line: string): (r: seq<string>)
    ensures |r| >= 1
    ensures forall i :: 0 <= i < |r| ==> ',' !in r[i]
    decreases |line|
  {
    if line == [] then [""]
    else
      var rest := SplitFields(line[1..]);
      if line[0] == ',' then [""] + rest
      else
        var r := [[line[0]] + rest[0]] + rest[1..];
        assert forall i :: 1 <= i < |r| ==> r[i] == rest[i];
        r
  }

  /** Joining the fields with commas gives the line back. */
  lemma {:induction false} SplitFieldsJoin(line: string)
    ensures Join(SplitFields(line), ",") == line
    decreases |line|
  {
    if line != [] {
      SplitFieldsJoin(line[1..]);
      var rest := SplitFields(line[1..]);
      if line[0] == ',' {
        assert line == [','] + line[1..];
      } else if |rest| == 1 {
        assert line == [line[0]] + line[1..];
      } else {
        assert Join(rest, ",") == rest[0] + "," + Join(rest[1..], ",");
        var r := [[line[0]] + rest[0]] + rest[1..];
        assert r[1..] == rest[1..];
        assert line == [line[0]] + line[1..];
      }
    }
  }

  /** Splitting a comma-joined list of comma-free fields gives the fields back. */
  lemma JoinSplitFields(fields: seq<string>)
    requires |fields| >= 1 && forall i :: 0 <= i < |fields| ==> ',' !in fields[i]
    ensures SplitFields(Join(fields, ",")) == fields
  {
    var line := Join(fields, ",");
    SplitFieldsJoin(line);
    JoinInjective(SplitFields(line), fields, ',');
  }

  /**
   * `row.get(name)` of the `csv.DictReader` row built from `fields` under `header`: the
   * field under the last header column with that name, absent when that column lies past
   * the end of the row (`DictReader` fills it with `None`).
   */
  function RowGet(header: seq<string>, fields: seq<string>, name: string): Option<string>
    decreases |header|
  {
    if header == [] then None
    else
      var n := |header| - 1;
      if header[n] == name then (if n < |fields| then Some(fields[n]) else None)
      else RowGet(header[..n], fields, name)
  }

  /** The row's value for the column is a non-empty string. */
  predicate Present(v: Option<string>) {
    v.Some? && v.value != ""
  }

  /** A decimal digit `int()` reads: an ASCII digit or a full-width one (U+FF10..U+FF19). */
  predicate IsDecimal(c: char) {
    '0' <= c <= '9' || '\U{FF10}' <= c <= '\U{FF19}'
  }

  function DecimalValue(c: char): (v: nat)
    requires IsDecimal(c)
    ensures v < 10
  {
    if c <= '9' then c as int - '0' as int else c as int - '\U{FF10}' as int
  }

  /** Digits, with single underscores allowed between two digits (`1_000`). */
  predicate IsDigits(d: string) {
    && d != [] && IsDecimal(d[0]) && IsDecimal(d[|d| - 1])
    && (forall i :: 0 <= i < |d| ==> IsDecimal(d[i]) || d[i] == '_')
    && (forall i :: 0 <= i < |d| - 1 && d[i] == '_' ==> d[i + 1] != '_')
  }

  /** The value of a run of decimal digits; the underscores carry no value. */
  function DigitsValue(d: string): nat
    requires forall i :: 0 <= i < |d| ==> IsDecimal(d[i]) || d[i] == '_'
    decreases |d|
  {
    if d == [] then 0
    else if d[|d| - 1] == '_' then DigitsValue(d[..|d| - 1])
    else DigitsValue(d[..|d| - 1]) * 10 + DecimalValue(d[|d| - 1])
  }

  /** `int(s)` on a string: surrounding whitespace, an optional sign, then decimal digits with single underscores. */
  function ParseIndex(s: string): Option<int> {
    ParseSigned(Strip(s))
  }

  /** An optional sign followed by decimal digits. */
  function ParseSigned(t: string): Option<int> {
    if t != [] && (t[0] == '+' || t[0] == '-') then
      if IsDigits(t[1..]) then
        var v: int := DigitsValue(t[1..]);
        Some(if t[0] == '-' then -v else v)
      else None
    else if IsDigits(t) then Some(DigitsValue(t))
    else None
  }

  lemma {:induction false} DigitsOfNat(n: nat)
    ensures DigitsValue(NatToString(n)) == n
    decreases n
  {
    if n >= 10 {
      DigitsOfNat(n / 10);
      var s := NatToString(n);
      assert s[..|s| - 1] == NatToString(n / 10);
    }
  }

  /** `int(str(i)) == i`: every index `str()` writes is read back as itself. */
  lemma ParseIndexRoundTrip(i: int)
    ensures ParseIndex(IntToString(i)) == Some(i)
  {
    IntToStringStripped(i);
    ParseSignedRoundTrip(i);
  }

  /** After `strip()`, `int()` reads digits grouped by underscores. */
  lemma ParseSignedUnderscores()
    ensures ParseSigned("1_000") == Some(1000)
  {
    var t := "1_000";
    assert IsDigits(t);
    assert "1"[..0] == [] && DigitsValue("1") == 1;
    assert "1_"[..1] == "1" && DigitsValue("1_") == 1;
    assert "1_0"[..2] == "1_" && DigitsValue("1_0") == 10;
    assert "1_00"[..3] == "1_0" && DigitsValue("1_00") == 100;
    assert t[..4] == "1_00";
  }

  /** After `strip()`, `int()` reads full-width digits. */
  lemma ParseSignedFullWidth()
    ensures ParseSigned("-\U{FF11}\U{FF12}") == Some(-12)
  {
    var u := "-\U{FF11}\U{FF12}";
    var d := "\U{FF11}\U{FF12}";
    assert u[1..] == d;
    assert "\U{FF11}"[..0] == [] && DigitsValue("\U{FF11}") == 1;
    assert d[..1] == "\U{FF11}" && DigitsValue(d) == 12;
  }

  /** An underscore must stand between two digits: a doubled, leading or trailing one is refused. */
  lemma ParseSignedBadUnderscores()
    ensures ParseSigned("1__0").None? && ParseSigned("_1").None? && ParseSigned("1_").None?
  {
    assert "1__0"[1] == '_' && "1__0"[2] == '_';
  }

  /** `str(i)` has no surrounding whitespace. */
  lemma IntToStringStripped(i: int)
    ensures Strip(IntToString(i)) == IntToString(i)
  {
    var s := IntToString(i);
    var n: nat := if i < 0 then -i else i;
    var digits := NatToString(n);
    assert s[|s| - 1] == digits[|digits| - 1];
    assert !IsSpace(s[0]) && !IsSpace(s[|s| - 1]);
    StripUnchanged(s);
  }

  lemma ParseSignedRoundTrip(i: int)
    ensures ParseSigned(IntToString(i)) == Some(i)
  {
    var n: nat := if i < 0 then -i else i;
    var digits := NatToString(n);
    DigitsOfNat(n);
    AsciiIsDigits(digits);
    if i < 0 {
      var s := "-" + digits;
      assert s[0] == '-' && s[1..] == digits;
      assert ParseSigned(s) == Some(-(n as int));
    } else {
      assert digits[0] != '+' && digits[0] != '-';
    }
  }

  /** A non-empty run of ASCII digits is a digit string `int()` reads. */
  lemma AsciiIsDigits(d: string)
    requires d != [] && forall i :: 0 <= i < |d| ==> '0' <= d[i] <= '9'
    ensures IsDigits(d)
  {
  }

  /** What one data row of the rule file does. */
  datatype RowOutcome =
    | Skipped                          // a field is missing or empty: the row is ignored
    | Entry(relation: string, rule: Rule)
    | BadIndex                         // `int(row['index'])` raises: loading stops

  function Outcome(header: seq<string>, fields: seq<string>): RowOutcome {
    var relation := RowGet(header, fields, "relation");
    var headType := RowGet(header, fields, "head_type");
    var tailType := RowGet(header, fields, "tail_type");
    var index := RowGet(header, fields, "index");
    if !(Present(relation) && Present(headType) && Present(tailType) && Present(index)) then Skipped
    else
      match ParseIndex(index.value)
      case None => BadIndex
      case Some(n) => Entry(relation.value, Rule(headType.value, tailType.value, n))
  }

  /**
   * A row becomes a rule only when all four columns are present and non-empty and the
   * index parses; the rule then holds exactly the row's values.
   */
  lemma OutcomeSpec(header: seq<string>, fields: seq<string>)
    ensures var o := Outcome(header, fields);
      && (o.Entry? <==>
          Present(RowGet(header, fields, "relation")) && Present(RowGet(header, fields, "head_type")) &&
          Present(RowGet(header, fields, "tail_type")) && Present(RowGet(header, fields, "index")) &&
          ParseIndex(RowGet(header, fields, "index").value).Some?)
      && (o.Entry? ==>
          Some(o.relation) == RowGet(header, fields, "relation") &&
          Some(o.rule.headType) == RowGet(header, fields, "head_type") &&
          Some(o.rule.tailType) == RowGet(header, fields, "tail_type") &&
          ParseIndex(RowGet(header, fields, "index").value) == Some(o.rule.index))
      && (o.BadIndex? ==> Present(RowGet(header, fields, "index")) && ParseIndex(RowGet(header, fields, "index").value).None?)
  {
  }

  /** The rules after reading the data rows in order, and whether no index failed to parse. */
  function LoadRows(d: Rules, header: seq<string>, rows: seq<string>): (Rules, bool)
    decreases |rows|
  {
    if rows == [] then (d, true)
    else
      match Outcome(header, SplitFields(rows[0]))
      case Skipped => LoadRows(d, header, rows[1..])
      case Entry(relation, rule) => LoadRows(Assign(d, relation, rule), header, rows[1..])
      case BadIndex => (d, false)
  }

  /** Row `i` of `rows` is a rule for `k`. */
  predicate EntryFor(header: seq<string>, rows: seq<string>, i: int, k: string)
    requires 0 <= i < |rows|
  {
    Outcome(header, SplitFields(rows[i])).Entry? && Outcome(header, SplitFields(rows[i])).relation == k
  }

  /** Loading succeeds exactly when no row has an index that fails to parse. */
  lemma {:induction false} LoadRowsOk(d: Rules, header: seq<string>, rows: seq<string>)
    ensures LoadRows(d, header, rows).1 <==> forall i :: 0 <= i < |rows| ==> !Outcome(header, SplitFields(rows[i])).BadIndex?
    decreases |rows|
  {
    if rows != [] {
      var rest := rows[1..];
      var o := Outcome(header, SplitFields(rows[0]));
      if !o.BadIndex? {
        var d' := if o.Entry? then Assign(d, o.relation, o.rule) else d;
        assert LoadRows(d, header, rows) == LoadRows(d', header, rest);
        LoadRowsOk(d', header, rest);
        forall i | 1 <= i < |rows|
          ensures Outcome(header, SplitFields(rows[i])) == Outcome(header, SplitFields(rest[i - 1]))
        {
          assert rows[i] == rest[i - 1];
        }
      }
    }
  }

  /** A relation whose rule changed got it from a complete row. */
  lemma {:induction false} LoadRowsFromEntry(d: Rules, header: seq<string>, rows: seq<string>, k: string)
    ensures var r := LoadRows(d, header, rows).0;
      Lookup(r, k).Some? && Lookup(r, k) != Lookup(d, k) ==>
        exists i :: 0 <= i < |rows| && Outcome(header, SplitFields(rows[i])) == Entry(k, Lookup(r, k).value)
    decreases |rows|
  {
    if rows != [] {
      var rest := rows[1..];
      var o := Outcome(header, SplitFields(rows[0]));
      if !o.BadIndex? {
        var d' := if o.Entry? then Assign(d, o.relation, o.rule) else d;
        if o.Entry? {
          AssignLookup(d, o.relation, o.rule);
        }
        LoadRowsFromEntry(d', header, rest, k);
        var r := LoadRows(d, header, rows).0;
        assert r == LoadRows(d', header, rest).0;
        if Lookup(r, k).Some? && Lookup(r, k) != Lookup(d, k) {
          if Lookup(r, k) != Lookup(d', k) {
            var i :| 0 <= i < |rest| && Outcome(header, SplitFields(rest[i])) == Entry(k, Lookup(r, k).value);
            assert rows[i + 1] == rest[i];
          } else {
            assert o == Entry(k, Lookup(r, k).value);
          }
        }
      }
    }
  }

  /** Loading never repeats a key. */
  lemma {:induction false} LoadRowsDistinct(d: Rules, header: seq<string>, rows: seq<string>)
    requires KeysDistinct(d)
    ensures KeysDistinct(LoadRows(d, header, rows).0)
    decreases |rows|
  {
    if rows != [] {
      var o := Outcome(header, SplitFields(rows[0]));
      if o.Entry? {
        AssignDistinct(d, o.relation, o.rule);
        LoadRowsDistinct(Assign(d, o.relation, o.rule), header, rows[1..]);
      } else if o.Skipped? {
        LoadRowsDistinct(d, header, rows[1..]);
      }
    }
  }

  /**
   * `LoadRows` with the reading of a row left abstract: the proofs about which row wins
   * need only the order of the outcomes, not how a row is parsed.
   */
  function LoadWith(d: Rules, rows: seq<string>, read: string -> RowOutcome): (Rules, bool)
    decreases |rows|
  {
    if rows == [] then (d, true)
    else
      match read(rows[0])
      case Skipped => LoadWith(d, rows[1..], read)
      case Entry(relation, rule) => LoadWith(Assign(d, relation, rule), rows[1..], read)
      case BadIndex => (d, false)
  }

  function ReadIn(header: seq<string>): string -> RowOutcome {
    row => Outcome(header, SplitFields(row))
  }

  lemma {:induction false} LoadRowsIsLoadWith(d: Rules, header: seq<string>, rows: seq<string>)
    ensures LoadRows(d, header, rows) == LoadWith(d, rows, ReadIn(header))
    decreases |rows|
  {
    if rows != [] {
      var o := Outcome(header, SplitFields(rows[0]));
      assert ReadIn(header)(rows[0]) == o;
      if o.Entry? {
        LoadRowsIsLoadWith(Assign(d, o.relation, o.rule), header, rows[1..]);
      } else if o.Skipped? {
        LoadRowsIsLoadWith(d, header, rows[1..]);
      }
    }
  }

  predicate Names(o: RowOutcome, k: string) {
    o.Entry? && o.relation == k
  }

  lemma {:induction false} LoadWithUntouched(d: Rules, rows: seq<string>, read: string -> RowOutcome, k: string)
    requires forall j :: 0 <= j < |rows| ==> !Names(read(rows[j]), k)
    ensures Lookup(LoadWith(d, rows, read).0, k) == Lookup(d, k)
    decreases |rows|
  {
    if rows != [] {
      var rest := rows[1..];
      assert !Names(read(rows[0]), k);
      forall j | 0 <= j < |rest| ensures !Names(read(rest[j]), k) {
        assert rest[j] == rows[j + 1];
      }
      var o := read(rows[0]);
      if o.Entry? {
        AssignLookup(d, o.relation, o.rule);
        LoadWithUntouched(Assign(d, o.relation, o.rule), rest, read, k);
      } else if o.Skipped? {
        LoadWithUntouched(d, rest, read, k);
      }
    }
  }

  lemma {:induction false} LoadWithLast(d: Rules, rows: seq<string>, read: string -> RowOutcome, i: nat, k: string)
    requires i < |rows| && Names(read(rows[i]), k)
    requires forall j :: i < j < |rows| ==> !Names(read(rows[j]), k)
    requires LoadWith(d, rows, read).1
    ensures Lookup(LoadWith(d, rows, read).0, k) == Some(read(rows[i]).rule)
    decreases |rows|
  {
    var rest := rows[1..];
    var o := read(rows[0]);
    assert !o.BadIndex?;
    var d' := if o.Entry? then Assign(d, o.relation, o.rule) else d;
    assert LoadWith(d, rows, read) == LoadWith(d', rest, read);
    if i == 0 {
      AssignLookup(d, k, o.rule);
      forall j | 0 <= j < |rest| ensures !Names(read(rest[j]), k) {
        assert rest[j] == rows[j + 1];
      }
      LoadWithUntouched(d', rest, read, k);
    } else {
      assert rest[i - 1] == rows[i];
      forall j | i - 1 < j < |rest| ensures !Names(read(rest[j]), k) {
        assert rest[j] == rows[j + 1];
      }
      LoadWithLast(d', rest, read, i - 1, k);
    }
  }

  /** After a successful load a relation holds the rule of the last row naming it. */
  lemma LoadRowsLast(d: Rules, header: seq<string>, rows: seq<string>, i: nat, k: string)
    requires i < |rows| && EntryFor(header, rows, i, k)
    requires forall j :: i < j < |rows| ==> !EntryFor(header, rows, j, k)
    requires LoadRows(d, header, rows).1
    ensures Lookup(LoadRows(d, header, rows).0, k) == Some(Outcome(header, SplitFields(rows[i])).rule)
  {
    var read := ReadIn(header);
    LoadRowsIsLoadWith(d, header, rows);
    forall j | i < j < |rows| ensures !Names(read(rows[j]), k) {
      assert !EntryFor(header, rows, j, k);
    }
    LoadWithLast(d, rows, read, i, k);
  }

  /** A key no row names keeps the value it had. */
  lemma {:induction false} LoadRowsUntouched(d: Rules, header: seq<string>, rows: seq<string>, k: string)
    requires forall j :: 0 <= j < |rows| ==> !EntryFor(header, rows, j, k)
    ensures Lookup(LoadRows(d, header, rows).0, k) == Lookup(d, k)
    decreases |rows|
  {
    if rows != [] {
      var rest := rows[1..];
      assert !EntryFor(header, rows, 0, k);
      forall j | 0 <= j < |rest| ensures !EntryFor(header, rest, j, k) {
        assert rest[j] == rows[j + 1];
        assert !EntryFor(header, rows, j + 1, k);
      }
      var o := Outcome(header, SplitFields(rows[0]));
      if o.Entry? {
        AssignLookup(d, o.relation, o.rule);
        LoadRowsUntouched(Assign(d, o.relation, o.rule), header, rest, k);
      } else if o.Skipped? {
        LoadRowsUntouched(d, header, rest, k);
      }
    }
  }

  /**
   * `load_relations` on the lines of the file: the kept lines form the CSV text, whose first
   * line is the header; returns the new rules and the method's `True`/`False`.
   */
  function LoadedRelations(d: Rules, lines: seq<string>): (Rules, bool) {
    var kept := Seqs.Somes(lines, KeptLine);
    if kept == [] then (d, true) else LoadRows(d, SplitFields(kept[0]), kept[1..])
  }

  // ---------------------------------------------------------------------------------------
  // Loading the predictions (`load_data`).

  /** A prediction item of `part_2.json`. */
  datatype Item = Item(sentence: string, head: string, tail: string, headOffset: Json, tailOffset: Json)

  /** The de-duplication key `(sentence, head, tail, head_offset, tail_offset)`. */
  function ItemKey(item: Item): (string, string, string, Json, Json) {
    (item.sentence, item.head, item.tail, HashKey(item.headOffset), HashKey(item.tailOffset))
  }

  predicate KeyHashable(item: Item) {
    Hashable(item.headOffset) && Hashable(item.tailOffset)
  }

  /**
   * `self.data` and the result of `load_data`: the first item of every key, in order; the
   * raw list and `False` when some key cannot be hashed.
   */
  function LoadedData(items: seq<Item>): (seq<Item>, bool) {
    if forall i :: 0 <= i < |items| ==> KeyHashable(items[i]) then (DedupBy(items, ItemKey), true)
    else (items, false)
  }

  /**
   * After a successful load no two items share a key and the items kept are exactly the
   * first item of each key, in their input order.
   */
  lemma LoadedDataSpec(items: seq<Item>)
    ensures var (data, ok) := LoadedData(items);
      ok ==> (DistinctKeys(data, ItemKey) && KeysOf(data, ItemKey) == KeysOf(items, ItemKey) &&
        exists idx: seq<nat> ::
          && |idx| == |data|
          && (forall i, j :: 0 <= i < j < |idx| ==> idx[i] < idx[j])
          && (forall i :: 0 <= i < |idx| ==> idx[i] < |items| && data[i] == items[idx[i]] && IsFirstOfKey(items, ItemKey, idx[i]))
          && (forall j :: 0 <= j < |items| && IsFirstOfKey(items, ItemKey, j) ==> j in idx))
    ensures !LoadedData(items).1 ==> LoadedData(items).0 == items
  {
    if LoadedData(items).1 {
      DedupByFirsts(items, ItemKey);
      assert LoadedData(items).0 == DedupBy(items, ItemKey);
    }
  }

  // ---------------------------------------------------------------------------------------
  // Annotating.

  /** An accepted annotation as `annotate_current_item` records it. */
  datatype Annotation = Annotation(
    sentence: string, relation: string, head: string, headOffset: Json,
    tail: string, tailOffset: Json, headType: string, tailType: string, timestamp: string)

  /** What `display_current_item` returns: `False`, `None` or the suggested relation. */
  datatype Shown = AllDone | NoRule | Suggestion(relation: string)

  function ShownAt(data: seq<Item>, index: nat, types: map<string, string>, rules: Rules): Shown {
    if index >= |data| then AllDone
    else
      match Suggested(rules, Seqs.GetOr(types, data[index].head, UnknownType), Seqs.GetOr(types, data[index].tail, UnknownType))
      case None => NoRule
      case Some(r) => Suggestion(r)
  }

  /** An answer of `get_yes_no_input`: `True`, `False` or `'quit'`. */
  datatype Answer = Yes | No | Quit

  /** One typed line: a recognised answer, or nothing when the prompt is repeated. */
  function ParseAnswer(line: string): Option<Answer> {
    var r := Lower(Strip(line));
    if r == "y" || r == "yes" || r == "是" then Some(Yes)
    else if r == "n" || r == "no" || r == "否" then Some(No)
    else if r == "q" || r == "quit" || r == "退出" then Some(Quit)
    else None
  }

  /** The first line `parse` recognises, parsed. */
  function FirstParsed<B>(lines: seq<string>, parse: string -> Option<B>): Option<B>
    decreases |lines|
  {
    if lines == [] then None
    else if parse(lines[0]).Some? then parse(lines[0])
    else FirstParsed(lines[1..], parse)
  }

  lemma {:induction false} FirstParsedSpec<B>(lines: seq<string>, parse: string -> Option<B>)
    ensures FirstParsed(lines, parse).None? <==> forall i :: 0 <= i < |lines| ==> parse(lines[i]).None?
    ensures FirstParsed(lines, parse).Some? ==>
      exists i :: 0 <= i < |lines| && parse(lines[i]) == FirstParsed(lines, parse) &&
        forall j :: 0 <= j < i ==> parse(lines[j]).None?
    decreases |lines|
  {
    if lines != [] && parse(lines[0]).None? {
      var rest := lines[1..];
      FirstParsedSpec(rest, parse);
      assert forall i :: 1 <= i < |lines| ==> lines[i] == rest[i - 1];
      if FirstParsed(lines, parse).Some? {
        var i :| 0 <= i < |rest| && parse(rest[i]) == FirstParsed(lines, parse) &&
          forall j :: 0 <= j < i ==> parse(rest[j]).None?;
        assert lines[i + 1] == rest[i];
      }
    }
  }

  /** The first recognised answer among the typed lines. */
  function FirstAnswer(lines: seq<string>): Option<Answer> {
    FirstParsed(lines, ParseAnswer)
  }

  /** The answer is that of the first recognised line; there is none only when no line is recognised. */
  lemma FirstAnswerSpec(lines: seq<string>)
    ensures FirstAnswer(lines).None? <==> forall i :: 0 <= i < |lines| ==> ParseAnswer(lines[i]).None?
    ensures FirstAnswer(lines).Some? ==>
      exists i :: 0 <= i < |lines| && ParseAnswer(lines[i]) == FirstAnswer(lines) &&
        forall j :: 0 <= j < i ==> ParseAnswer(lines[j]).None?
  {
    FirstParsedSpec(lines, ParseAnswer);
  }

  /** The prompt's loop: ask until a line is recognised; `None` when the lines run out first. */
  method GetYesNoInput(lines: seq<string>) returns (answer: Option<Answer>)
    ensures answer == FirstAnswer(lines)
  {
    var i := 0;
    while i < |lines|
      invariant 0 <= i <= |lines|
      invariant FirstParsed(lines[i..], ParseAnswer) == FirstAnswer(lines)
    {
      var parsed := ParseAnswer(lines[i]);
      if parsed.Some? {
        return parsed;
      }
      assert lines[i..][1..] == lines[i + 1..];
      i := i + 1;
    }
    return None;
  }

  class RelationAnnotator {
    var data: seq<Item>
    var annotations: seq<Annotation>
    var currentIndex: nat
    var relations: Rules
    var entityTypes: map<string, string>

    /** The state before the loaders run. */
    constructor ()
      ensures data == [] && annotations == [] && currentIndex == 0
      ensures relations == [] && entityTypes == map[]
    {
      data := [];
      annotations := [];
      currentIndex := 0;
      relations := [];
      entityTypes := map[];
    }

    /** `load_entity_types` on the rows of `vocab_dict.csv`. */
    method LoadEntityTypes(rows: seq<seq<string>>)
      modifies this
      ensures entityTypes == TypesFrom(old(entityTypes), rows, TypeEntry)
      ensures data == old(data) && annotations == old(annotations) && currentIndex == old(currentIndex)
      ensures relations == old(relations)
    {
      ghost var types0 := entityTypes;
      var i := 0;
      while i < |rows|
        invariant 0 <= i <= |rows|
        invariant TypesFrom(entityTypes, rows[i..], TypeEntry) == TypesFrom(types0, rows, TypeEntry)
        invariant data == old(data) && annotations == old(annotations) && currentIndex == old(currentIndex)
        invariant relations == old(relations)
      {
        var row := rows[i];
        assert rows[i..][1..] == rows[i + 1..];
        if |row| >= 2 {
          var entity, entityType := Strip(row[0]), Strip(row[1]);
          entityTypes := entityTypes[entity := entityType];
        }
        i := i + 1;
      }
    }

    /** `get_entity_type`. */
    function GetEntityType(entity: string): string
      reads this
    {
      Seqs.GetOr(entityTypes, entity, UnknownType)
    }

    /** `load_relations` on the lines of `relation.csv`. */
    method LoadRelations(lines: seq<string>) returns (ok: bool)
      modifies this
      ensures (relations, ok) == LoadedRelations(old(relations), lines)
      ensures KeysDistinct(old(relations)) ==> KeysDistinct(relations)
      ensures data == old(data) && annotations == old(annotations) && currentIndex == old(currentIndex)
      ensures entityTypes == old(entityTypes)
    {
      relations, ok := ReadRelations(relations, lines);
    }

    /** The body of `load_relations` on the rules loaded so far. */
    static method ReadRelations(rules0: Rules, lines: seq<string>) returns (rules: Rules, ok: bool)
      ensures (rules, ok) == LoadedRelations(rules0, lines)
      ensures KeysDistinct(rules0) ==> KeysDistinct(rules)
    {
      var kept := FilterLines(lines);
      if kept == [] {
        return rules0, true;
      }
      var header := SplitFields(kept[0]);
      if KeysDistinct(rules0) {
        LoadRowsDistinct(rules0, header, kept[1..]);
      }
      rules, ok := ReadRows(rules0, header, kept[1..]);
    }

    /** The `for row in reader` loop of `load_relations`: stops at the first index that fails to parse. */
    static method ReadRows(rules0: Rules, header: seq<string>, rows: seq<string>) returns (rules: Rules, ok: bool)
      ensures (rules, ok) == LoadRows(rules0, header, rows)
    {
      rules := rules0;
      var i := 0;
      while i < |rows|
        invariant 0 <= i <= |rows|
        invariant LoadRows(rules, header, rows[i..]) == LoadRows(rules0, header, rows)
      {
        assert rows[i..][1..] == rows[i + 1..];
        var o := Outcome(header, SplitFields(rows[i]));
        match o {
          case Skipped =>
          case Entry(relation, rule) =>
            rules := Assign(rules, relation, rule);
          case BadIndex =>
            return rules, false;
        }
        i := i + 1;
      }
      return rules, true;
    }

    /** The filtering loop of `load_relations`. */
    static method FilterLines(lines: seq<string>) returns (kept: seq<string>)
      ensures kept == Seqs.Somes(lines, KeptLine)
    {
      kept := [];
      var i := 0;
      assert lines[..0] == [];
      while i < |lines|
        invariant 0 <= i <= |lines|
        invariant kept == Seqs.Somes(lines[..i], KeptLine)
      {
        kept := KeepNext(lines, i, kept);
        i := i + 1;
      }
      assert lines[..|lines|] == lines;
    }

    /** One line of the filter: kept stripped when it is neither blank nor a comment. */
    static method KeepNext(lines: seq<string>, i: nat, kept: seq<string>) returns (kept': seq<string>)
      requires i < |lines| && kept == Seqs.Somes(lines[..i], KeptLine)
      ensures kept' == Seqs.Somes(lines[..i + 1], KeptLine)
    {
      var line := Strip(lines[i]);
      Seqs.SomesStep(lines, KeptLine, i, KeptLine(lines[i]));
      if line != [] && line[0] != '#' {
        kept' := kept + [line];
      } else {
        kept' := kept;
      }
    }

    /** `load_data` on the items of `part_2.json`. */
    method LoadData(items: seq<Item>) returns (ok: bool)
      modifies this
      ensures (data, ok) == LoadedData(items)
      ensures annotations == old(annotations) && currentIndex == old(currentIndex)
      ensures relations == old(relations) && entityTypes == old(entityTypes)
    {
      data := items;
      var seen: set<(string, string, string, Json, Json)> := {};
      var unique: seq<Item> := [];
      var i := 0;
      assert items[..0] == [];
      while i < |items|
        invariant 0 <= i <= |items|
        invariant data == items
        invariant forall j :: 0 <= j < i ==> KeyHashable(items[j])
        invariant unique == DedupBy(items[..i], ItemKey)
        invariant seen == KeysOf(unique, ItemKey)
        invariant annotations == old(annotations) && currentIndex == old(currentIndex)
        invariant relations == old(relations) && entityTypes == old(entityTypes)
      {
        if !KeyHashable(items[i]) {
          assert LoadedData(items) == (items, false);
          return false;
        }
        seen, unique := KeepIfNew(items, i, ItemKey, seen, unique);
        i := i + 1;
      }
      assert items[..|items|] == items;
      assert LoadedData(items) == (unique, true);
      data := unique;
      ok := true;
    }

    /** `get_suggested_relation`: the loop over the rules in dict order. */
    method GetSuggestedRelation(headType: string, tailType: string) returns (r: Option<string>)
      ensures r == Suggested(relations, headType, tailType)
    {
      var i := 0;
      while i < |relations|
        invariant 0 <= i <= |relations|
        invariant Suggested(relations[i..], headType, tailType) == Suggested(relations, headType, tailType)
      {
        var (relation, rule) := relations[i];
        if rule.headType == headType && rule.tailType == tailType {
          return Some(relation);
        }
        assert relations[i..][1..] == relations[i + 1..];
        i := i + 1;
      }
      return None;
    }

    /** `display_current_item`, without the printing. */
    method DisplayCurrentItem() returns (shown: Shown)
      ensures shown == ShownAt(data, currentIndex, entityTypes, relations)
    {
      if currentIndex >= |data| {
        return AllDone;
      }
      var item := data[currentIndex];
      var headType := GetEntityType(item.head);
      var tailType := GetEntityType(item.tail);
      var suggested := GetSuggestedRelation(headType, tailType);
      if suggested.None? {
        return NoRule;
      }
      return Suggestion(suggested.value);
    }

    /**
     * `annotate_current_item` with the user's `answer` (asked only when there is a
     * suggestion) and the clock's `timestamp`: returns whether to go on and whether the
     * progress is saved. Without a suggestion the item is skipped; `Quit` changes nothing;
     * `Yes` records exactly one annotation with the suggested relation and `No` none, and
     * both move on to the next item.
     */
    method AnnotateCurrentItem(answer: Answer, timestamp: string) returns (goOn: bool, saved: bool)
      requires currentIndex < |data|
      modifies this
      ensures data == old(data) && relations == old(relations) && entityTypes == old(entityTypes)
      ensures var item := old(data)[old(currentIndex)];
        var headType := Seqs.GetOr(entityTypes, item.head, UnknownType);
        var tailType := Seqs.GetOr(entityTypes, item.tail, UnknownType);
        match Suggested(relations, headType, tailType)
        case None =>
          currentIndex == old(currentIndex) + 1 && annotations == old(annotations) && goOn && !saved
        case Some(relation) =>
          if answer == Quit then
            currentIndex == old(currentIndex) && annotations == old(annotations) && !goOn && !saved
          else
            && currentIndex == old(currentIndex) + 1
            && annotations == old(annotations) +
                 (if answer == Yes then
                    [Annotation(item.sentence, relation, item.head, item.headOffset,
                                item.tail, item.tailOffset, headType, tailType, timestamp)]
                  else [])
            && goOn
            && (saved <==> |annotations| % 10 == 0 || currentIndex % 10 == 0)
    {
      var shown := DisplayCurrentItem();
      if shown.NoRule? {
        currentIndex := currentIndex + 1;
        return true, false;
      }
      if answer == Quit {
        return false, false;
      }
      if answer == Yes {
        var item := data[currentIndex];
        var headType := GetEntityType(item.head);
        var tailType := GetEntityType(item.tail);
        var annotation := Annotation(item.sentence, shown.relation, item.head, item.headOffset,
                                     item.tail, item.tailOffset, headType, tailType, timestamp);
        annotations := annotations + [annotation];
      }
      currentIndex := currentIndex + 1;
      saved := |annotations| % 10 == 0 || currentIndex % 10 == 0;
      goOn := true;
    }
  }
}
