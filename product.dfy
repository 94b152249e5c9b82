/**
 * `Neo4jKnowledgeGraph` (the graph builder): entity names are normalised, entity types come
 * from the record, the vocabulary file or a keyword heuristic, relationships violating their
 * declared head and tail types are skipped, and the entity-offsets file is filtered by
 * validity and a confidence threshold and then de-duplicated on (head, relation, tail).
 */
module Product {
  import opened Wrappers
  import opened Text
  import opened Json
  import opened Seqs
  import opened Dedup
  import opened KeywordRules

  // ---------------------------------------------------------------- names

  /** `t` after its first occurrence of `c`. */
  function After(t: string, c: char): (r: string)
    requires c in t
    ensures |r| < |t|
    ensures forall x :: x in r ==> x in t
  {
    if t[0] == c then t[1..]
    else
      assert t == [t[0]] + t[1..];
      After(t[1..], c)
  }

  /** No `(` has a `)` somewhere after it. */
  predicate NoGroup(s: string) {
    forall i, j :: 0 <= i < j < |s| && s[i] == '(' ==> s[j] != ')'
  }

  /**
   * `re.sub(r'\([^)]*\)', '', s)`: scanning left to right, a `(` with a `)` after it is dropped
   * together with everything up to and including the first such `)`.
   */
  function RemoveParens(s: string): (r: string)
    ensures |r| <= |s|
    decreases |s|
  {
    if s == [] then []
    else if s[0] == '(' && ')' in s[1..] then RemoveParens(After(s[1..], ')'))
    else [s[0]] + RemoveParens(s[1..])
  }

  /** What survives is drawn from `s`, holds no `(...)` group, and is all of `s` when it has no `(`. */
  lemma {:induction false} RemoveParensSpec(s: string)
    ensures forall c :: c in RemoveParens(s) ==> c in s
    ensures NoGroup(RemoveParens(s))
    ensures '(' !in s ==> RemoveParens(s) == s
    decreases |s|
  {
    if s == [] {
    } else if s[0] == '(' && ')' in s[1..] {
      var t := After(s[1..], ')');
      RemoveParensSpec(t);
      assert forall c :: c in t ==> c in s[1..];
      assert forall c :: c in s[1..] ==> c in s;
    } else {
      var rest := RemoveParens(s[1..]);
      RemoveParensSpec(s[1..]);
      assert s == [s[0]] + s[1..];
      var r := [s[0]] + rest;
      assert RemoveParens(s) == r;
      assert forall j :: 1 <= j < |r| ==> r[j] == rest[j - 1];
      assert forall j :: 1 <= j < |r| ==> r[j] in rest;
    }
  }

  /** `RemoveParens` leaves a prefix without `(` alone. */
  lemma {:induction false} RemoveParensPrefix(a: string, b: string)
    requires '(' !in a
    ensures RemoveParens(a + b) == a + RemoveParens(b)
    decreases |a|
  {
    if a != [] {
      var ab := a + b;
      assert ab[0] == a[0];
      assert a[0] != '(' by { assert a[0] in a; }
      assert ab[1..] == a[1..] + b;
      assert RemoveParens(ab) == [a[0]] + RemoveParens(ab[1..]);
      assert '(' !in a[1..] by { assert forall c :: c in a[1..] ==> c in a; }
      RemoveParensPrefix(a[1..], b);
      assert RemoveParens(ab[1..]) == a[1..] + RemoveParens(b);
      assert a == [a[0]] + a[1..];
    } else {
      assert a + b == b;
    }
  }

  predicate KeepChar(c: char) {
    c != '"' && c != '\''
  }

  /**
   * `normalize_entity`: whitespace stripped and collapsed, parenthesised groups dropped,
   * quotes removed, stripped again.
   */
  function NormalizeEntity(entity: string): (r: string)
    ensures entity == [] ==> r == []
  {
    if entity == [] then []
    else Strip(Filter(RemoveParens(CollapseSpaces(Strip(entity))), KeepChar))
  }

  /**
   * The result holds no quote, does not start or end with whitespace, every whitespace
   * character in it is a plain space, and every other character comes from the input.
   */
  lemma NormalizeEntitySpec(entity: string)
    ensures NormalizeEntity(entity) != [] ==>
      !IsSpace(NormalizeEntity(entity)[0]) && !IsSpace(NormalizeEntity(entity)[|NormalizeEntity(entity)| - 1])
    ensures '"' !in NormalizeEntity(entity) && '\'' !in NormalizeEntity(entity)
    ensures forall i :: 0 <= i < |NormalizeEntity(entity)| && IsSpace(NormalizeEntity(entity)[i]) ==>
      NormalizeEntity(entity)[i] == ' '
    ensures forall c :: c in NormalizeEntity(entity) ==> c in entity || c == ' '
  {
    if entity != [] {
      var stripped := Strip(entity);
      var collapsed := CollapseSpaces(stripped);
      CollapseSpacesHas(stripped);
      var unparened := RemoveParens(collapsed);
      RemoveParensSpec(collapsed);
      var unquoted := Filter(unparened, KeepChar);
      FilterMembers(unparened, KeepChar);
      PlainSpacesMembers(collapsed);
      var r := Strip(unquoted);
      assert r == NormalizeEntity(entity);
      assert forall c :: c in r ==> KeepChar(c) && c in collapsed;
      forall i | 0 <= i < |r| && IsSpace(r[i]) ensures r[i] == ' ' {
        assert r[i] in r;
      }
    }
  }

  /** A name already in normal form: single spaces inside, none at the ends, no `(` or quote. */
  predicate IsNormalName(s: string) {
    && (forall i :: 0 <= i < |s| ==> KeepChar(s[i]) && s[i] != '(')
    && (forall i :: 0 <= i < |s| && IsSpace(s[i]) ==> s[i] == ' ')
    && (forall i :: 0 <= i < |s| - 1 && IsSpace(s[i]) ==> !IsSpace(s[i + 1]))
    && (s != [] ==> !IsSpace(s[0]) && !IsSpace(s[|s| - 1]))
  }

  lemma {:induction false} CollapseUnchanged(s: string)
    requires forall i :: 0 <= i < |s| && IsSpace(s[i]) ==> s[i] == ' '
    requires forall i :: 0 <= i < |s| - 1 && IsSpace(s[i]) ==> !IsSpace(s[i + 1])
    ensures CollapseSpaces(s) == s
    decreases |s|
  {
    if s != [] {
      var t := s[1..];
      forall i | 0 <= i < |t| && IsSpace(t[i]) ensures t[i] == ' ' {
        assert t[i] == s[i + 1];
      }
      forall i | 0 <= i < |t| - 1 && IsSpace(t[i]) ensures !IsSpace(t[i + 1]) {
        assert t[i] == s[i + 1] && t[i + 1] == s[i + 2];
      }
      CollapseUnchanged(t);
      if IsSpace(s[0]) {
        if t != [] {
          assert t[0] == s[1];
          assert !IsSpace(t[0]);
        }
        assert TrimLeft(t) == t;
        assert CollapseSpaces(s) == [' '] + CollapseSpaces(t);
      } else {
        assert CollapseSpaces(s) == [s[0]] + CollapseSpaces(t);
      }
      assert s == [s[0]] + t;
    }
  }

  /** Normalising a name that is already in normal form changes nothing. */
  lemma NormalizeKeepsNormalNames(s: string)
    requires IsNormalName(s)
    ensures NormalizeEntity(s) == s
  {
    if s != [] {
      StripUnchanged(s);
      CollapseUnchanged(s);
      RemoveParensSpec(s);
      FilterAll(s, KeepChar);
    }
  }

  /** A trailing parenthesised gloss goes: `快速排序(QuickSort)` becomes `快速排序`. */
  lemma NormalizeDropsGloss(name: string, gloss: string)
    requires IsNormalName(name) && name != []
    requires forall i :: 0 <= i < |gloss| ==> gloss[i] != ')' && !IsSpace(gloss[i])
    ensures NormalizeEntity(name + "(" + gloss + ")") == name
  {
    var s := name + "(" + gloss + ")";
    assert s == name + ("(" + gloss + ")");
    GlossedIsCollapsed(name, gloss);
    assert '(' !in name by {
      forall i | 0 <= i < |name| ensures name[i] != '(' {
      }
    }
    GlossedLosesGloss(name, gloss);
    assert RemoveParens(CollapseSpaces(Strip(s))) == name;
    FilterAll(name, KeepChar);
    StripUnchanged(name);
  }

  lemma GlossedIsCollapsed(name: string, gloss: string)
    requires IsNormalName(name) && name != []
    requires forall i :: 0 <= i < |gloss| ==> !IsSpace(gloss[i])
    ensures Strip(name + "(" + gloss + ")") == name + "(" + gloss + ")"
    ensures CollapseSpaces(name + "(" + gloss + ")") == name + "(" + gloss + ")"
  {
    GlossNotSpace(gloss);
    ConcatAssoc(name, "(", gloss, ")");
    AppendUnchanged(name, "(" + gloss + ")");
  }

  /** Appending non-empty text without whitespace to a normal name leaves nothing to strip or collapse. */
  lemma AppendUnchanged(name: string, g: string)
    requires IsNormalName(name) && name != [] && g != []
    requires forall i :: 0 <= i < |g| ==> !IsSpace(g[i])
    ensures Strip(name + g) == name + g
    ensures CollapseSpaces(name + g) == name + g
  {
    var s := name + g;
    AppendNonSpace(name, g);
    assert s[0] == name[0] && s[|s| - 1] == g[|g| - 1];
    StripUnchanged(s);
    CollapseUnchanged(s);
  }

  lemma GlossNotSpace(gloss: string)
    requires forall i :: 0 <= i < |gloss| ==> !IsSpace(gloss[i])
    ensures var g := "(" + gloss + ")"; forall i :: 0 <= i < |g| ==> !IsSpace(g[i])
  {
    var g := "(" + gloss + ")";
    forall i | 0 <= i < |g| ensures !IsSpace(g[i]) {
      if 0 < i < |g| - 1 {
        assert g[i] == gloss[i - 1];
      }
    }
  }

  /** Appending text without whitespace keeps the spacing of a collapsed name. */
  lemma AppendNonSpace(name: string, g: string)
    requires forall i :: 0 <= i < |name| && IsSpace(name[i]) ==> name[i] == ' '
    requires forall i :: 0 <= i < |name| - 1 && IsSpace(name[i]) ==> !IsSpace(name[i + 1])
    requires forall i :: 0 <= i < |g| ==> !IsSpace(g[i])
    ensures var s := name + g;
      && (forall i :: 0 <= i < |s| && IsSpace(s[i]) ==> s[i] == ' ')
      && (forall i :: 0 <= i < |s| - 1 && IsSpace(s[i]) ==> !IsSpace(s[i + 1]))
  {
    var s := name + g;
    forall i | |name| <= i < |s| ensures !IsSpace(s[i]) {
      assert s[i] == g[i - |name|];
    }
    forall i | 0 <= i < |name| ensures s[i] == name[i] {
    }
  }

  lemma GlossedLosesGloss(name: string, gloss: string)
    requires '(' !in name
    requires forall i :: 0 <= i < |gloss| ==> gloss[i] != ')'
    ensures RemoveParens(name + ("(" + gloss + ")")) == name
  {
    var g := "(" + gloss + ")";
    RemoveParensPrefix(name, g);
    GlossGoes(gloss);
    assert name + [] == name;
  }

  lemma GlossGoes(gloss: string)
    requires forall i :: 0 <= i < |gloss| ==> gloss[i] != ')'
    ensures RemoveParens("(" + gloss + ")") == []
  {
    var t := gloss + ")";
    assert t[|gloss|] == ')';
    GlossClosesAtEnd(gloss);
    var g := "(" + gloss + ")";
    DropSingle("(", gloss, ")");
    RemoveParensOpen(g);
  }

  /** A leading `(` with a `)` after it goes, up to and including that `)`. */
  lemma RemoveParensOpen(s: string)
    requires s != [] && s[0] == '(' && ')' in s[1..]
    ensures RemoveParens(s) == RemoveParens(After(s[1..], ')'))
  {
  }

  lemma {:induction false} GlossClosesAtEnd(gloss: string)
    requires forall i :: 0 <= i < |gloss| ==> gloss[i] != ')'
    ensures After(gloss + ")", ')') == []
    decreases |gloss|
  {
    if gloss != [] {
      assert (gloss + ")")[1..] == gloss[1..] + ")";
      GlossClosesAtEnd(gloss[1..]);
    }
  }

  /** `normalize_entity` of a record field: a falsy value gives "", a non-string raises. */
  function NormalizeValue(v: Json): (r: Option<string>)
    ensures !Truthy(v) ==> r == Some("")
    ensures Truthy(v) && v.JStr? ==> r == Some(NormalizeEntity(v.s))
    ensures Truthy(v) && !v.JStr? ==> r.None?
  {
    if !Truthy(v) then Some("")
    else if v.JStr? then Some(NormalizeEntity(v.s))
    else None
  }

  // ---------------------------------------------------------------- types

  /** The keys of `fallback_entity_type_dict`: a record's own type is used when it is one. */
  const FallbackTypes: seq<string> :=
    ["ApplicationScenario", "DataStructure", "Algorithm", "Operation", "Complexity", "PrincipleOrProperty"]

  const DefaultType: string := "Concept"

  /** The keyword groups of the name heuristic, in the order they are tried. */
  const TypeRules: seq<Rule> := [
    Rule(["排序", "搜索", "查找", "算法", "sort", "search", "algorithm"], "Algorithm"),
    Rule(["栈", "队列", "链表", "树", "图", "数组", "堆", "表", "stack", "queue", "list", "tree", "graph", "array", "heap"],
      "DataStructure"),
    Rule(["应用", "场景", "求解", "匹配", "application", "scenario"], "ApplicationScenario"),
    Rule(["插入", "删除", "查找", "遍历", "初始化", "扩容", "入栈", "出栈", "入队", "出队"], "Operation"),
    Rule(["o(", "复杂度", "complexity", "时间", "空间"], "Complexity"),
    Rule(["lifo", "fifo", "稳定性", "原地", "有穷性", "确定性", "最优"], "PrincipleOrProperty")
  ]

  /** The type the heuristic gives a name (on the ASCII-lowered name). */
  function HeuristicType(name: string): string {
    FirstMatch(TypeRules, DefaultType, Lower(name))
  }

  /**
   * `get_entity_type_from_data`: the record's type if it is a known one, else the
   * vocabulary's entry, else the heuristic. An absent or empty record type is "".
   */
  function EntityTypeFromData(name: string, dataType: string, vocabulary: map<string, string>): string {
    if dataType != "" && dataType in FallbackTypes then dataType
    else if name in vocabulary then vocabulary[name]
    else HeuristicType(name)
  }

  /**
   * The three sources are consulted in order; the heuristic returns the kind of the first
   * keyword group with a phrase in the lowered name and "Concept" when none has one.
   */
  lemma EntityTypeSpec(name: string, dataType: string, vocabulary: map<string, string>)
    ensures dataType in FallbackTypes ==> EntityTypeFromData(name, dataType, vocabulary) == dataType
    ensures dataType !in FallbackTypes && name in vocabulary ==>
      EntityTypeFromData(name, dataType, vocabulary) == vocabulary[name]
    ensures dataType !in FallbackTypes && name !in vocabulary ==>
      (EntityTypeFromData(name, dataType, vocabulary) == DefaultType <==>
        forall k :: 0 <= k < |TypeRules| ==> !AnyIn(TypeRules[k].patterns, Lower(name)))
    ensures dataType !in FallbackTypes && name !in vocabulary && EntityTypeFromData(name, dataType, vocabulary) != DefaultType ==>
      exists k :: 0 <= k < |TypeRules| && AnyIn(TypeRules[k].patterns, Lower(name)) &&
        EntityTypeFromData(name, dataType, vocabulary) == TypeRules[k].kind &&
        forall j :: 0 <= j < k ==> !AnyIn(TypeRules[j].patterns, Lower(name))
    ensures var t := EntityTypeFromData(name, dataType, vocabulary);
      t in FallbackTypes || t == DefaultType || t in vocabulary.Values
  {
    HeuristicTypeSpec(name);
  }

  /** Every keyword group gives one of the known types, never the default. */
  lemma TypeRulesKinds()
    ensures forall k :: 0 <= k < |TypeRules| ==> TypeRules[k].kind != DefaultType && TypeRules[k].kind in FallbackTypes
  {
  }

  /** The heuristic gives the kind of the first group with a phrase in the lowered name, else "Concept". */
  lemma HeuristicTypeSpec(name: string)
    ensures HeuristicType(name) == DefaultType <==>
      forall k :: 0 <= k < |TypeRules| ==> !AnyIn(TypeRules[k].patterns, Lower(name))
    ensures HeuristicType(name) != DefaultType ==>
      exists k :: 0 <= k < |TypeRules| && AnyIn(TypeRules[k].patterns, Lower(name)) &&
        HeuristicType(name) == TypeRules[k].kind &&
        forall j :: 0 <= j < k ==> !AnyIn(TypeRules[j].patterns, Lower(name))
    ensures HeuristicType(name) == DefaultType || HeuristicType(name) in FallbackTypes
  {
    TypeRulesKinds();
    FirstMatchSpec(TypeRules, DefaultType, Lower(name));
    if HeuristicType(name) != DefaultType {
      var k :| 0 <= k < |TypeRules| && HeuristicType(name) == TypeRules[k].kind;
    }
  }

  /** "查找" is listed for both algorithms and operations; the algorithm group is tried first. */
  lemma LookupNamesAreAlgorithms(name: string)
    requires Contains(Lower(name), "查找")
    ensures HeuristicType(name) == "Algorithm"
  {
    assert TypeRules[0].patterns[2] == "查找";
    assert AnyIn(TypeRules[0].patterns, Lower(name));
  }

  // ---------------------------------------------------------------- type constraints

  /** A row of the relation file: the declared head and tail types ("" when not declared). */
  datatype RelationInfo = RelationInfo(headType: string, tailType: string)

  /** The check in `create_relationships_with_offsets`: a declared type must match. */
  predicate SatisfiesTypes(relation: string, headType: string, tailType: string, relations: map<string, RelationInfo>) {
    relation in relations ==>
      (relations[relation].headType == "" || headType == relations[relation].headType) &&
      (relations[relation].tailType == "" || tailType == relations[relation].tailType)
  }

  /**
   * An undeclared relation, or one without type constraints, accepts every pair; one that
   * declares both types accepts exactly the pair it declares.
   */
  lemma SatisfiesTypesSpec(relation: string, headType: string, tailType: string, relations: map<string, RelationInfo>)
    ensures relation !in relations ==> SatisfiesTypes(relation, headType, tailType, relations)
    ensures relation in relations && relations[relation] == RelationInfo("", "") ==>
      SatisfiesTypes(relation, headType, tailType, relations)
    ensures relation in relations && relations[relation].headType != "" && relations[relation].tailType != "" ==>
      (SatisfiesTypes(relation, headType, tailType, relations) <==>
        RelationInfo(headType, tailType) == relations[relation])
    ensures SatisfiesTypes(relation, headType, tailType, relations) && relation in relations ==>
      relations[relation].headType == "" || headType == relations[relation].headType
  {
  }

  // ---------------------------------------------------------------- the entity-offsets file

  /**
   * A record of the entity-offsets file. An absent `head`, `tail` or `relation` is
   * `JStr("")`, an absent confidence `None`; `extra` is every other field.
   */
  datatype OffsetRecord = OffsetRecord(head: Json, tail: Json, relation: Json, confidence: Option<real>,
                                       extra: seq<(string, Json)>)

  /** A record after normalisation: names normalised, confidence defaulted. */
  datatype Relationship = Relationship(head: string, tail: string, relation: Json, confidence: real,
                                       extra: seq<(string, Json)>)

  const DefaultConfidence: real := 1.0

  /** The record with its names normalised; `None` when normalising a name raises. */
  function NormalizeRecord(item: OffsetRecord): Option<Relationship> {
    var head := NormalizeValue(item.head);
    var tail := NormalizeValue(item.tail);
    if head.None? || tail.None? then None
    else Some(Relationship(head.value, tail.value, item.relation, item.confidence.GetOr(DefaultConfidence), item.extra))
  }

  /** Every record normalised, or `None` when one of them raises. */
  function NormalizeAll(data: seq<OffsetRecord>): Option<seq<Relationship>> {
    AllSome(data, NormalizeRecord)
  }

  /** The filter of `load_entity_offsets_data`. */
  predicate Admissible(threshold: real, r: Relationship) {
    r.head != "" && r.tail != "" && Truthy(r.relation) && r.head != r.tail && r.confidence >= threshold
  }

  function AdmissibleAt(threshold: real): Relationship -> bool {
    r => Admissible(threshold, r)
  }

  /** What `load_entity_offsets_data` returns: the admissible records, or [] if one raises. */
  function LoadedRelationships(data: seq<OffsetRecord>, threshold: real): seq<Relationship> {
    var all := NormalizeAll(data);
    if all.None? then [] else Filter(all.value, AdmissibleAt(threshold))
  }

  /**
   * Unless a record raises, the loader keeps exactly the records with a non-empty head, tail
   * and relation, distinct head and tail, and a confidence (1.0 when absent) at least the
   * threshold, with their names normalised, in input order.
   */
  lemma LoadedRelationshipsSpec(data: seq<OffsetRecord>, threshold: real)
    ensures (exists j :: 0 <= j < |data| && NormalizeRecord(data[j]).None?) ==> LoadedRelationships(data, threshold) == []
    ensures forall i :: 0 <= i < |LoadedRelationships(data, threshold)| ==>
      var r := LoadedRelationships(data, threshold)[i];
      Admissible(threshold, r) && exists j :: 0 <= j < |data| && NormalizeRecord(data[j]) == Some(r)
    ensures (forall j :: 0 <= j < |data| ==> NormalizeRecord(data[j]).Some?) ==>
      forall j :: 0 <= j < |data| && Admissible(threshold, NormalizeRecord(data[j]).value) ==>
        NormalizeRecord(data[j]).value in LoadedRelationships(data, threshold)
  {
    FilterAllSome(data, NormalizeRecord, AdmissibleAt(threshold));
  }

  /** The loop of `load_entity_offsets_data`; any exception makes it return []. */
  method LoadEntityOffsets(data: seq<OffsetRecord>, threshold: real) returns (valid: seq<Relationship>)
    ensures valid == LoadedRelationships(data, threshold)
  {
    valid := [];
    var i := 0;
    while i < |data|
      invariant 0 <= i <= |data|
      invariant NormalizeAll(data[..i]).Some?
      invariant valid == Filter(NormalizeAll(data[..i]).value, AdmissibleAt(threshold))
    {
      var item := data[i];
      var head := NormalizeValue(item.head);
      var tail := NormalizeValue(item.tail);
      if head.None? || tail.None? {
        NormalizeAllRaises(data, i);
        return [];
      }
      var r := Relationship(head.value, tail.value, item.relation, item.confidence.GetOr(DefaultConfidence), item.extra);
      NormalizeAllStep(data, i, r, threshold);
      if head.value != "" && tail.value != "" && Truthy(item.relation) && head.value != tail.value {
        if r.confidence >= threshold {
          valid := valid + [r];
        }
      }
      i := i + 1;
    }
    assert data[..|data|] == data;
  }

  lemma NormalizeAllRaises(data: seq<OffsetRecord>, i: nat)
    requires i < |data| && NormalizeRecord(data[i]).None?
    ensures NormalizeAll(data).None?
  {
  }

  lemma NormalizeAllStep(data: seq<OffsetRecord>, i: nat, r: Relationship, threshold: real)
    requires i < |data| && NormalizeAll(data[..i]).Some? && NormalizeRecord(data[i]) == Some(r)
    ensures NormalizeAll(data[..i + 1]) == Some(NormalizeAll(data[..i]).value + [r])
    ensures Filter(NormalizeAll(data[..i + 1]).value, AdmissibleAt(threshold)) ==
      Filter(NormalizeAll(data[..i]).value, AdmissibleAt(threshold)) + (if Admissible(threshold, r) then [r] else [])
  {
    AllSomeFilterStep(data, NormalizeRecord, AdmissibleAt(threshold), i, r);
  }

  // ---------------------------------------------------------------- de-duplication

  /** The record's key can be put in a `set`: a list or dict relation raises `TypeError`. */
  predicate KeyHashable(r: Relationship) {
    Hashable(r.relation)
  }

  /** The identity of a relationship: `(head, relation, tail)`, compared as Python compares them. */
  function TripleKey(r: Relationship): (string, Json, string) {
    (r.head, HashKey(r.relation), r.tail)
  }

  /**
   * What `remove_duplicate_relationships` returns: the first record of every (head, relation,
   * tail), in input order; `None` for the `TypeError` of a record whose relation is a list or
   * a dict.
   */
  function UniqueRelationships(data: seq<Relationship>): (unique: Option<seq<Relationship>>)
    ensures unique.None? <==> exists i | 0 <= i < |data| :: !KeyHashable(data[i])
    ensures unique.Some? ==>
      DistinctKeys(unique.value, TripleKey) && KeysOf(unique.value, TripleKey) == KeysOf(data, TripleKey)
  {
    if forall i | 0 <= i < |data| :: KeyHashable(data[i]) then Some(DedupBy(data, TripleKey)) else None
  }

  /** `remove_duplicate_relationships`'s loop. */
  method RemoveDuplicateRelationships(data: seq<Relationship>) returns (unique: Option<seq<Relationship>>)
    ensures unique == UniqueRelationships(data)
  {
    unique := DedupHashable(data, TripleKey, KeyHashable);
  }
}
