/**
 * The knowledge-graph client `KnowledgeGraphQuery`: entity-name sanitising, entity-list
 * validation, a deterministic cache key, a time-to-live cache with lazy eviction on lookup
 * and a sweep on insert, the conversion of graph records into facts, and the guards of the
 * three `find_*` queries. The graph database is the function `store`, which answers a query
 * with its records or fails (`None`, a raised exception); the clock is the parameter `now`.
 */
module KnowledgeGraphQuery {
  import opened Wrappers
  import opened Text
  import opened Json
  import opened Seqs

  const MaxEntityLength: nat := 100
  const MaxEntitiesPerQuery: nat := 50
  const QueryResultLimit: int := 1000
  const CacheTtl: int := 600
  /** `str(0.8)`, the default confidence threshold as it appears in a cache key. */
  const DefaultConfidenceThreshold: string := "0.8"
  const UnknownRelation: string := "未知关系"
  /** The node properties copied into an attribute map, in the order they are copied. */
  const AttributeFields: seq<string> :=
    ["type", "description", "properties", "time_complexity", "space_complexity", "common_operations"]

  // ---------------------------------------------------------------- sanitising

  predicate IsCjk(c: char) {
    '\U{4E00}' <= c <= '\U{9FFF}'
  }

  /** The characters `\w` matches, on ASCII and the CJK block. */
  predicate IsWordChar(c: char) {
    ('a' <= c <= 'z') || ('A' <= c <= 'Z') || ('0' <= c <= '9') || c == '_' || IsCjk(c)
  }

  /** The characters the class `[\w一-鿿\s\-_]` matches. */
  predicate IsNameChar(c: char) {
    IsWordChar(c) || IsCjk(c) || IsSpace(c) || c == '-' || c == '_'
  }

  predicate AllNameChars(s: string) {
    forall i :: 0 <= i < |s| ==> IsNameChar(s[i])
  }

  /** Removes every character the class does not match, keeping the rest in order. */
  function KeepNameChars(s: string): (r: string)
    ensures AllNameChars(r)
    ensures |r| <= |s|
    ensures forall c :: c in r ==> c in s
    ensures AllNameChars(s) ==> r == s
  {
    if s == [] then []
    else (if IsNameChar(s[0]) then [s[0]] else []) + KeepNameChars(s[1..])
  }

  /** What a sanitised entity name looks like. */
  predicate IsSanitized(s: string) {
    |s| <= MaxEntityLength && AllNameChars(s) && (s != [] ==> !IsSpace(s[0]) && !IsSpace(s[|s| - 1]))
  }

  /** `_sanitize_entity_name`: filter the characters, cut to 100, strip. */
  function SanitizeEntityName(name: string): (r: string)
    ensures IsSanitized(r)
    ensures name == "" ==> r == ""
  {
    if name == "" then ""
    else
      var kept := KeepNameChars(name);
      var cut := Take(kept, MaxEntityLength);
      NameCharsPrefix(kept, |cut|);
      NameCharsStrip(cut);
      Strip(cut)
  }

  lemma NameCharsPrefix(s: string, n: nat)
    requires AllNameChars(s) && n <= |s|
    ensures AllNameChars(s[..n])
  {
  }

  lemma NameCharsStrip(s: string)
    requires AllNameChars(s)
    ensures AllNameChars(Strip(s))
  {
    var r := Strip(s);
    forall i | 0 <= i < |r| ensures IsNameChar(r[i]) {
      assert r[i] in r;
      var j :| 0 <= j < |s| && s[j] == r[i];
    }
  }

  /** Quotes, semicolons and the key separators cannot survive sanitising. */
  lemma SanitizedHasNoQuotes(name: string)
    ensures var r := SanitizeEntityName(name);
      '\'' !in r && '"' !in r && ';' !in r && '|' !in r && ':' !in r
  {
    NameCharsExclude(SanitizeEntityName(name));
  }

  lemma NameCharsExclude(s: string)
    requires AllNameChars(s)
    ensures '\'' !in s && '"' !in s && ';' !in s && '|' !in s && ':' !in s
  {
    forall i | 0 <= i < |s| ensures s[i] != '\'' && s[i] != '"' && s[i] != ';' && s[i] != '|' && s[i] != ':' {
      assert IsNameChar(s[i]);
    }
  }

  /** A name already in sanitised form is left as it is; so sanitising twice is sanitising once. */
  lemma SanitizeFixesSanitized(s: string)
    requires IsSanitized(s)
    ensures SanitizeEntityName(s) == s
  {
    if s != "" {
      assert KeepNameChars(s) == s;
      assert Take(s, MaxEntityLength) == s;
      StripUnchanged(s);
    }
  }

  lemma SanitizeIdempotent(name: string)
    ensures SanitizeEntityName(SanitizeEntityName(name)) == SanitizeEntityName(name)
  {
    SanitizeFixesSanitized(SanitizeEntityName(name));
  }

  // ---------------------------------------------------------------- validation

  /** The non-empty images of `names` under `f`, in order (the loop body of `_validate_entities`). */
  function NonEmptyImages(names: seq<string>, f: string -> string): (r: seq<string>)
    ensures |r| <= |names|
    decreases |names|
  {
    if names == [] then []
    else
      var n := |names| - 1;
      var p := NonEmptyImages(names[..n], f);
      var x := f(names[n]);
      if x == "" then p else p + [x]
  }

  /** Every image kept is non-empty and is the image of some name; every non-empty image is kept. */
  lemma {:induction false} NonEmptyImagesHas(names: seq<string>, f: string -> string)
    ensures var r := NonEmptyImages(names, f);
      && (forall i :: 0 <= i < |r| ==> r[i] != "" && exists j :: 0 <= j < |names| && r[i] == f(names[j]))
      && (forall j :: 0 <= j < |names| && f(names[j]) != "" ==> f(names[j]) in r)
    decreases |names|
  {
    if names != [] {
      var n := |names| - 1;
      var init := names[..n];
      NonEmptyImagesHas(init, f);
      var p := NonEmptyImages(init, f);
      assert forall j :: 0 <= j < n ==> init[j] == names[j];
      var r := NonEmptyImages(names, f);
      assert r == if f(names[n]) == "" then p else p + [f(names[n])];
      forall i | 0 <= i < |r| ensures r[i] != "" && exists j :: 0 <= j < |names| && r[i] == f(names[j]) {
        if i < |p| {
          assert r[i] == p[i];
          var j :| 0 <= j < |init| && p[i] == f(init[j]);
          assert init[j] == names[j];
        } else {
          assert r[i] == f(names[n]);
        }
      }
      forall j | 0 <= j < |names| && f(names[j]) != "" ensures f(names[j]) in r {
        if j < n {
          assert init[j] == names[j];
          assert f(init[j]) in p;
        }
      }
    }
  }

  /** `_validate_entities`: the first 50 names, sanitised, empty results dropped. */
  function ValidatedEntities(entities: seq<string>): (r: seq<string>)
    ensures |r| <= MaxEntitiesPerQuery
  {
    NonEmptyImages(Take(entities, MaxEntitiesPerQuery), SanitizeEntityName)
  }

  /**
   * At most fifty names come back, each non-empty and sanitised: exactly the non-empty
   * sanitised forms of the first fifty names, in order.
   */
  lemma ValidatedEntitiesSpec(entities: seq<string>)
    ensures var r := ValidatedEntities(entities);
      && (forall i :: 0 <= i < |r| ==> r[i] != "" && IsSanitized(r[i]))
      && (forall i :: 0 <= i < |r| ==>
            exists j :: 0 <= j < |entities| && j < MaxEntitiesPerQuery && r[i] == SanitizeEntityName(entities[j]))
      && (forall j :: 0 <= j < |entities| && j < MaxEntitiesPerQuery && SanitizeEntityName(entities[j]) != "" ==>
            SanitizeEntityName(entities[j]) in r)
  {
    var batch := Take(entities, MaxEntitiesPerQuery);
    NonEmptyImagesHas(batch, SanitizeEntityName);
    var r := ValidatedEntities(entities);
    assert forall j :: 0 <= j < |batch| ==> batch[j] == entities[j];
    forall i | 0 <= i < |r|
      ensures exists j :: 0 <= j < |entities| && j < MaxEntitiesPerQuery && r[i] == SanitizeEntityName(entities[j])
    {
      var j :| 0 <= j < |batch| && r[i] == SanitizeEntityName(batch[j]);
    }
  }

  /** The validation loop of `_validate_entities`. */
  method ValidateEntities(entities: seq<string>) returns (validated: seq<string>)
    ensures validated == ValidatedEntities(entities)
  {
    var batch := Take(entities, MaxEntitiesPerQuery);
    validated := [];
    var i := 0;
    while i < |batch|
      invariant 0 <= i <= |batch|
      invariant validated == NonEmptyImages(batch[..i], SanitizeEntityName)
    {
      assert batch[..i + 1][..i] == batch[..i];
      var sanitized := SanitizeEntityName(batch[i]);
      if sanitized != "" {
        validated := validated + [sanitized];
      }
      i := i + 1;
    }
    assert batch[..|batch|] == batch;
  }

  // ---------------------------------------------------------------- cache key

  /** `_get_cache_key`: the query type, a colon, and the arguments' texts joined by `|`. */
  function CacheKey(queryType: string, args: seq<string>): string {
    queryType + ":" + Join(args, "|")
  }

  /**
   * Distinct queries get distinct keys: for a query type without `:` and arguments without
   * `|` (sanitised names have neither), the key determines the type and every argument.
   */
  lemma CacheKeyInjective(t1: string, a1: seq<string>, t2: string, a2: seq<string>)
    requires ':' !in t1 && ':' !in t2
    requires |a1| >= 1 && |a2| >= 1
    requires forall i :: 0 <= i < |a1| ==> '|' !in a1[i]
    requires forall i :: 0 <= i < |a2| ==> '|' !in a2[i]
    requires CacheKey(t1, a1) == CacheKey(t2, a2)
    ensures t1 == t2 && a1 == a2
  {
    SplitAtSep(t1, Join(a1, "|"), t2, Join(a2, "|"), ':');
    JoinInjective(a1, a2, '|');
  }

  // ---------------------------------------------------------------- records and facts

  /** One row of a query's answer: column name to value. */
  type Record = seq<(string, Json)>

  /** The three queries the client sends, with what their Cypher text depends on. */
  datatype Query =
    | RelatedByRelation(entities: seq<string>, relation: string, limit: int)
    | BetweenEntities(entity1: string, entity2: string, bidirectional: bool, limit: int)
    | AllRelations(entity: string, limit: int)

  /** A formatted result item: both endpoints with their attributes, and the relation. */
  datatype Fact = Fact(
    entity1: Json, entity1Attributes: seq<(string, Json)>,
    entity2: Json, entity2Attributes: seq<(string, Json)>,
    relation: Json)

  /** The attribute map of one endpoint, built from the `prefix_field` columns of `fields`. */
  function AttributesFrom(record: Record, prefix: string, fields: seq<string>): (attrs: seq<(string, Json)>)
    ensures |attrs| <= |fields|
    ensures forall i :: 0 <= i < |attrs| ==>
      attrs[i].0 in fields && Get(record, prefix + "_" + attrs[i].0) == Some(attrs[i].1) && Truthy(attrs[i].1)
    ensures forall f :: f in fields && HasTruthy(record, prefix + "_" + f) ==>
      (f, Get(record, prefix + "_" + f).value) in attrs
  {
    if fields == [] then []
    else
      var g := Get(record, prefix + "_" + fields[0]);
      var rest := AttributesFrom(record, prefix, fields[1..]);
      if g.Some? && Truthy(g.value) then
        assert forall f :: f in fields ==> f == fields[0] || f in fields[1..];
        [(fields[0], g.value)] + rest
      else rest
  }

  /** `_format_entity_attributes`: the truthy values among the six fields, in field order. */
  function FormatEntityAttributes(record: Record, prefix: string): (attrs: seq<(string, Json)>)
    ensures |attrs| <= 6
    ensures forall i :: 0 <= i < |attrs| ==>
      attrs[i].0 in AttributeFields && Get(record, prefix + "_" + attrs[i].0) == Some(attrs[i].1) && Truthy(attrs[i].1)
    ensures forall f :: f in AttributeFields && HasTruthy(record, prefix + "_" + f) ==>
      (f, Get(record, prefix + "_" + f).value) in attrs
  {
    AttributesFrom(record, prefix, AttributeFields)
  }

  /** The records kept by the formatting loops: both names truthy. */
  predicate IsComplete(record: Record) {
    HasTruthy(record, "entity1") && HasTruthy(record, "entity2")
  }

  /** The fact a complete record becomes. */
  function FormatRecord(record: Record, defaultRelation: string): Fact {
    Fact(Get(record, "entity1").GetOr(JNull), FormatEntityAttributes(record, "entity1"),
         Get(record, "entity2").GetOr(JNull), FormatEntityAttributes(record, "entity2"),
         Get(record, "relation").GetOr(JStr(defaultRelation)))
  }

  /**
   * A complete record's fact carries its two names (both truthy), their attribute maps, and
   * its `relation` column, or the default relation when the column is missing.
   */
  lemma FormatRecordFields(record: Record, defaultRelation: string)
    requires IsComplete(record)
    ensures var f := FormatRecord(record, defaultRelation);
      Truthy(f.entity1) && Truthy(f.entity2) &&
      Some(f.entity1) == Get(record, "entity1") && Some(f.entity2) == Get(record, "entity2") &&
      f.entity1Attributes == FormatEntityAttributes(record, "entity1") &&
      f.entity2Attributes == FormatEntityAttributes(record, "entity2") &&
      f.relation == (if Get(record, "relation").Some? then Get(record, "relation").value else JStr(defaultRelation))
  {
  }

  function FormatWith(defaultRelation: string): Record -> Fact {
    (record: Record) => FormatRecord(record, defaultRelation)
  }

  /** The formatted result of a query: one fact per complete record, in record order. */
  function Facts(records: seq<Record>, defaultRelation: string): seq<Fact> {
    FilterMap(records, IsComplete, FormatWith(defaultRelation))
  }

  /** Exactly the complete records become facts: no fact without a complete record, and none lost. */
  lemma FactsAreCompleteRecords(records: seq<Record>, defaultRelation: string)
    ensures |Facts(records, defaultRelation)| <= |records|
    ensures forall i :: 0 <= i < |Facts(records, defaultRelation)| ==>
      exists j :: 0 <= j < |records| && IsComplete(records[j]) &&
        Facts(records, defaultRelation)[i] == FormatRecord(records[j], defaultRelation)
    ensures forall j :: 0 <= j < |records| && IsComplete(records[j]) ==>
      FormatRecord(records[j], defaultRelation) in Facts(records, defaultRelation)
  {
    var f := FormatWith(defaultRelation);
    var r := Facts(records, defaultRelation);
    FilterMapHas(records, IsComplete, f);
    forall i | 0 <= i < |r|
      ensures exists j :: 0 <= j < |records| && IsComplete(records[j]) && r[i] == FormatRecord(records[j], defaultRelation)
    {
      assert r[i] == FilterMap(records, IsComplete, f)[i];
      var j :| 0 <= j < |records| && IsComplete(records[j]) && r[i] == f(records[j]);
      assert r[i] == FormatRecord(records[j], defaultRelation);
    }
    assert forall i :: 0 <= i < |Facts(records, defaultRelation)| ==>
      exists j :: 0 <= j < |records| && IsComplete(records[j]) &&
        Facts(records, defaultRelation)[i] == FormatRecord(records[j], defaultRelation);
    forall j | 0 <= j < |records| && IsComplete(records[j])
      ensures FormatRecord(records[j], defaultRelation) in r
    {
      assert f(records[j]) in r;
    }
  }

  /** The formatting loop shared by the three `find_*` queries. */
  method FormatRecords(records: seq<Record>, defaultRelation: string) returns (formatted: seq<Fact>)
    ensures formatted == Facts(records, defaultRelation)
  {
    formatted := [];
    var i := 0;
    while i < |records|
      invariant 0 <= i <= |records|
      invariant formatted == FilterMap(records[..i], IsComplete, FormatWith(defaultRelation))
    {
      assert records[..i + 1][..i] == records[..i];
      var record := records[i];
      if HasTruthy(record, "entity1") && HasTruthy(record, "entity2") {
        formatted := formatted + [FormatRecord(record, defaultRelation)];
      }
      i := i + 1;
    }
    assert records[..|records|] == records;
  }

  // ---------------------------------------------------------------- cache

  datatype CacheEntry = CacheEntry(result: seq<Record>, storedAt: int)

  predicate IsFresh(e: CacheEntry, now: int) {
    now - e.storedAt < CacheTtl
  }

  predicate Hit(m: map<string, CacheEntry>, key: string, now: int) {
    key in m && IsFresh(m[key], now)
  }

  /** The cache after a lookup of `key`: a stale entry is gone. */
  ghost function AfterLookup(m: map<string, CacheEntry>, key: string, now: int): map<string, CacheEntry> {
    if key in m && !IsFresh(m[key], now) then m - {key} else m
  }

  /** The entries still fresh at `now`. */
  ghost function Swept(m: map<string, CacheEntry>, now: int): map<string, CacheEntry> {
    map k | k in m && IsFresh(m[k], now) :: m[k]
  }

  /** What `_execute_query_with_cache` returns when the store answers `fetched`. */
  ghost function Served(m: map<string, CacheEntry>, key: string, now: int, fetched: Option<seq<Record>>): seq<Record> {
    if key != "" && Hit(m, key, now) then m[key].result
    else if fetched.Some? then fetched.value
    else []
  }

  /** The cache after `_execute_query_with_cache` when the store answers `fetched`. */
  ghost function CacheAfter(m: map<string, CacheEntry>, key: string, now: int, fetched: Option<seq<Record>>): map<string, CacheEntry> {
    if key == "" then m
    else if Hit(m, key, now) then m
    else if fetched.Some? then Swept(AfterLookup(m, key, now)[key := CacheEntry(fetched.value, now)], now)
    else AfterLookup(m, key, now)
  }

  /** Right after a successful query, the same key is served from the cache. */
  lemma StoredIsServed(m: map<string, CacheEntry>, key: string, now: int, fetched: Option<seq<Record>>,
                       later: Option<seq<Record>>)
    requires key != "" && fetched.Some?
    ensures Hit(CacheAfter(m, key, now, fetched), key, now)
    ensures Served(CacheAfter(m, key, now, fetched), key, now, later) == Served(m, key, now, fetched)
  {
  }

  /** What `find_entity_relations(entityName, limit)` answers from the cache `m` at `now`. */
  ghost function EntityRelationsResult(m: map<string, CacheEntry>, entityName: string, limit: int,
                                       store: Query -> Option<seq<Record>>, now: int): seq<Fact>
  {
    var entity := SanitizeEntityName(entityName);
    if entity == "" then []
    else
      var key := CacheKey("find_entity_relations", [entity, IntToString(limit)]);
      var q := AllRelations(entity, if limit < QueryResultLimit then limit else QueryResultLimit);
      Facts(Served(m, key, now, store(q)), UnknownRelation)
  }

  /** The cache after `find_entity_relations(entityName, limit)` on the cache `m` at `now`. */
  ghost function EntityRelationsCache(m: map<string, CacheEntry>, entityName: string, limit: int,
                                      store: Query -> Option<seq<Record>>, now: int): map<string, CacheEntry>
  {
    var entity := SanitizeEntityName(entityName);
    if entity == "" then m
    else
      var key := CacheKey("find_entity_relations", [entity, IntToString(limit)]);
      var q := AllRelations(entity, if limit < QueryResultLimit then limit else QueryResultLimit);
      CacheAfter(m, key, now, store(q))
  }

  /** What `find_entities_by_relation(entities, relation, threshold)` answers from the cache `m` at `now`. */
  ghost function EntitiesByRelationResult(m: map<string, CacheEntry>, entities: seq<string>, relation: string,
                                          threshold: Option<string>, store: Query -> Option<seq<Record>>, now: int): seq<Fact>
  {
    var validated := ValidatedEntities(entities);
    var rel := SanitizeEntityName(relation);
    if validated == [] || relation == "" || rel == "" then []
    else
      var key := CacheKey("find_entities_by_relation", [TupleRepr(validated), rel, threshold.GetOr(DefaultConfidenceThreshold)]);
      Facts(Served(m, key, now, store(RelatedByRelation(validated, rel, QueryResultLimit))), rel)
  }

  /** The cache after `find_entities_by_relation(entities, relation, threshold)`. */
  ghost function EntitiesByRelationCache(m: map<string, CacheEntry>, entities: seq<string>, relation: string,
                                         threshold: Option<string>, store: Query -> Option<seq<Record>>, now: int)
    : map<string, CacheEntry>
  {
    var validated := ValidatedEntities(entities);
    var rel := SanitizeEntityName(relation);
    if validated == [] || relation == "" || rel == "" then m
    else
      var key := CacheKey("find_entities_by_relation", [TupleRepr(validated), rel, threshold.GetOr(DefaultConfidenceThreshold)]);
      CacheAfter(m, key, now, store(RelatedByRelation(validated, rel, QueryResultLimit)))
  }

  function BoolRepr(b: bool): string {
    if b then "True" else "False"
  }

  /** What `find_relation_by_entities(entities, threshold, bidirectional)` answers from the cache `m` at `now`. */
  ghost function RelationByEntitiesResult(m: map<string, CacheEntry>, entities: seq<string>, threshold: Option<string>,
                                          bidirectional: bool, store: Query -> Option<seq<Record>>, now: int): seq<Fact>
  {
    var validated := ValidatedEntities(entities);
    if |validated| < 2 then []
    else
      var key := CacheKey("find_relation_by_entities",
                          [validated[0], validated[1], threshold.GetOr(DefaultConfidenceThreshold), BoolRepr(bidirectional)]);
      Facts(Served(m, key, now, store(BetweenEntities(validated[0], validated[1], bidirectional, QueryResultLimit))),
            UnknownRelation)
  }

  /** The cache after `find_relation_by_entities(entities, threshold, bidirectional)`. */
  ghost function RelationByEntitiesCache(m: map<string, CacheEntry>, entities: seq<string>, threshold: Option<string>,
                                         bidirectional: bool, store: Query -> Option<seq<Record>>, now: int)
    : map<string, CacheEntry>
  {
    var validated := ValidatedEntities(entities);
    if |validated| < 2 then m
    else
      var key := CacheKey("find_relation_by_entities",
                          [validated[0], validated[1], threshold.GetOr(DefaultConfidenceThreshold), BoolRepr(bidirectional)]);
      CacheAfter(m, key, now, store(BetweenEntities(validated[0], validated[1], bidirectional, QueryResultLimit)))
  }

  /** A fact as the dict the queries return. */
  function FactToJson(f: Fact): Json {
    JDict([("entity1", f.entity1), ("entity1_attributes", JDict(f.entity1Attributes)),
           ("entity2", f.entity2), ("entity2_attributes", JDict(f.entity2Attributes)),
           ("relation", f.relation)])
  }

  /** A list of facts as the list of dicts the queries return. */
  function FactsJson(facts: seq<Fact>): (r: seq<Json>)
    ensures |r| == |facts| && forall i :: 0 <= i < |facts| ==> r[i] == FactToJson(facts[i])
  {
    seq(|facts|, i requires 0 <= i < |facts| => FactToJson(facts[i]))
  }

  class KnowledgeGraphQueryClient {
    /** `query_cache`: key to (result, time stored). */
    var cache: map<string, CacheEntry>

    constructor ()
      ensures cache == map[]
    {
      cache := map[];
    }

    /** `_get_cached_result`: a fresh entry is returned, a stale one is deleted. */
    method GetCachedResult(key: string, now: int) returns (r: Option<seq<Record>>)
      modifies this
      ensures r.Some? <==> Hit(old(cache), key, now)
      ensures r.Some? ==> r.value == old(cache)[key].result
      ensures cache == AfterLookup(old(cache), key, now)
      ensures key !in cache || IsFresh(cache[key], now)
    {
      if key in cache {
        var entry := cache[key];
        if now - entry.storedAt < CacheTtl {
          return Some(entry.result);
        } else {
          cache := cache - {key};
        }
      }
      return None;
    }

    /** `_cache_result`: store `(result, now)`, then delete every entry whose age is at least the TTL. */
    method CacheResult(key: string, result: seq<Record>, now: int)
      modifies this
      ensures cache == Swept(old(cache)[key := CacheEntry(result, now)], now)
      ensures key in cache && cache[key] == CacheEntry(result, now)
      ensures forall k :: k in cache ==> IsFresh(cache[k], now)
      ensures forall k :: k in old(cache) && k != key && IsFresh(old(cache)[k], now) ==>
        k in cache && cache[k] == old(cache)[k]
    {
      cache := cache[key := CacheEntry(result, now)];
      ghost var inserted := cache;
      var expired := set k | k in cache && now - cache[k].storedAt >= CacheTtl;
      while expired != {}
        invariant forall k :: k in expired ==> k in inserted && !IsFresh(inserted[k], now)
        invariant cache == map k | k in inserted && (IsFresh(inserted[k], now) || k in expired) :: inserted[k]
        decreases |expired|
      {
        var k :| k in expired;
        cache := cache - {k};
        expired := expired - {k};
      }
    }

    /** `_execute_query_with_cache`: a fresh cached answer, else the store's, cached only on success. */
    method ExecuteQueryWithCache(query: Query, key: string, store: Query -> Option<seq<Record>>, now: int)
      returns (r: seq<Record>, storeCalled: bool)
      modifies this
      ensures storeCalled <==> !(key != "" && Hit(old(cache), key, now))
      ensures !storeCalled ==> r == old(cache)[key].result && cache == old(cache)
      ensures storeCalled && store(query).None? ==>
        r == [] && cache == (if key == "" then old(cache) else AfterLookup(old(cache), key, now))
      ensures storeCalled && store(query).Some? ==> r == store(query).value
      ensures r == Served(old(cache), key, now, store(query))
      ensures cache == CacheAfter(old(cache), key, now, store(query))
    {
      if key != "" {
        var cached := GetCachedResult(key, now);
        if cached.Some? {
          return cached.value, false;
        }
      }
      storeCalled := true;
      var answer := store(query);
      if answer.None? {
        return [], true;
      }
      if key != "" {
        CacheResult(key, answer.value, now);
      }
      r := answer.value;
    }

    /** `find_entities_by_relation`. */
    method FindEntitiesByRelation(entities: seq<string>, relation: string, threshold: Option<string>,
                                  store: Query -> Option<seq<Record>>, now: int)
      returns (r: seq<Fact>, storeCalled: bool)
      modifies this
      ensures var validated := ValidatedEntities(entities);
              var rel := SanitizeEntityName(relation);
              if validated == [] || relation == "" || rel == "" then
                r == [] && !storeCalled && cache == old(cache)
              else
                var key := CacheKey("find_entities_by_relation",
                                    [TupleRepr(validated), rel, threshold.GetOr(DefaultConfidenceThreshold)]);
                var q := RelatedByRelation(validated, rel, QueryResultLimit);
                storeCalled == !Hit(old(cache), key, now) &&
                r == Facts(Served(old(cache), key, now, store(q)), rel) &&
                cache == CacheAfter(old(cache), key, now, store(q))
      ensures r == EntitiesByRelationResult(old(cache), entities, relation, threshold, store, now)
      ensures cache == EntitiesByRelationCache(old(cache), entities, relation, threshold, store, now)
    {
      var validated := ValidateEntities(entities);
      if validated == [] || relation == "" {
        return [], false;
      }
      var rel := SanitizeEntityName(relation);
      if rel == "" {
        return [], false;
      }
      var key := CacheKey("find_entities_by_relation",
                          [TupleRepr(validated), rel, threshold.GetOr(DefaultConfidenceThreshold)]);
      var records;
      records, storeCalled := ExecuteQueryWithCache(RelatedByRelation(validated, rel, QueryResultLimit), key, store, now);
      r := FormatRecords(records, rel);
    }

    /** `find_relation_by_entities`: the first two valid names, in one or both directions. */
    method FindRelationByEntities(entities: seq<string>, threshold: Option<string>, bidirectional: bool,
                                  store: Query -> Option<seq<Record>>, now: int)
      returns (r: seq<Fact>, storeCalled: bool)
      modifies this
      ensures var validated := ValidatedEntities(entities);
              if |validated| < 2 then
                r == [] && !storeCalled && cache == old(cache)
              else
                var key := CacheKey("find_relation_by_entities",
                                    [validated[0], validated[1], threshold.GetOr(DefaultConfidenceThreshold),
                                     if bidirectional then "True" else "False"]);
                var q := BetweenEntities(validated[0], validated[1], bidirectional, QueryResultLimit);
                storeCalled == !Hit(old(cache), key, now) &&
                r == Facts(Served(old(cache), key, now, store(q)), UnknownRelation) &&
                cache == CacheAfter(old(cache), key, now, store(q))
      ensures r == RelationByEntitiesResult(old(cache), entities, threshold, bidirectional, store, now)
      ensures cache == RelationByEntitiesCache(old(cache), entities, threshold, bidirectional, store, now)
    {
      var validated := ValidateEntities(entities);
      if |validated| < 2 {
        return [], false;
      }
      var entity1, entity2 := validated[0], validated[1];
      var key := CacheKey("find_relation_by_entities",
                          [entity1, entity2, threshold.GetOr(DefaultConfidenceThreshold),
                           if bidirectional then "True" else "False"]);
      var records;
      records, storeCalled :=
        ExecuteQueryWithCache(BetweenEntities(entity1, entity2, bidirectional, QueryResultLimit), key, store, now);
      r := FormatRecords(records, UnknownRelation);
    }

    /** `find_entity_relations`: every relation of one entity, at most `min(limit, 1000)` rows. */
    method FindEntityRelations(entityName: string, limit: int, store: Query -> Option<seq<Record>>, now: int)
      returns (r: seq<Fact>, storeCalled: bool)
      modifies this
      ensures r == EntityRelationsResult(old(cache), entityName, limit, store, now)
      ensures cache == EntityRelationsCache(old(cache), entityName, limit, store, now)
      ensures var entity := SanitizeEntityName(entityName);
              if entity == "" then
                r == [] && !storeCalled && cache == old(cache)
              else
                var key := CacheKey("find_entity_relations", [entity, IntToString(limit)]);
                var q := AllRelations(entity, if limit < QueryResultLimit then limit else QueryResultLimit);
                q.limit <= QueryResultLimit &&
                storeCalled == !Hit(old(cache), key, now) &&
                r == Facts(Served(old(cache), key, now, store(q)), UnknownRelation) &&
                cache == CacheAfter(old(cache), key, now, store(q))
    {
      var entity := SanitizeEntityName(entityName);
      if entity == "" {
        return [], false;
      }
      var key := CacheKey("find_entity_relations", [entity, IntToString(limit)]);
      var records;
      records, storeCalled :=
        ExecuteQueryWithCache(AllRelations(entity, if limit < QueryResultLimit then limit else QueryResultLimit),
                              key, store, now);
      r := FormatRecords(records, UnknownRelation);
    }
  }
}
