/**
 * `KGContextBuilder` and the knowledge-backed parts of `KGLLMEnhancer`: relation scoring,
 * stable ranking with a cap, the first-writer-wins merge of the topic's attributes, the
 * evidence trailer appended to a generated text, and topic inference from a query result.
 * The language model is a function from what the prompt is built of to its reply, `None`
 * standing for the timeout or error that `_safe_llm` turns into an empty reply.
 */
module KgLlmEnhancer {
  import opened Wrappers
  import opened Text
  import opened Json
  import opened Seqs
  import KG = KnowledgeGraphQuery

  const DefaultRelationLimit: int := 8
  const DefaultTruncLen: nat := 300
  /** How many relations `build_context` asks the graph for when it is given none. */
  const TopicRelationsLimit: int := 50
  /** How much of an attribute value the evidence trailer quotes. */
  const EvidenceValueLimit: nat := 100
  const RelationKeywords: seq<string> := ["包含", "属于", "类型", "定义", "相关", "常用", "适用", "实现"]
  const FallbackTopic: string := "相关实体"
  const EvidenceHeader: string := "证据溯源："

  type Dict = seq<(string, Json)>

  /** One picked relation of a context. */
  datatype Triple = Triple(entity1: string, relation: string, entity2: string)

  /** The dict `build_context` returns; `attributes` is in insertion order. */
  datatype Context = Context(topic: string, attributes: seq<(string, string)>, relations: seq<Triple>)

  // ---------------------------------------------------------------- truncation

  /** `_truncate`: a string longer than `n` is cut to `n`; a falsy value becomes "". */
  function Truncate(v: Json, n: nat): (r: Json)
    ensures v.JStr? ==> r.JStr? && |r.s| <= n && |r.s| <= |v.s| && r.s == v.s[..|r.s|]
    ensures v.JStr? && |v.s| <= n ==> r == v
    ensures !Truthy(v) ==> r == JStr("")
  {
    if v.JStr? && |v.s| > n then JStr(v.s[..n])
    else if Truthy(v) then v
    else JStr("")
  }

  /** On strings `_truncate` is the prefix of length at most `n`. */
  lemma TruncateString(s: string, n: nat)
    ensures Truncate(JStr(s), n) == JStr(Take(s, n))
  {
  }

  // ---------------------------------------------------------------- scoring

  /** The points one endpoint earns: `exact` when it is the topic, `partial` when it contains it. */
  function SidePoints(topic: string, v: Json, exact: int, partial: int): int {
    if v.JStr? then (if v.s == topic then exact else if Contains(v.s, topic) then partial else 0) else 0
  }

  predicate HasRelationKeyword(r: string) {
    exists i | 0 <= i < |RelationKeywords| :: Contains(r, RelationKeywords[i])
  }

  function KeywordPoint(v: Json): int {
    if v.JStr? && HasRelationKeyword(v.s) then 1 else 0
  }

  /** `_score_relation`. */
  function ScoreRelation(topic: string, item: Dict): (score: int)
    ensures 0 <= score <= 6
    ensures Get(item, "entity1").GetOr(JStr("")) == JStr(topic) ==> score >= 3
    ensures score == 6 <==>
      Get(item, "entity1").GetOr(JStr("")) == JStr(topic) && Get(item, "entity2").GetOr(JStr("")) == JStr(topic) &&
      KeywordPoint(Get(item, "relation").GetOr(JStr(""))) == 1
  {
    SidePoints(topic, Get(item, "entity1").GetOr(JStr("")), 3, 2) +
    SidePoints(topic, Get(item, "entity2").GetOr(JStr("")), 2, 1) +
    KeywordPoint(Get(item, "relation").GetOr(JStr("")))
  }

  /** The score of a picked triple, which is the score of the item it was picked from. */
  function TripleScore(topic: string, t: Triple): int {
    SidePoints(topic, JStr(t.entity1), 3, 2) + SidePoints(topic, JStr(t.entity2), 2, 1) + KeywordPoint(JStr(t.relation))
  }

  // ---------------------------------------------------------------- ranking

  predicate IsDict(v: Json) {
    v.JDict?
  }

  function EntriesOf(v: Json): Dict {
    if v.JDict? then v.entries else []
  }

  /** `[r for r in rels if isinstance(r, dict)]`. */
  function DictsOf(items: seq<Json>): seq<Dict> {
    FilterMap(items, IsDict, EntriesOf)
  }

  function ScoreOf(topic: string): Dict -> int {
    (d: Dict) => ScoreRelation(topic, d)
  }

  function ScoreIs<T>(score: T -> int, k: int): T -> bool {
    (x: T) => score(x) == k
  }

  /** The elements of score `k`, then those of score `k - 1`, ..., then those of score 0. */
  function RankFrom<T>(xs: seq<T>, score: T -> int, k: int): seq<T>
    decreases k + 1
  {
    if k < 0 then [] else Filter(xs, ScoreIs(score, k)) + RankFrom(xs, score, k - 1)
  }

  /**
   * `sorted(..., key=score, reverse=True)`: Python's sort is stable, and the scores are the
   * integers 0..6, so the sorted list is the items of each score in input order, best first.
   */
  function Ranked(topic: string, items: seq<Json>): seq<Dict> {
    RankFrom(DictsOf(items), ScoreOf(topic), 6)
  }

  predicate SortedBy<T>(xs: seq<T>, score: T -> int) {
    forall i, j :: 0 <= i < j < |xs| ==> score(xs[i]) >= score(xs[j])
  }

  lemma {:induction false} RankFromSorted<T>(xs: seq<T>, score: T -> int, k: int)
    ensures forall i :: 0 <= i < |RankFrom(xs, score, k)| ==> score(RankFrom(xs, score, k)[i]) <= k
    ensures SortedBy(RankFrom(xs, score, k), score)
    decreases k + 1
  {
    if k >= 0 {
      RankFromSorted(xs, score, k - 1);
      var top := Filter(xs, ScoreIs(score, k));
      var rest := RankFrom(xs, score, k - 1);
      var r := top + rest;
      assert forall i :: 0 <= i < |top| ==> r[i] == top[i] && ScoreIs(score, k)(top[i]);
      assert forall i :: |top| <= i < |r| ==> r[i] == rest[i - |top|];
    }
  }

  /** The ranked list is sorted by score, best first. */
  lemma RankedSorted(topic: string, items: seq<Json>)
    ensures SortedBy(Ranked(topic, items), ScoreOf(topic))
  {
    RankFromSorted(DictsOf(items), ScoreOf(topic), 6);
  }

  lemma {:induction false} RankFromCounts<T>(xs: seq<T>, score: T -> int, k: int, x: T)
    ensures multiset(RankFrom(xs, score, k))[x] == if 0 <= score(x) <= k then multiset(xs)[x] else 0
    decreases k + 1
  {
    if k >= 0 {
      RankFromCounts(xs, score, k - 1, x);
      FilterMultiset(xs, ScoreIs(score, k), x);
    }
  }

  /** Ranking only reorders: the ranked list is a permutation of the dict items. */
  lemma RankedPermutation(topic: string, items: seq<Json>)
    ensures multiset(Ranked(topic, items)) == multiset(DictsOf(items))
  {
    forall x ensures multiset(Ranked(topic, items))[x] == multiset(DictsOf(items))[x] {
      RankFromCounts(DictsOf(items), ScoreOf(topic), 6, x);
    }
  }

  lemma {:induction false} RankFromStable<T>(xs: seq<T>, score: T -> int, j: int, k: int)
    requires 0 <= k
    ensures Filter(RankFrom(xs, score, j), ScoreIs(score, k)) == if k <= j then Filter(xs, ScoreIs(score, k)) else []
    decreases j + 1
  {
    if j >= 0 {
      RankFromStable(xs, score, j - 1, k);
      var top := Filter(xs, ScoreIs(score, j));
      FilterConcat(top, RankFrom(xs, score, j - 1), ScoreIs(score, k));
      if j == k {
        FilterFilter(xs, ScoreIs(score, j), ScoreIs(score, k));
      } else {
        FilterNone(top, ScoreIs(score, k));
      }
    }
  }

  /** The sort is stable: the items of any one score keep their input order. */
  lemma RankedStable(topic: string, items: seq<Json>, k: int)
    requires 0 <= k <= 6
    ensures Filter(Ranked(topic, items), ScoreIs(ScoreOf(topic), k)) == Filter(DictsOf(items), ScoreIs(ScoreOf(topic), k))
  {
    RankFromStable(DictsOf(items), ScoreOf(topic), 6, k);
  }

  // ---------------------------------------------------------------- picking

  predicate IsStrValue(o: Option<Json>) {
    o.Some? && o.value.JStr?
  }

  function StrOf(o: Option<Json>): string {
    if o.Some? && o.value.JStr? then o.value.s else ""
  }

  /** `entity1`, `entity2` and `relation` are all strings. */
  predicate IsStrTriple(d: Dict) {
    IsStrValue(Get(d, "entity1")) && IsStrValue(Get(d, "entity2")) && IsStrValue(Get(d, "relation"))
  }

  function ToTriple(d: Dict): Triple {
    Triple(StrOf(Get(d, "entity1")), StrOf(Get(d, "relation")), StrOf(Get(d, "entity2")))
  }

  /** The picking loop's result: the first `limit` string triples of the ranked list. */
  function Picked(ranked: seq<Dict>, limit: int): seq<Triple> {
    if limit <= 0 then [] else Take(FilterMap(ranked, IsStrTriple, ToTriple), limit)
  }

  /** The picking loop of `build_context`, which stops once `limit` triples are picked. */
  method PickRelations(ranked: seq<Dict>, limit: int) returns (picked: seq<Triple>)
    ensures picked == Picked(ranked, limit)
  {
    picked := [];
    var i := 0;
    while i < |ranked|
      invariant 0 <= i <= |ranked|
      invariant picked == FilterMap(ranked[..i], IsStrTriple, ToTriple)
      invariant |picked| <= (if limit <= 0 then 0 else limit)
    {
      if |picked| >= limit {
        break;
      }
      assert ranked[..i + 1][..i] == ranked[..i];
      var r := ranked[i];
      if IsStrValue(Get(r, "entity1")) && IsStrValue(Get(r, "entity2")) && IsStrValue(Get(r, "relation")) {
        picked := picked + [ToTriple(r)];
      }
      i := i + 1;
    }
    FilterMapPrefix(ranked, i, IsStrTriple, ToTriple);
    assert i == |ranked| ==> ranked[..i] == ranked;
  }

  function TripleScoreOf(topic: string): Triple -> int {
    (t: Triple) => TripleScore(topic, t)
  }

  lemma StrTripleScore(topic: string, d: Dict)
    requires IsStrTriple(d)
    ensures TripleScore(topic, ToTriple(d)) == ScoreRelation(topic, d)
  {
  }

  /** Mapping a sorted list by a map that keeps scores gives a sorted list. */
  lemma {:induction false} FilterMapSorted<A, B>(xs: seq<A>, score: A -> int, keep: A -> bool, f: A -> B, fscore: B -> int)
    requires SortedBy(xs, score)
    requires forall x :: keep(x) ==> fscore(f(x)) == score(x)
    ensures SortedBy(FilterMap(xs, keep, f), fscore)
    decreases |xs|
  {
    if xs != [] {
      var n := |xs| - 1;
      var init := xs[..n];
      assert SortedBy(init, score);
      FilterMapSorted(init, score, keep, f, fscore);
      var p := FilterMap(init, keep, f);
      if keep(xs[n]) {
        FilterMapHas(init, keep, f);
        var r := p + [f(xs[n])];
        forall i | 0 <= i < |p| ensures fscore(p[i]) >= fscore(f(xs[n])) {
          assert p[i] == FilterMap(init, keep, f)[i];
          var j :| 0 <= j < |init| && keep(init[j]) && p[i] == f(init[j]);
          assert init[j] == xs[j];
        }
        assert forall i :: 0 <= i < |p| ==> r[i] == p[i];
      }
    }
  }

  /**
   * The picked relations: at most `limit`, the leading string triples of the ranked items,
   * and in non-increasing score order.
   */
  lemma PickedProperties(topic: string, items: seq<Json>, limit: int)
    ensures |Picked(Ranked(topic, items), limit)| <= (if limit <= 0 then 0 else limit)
    ensures Picked(Ranked(topic, items), limit) <= FilterMap(Ranked(topic, items), IsStrTriple, ToTriple)
    ensures SortedBy(Picked(Ranked(topic, items), limit), TripleScoreOf(topic))
  {
    var ranked := Ranked(topic, items);
    RankedSorted(topic, items);
    forall d | IsStrTriple(d) ensures TripleScoreOf(topic)(ToTriple(d)) == ScoreOf(topic)(d) {
      StrTripleScore(topic, d);
    }
    FilterMapSorted(ranked, ScoreOf(topic), IsStrTriple, ToTriple, TripleScoreOf(topic));
  }

  // ---------------------------------------------------------------- attribute merge

  /** The value stored under `k` in an attribute map built by insertion. */
  function Lookup(out: seq<(string, string)>, k: string): Option<string> {
    if out == [] then None else if out[0].0 == k then Some(out[0].1) else Lookup(out[1..], k)
  }

  predicate UniqueKeys(out: seq<(string, string)>) {
    forall i, j :: 0 <= i < j < |out| ==> out[i].0 != out[j].0
  }

  /**
   * The attribute dict of the topic's own side of `item`: `entity1_attributes` when
   * `entity1` is the topic, else `entity2_attributes` when `entity2` is, else `{}`.
   * `None` when `.get` would be called on something that is not a dict.
   */
  function TopicAttributes(topic: string, item: Json): Option<Dict> {
    if !item.JDict? then None
    else if Get(item.entries, "entity1") == Some(JStr(topic)) then AttributeDict(item.entries, "entity1_attributes")
    else if Get(item.entries, "entity2") == Some(JStr(topic)) then AttributeDict(item.entries, "entity2_attributes")
    else Some([])
  }

  /** `it.get(key, {})`, which must be a dict for the `attrs.get(f)` calls that follow. */
  function AttributeDict(entries: Dict, key: string): Option<Dict> {
    match Get(entries, key)
    case None => Some([])
    case Some(v) => if v.JDict? then Some(v.entries) else None
  }

  /** The value field `f` contributes: a string whose stripped form is not empty. */
  function Candidate(attrs: Dict, f: string): Option<string> {
    var v := Get(attrs, f);
    if v.Some? && v.value.JStr? && Strip(v.value.s) != "" then Some(Strip(v.value.s)) else None
  }

  /** The inner loop over `fields` for one item's attribute dict. */
  function MergeFields(out: seq<(string, string)>, attrs: Dict, fields: seq<string>, n: nat): seq<(string, string)>
    decreases |fields|
  {
    if fields == [] then out
    else
      var f := fields[0];
      var c := Candidate(attrs, f);
      var out' := if c.Some? && Lookup(out, f).None? then out + [(f, Take(c.value, n))] else out;
      MergeFields(out', attrs, fields[1..], n)
  }

  /**
   * `_merge_topic_attributes` over the field list `fields` (the six attribute fields);
   * `None` when it raises.
   */
  function Merged(topic: string, rels: seq<Json>, fields: seq<string>, n: nat): Option<seq<(string, string)>>
    decreases |rels|
  {
    if rels == [] then Some([])
    else
      var prior := Merged(topic, rels[..|rels| - 1], fields, n);
      var attrs := TopicAttributes(topic, rels[|rels| - 1]);
      if prior.None? || attrs.None? then None
      else Some(MergeFields(prior.value, attrs.value, fields, n))
  }

  /** The reference meaning of "first writer wins": the first item's candidate for field `f`. */
  function FirstCandidate(topic: string, rels: seq<Json>, f: string): Option<string>
    decreases |rels|
  {
    if rels == [] then None
    else
      var prior := FirstCandidate(topic, rels[..|rels| - 1], f);
      var attrs := TopicAttributes(topic, rels[|rels| - 1]);
      if prior.Some? then prior
      else if attrs.Some? then Candidate(attrs.value, f)
      else None
  }

  lemma {:induction false} LookupAppend(out: seq<(string, string)>, f: string, v: string, g: string)
    ensures Lookup(out + [(f, v)], g) == if Lookup(out, g).Some? then Lookup(out, g) else if g == f then Some(v) else None
    decreases |out|
  {
    if out != [] {
      assert (out + [(f, v)])[1..] == out[1..] + [(f, v)];
      LookupAppend(out[1..], f, v, g);
    }
  }

  lemma {:induction false} LookupSome(out: seq<(string, string)>, g: string)
    ensures Lookup(out, g).Some? <==> exists i :: 0 <= i < |out| && out[i].0 == g
    decreases |out|
  {
    if out != [] {
      LookupSome(out[1..], g);
      if Lookup(out, g).Some? && out[0].0 != g {
        var i :| 0 <= i < |out[1..]| && out[1..][i].0 == g;
        assert out[i + 1].0 == g;
      }
      if out[0].0 != g && (exists i :: 0 <= i < |out| && out[i].0 == g) {
        var i :| 0 <= i < |out| && out[i].0 == g;
        assert out[1..][i - 1].0 == g;
      }
    }
  }

  /** The inner loop adds each field with a candidate that is not yet present, and nothing else. */
  lemma {:induction false} MergeFieldsLookup(out: seq<(string, string)>, attrs: Dict, fields: seq<string>, n: nat, g: string)
    ensures Lookup(MergeFields(out, attrs, fields, n), g) ==
      if Lookup(out, g).Some? then Lookup(out, g)
      else if g in fields && Candidate(attrs, g).Some? then Some(Take(Candidate(attrs, g).value, n))
      else None
    decreases |fields|
  {
    if fields != [] {
      var f := fields[0];
      var c := Candidate(attrs, f);
      var out' := if c.Some? && Lookup(out, f).None? then out + [(f, Take(c.value, n))] else out;
      MergeFieldsLookup(out', attrs, fields[1..], n, g);
      if c.Some? && Lookup(out, f).None? {
        LookupAppend(out, f, Take(c.value, n), g);
      }
      assert g in fields <==> g == f || g in fields[1..];
    }
  }

  lemma {:induction false} MergeFieldsUnique(out: seq<(string, string)>, attrs: Dict, fields: seq<string>, n: nat)
    requires UniqueKeys(out)
    ensures UniqueKeys(MergeFields(out, attrs, fields, n))
    decreases |fields|
  {
    if fields != [] {
      var f := fields[0];
      var c := Candidate(attrs, f);
      if c.Some? && Lookup(out, f).None? {
        LookupSome(out, f);
        var out' := out + [(f, Take(c.value, n))];
        assert forall i :: 0 <= i < |out| ==> out'[i] == out[i];
        MergeFieldsUnique(out', attrs, fields[1..], n);
      } else {
        MergeFieldsUnique(out, attrs, fields[1..], n);
      }
    }
  }

  /**
   * The merged map is keyed by distinct fields; field `g` is present exactly when it is one
   * of `fields` and some item offers a non-blank string for it, and then holds the first such
   * value, stripped and cut to `n`.
   */
  lemma {:induction false} MergedIsFirstWriter(topic: string, rels: seq<Json>, fields: seq<string>, n: nat, g: string)
    requires Merged(topic, rels, fields, n).Some?
    ensures UniqueKeys(Merged(topic, rels, fields, n).value)
    ensures Lookup(Merged(topic, rels, fields, n).value, g) ==
      if g in fields && FirstCandidate(topic, rels, g).Some?
      then Some(Take(FirstCandidate(topic, rels, g).value, n)) else None
    decreases |rels|
  {
    if rels != [] {
      var init := rels[..|rels| - 1];
      MergedIsFirstWriter(topic, init, fields, n, g);
      var prior := Merged(topic, init, fields, n).value;
      var attrs := TopicAttributes(topic, rels[|rels| - 1]).value;
      MergeFieldsLookup(prior, attrs, fields, n, g);
      MergeFieldsUnique(prior, attrs, fields, n);
    }
  }

  lemma {:induction false} MergeFieldsValues(out: seq<(string, string)>, attrs: Dict, fields: seq<string>, all: seq<string>, n: nat)
    requires forall i :: 0 <= i < |out| ==> |out[i].1| <= n && out[i].0 in all
    requires forall i :: 0 <= i < |fields| ==> fields[i] in all
    ensures var r := MergeFields(out, attrs, fields, n);
      forall i :: 0 <= i < |r| ==> |r[i].1| <= n && r[i].0 in all
    decreases |fields|
  {
    if fields != [] {
      var f := fields[0];
      var c := Candidate(attrs, f);
      var out' := if c.Some? && Lookup(out, f).None? then out + [(f, Take(c.value, n))] else out;
      assert forall i :: 0 <= i < |fields[1..]| ==> fields[1..][i] == fields[i + 1];
      MergeFieldsValues(out', attrs, fields[1..], all, n);
      assert MergeFields(out, attrs, fields, n) == MergeFields(out', attrs, fields[1..], n);
    }
  }

  /** Merged keys are among `fields` and merged values are at most `n` long. */
  lemma {:induction false} MergedBounds(topic: string, rels: seq<Json>, fields: seq<string>, n: nat)
    requires Merged(topic, rels, fields, n).Some?
    ensures var out := Merged(topic, rels, fields, n).value;
      forall i :: 0 <= i < |out| ==> |out[i].1| <= n && out[i].0 in fields
    decreases |rels|
  {
    if rels != [] {
      var init := rels[..|rels| - 1];
      MergedBounds(topic, init, fields, n);
      var attrs := TopicAttributes(topic, rels[|rels| - 1]).value;
      assert forall i :: 0 <= i < |fields| ==> fields[i] in fields;
      MergeFieldsValues(Merged(topic, init, fields, n).value, attrs, fields, fields, n);
      assert Merged(topic, rels, fields, n).value == MergeFields(Merged(topic, init, fields, n).value, attrs, fields, n);
    }
  }

  lemma {:induction false} MergedNoneStays(topic: string, rels: seq<Json>, fields: seq<string>, i: nat, n: nat)
    requires i <= |rels| && Merged(topic, rels[..i], fields, n).None?
    ensures Merged(topic, rels, fields, n).None?
    decreases |rels| - i
  {
    if i < |rels| {
      assert rels[..i + 1][..i] == rels[..i];
      MergedNoneStays(topic, rels, fields, i + 1, n);
    } else {
      assert rels[..i] == rels;
    }
  }

  /** The nested loops of `_merge_topic_attributes`. */
  method MergeTopicAttributes(topic: string, rels: seq<Json>, fields: seq<string>, n: nat)
    returns (out: Option<seq<(string, string)>>)
    ensures out == Merged(topic, rels, fields, n)
  {
    var acc: seq<(string, string)> := [];
    var i := 0;
    while i < |rels|
      invariant 0 <= i <= |rels|
      invariant Merged(topic, rels[..i], fields, n) == Some(acc)
    {
      assert rels[..i + 1][..i] == rels[..i];
      var attrs := TopicAttributes(topic, rels[i]);
      if attrs.None? {
        MergedNoneStays(topic, rels, fields, i + 1, n);
        return None;
      }
      ghost var start := acc;
      var j := 0;
      while j < |fields|
        invariant 0 <= j <= |fields|
        invariant MergeFields(acc, attrs.value, fields[j..], n) == MergeFields(start, attrs.value, fields, n)
      {
        assert fields[j..][1..] == fields[j + 1..];
        var f := fields[j];
        var c := Candidate(attrs.value, f);
        if c.Some? && Lookup(acc, f).None? {
          acc := acc + [(f, Take(c.value, n))];
        }
        j := j + 1;
      }
      i := i + 1;
    }
    assert rels[..|rels|] == rels;
    return Some(acc);
  }

  // ---------------------------------------------------------------- context

  /** `build_context` on the relation list `rels`; `None` when the merge raises. */
  function ContextOf(topic: string, rels: seq<Json>, relationLimit: int, truncLen: nat): Option<Context> {
    var attrs := Merged(topic, rels, KG.AttributeFields, truncLen);
    if attrs.None? then None
    else Some(Context(topic, attrs.value, Picked(Ranked(topic, rels), relationLimit)))
  }

  /**
   * `build_context`: the given relations, or, when there are none, the topic's relations
   * from the graph (`find_entity_relations(topic, limit=50)`).
   */
  method BuildContext(kg: KG.KnowledgeGraphQueryClient, topic: string, kgResult: seq<Json>,
                      relationLimit: int, truncLen: nat, store: KG.Query -> Option<seq<KG.Record>>, now: int)
    returns (ctx: Option<Context>)
    modifies kg
    ensures kgResult != [] ==> ctx == ContextOf(topic, kgResult, relationLimit, truncLen) && kg.cache == old(kg.cache)
    ensures kgResult == [] ==>
      ctx == ContextOf(topic, KG.FactsJson(KG.EntityRelationsResult(old(kg.cache), topic, TopicRelationsLimit, store, now)),
                       relationLimit, truncLen) &&
      kg.cache == KG.EntityRelationsCache(old(kg.cache), topic, TopicRelationsLimit, store, now)
  {
    var rels := kgResult;
    if kgResult == [] {
      var facts, _ := kg.FindEntityRelations(topic, TopicRelationsLimit, store, now);
      rels := KG.FactsJson(facts);
    }
    var ranked := Ranked(topic, rels);
    var picked := PickRelations(ranked, relationLimit);
    var attrs := MergeTopicAttributes(topic, rels, KG.AttributeFields, truncLen);
    if attrs.None? {
      return None;
    }
    return Some(Context(topic, attrs.value, picked));
  }

  // ---------------------------------------------------------------- evidence trailer

  function AttributeLine(a: (string, string)): string {
    "属性-" + a.0 + "：" + Take(a.1, EvidenceValueLimit)
  }

  function RelationLine(i: nat, t: Triple): string {
    "关系" + NatToString(i) + "：" + t.entity1 + " " + t.relation + " " + t.entity2
  }

  /** The header, one line per attribute in map order, then the relations numbered from 1. */
  function Evidence(ctx: Context): seq<string> {
    [EvidenceHeader]
    + seq(|ctx.attributes|, i requires 0 <= i < |ctx.attributes| => AttributeLine(ctx.attributes[i]))
    + seq(|ctx.relations|, i requires 0 <= i < |ctx.relations| => RelationLine(i + 1, ctx.relations[i]))
  }

  /** The two loops of `generate_with_kg` that build the evidence lines. */
  method EvidenceLines(ctx: Context) returns (evid: seq<string>)
    ensures evid == Evidence(ctx)
    ensures |evid| == 1 + |ctx.attributes| + |ctx.relations| && evid[0] == EvidenceHeader
    ensures forall i :: 0 <= i < |ctx.attributes| ==> evid[1 + i] == AttributeLine(ctx.attributes[i])
    ensures forall i :: 0 <= i < |ctx.relations| ==>
      evid[1 + |ctx.attributes| + i] == RelationLine(i + 1, ctx.relations[i])
  {
    evid := [EvidenceHeader];
    var k := 0;
    while k < |ctx.attributes|
      invariant 0 <= k <= |ctx.attributes|
      invariant |evid| == 1 + k && evid[0] == EvidenceHeader
      invariant forall i :: 0 <= i < k ==> evid[1 + i] == AttributeLine(ctx.attributes[i])
    {
      evid := evid + [AttributeLine(ctx.attributes[k])];
      k := k + 1;
    }
    var m := |ctx.attributes|;
    var i := 0;
    while i < |ctx.relations|
      invariant 0 <= i <= |ctx.relations|
      invariant |evid| == 1 + m + i && evid[0] == EvidenceHeader
      invariant forall j :: 0 <= j < m ==> evid[1 + j] == AttributeLine(ctx.attributes[j])
      invariant forall j :: 0 <= j < i ==> evid[1 + m + j] == RelationLine(j + 1, ctx.relations[j])
    {
      evid := evid + [RelationLine(i + 1, ctx.relations[i])];
      i := i + 1;
    }
  }

  /** The reply text: `_safe_llm` yields "" on a timeout or error. */
  function ReplyText(reply: Option<string>): string {
    if reply.Some? then reply.value else ""
  }

  /** `generate_with_kg`: the stripped reply, a blank line, and the evidence lines. */
  method GenerateWithKg(kg: KG.KnowledgeGraphQueryClient, topic: string, llm: Context -> Option<string>,
                        relationLimit: int, truncLen: nat, store: KG.Query -> Option<seq<KG.Record>>, now: int)
    returns (text: Option<string>)
    modifies kg
    ensures var ctx := ContextOf(topic, KG.FactsJson(KG.EntityRelationsResult(old(kg.cache), topic, TopicRelationsLimit, store, now)),
                                 relationLimit, truncLen);
      text == if ctx.None? then None
              else Some(Strip(ReplyText(llm(ctx.value))) + "\n\n" + Join(Evidence(ctx.value), "\n"))
    ensures kg.cache == KG.EntityRelationsCache(old(kg.cache), topic, TopicRelationsLimit, store, now)
  {
    var ctx := BuildContext(kg, topic, [], relationLimit, truncLen, store, now);
    if ctx.None? {
      return None;
    }
    var body := Strip(ReplyText(llm(ctx.value)));
    var evid := EvidenceLines(ctx.value);
    return Some(body + "\n\n" + Join(evid, "\n"));
  }

  // ---------------------------------------------------------------- topic inference

  /** The string `entity1` and `entity2` names of the dict items, in order. */
  function NamesOf(items: seq<Json>): seq<string>
    decreases |items|
  {
    if items == [] then []
    else
      var prior := NamesOf(items[..|items| - 1]);
      var it := items[|items| - 1];
      if !it.JDict? then prior
      else
        var e1 := Get(it.entries, "entity1");
        var e2 := Get(it.entries, "entity2");
        prior + (if IsStrValue(e1) then [e1.value.s] else []) + (if IsStrValue(e2) then [e2.value.s] else [])
  }

  /** The name-collecting loop of `answer_with_kg`. */
  method CollectNames(items: seq<Json>) returns (names: seq<string>)
    ensures names == NamesOf(items)
  {
    names := [];
    var i := 0;
    while i < |items|
      invariant 0 <= i <= |items|
      invariant names == NamesOf(items[..i])
    {
      assert items[..i + 1][..i] == items[..i];
      var it := items[i];
      if it.JDict? {
        var e1 := Get(it.entries, "entity1");
        var e2 := Get(it.entries, "entity2");
        if IsStrValue(e1) {
          names := names + [e1.value.s];
        }
        if IsStrValue(e2) {
          names := names + [e2.value.s];
        }
      }
      i := i + 1;
    }
    assert items[..|items|] == items;
  }

  function Count(names: seq<string>, x: string): nat {
    multiset(names)[x]
  }

  /**
   * `Counter(names).most_common(1)[0][0]`: the first name, in order of first occurrence, with
   * the highest count. Scanning `names` itself meets the names in that same order.
   */
  function MostCommon(names: seq<string>): string
    requires |names| > 0
    decreases |names|
  {
    FirstMax(names, names)
  }

  function FirstMax(cands: seq<string>, names: seq<string>): string
    requires |cands| > 0
    decreases |cands|
  {
    if |cands| == 1 then cands[0]
    else
      var best := FirstMax(cands[..|cands| - 1], names);
      var last := cands[|cands| - 1];
      if Count(names, last) > Count(names, best) then last else best
  }

  /** Every candidate before position `i` occurs strictly less often than `cands[i]`. */
  predicate FirstReaching(cands: seq<string>, names: seq<string>, i: int)
    requires 0 <= i < |cands|
  {
    forall j :: 0 <= j < i ==> Count(names, cands[j]) < Count(names, cands[i])
  }

  lemma {:induction false} FirstMaxSpec(cands: seq<string>, names: seq<string>)
    requires |cands| > 0
    ensures FirstMax(cands, names) in cands
    ensures forall j :: 0 <= j < |cands| ==> Count(names, cands[j]) <= Count(names, FirstMax(cands, names))
    ensures exists i :: 0 <= i < |cands| && cands[i] == FirstMax(cands, names) && FirstReaching(cands, names, i)
    decreases |cands|
  {
    if |cands| > 1 {
      var n := |cands| - 1;
      var init := cands[..n];
      FirstMaxSpec(init, names);
      var best := FirstMax(init, names);
      assert forall j :: 0 <= j < n ==> cands[j] == init[j];
      if Count(names, cands[n]) > Count(names, best) {
        assert FirstReaching(cands, names, n);
      } else {
        var i :| 0 <= i < n && init[i] == best && FirstReaching(init, names, i);
        assert cands[i] == best && FirstReaching(cands, names, i);
      }
    } else {
      assert cands[0] == FirstMax(cands, names) && FirstReaching(cands, names, 0);
    }
  }

  /**
   * The inferred topic occurs among the names, no name occurs more often, and every name
   * mentioned before its first occurrence occurs strictly less often.
   */
  lemma MostCommonSpec(names: seq<string>)
    requires |names| > 0
    ensures MostCommon(names) in names
    ensures forall j :: 0 <= j < |names| ==> Count(names, names[j]) <= Count(names, MostCommon(names))
    ensures exists i :: 0 <= i < |names| && names[i] == MostCommon(names) && FirstReaching(names, names, i)
  {
    FirstMaxSpec(names, names);
  }

  /** The topic `answer_with_kg` uses for a query result when the caller gives none. */
  function InferredTopic(topic: string, kgResult: seq<Json>): string {
    if topic != "" then topic
    else
      var names := NamesOf(kgResult);
      if names == [] then topic else MostCommon(names)
  }

  /**
   * `answer_with_kg`: the context is built from `kgResult` (with the inferred topic, or the
   * fallback topic), else from the graph for `topic`, else it is empty; the answer is the
   * stripped reply.
   */
  method AnswerWithKg(kg: KG.KnowledgeGraphQueryClient, userQuery: string, topic: string, kgResult: seq<Json>,
                      llm: (string, Context) -> Option<string>, relationLimit: int, truncLen: nat,
                      store: KG.Query -> Option<seq<KG.Record>>, now: int)
    returns (answer: Option<string>, ctx: Option<Context>)
    modifies kg
    ensures kgResult != [] ==>
      var t := InferredTopic(topic, kgResult);
      ctx == ContextOf(if t == "" then FallbackTopic else t, kgResult, relationLimit, truncLen) &&
      kg.cache == old(kg.cache)
    ensures kgResult == [] && topic != "" ==>
      ctx == ContextOf(topic, KG.FactsJson(KG.EntityRelationsResult(old(kg.cache), topic, TopicRelationsLimit, store, now)),
                       relationLimit, truncLen) &&
      kg.cache == KG.EntityRelationsCache(old(kg.cache), topic, TopicRelationsLimit, store, now)
    ensures kgResult == [] && topic == "" ==> ctx == Some(Context("", [], [])) && kg.cache == old(kg.cache)
    ensures answer == if ctx.None? then None else Some(Strip(ReplyText(llm(userQuery, ctx.value))))
  {
    if kgResult != [] {
      var t := topic;
      if t == "" {
        var names := CollectNames(kgResult);
        if names != [] {
          t := MostCommon(names);
        }
      }
      ctx := BuildContext(kg, if t == "" then FallbackTopic else t, kgResult, relationLimit, truncLen, store, now);
    } else if topic != "" {
      ctx := BuildContext(kg, topic, [], relationLimit, truncLen, store, now);
    } else {
      ctx := Some(Context("", [], []));
    }
    if ctx.None? {
      return None, ctx;
    }
    answer := Some(Strip(ReplyText(llm(userQuery, ctx.value))));
  }
}
