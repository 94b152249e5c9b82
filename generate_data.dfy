/**
 * The deterministic core of generate_data/generate_data.py, which builds a relation
 * extraction corpus for the course: the reasonable (head, tail) pairs per relation type, the
 * course vocabulary, the per-relation prompt quota, the acceptance test for a generated
 * sentence, the clean-up of the generated sentences, and the train/valid/test split with its
 * offset annotations.
 */
module GenerateData {
  import opened Wrappers
  import opened Text
  import opened Seqs
  import opened Dedup
  import CourseTables

  // ---------------------------------------------------------------- relation pairs

  type Pair = (string, string)

  /** The keys of `relation_pairs`, in the order the dictionary is written. */
  const RelationKeys: seq<string> := ["rely", "b-rely", "belg", "b-belg", "syno", "anto", "attr", "b-attr"]

  const KeySet: set<string> := {"rely", "b-rely", "belg", "b-belg", "syno", "anto", "attr", "b-attr"}

  /** The eight relation types are distinct, and they are the keys. */
  lemma RelationKeysDistinct()
    ensures Distinct(RelationKeys)
    ensures |KeySet| == 8
    ensures forall k :: k in KeySet <==> k in RelationKeys
  {
  }

  /** `relation_pairs` before any pair is added: every type with an empty list. */
  function EmptyPairs(): (m: map<string, seq<Pair>>)
    ensures m.Keys == KeySet
    ensures forall k :: k in m ==> m[k] == []
  {
    map k | k in KeySet :: []
  }

  /** Every relation type of the table is a key of `relation_pairs` (otherwise a `KeyError`). */
  ghost predicate KnownTypes(core: seq<(string, seq<Pair>)>) {
    forall i :: 0 <= i < |core| ==> core[i].0 in KeySet
  }

  /** `entity1 in entities and entity2 in entities`. */
  predicate BothKnown(entities: seq<string>, p: Pair) {
    p.0 in entities && p.1 in entities
  }

  function KnownPair(entities: seq<string>): Pair -> bool {
    p => BothKnown(entities, p)
  }

  /** The candidate pairs whose two members are both in the vocabulary, in table order. */
  function Admitted(candidates: seq<Pair>, entities: seq<string>): seq<Pair> {
    Filter(candidates, KnownPair(entities))
  }

  /** `relation_pairs` after step 2 of `build_relation_pairs` has seen the table `core`. */
  function Collected(core: seq<(string, seq<Pair>)>, entities: seq<string>): (m: map<string, seq<Pair>>)
    requires KnownTypes(core)
    ensures m.Keys == KeySet
    decreases |core|
  {
    if core == [] then EmptyPairs()
    else
      var n := |core| - 1;
      assert forall i :: 0 <= i < n ==> core[..n][i] == core[i];
      var m := Collected(core[..n], entities);
      m[core[n].0 := m[core[n].0] + Admitted(core[n].1, entities)]
  }

  /**
   * `build_relation_pairs(entities)` over the table `core`: step 2 and then step 3. Python's
   * `list(set(...))` leaves the order of each list to the hash of its strings; first appearance
   * is one order it may give, and only the order-free lemmas below (membership, no repeats)
   * hold of every run.
   */
  function RelationPairs(entities: seq<string>, core: seq<(string, seq<Pair>)>): map<string, seq<Pair>>
    requires KnownTypes(core)
  {
    var m := Collected(core, entities);
    map k | k in KeySet :: Unique(m[k])
  }

  /** A pair is collected under a type exactly when the table lists it there and both members are known. */
  lemma CollectedHas(core: seq<(string, seq<Pair>)>, entities: seq<string>, k: string, p: Pair)
    requires KnownTypes(core) && k in KeySet
    ensures p in Collected(core, entities)[k] <==>
      BothKnown(entities, p) && exists i :: 0 <= i < |core| && core[i].0 == k && p in core[i].1
  {
    if p in Collected(core, entities)[k] {
      CollectedSound(core, entities, k, p);
    }
    if BothKnown(entities, p) && exists i :: 0 <= i < |core| && core[i].0 == k && p in core[i].1 {
      var i :| 0 <= i < |core| && core[i].0 == k && p in core[i].1;
      CollectedComplete(core, entities, i, p);
    }
  }

  /** What the table lists under one type with both members known. */
  lemma AdmittedHas(candidates: seq<Pair>, entities: seq<string>, p: Pair)
    ensures p in Admitted(candidates, entities) <==> BothKnown(entities, p) && p in candidates
  {
    FilterMembers(candidates, KnownPair(entities));
  }

  lemma {:induction false} CollectedSound(core: seq<(string, seq<Pair>)>, entities: seq<string>, k: string, p: Pair)
    requires KnownTypes(core) && k in KeySet
    requires p in Collected(core, entities)[k]
    ensures BothKnown(entities, p) && exists i :: 0 <= i < |core| && core[i].0 == k && p in core[i].1
    decreases |core|
  {
    var n := |core| - 1;
    var init := core[..n];
    assert forall i :: 0 <= i < n ==> init[i] == core[i];
    AdmittedHas(core[n].1, entities, p);
    if k == core[n].0 && p in Admitted(core[n].1, entities) {
    } else {
      assert p in Collected(init, entities)[k];
      CollectedSound(init, entities, k, p);
      var i :| 0 <= i < n && init[i].0 == k && p in init[i].1;
      assert core[i] == init[i];
    }
  }

  lemma {:induction false} CollectedComplete(core: seq<(string, seq<Pair>)>, entities: seq<string>, i: nat, p: Pair)
    requires KnownTypes(core) && i < |core|
    requires BothKnown(entities, p) && p in core[i].1
    ensures p in Collected(core, entities)[core[i].0]
    decreases |core|
  {
    var n := |core| - 1;
    var init := core[..n];
    assert forall j :: 0 <= j < n ==> init[j] == core[j];
    var m := Collected(init, entities);
    assert Collected(core, entities) == m[core[n].0 := m[core[n].0] + Admitted(core[n].1, entities)];
    if i == n {
      AdmittedHas(core[n].1, entities, p);
    } else {
      assert init[i] == core[i];
      CollectedComplete(init, entities, i, p);
    }
  }

  /** The pairs listed under one type are those the table lists there with both members known. */
  lemma RelationPairsHas(entities: seq<string>, core: seq<(string, seq<Pair>)>, k: string, p: Pair)
    requires KnownTypes(core) && k in KeySet
    ensures p in RelationPairs(entities, core)[k] <==>
      BothKnown(entities, p) && exists i :: 0 <= i < |core| && core[i].0 == k && p in core[i].1
  {
    CollectedHas(core, entities, k, p);
    var m := Collected(core, entities);
    assert RelationPairs(entities, core)[k] == Unique(m[k]);
    assert p in Unique(m[k]) <==> p in m[k];
  }

  /** The result has exactly the eight relation types as keys, and under each no pair twice. */
  lemma RelationPairsSpec(entities: seq<string>, core: seq<(string, seq<Pair>)>)
    requires KnownTypes(core)
    ensures RelationPairs(entities, core).Keys == KeySet && |KeySet| == 8
    ensures forall k :: k in KeySet ==> Distinct(RelationPairs(entities, core)[k])
  {
    RelationKeysDistinct();
  }

  /** The table in the source only uses the eight relation types. */
  lemma CoreRelationsKnown()
    ensures KnownTypes(CourseTables.CoreRelations)
  {
    var core := CourseTables.CoreRelations;
    assert |core| == 8;
    assert core[0].0 == "rely" && core[1].0 == "b-rely" && core[2].0 == "belg" && core[3].0 == "b-belg";
    assert core[4].0 == "attr" && core[5].0 == "b-attr" && core[6].0 == "syno" && core[7].0 == "anto";
  }

  /** Step 2 of `build_relation_pairs` for one entry of the table. */
  method AddPairs(entities: seq<string>, pairs0: map<string, seq<Pair>>, relType: string, candidates: seq<Pair>)
    returns (pairs: map<string, seq<Pair>>)
    requires relType in pairs0
    ensures pairs == pairs0[relType := pairs0[relType] + Admitted(candidates, entities)]
  {
    pairs := pairs0;
    var j := 0;
    assert candidates[..0] == [];
    assert pairs0[relType] + Admitted([], entities) == pairs0[relType];
    while j < |candidates|
      invariant 0 <= j <= |candidates|
      invariant relType in pairs && pairs == pairs0[relType := pairs[relType]]
      invariant pairs[relType] == pairs0[relType] + Admitted(candidates[..j], entities)
    {
      var (entity1, entity2) := candidates[j];
      FilterStep(candidates, KnownPair(entities), j);
      if entity1 in entities && entity2 in entities {
        pairs := pairs[relType := pairs[relType] + [(entity1, entity2)]];
      }
      j := j + 1;
    }
    assert candidates[..|candidates|] == candidates;
  }

  /**
   * Step 3 of `build_relation_pairs`: `relation_pairs[t] = list(set(relation_pairs[t]))` for
   * every key `t`, visited in the order `keys`.
   */
  method DedupEach(pairs0: map<string, seq<Pair>>, keys: seq<string>) returns (pairs: map<string, seq<Pair>>)
    requires Distinct(keys) && forall k :: k in pairs0 <==> k in keys
    ensures pairs == map k | k in pairs0 :: Unique(pairs0[k])
  {
    pairs := pairs0;
    var i := 0;
    while i < |keys|
      invariant 0 <= i <= |keys|
      invariant pairs.Keys == pairs0.Keys
      invariant forall j :: 0 <= j < i ==> pairs[keys[j]] == Unique(pairs0[keys[j]])
      invariant forall j :: i <= j < |keys| ==> pairs[keys[j]] == pairs0[keys[j]]
    {
      var k := keys[i];
      pairs := pairs[k := Unique(pairs[k])];
      i := i + 1;
    }
    forall k | k in pairs0
      ensures pairs[k] == Unique(pairs0[k])
    {
      var j :| 0 <= j < |keys| && keys[j] == k;
    }
  }

  /** `build_relation_pairs`, with the pair table as a parameter. */
  method BuildRelationPairs(entities: seq<string>, core: seq<(string, seq<Pair>)>)
    returns (pairs: map<string, seq<Pair>>)
    requires KnownTypes(core)
    ensures pairs == RelationPairs(entities, core)
  {
    pairs := EmptyPairs();
    var i := 0;
    while i < |core|
      invariant 0 <= i <= |core|
      invariant KnownTypes(core[..i])
      invariant pairs == Collected(core[..i], entities)
    {
      assert core[..i + 1][..i] == core[..i];
      assert forall j :: 0 <= j < i + 1 ==> core[..i + 1][j] == core[j];
      var (relType, candidates) := core[i];
      pairs := AddPairs(entities, pairs, relType, candidates);
      i := i + 1;
    }
    assert core[..|core|] == core;
    RelationKeysDistinct();
    pairs := DedupEach(pairs, RelationKeys);
  }

  // ---------------------------------------------------------------- vocabulary

  /** The entity lists of all categories, one after the other. */
  function Concat(base: seq<(string, seq<string>)>): seq<string> {
    if base == [] then [] else Concat(base[..|base| - 1]) + base[|base| - 1].1
  }

  lemma {:induction false} ConcatHas(base: seq<(string, seq<string>)>, x: string)
    ensures x in Concat(base) <==> exists i :: 0 <= i < |base| && x in base[i].1
    decreases |base|
  {
    if base != [] {
      var n := |base| - 1;
      ConcatHas(base[..n], x);
      assert forall i :: 0 <= i < n ==> base[..n][i] == base[i];
      if x in Concat(base) && x !in base[n].1 {
        var i :| 0 <= i < n && x in base[..n][i].1;
      }
    }
  }

  /** `get_all_entities` over a vocabulary table: no name twice, and exactly the names the table lists. */
  lemma AllEntitiesSpec(base: seq<(string, seq<string>)>)
    ensures Distinct(Unique(Concat(base)))
    ensures forall x :: x in Unique(Concat(base)) <==> exists i :: 0 <= i < |base| && x in base[i].1
  {
    forall x
      ensures x in Unique(Concat(base)) <==> exists i :: 0 <= i < |base| && x in base[i].1
    {
      ConcatHas(base, x);
    }
  }

  /** The loop of `get_all_entities` over a vocabulary table. */
  method CollectEntities(base: seq<(string, seq<string>)>) returns (entities: seq<string>)
    ensures entities == Unique(Concat(base))
  {
    var all: seq<string> := [];
    var i := 0;
    while i < |base|
      invariant 0 <= i <= |base|
      invariant all == Concat(base[..i])
    {
      assert base[..i + 1][..i] == base[..i];
      all := all + base[i].1;
      i := i + 1;
    }
    assert base[..|base|] == base;
    entities := Unique(all);
  }

  /**
   * `get_all_entities()`. As with the relation pairs, first appearance stands for the
   * hash order of `list(set(...))`; `AllEntitiesSpec` states what holds in any order.
   */
  method GetAllEntities() returns (entities: seq<string>)
    ensures entities == Unique(Concat(CourseTables.KnowledgeGraphBase))
  {
    entities := CollectEntities(CourseTables.KnowledgeGraphBase);
  }

  // ---------------------------------------------------------------- prompt quota

  /**
   * The number of prompts for the `i`-th of `k` relation types out of `n` records:
   * `n // k + (1 if i < n % k else 0)`. With `k > 0`, Python's `//` and `%` agree with
   * Dafny's on every `n`.
   */
  function Quota(n: int, k: int, i: int): int
    requires k > 0
  {
    n / k + (if i < n % k then 1 else 0)
  }

  /** The quotas of the first `m` relation types. */
  function QuotaTotal(n: int, k: int, m: nat): int
    requires k > 0
  {
    if m == 0 then 0 else QuotaTotal(n, k, m - 1) + Quota(n, k, m - 1)
  }

  lemma {:induction false} QuotaTotalPrefix(n: int, k: int, m: nat)
    requires k > 0 && m <= k
    ensures QuotaTotal(n, k, m) == m * (n / k) + (if m < n % k then m else n % k)
  {
    if m > 0 {
      QuotaTotalPrefix(n, k, m - 1);
      assert (m - 1) * (n / k) + n / k == m * (n / k);
    }
  }

  /** The quotas of all `k` relation types add up to `n`. */
  lemma QuotaSum(n: int, k: int)
    requires k > 0
    ensures QuotaTotal(n, k, k) == n
  {
    QuotaTotalPrefix(n, k, k);
  }

  /** Earlier types get at least as many prompts as later ones, and at most one more. */
  lemma QuotaSpread(n: int, k: int, i: int, j: int)
    requires k > 0 && 0 <= i <= j < k
    ensures Quota(n, k, j) <= Quota(n, k, i) <= Quota(n, k, j) + 1
    ensures n >= 0 ==> Quota(n, k, i) >= 0
  {
  }

  // ---------------------------------------------------------------- response check

  /** The refusal and disclaimer phrases of `invalid_patterns`, alternatives written out. */
  const RefusalPhrases: seq<string> := ["我无法", "我不能", "抱歉", "对不起", "作为AI", "作为语言模型", "请注意", "需要注意的是"]

  predicate HasRefusal(text: string) {
    exists i :: 0 <= i < |RefusalPhrases| && Contains(text, RefusalPhrases[i])
  }

  /** `any(entity in text for entity in entities)`. */
  predicate MentionsEntity(text: string, entities: seq<string>) {
    exists i :: 0 <= i < |entities| && Contains(text, entities[i])
  }

  /** `is_valid_kg_response(text, entities)`; the pattern `^\s*$` matches a text of whitespace only. */
  function IsValidKgResponse(text: string, entities: seq<string>): (r: bool)
    ensures r ==> 15 <= |text| <= 200 && MentionsEntity(text, entities)
    ensures r ==> !HasRefusal(text) && |Strip(text)| >= 15
  {
    if text == [] || |Strip(text)| < 15 then false
    else if HasRefusal(text) || AllSpace(text) then false
    else MentionsEntity(text, entities) && 15 <= |text| <= 200
  }

  /**
   * Conversely, a text of 15 to 200 characters that mentions an entity, has at least 15
   * characters once stripped and holds no refusal phrase is accepted: the blank-text pattern
   * never rejects a text the stripped-length test lets through.
   */
  lemma IsValidKgResponseComplete(text: string, entities: seq<string>)
    requires 15 <= |text| <= 200 && MentionsEntity(text, entities)
    requires !HasRefusal(text) && |Strip(text)| >= 15
    ensures IsValidKgResponse(text, entities)
  {
  }

  // ---------------------------------------------------------------- post-processing

  /** A record returned by `call_api_with_retry`. */
  datatype Generated = Generated(text: string, relation: string, entity1: string, entity2: string)

  /**
   * The characters of the class in `[，。！？；：""''（）【】《》]+$`. The two `'` there close and
   * reopen the string literal, so the class holds the ASCII `"` but not `'`.
   */
  const TrailingMarks: set<char> := {'，', '。', '！', '？', '；', '：', '"', '（', '）', '【', '】', '《', '》'}

  /** `re.sub(r'[...]+$', '', s)`: drops the trailing run of those marks. */
  function DropTrailing(s: string): (r: string)
    ensures r <= s
    ensures r != [] ==> r[|r| - 1] !in TrailingMarks
    ensures forall i :: |r| <= i < |s| ==> s[i] in TrailingMarks
  {
    if s != [] && s[|s| - 1] in TrailingMarks then DropTrailing(s[..|s| - 1]) else s
  }

  predicate EndsWithStop(s: string) {
    s != [] && s[|s| - 1] in {'。', '！', '？'}
  }

  /** The cleaned text `post_process_sentences` produces for one generated sentence. */
  function Cleaned(text: string): string {
    var c := DropTrailing(CollapseSpaces(Strip(text)));
    if EndsWithStop(c) then c else c + "。"
  }

  /**
   * A cleaned text always ends with exactly one `。` after the trailing marks were dropped:
   * the trailing run removes every `。`, `！` and `？` at the end, so the `endswith` test is never
   * true and a sentence ending in `！` or `？` ends in `。` instead.
   */
  lemma CleanedEndsWithFullStop(text: string)
    ensures Cleaned(text) == DropTrailing(CollapseSpaces(Strip(text))) + "。"
    ensures Cleaned(text) != [] && Cleaned(text)[|Cleaned(text)| - 1] == '。'
  {
  }

  /** What `post_process_sentences` keeps of one result; a falsy result is skipped. */
  function Processed(result: Option<Generated>): Option<Generated> {
    match result
    case None => None
    case Some(g) =>
      var c := Cleaned(g.text);
      if 15 <= |c| <= 200 then Some(g.(text := c)) else None
  }

  /**
   * Every kept record is a present result with its text cleaned and has 15 to 200
   * characters ending with `。`.
   */
  lemma PostProcessSound(results: seq<Option<Generated>>, i: nat)
    requires i < |Somes(results, Processed)|
    ensures var g := Somes(results, Processed)[i];
      && 15 <= |g.text| <= 200 && g.text[|g.text| - 1] == '。'
      && exists j :: 0 <= j < |results| && results[j].Some? && g == results[j].value.(text := Cleaned(results[j].value.text))
  {
    SomesHas(results, Processed);
    var g := Somes(results, Processed)[i];
    var j :| 0 <= j < |results| && Processed(results[j]) == Some(g);
    CleanedEndsWithFullStop(results[j].value.text);
  }

  /** Every present result whose cleaned text has 15 to 200 characters is kept; a falsy one is not. */
  lemma PostProcessComplete(results: seq<Option<Generated>>, j: nat)
    requires j < |results|
    ensures results[j].Some? && 15 <= |Cleaned(results[j].value.text)| <= 200 ==>
      results[j].value.(text := Cleaned(results[j].value.text)) in Somes(results, Processed)
    ensures results[j].None? ==> Processed(results[j]).None?
  {
    if results[j].Some? && 15 <= |Cleaned(results[j].value.text)| <= 200 {
      assert Processed(results[j]).Some?;
      SomesHasAt(results, Processed, j);
    }
  }

  /** One iteration of `post_process_sentences`. */
  method ProcessNext(results: seq<Option<Generated>>, i: nat, processed: seq<Generated>)
    returns (processed': seq<Generated>)
    requires i < |results| && processed == Somes(results[..i], Processed)
    ensures processed' == Somes(results[..i + 1], Processed)
  {
    SomesStep(results, Processed, i, Processed(results[i]));
    processed' := processed;
    if results[i].Some? {
      var result := results[i].value;
      var cleaned := CollapseSpaces(Strip(result.text));
      cleaned := DropTrailing(cleaned);
      if !EndsWithStop(cleaned) {
        cleaned := cleaned + "。";
      }
      if 15 <= |cleaned| <= 200 {
        processed' := processed + [result.(text := cleaned)];
      }
    }
  }

  /** `post_process_sentences(results)`. */
  method PostProcessSentences(results: seq<Option<Generated>>) returns (processed: seq<Generated>)
    ensures processed == Somes(results, Processed)
  {
    processed := [];
    var i := 0;
    assert results[..0] == [];
    while i < |results|
      invariant 0 <= i <= |results|
      invariant processed == Somes(results[..i], Processed)
    {
      processed := ProcessNext(results, i, processed);
      i := i + 1;
    }
    assert results[..|results|] == results;
  }

  // ---------------------------------------------------------------- split and annotation

  /** `int(0.8 * total)`. */
  function TrainSize(total: nat): nat {
    (8 * total) / 10
  }

  /** `int(0.1 * total)`. */
  function ValidSize(total: nat): nat {
    total / 10
  }

  /** `results[:train_size]`, `results[train_size:train_size+valid_size]`, `results[train_size+valid_size:]`. */
  function Split<T>(results: seq<T>): (r: (seq<T>, seq<T>, seq<T>)) {
    var t := TrainSize(|results|);
    var v := ValidSize(|results|);
    (results[..t], results[t..t + v], results[t + v..])
  }

  /**
   * The three parts are consecutive pieces of the input that together give it back; the
   * training part holds 80% and the validation part 10% of the records, rounded down, and
   * the test part the rest.
   */
  lemma SplitSpec<T>(results: seq<T>)
    ensures var (train, valid, test) := Split(results);
      train + valid + test == results
      && |train| + |valid| + |test| == |results|
      && 10 * |train| <= 8 * |results| < 10 * |train| + 10
      && 10 * |valid| <= |results| < 10 * |valid| + 10
      && |test| >= |results| / 10
  {
    var (train, valid, test) := Split(results);
    var t := TrainSize(|results|);
    var v := ValidSize(|results|);
    assert results[..t] + results[t..t + v] == results[..t + v];
    assert results[..t + v] + results[t + v..] == results;
  }

  /** A row of train.csv, valid.csv or test.csv; the offsets are written as `"start,end"`. */
  datatype AnnotationRow = AnnotationRow(
    sentence: string, relation: string,
    head: string, headStart: nat, headEnd: nat,
    tail: string, tailStart: nat, tailEnd: nat)

  /** The row `write_annotation_file` writes for one record, or `None` when it skips it. */
  function AnnotationRowOf(item: Generated): Option<AnnotationRow> {
    var start1 := Find(item.text, item.entity1);
    var start2 := Find(item.text, item.entity2);
    if start1 == -1 || start2 == -1 then None
    else Some(AnnotationRow(item.text, item.relation,
      item.entity1, start1, start1 + |item.entity1|,
      item.entity2, start2, start2 + |item.entity2|))
  }

  /**
   * A record is skipped exactly when an entity does not occur in its text; otherwise the
   * offsets are the first occurrences and each end is its start plus the entity's length.
   */
  lemma AnnotationRowSpec(item: Generated)
    ensures AnnotationRowOf(item).None? <==> !Contains(item.text, item.entity1) || !Contains(item.text, item.entity2)
    ensures AnnotationRowOf(item).Some? ==>
      var row := AnnotationRowOf(item).value;
      && row.sentence == item.text && row.relation == item.relation
      && row.head == item.entity1 && row.tail == item.entity2
      && row.headEnd == row.headStart + |row.head| && row.tailEnd == row.tailStart + |row.tail|
      && OccursAt(row.sentence, row.head, row.headStart) && OccursAt(row.sentence, row.tail, row.tailStart)
      && (forall i :: 0 <= i < row.headStart ==> !OccursAt(row.sentence, row.head, i))
      && (forall i :: 0 <= i < row.tailStart ==> !OccursAt(row.sentence, row.tail, i))
  {
    FindSpec(item.text, item.entity1);
    FindSpec(item.text, item.entity2);
  }

  /** `write_annotation_file(data, filename)`: the rows it writes after the header. */
  method WriteAnnotationFile(data: seq<Generated>) returns (rows: seq<AnnotationRow>)
    ensures rows == Somes(data, AnnotationRowOf)
  {
    rows := [];
    var i := 0;
    assert data[..0] == [];
    while i < |data|
      invariant 0 <= i <= |data|
      invariant rows == Somes(data[..i], AnnotationRowOf)
    {
      rows := AnnotateNext(data, i, rows);
      i := i + 1;
    }
    assert data[..|data|] == data;
  }

  /** One iteration of `write_annotation_file`. */
  method AnnotateNext(data: seq<Generated>, i: nat, rows: seq<AnnotationRow>) returns (rows': seq<AnnotationRow>)
    requires i < |data| && rows == Somes(data[..i], AnnotationRowOf)
    ensures rows' == Somes(data[..i + 1], AnnotationRowOf)
  {
    var item := data[i];
    var start1 := Find(item.text, item.entity1);
    var start2 := Find(item.text, item.entity2);
    rows' := rows;
    if start1 != -1 && start2 != -1 {
      var row := AnnotationRow(item.text, item.relation,
        item.entity1, start1, start1 + |item.entity1|,
        item.entity2, start2, start2 + |item.entity2|);
      assert AnnotationRowOf(item) == Some(row);
      rows' := rows + [row];
    } else {
      assert AnnotationRowOf(item) == None;
    }
    SomesStep(data, AnnotationRowOf, i, AnnotationRowOf(item));
  }

  /**
   * The annotation part of `save_deepke_annotations`, on records already shuffled: the rows
   * of the three files and the sizes it reports, which count records, not rows written.
   */
  method SaveDeepkeAnnotations(results: seq<Generated>)
    returns (train: seq<AnnotationRow>, valid: seq<AnnotationRow>, test: seq<AnnotationRow>, sizes: (nat, nat, nat))
    ensures train == Somes(Split(results).0, AnnotationRowOf)
    ensures valid == Somes(Split(results).1, AnnotationRowOf)
    ensures test == Somes(Split(results).2, AnnotationRowOf)
    ensures sizes == (|Split(results).0|, |Split(results).1|, |Split(results).2|)
  {
    var parts := Split(results);
    var trainPart, validPart, testPart := parts.0, parts.1, parts.2;
    train := WriteAnnotationFile(trainPart);
    valid := WriteAnnotationFile(validPart);
    test := WriteAnnotationFile(testPart);
    sizes := (|trainPart|, |validPart|, |testPart|);
  }
}
