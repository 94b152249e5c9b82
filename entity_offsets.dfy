/**
 * `EntityOffsetExtractor`: locates the two entities of every generated sentence, orders
 * them so that the head comes first, and attaches their types from the vocabulary. A record
 * field that is absent is "" here; the vocabulary is a parameter (loading it is file I/O).
 */
module EntityOffsets {
  import opened Wrappers
  import opened Text
  import opened Seqs

  /** `get_entity_type`'s answer for an entity the vocabulary lacks. */
  const UnknownType: string := "ENTITY"

  /**
   * The start of every occurrence of `entity` in `sentence` at or after `start`, overlapping
   * ones included, in increasing order.
   */
  function OccurrencesFrom(sentence: string, entity: string, start: nat): seq<nat>
    requires entity != []
    decreases |sentence| + 1 - start
  {
    var pos := FindFrom(sentence, entity, start);
    if pos == -1 then [] else [pos] + OccurrencesFrom(sentence, entity, pos + 1)
  }

  /**
   * The offsets are increasing and at least `start`, each starts an occurrence, every
   * occurrence from `start` on is listed, and the first is `sentence.find(entity, start)`.
   */
  lemma OccurrencesFromSpec(sentence: string, entity: string, start: nat)
    requires entity != []
    ensures var r := OccurrencesFrom(sentence, entity, start);
      && (forall i :: 0 <= i < |r| ==> start <= r[i] && OccursAt(sentence, entity, r[i]))
      && (forall i, j :: 0 <= i < j < |r| ==> r[i] < r[j])
      && (forall p :: start <= p && OccursAt(sentence, entity, p) ==> p in r)
      && (r != [] ==> r[0] == FindFrom(sentence, entity, start))
      && (r == [] <==> FindFrom(sentence, entity, start) == -1)
  {
    OccurrencesFromSound(sentence, entity, start);
    OccurrencesFromComplete(sentence, entity, start);
  }

  /** Every offset in `r` is at least `start` and starts an occurrence, in increasing order. */
  predicate SoundOffsets(sentence: string, entity: string, start: nat, r: seq<nat>) {
    && (forall i :: 0 <= i < |r| ==> start <= r[i] && OccursAt(sentence, entity, r[i]))
    && (forall i, j :: 0 <= i < j < |r| ==> r[i] < r[j])
  }

  lemma {:induction false} OccurrencesFromSound(sentence: string, entity: string, start: nat)
    requires entity != []
    ensures SoundOffsets(sentence, entity, start, OccurrencesFrom(sentence, entity, start))
    decreases |sentence| + 1 - start
  {
    var pos := FindFrom(sentence, entity, start);
    if pos != -1 {
      var next: nat := pos + 1;
      OccurrencesFromSound(sentence, entity, next);
      SoundCons(sentence, entity, start, pos, OccurrencesFrom(sentence, entity, next));
      assert OccurrencesFrom(sentence, entity, start) == [pos as nat] + OccurrencesFrom(sentence, entity, next);
    }
  }

  /** An occurrence at or after `start` put before a sound list of later ones gives a sound list. */
  lemma SoundCons(sentence: string, entity: string, start: nat, pos: nat, rest: seq<nat>)
    requires start <= pos && OccursAt(sentence, entity, pos)
    requires SoundOffsets(sentence, entity, pos + 1, rest)
    ensures SoundOffsets(sentence, entity, start, [pos] + rest)
  {
    var r := [pos] + rest;
    forall i | 1 <= i < |r| ensures pos < r[i] && OccursAt(sentence, entity, r[i]) {
      assert r[i] == rest[i - 1];
    }
    forall i, j | 0 <= i < j < |r| ensures r[i] < r[j] {
      assert r[j] == rest[j - 1];
      if i > 0 {
        assert r[i] == rest[i - 1];
      }
    }
  }

  /** Every occurrence from `start` on is listed, and the list starts at `sentence.find(entity, start)`. */
  lemma {:induction false} OccurrencesFromComplete(sentence: string, entity: string, start: nat)
    requires entity != []
    ensures var r := OccurrencesFrom(sentence, entity, start);
      && (forall p :: start <= p && OccursAt(sentence, entity, p) ==> p in r)
      && (r != [] ==> r[0] == FindFrom(sentence, entity, start))
      && (r == [] <==> FindFrom(sentence, entity, start) == -1)
    decreases |sentence| + 1 - start
  {
    var pos := FindFrom(sentence, entity, start);
    FindFromFirst(sentence, entity, start);
    if pos != -1 {
      OccurrencesFromComplete(sentence, entity, pos + 1);
      var rest := OccurrencesFrom(sentence, entity, pos + 1);
      var r := [pos] + rest;
      assert OccurrencesFrom(sentence, entity, start) == r;
      forall p | start <= p && OccursAt(sentence, entity, p) ensures p in r {
        if p != pos {
          assert p in rest;
        }
      }
    }
  }

  /** What `find_entity_offset` returns: no offsets when either text is empty. */
  function Occurrences(sentence: string, entity: string): seq<nat> {
    if entity == [] || sentence == [] then [] else OccurrencesFrom(sentence, entity, 0)
  }

  /**
   * Empty texts give no offsets; otherwise the offsets are increasing, each starts an
   * occurrence, every occurrence (overlapping ones included) is listed, and the first is
   * `sentence.find(entity)`.
   */
  lemma OccurrencesSpec(sentence: string, entity: string)
    ensures entity == [] || sentence == [] ==> Occurrences(sentence, entity) == []
    ensures var r := Occurrences(sentence, entity);
      && (forall i :: 0 <= i < |r| ==> OccursAt(sentence, entity, r[i]))
      && (forall i, j :: 0 <= i < j < |r| ==> r[i] < r[j])
      && (entity != [] ==> forall p :: OccursAt(sentence, entity, p) ==> p in r)
      && (r == [] <==> entity == [] || !Contains(sentence, entity))
      && (r != [] ==> r[0] == Find(sentence, entity))
  {
    FindSpec(sentence, entity);
    if entity != [] && sentence != [] {
      OccurrencesFromSpec(sentence, entity, 0);
    }
  }

  /** `find_entity_offset`. */
  method FindEntityOffset(sentence: string, entity: string) returns (offsets: seq<nat>)
    ensures offsets == Occurrences(sentence, entity)
  {
    if entity == [] || sentence == [] {
      return [];
    }
    offsets := ScanOccurrences(sentence, entity);
  }

  /** The `while True` loop of `find_entity_offset`: search again one past the last hit. */
  method ScanOccurrences(sentence: string, entity: string) returns (offsets: seq<nat>)
    requires entity != []
    ensures offsets == OccurrencesFrom(sentence, entity, 0)
  {
    offsets := [];
    var start: nat := 0;
    while true
      invariant offsets + OccurrencesFrom(sentence, entity, start) == OccurrencesFrom(sentence, entity, 0)
      decreases |sentence| + 1 - start
    {
      var pos := FindFrom(sentence, entity, start);
      if pos == -1 {
        break;
      }
      var next: nat := pos + 1;
      ghost var rest := OccurrencesFrom(sentence, entity, next);
      assert OccurrencesFrom(sentence, entity, start) == [pos as nat] + rest;
      assert offsets + [pos as nat] + rest == offsets + ([pos as nat] + rest);
      offsets := offsets + [pos];
      start := next;
    }
    assert offsets + [] == offsets;
  }

  /** A generated sentence with the two entities and the relation it was written for. */
  datatype SentenceItem = SentenceItem(sentence: string, entity1: string, entity2: string, relation: string)

  /** The record `extract_entity_info` builds. */
  datatype EntityInfo = EntityInfo(
    sentence: string, head: string, tail: string, headOffset: nat, tailOffset: nat,
    headType: string, tailType: string, relation: string, headEndOffset: nat, tailEndOffset: nat)

  /**
   * `extract_entity_info` on the stripped texts: both entities located at their first
   * occurrence and the earlier one made the head; `None` when a text is empty or an entity
   * does not occur.
   */
  function Resolve(types: map<string, string>, sentence: string, e1: string, e2: string, relation: string): Option<EntityInfo> {
    if sentence == [] || e1 == [] || e2 == [] then None
    else
      var o1 := Occurrences(sentence, e1);
      var o2 := Occurrences(sentence, e2);
      if o1 == [] || o2 == [] then None else Some(Placed(types, sentence, e1, e2, relation, o1[0], o2[0]))
  }

  /** The record for `e1` found at `p1` and `e2` at `p2`: the earlier one is the head, `e1` on a tie. */
  function Placed(types: map<string, string>, sentence: string, e1: string, e2: string, relation: string,
                  p1: nat, p2: nat): EntityInfo {
    if p1 <= p2 then
      EntityInfo(sentence, e1, e2, p1, p2, GetOr(types, e1, UnknownType), GetOr(types, e2, UnknownType),
        relation, p1 + |e1|, p2 + |e2|)
    else
      EntityInfo(sentence, e2, e1, p2, p1, GetOr(types, e2, UnknownType), GetOr(types, e1, UnknownType),
        relation, p2 + |e2|, p1 + |e1|)
  }

  /** `extract_entity_info`: every field of the item is stripped first. */
  function EntityInfoOf(types: map<string, string>, item: SentenceItem): Option<EntityInfo> {
    Resolve(types, Strip(item.sentence), Strip(item.entity1), Strip(item.entity2), Strip(item.relation))
  }

  /**
   * `None` exactly when a text is empty or an entity does not occur; otherwise the head is
   * the entity found first (`e1` on a tie), both offsets are first occurrences, the head's
   * is not after the tail's, each end offset is its start plus the entity's length, and the
   * types come from the vocabulary.
   */
  lemma ResolveSpec(types: map<string, string>, sentence: string, e1: string, e2: string, relation: string)
    ensures Resolve(types, sentence, e1, e2, relation).None? <==>
      sentence == [] || e1 == [] || e2 == [] || !Contains(sentence, e1) || !Contains(sentence, e2)
    ensures Resolve(types, sentence, e1, e2, relation).Some? ==>
      var info := Resolve(types, sentence, e1, e2, relation).value;
      && info.sentence == sentence && info.relation == relation
      && info.headOffset <= info.tailOffset
      && info.headEndOffset == info.headOffset + |info.head|
      && info.tailEndOffset == info.tailOffset + |info.tail|
      && OccursAt(sentence, info.head, info.headOffset) && info.headOffset == Find(sentence, info.head)
      && OccursAt(sentence, info.tail, info.tailOffset) && info.tailOffset == Find(sentence, info.tail)
      && (if Find(sentence, e1) <= Find(sentence, e2) then info.head == e1 && info.tail == e2
          else info.head == e2 && info.tail == e1)
      && info.headType == GetOr(types, info.head, UnknownType) && info.tailType == GetOr(types, info.tail, UnknownType)
  {
    OccurrencesSpec(sentence, e1);
    OccurrencesSpec(sentence, e2);
    FindSpec(sentence, e1);
    FindSpec(sentence, e2);
  }

  /** `extract_entity_info`. */
  method ExtractEntityInfo(types: map<string, string>, item: SentenceItem) returns (r: Option<EntityInfo>)
    ensures r == EntityInfoOf(types, item)
  {
    var sentence := Strip(item.sentence);
    var entity1 := Strip(item.entity1);
    var entity2 := Strip(item.entity2);
    var relation := Strip(item.relation);
    r := ResolveEntities(types, sentence, entity1, entity2, relation);
  }

  /** The body of `extract_entity_info` after the fields are read. */
  method ResolveEntities(types: map<string, string>, sentence: string, e1: string, e2: string, relation: string)
    returns (r: Option<EntityInfo>)
    ensures r == Resolve(types, sentence, e1, e2, relation)
  {
    if sentence == [] || e1 == [] || e2 == [] {
      return None;
    }
    var o1 := FindEntityOffset(sentence, e1);
    var o2 := FindEntityOffset(sentence, e2);
    if o1 == [] || o2 == [] {
      return None;
    }
    r := Some(Placed(types, sentence, e1, e2, relation, o1[0], o2[0]));
  }

  function InfoWith(types: map<string, string>): SentenceItem -> Option<EntityInfo> {
    item => EntityInfoOf(types, item)
  }

  /**
   * `extract_all_entities`: the records of the sentences that could be resolved, in input
   * order, and the number that could not; together they account for every sentence.
   */
  method ExtractAllEntities(types: map<string, string>, sentences: seq<SentenceItem>)
    returns (results: seq<EntityInfo>, failed: nat)
    ensures results == Somes(sentences, InfoWith(types))
    ensures failed == CountNone(sentences, InfoWith(types))
  {
    results := [];
    failed := 0;
    var i := 0;
    assert sentences[..0] == [];
    while i < |sentences|
      invariant 0 <= i <= |sentences|
      invariant results == Somes(sentences[..i], InfoWith(types))
      invariant failed == CountNone(sentences[..i], InfoWith(types))
    {
      var info := ExtractEntityInfo(types, sentences[i]);
      results, failed := PushOutcome(sentences, InfoWith(types), i, info, results, failed);
      i := i + 1;
    }
    assert sentences[..|sentences|] == sentences;
  }
}
