/**
 * `IntentRecognizer`: the rule-based intent classifier, which checks groups of trigger
 * phrases in a fixed priority order, and the keyword extraction of entity and relation ids
 * from a lexicon of synonyms. The neural classifier that answers when no rule matches is a
 * function parameter.
 */
module IntentRecognition {
  import opened Text
  import opened Seqs
  import opened KeywordRules

  const EntityRelationPatterns: seq<string> := ["什么是", "介绍", "详细信息", "属性", "特点", "定义"]
  const RelationBetweenPatterns: seq<string> := ["关系", "联系", "区别", "差异", "相同", "不同", "比较"]
  const FindByRelationPatterns: seq<string> := ["有哪些", "包含", "属于", "类型", "分类", "种类"]
  const SingleEntityPatterns: seq<string> := ["查询", "搜索", "找", "显示", "展示", "获取"]

  const FindEntityRelations: string := "find_entity_relations"
  const FindRelationByTwoEntities: string := "find_relation_by_two_entities"
  const FindEntityByRelationAndEntity: string := "find_entity_by_relation_and_entity"
  const FindSingleEntity: string := "find_single_entity"
  const Unknown: string := "unknown"

  /** The groups in the order `_rule_based_intent_recognition` tries them. */
  const IntentRules: seq<Rule> := [
    Rule(EntityRelationPatterns, FindEntityRelations),
    Rule(RelationBetweenPatterns, FindRelationByTwoEntities),
    Rule(FindByRelationPatterns, FindEntityByRelationAndEntity),
    Rule(SingleEntityPatterns, FindSingleEntity)
  ]

  /** `_rule_based_intent_recognition` (on the ASCII-lowered text). */
  function RuleBasedIntent(text: string): string {
    FirstMatch(IntentRules, Unknown, Lower(text))
  }

  predicate IsRuleIntent(intent: string) {
    intent in [FindEntityRelations, FindRelationByTwoEntities, FindEntityByRelationAndEntity, FindSingleEntity, Unknown]
  }

  /**
   * The groups are tried in priority order: the result is the intent of the first group with
   * a phrase in the lowered text, and "unknown" when no group has one.
   */
  lemma RuleBasedIntentSpec(text: string)
    ensures IsRuleIntent(RuleBasedIntent(text))
    ensures RuleBasedIntent(text) == Unknown <==>
      forall k :: 0 <= k < |IntentRules| ==> !AnyIn(IntentRules[k].patterns, Lower(text))
    ensures RuleBasedIntent(text) != Unknown ==>
      exists k :: 0 <= k < |IntentRules| && AnyIn(IntentRules[k].patterns, Lower(text)) &&
        RuleBasedIntent(text) == IntentRules[k].kind &&
        forall j :: 0 <= j < k ==> !AnyIn(IntentRules[j].patterns, Lower(text))
  {
    FirstMatchSpec(IntentRules, Unknown, Lower(text));
  }

  /**
   * Lowering cannot create a Chinese trigger phrase: whenever the rules decide the by-relation
   * intent, one of its phrases is in the text as given, not only in its lowered form.
   */
  lemma RuleByRelationHasTrigger(text: string)
    requires RuleBasedIntent(text) == FindEntityByRelationAndEntity
    ensures AnyIn(FindByRelationPatterns, text)
  {
    var lowered := Lower(text);
    var r := IntentRules;
    var r1, r2, r3 := r[1..], r[2..], r[3..];
    var m1, m2, m3 := FirstMatch(r1, Unknown, lowered), FirstMatch(r2, Unknown, lowered), FirstMatch(r3, Unknown, lowered);
    assert r1[1..] == r2 && r2[1..] == r3 && r3[1..] == [];
    assert r1[0] == r[1] && r2[0] == r[2] && r3[0] == r[3];
    assert FirstMatch([], Unknown, lowered) == Unknown;
    assert m3 == if AnyIn(r3[0].patterns, lowered) then FindSingleEntity else Unknown;
    assert m2 == if AnyIn(FindByRelationPatterns, lowered) then FindEntityByRelationAndEntity else m3;
    assert m1 == if AnyIn(r1[0].patterns, lowered) then FindRelationByTwoEntities else m2;
    var i :| 0 <= i < |FindByRelationPatterns| && Contains(Lower(text), FindByRelationPatterns[i]);
    assert NoLowerAscii(FindByRelationPatterns[i]);
    LowerContains(text, FindByRelationPatterns[i]);
  }

  /** Id to synonyms, in the knowledge base's order. */
  type Lexicon = seq<(string, seq<string>)>

  /** What the recognizer is built from: its two lexicons and the neural classifier's answer. */
  datatype Recognizer = Recognizer(entities: Lexicon, relations: Lexicon, model: string -> string)

  /** `recognize_intent`: the rule result unless it is "unknown", else the classifier's. */
  function RecognizeIntent(rec: Recognizer, text: string): (intent: string)
    ensures RuleBasedIntent(text) != Unknown ==> intent == RuleBasedIntent(text)
    ensures RuleBasedIntent(text) == Unknown ==> intent == rec.model(text)
  {
    var rule := RuleBasedIntent(text);
    if rule != Unknown then rule else rec.model(text)
  }

  /** When a rule matches, the classifier is never consulted. */
  lemma RuleWinsOverModel(rec: Recognizer, text: string, model: string -> string)
    requires RuleBasedIntent(text) != Unknown
    ensures RecognizeIntent(rec, text) == RecognizeIntent(Recognizer(rec.entities, rec.relations, model), text)
  {
  }

  predicate Mentions(synonyms: seq<string>, text: string) {
    exists k | 0 <= k < |synonyms| :: Contains(text, synonyms[k])
  }

  function MentionedIn(text: string): ((string, seq<string>)) -> bool {
    (e: (string, seq<string>)) => Mentions(e.1, text)
  }

  function IdOf(e: (string, seq<string>)): string {
    e.0
  }

  /** The ids of `lexicon` that have a synonym in `text`. */
  function Mentioned(lexicon: Lexicon, text: string): seq<string> {
    FilterMap(lexicon, MentionedIn(text), IdOf)
  }

  predicate DistinctIds(lexicon: Lexicon) {
    forall i, j :: 0 <= i < j < |lexicon| ==> lexicon[i].0 != lexicon[j].0
  }

  /**
   * The extracted ids are the ids of the lexicon entries with a synonym in the text, in
   * lexicon order, each once (a dict's keys are distinct).
   */
  lemma MentionedSpec(lexicon: Lexicon, text: string)
    ensures var r := Mentioned(lexicon, text); var idx := KeptPositions(lexicon, MentionedIn(text));
      |r| == |idx| &&
      (forall i :: 0 <= i < |r| ==> idx[i] < |lexicon| && r[i] == lexicon[idx[i]].0 && Mentions(lexicon[idx[i]].1, text)) &&
      (forall i, j :: 0 <= i < j < |idx| ==> idx[i] < idx[j]) &&
      (forall j :: 0 <= j < |lexicon| && Mentions(lexicon[j].1, text) ==> j in idx)
    ensures DistinctIds(lexicon) ==>
      forall i, j :: 0 <= i < j < |Mentioned(lexicon, text)| ==> Mentioned(lexicon, text)[i] != Mentioned(lexicon, text)[j]
  {
    FilterMapAt(lexicon, MentionedIn(text), IdOf);
    var idx := KeptPositions(lexicon, MentionedIn(text));
    forall j | 0 <= j < |lexicon| && Mentions(lexicon[j].1, text) ensures j in idx {
      assert MentionedIn(text)(lexicon[j]);
    }
  }

  /** One lexicon loop of `_extract_elements`, which stops at the first synonym found. */
  method MatchLexicon(lexicon: Lexicon, text: string) returns (found: seq<string>)
    ensures found == Mentioned(lexicon, text)
  {
    found := [];
    var i := 0;
    while i < |lexicon|
      invariant 0 <= i <= |lexicon|
      invariant found == FilterMap(lexicon[..i], MentionedIn(text), IdOf)
    {
      assert lexicon[..i + 1][..i] == lexicon[..i];
      var id := lexicon[i].0;
      var synonyms := lexicon[i].1;
      ghost var prior := found;
      var j := 0;
      while j < |synonyms|
        invariant 0 <= j <= |synonyms|
        invariant found == prior
        invariant forall k :: 0 <= k < j ==> !Contains(text, synonyms[k])
      {
        if Contains(text, synonyms[j]) {
          found := found + [id];
          break;
        }
        j := j + 1;
      }
      assert found == prior + [id] <==> MentionedIn(text)(lexicon[i]);
      i := i + 1;
    }
    assert lexicon[..|lexicon|] == lexicon;
  }

  /** `_extract_elements`: the mentioned entity ids and the mentioned relation ids. */
  method ExtractElements(rec: Recognizer, text: string) returns (entities: seq<string>, relations: seq<string>)
    ensures entities == Mentioned(rec.entities, text)
    ensures relations == Mentioned(rec.relations, text)
  {
    entities := MatchLexicon(rec.entities, text);
    relations := MatchLexicon(rec.relations, text);
  }

  /** What `understand` returns. */
  datatype Understanding = Understanding(text: string, intent: string, entities: seq<string>, relations: seq<string>)

  /** `understand`: the text, its intent and the extracted elements. */
  method Understand(rec: Recognizer, text: string) returns (u: Understanding)
    ensures u.text == text
    ensures u.intent == RecognizeIntent(rec, text)
    ensures u.entities == Mentioned(rec.entities, text) && u.relations == Mentioned(rec.relations, text)
  {
    var intent := RecognizeIntent(rec, text);
    var entities, relations := ExtractElements(rec, text);
    u := Understanding(text, intent, entities, relations);
  }
}
