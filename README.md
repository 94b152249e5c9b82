# A verified model of the course knowledge-graph QA system

The system answers questions about a data-structures course. It has four parts:

- **Intent recognition.** `IntentRecognizer` classifies a question with trigger phrases in a fixed priority order. It also extracts entity and relation ids by looking for lexicon synonyms in the text.
- **Query dispatch.** `APIHandler` refuses blank input and sends each recognised intent to its query handler. It then turns the query result into the nodes and links the front end draws, and into the context given to the language model.
- **The knowledge-store client.** `KnowledgeGraphQuery` sanitises names and validates entity lists. It keeps a TTL cache keyed by query type and arguments, and formats graph records into facts. `KGContextBuilder` and `KGLLMEnhancer` rank the facts about a topic, merge the topic's attributes and append a citation trailer to the model's answer.
- **The data pipeline.**
  - It generates relation-extraction sentences and their train/valid/test annotation files (generate_data.py).
  - It locates entity offsets in the generated sentences (entity_offset_extractor.py).
  - It lets a person accept or reject suggested relations (relation_annotation_cli.py).
  - It normalises, types, filters and de-duplicates relationships before import (product.py).
  - It renders attribute values for graph nodes (ae_port.py) and folds predicted triples into a graph (transform.py).

Each core source file is one Dafny module:

- `kg_query.dfy`: `KnowledgeGraphQuery`
- `kg_llm_enhancer.dfy`: `KgLlmEnhancer`
- `backend_api.dfy`: `BackendApi`
- `intent_recognition.dfy`: `IntentRecognition`
- `product.dfy`: `Product`
- `ae_port.dfy`: `AePort`
- `entity_offsets.dfy`: `EntityOffsets`
- `generate_data.dfy`: `GenerateData`, with its literal tables in `course_tables.dfy`
- `transform.dfy`: `Transform`
- `annotation_cli.dfy`: `AnnotationCli`

Shared pieces live in helper modules:

- `Wrappers`: `Option`.
- `Text`: strip, find, join and whitespace collapsing, as Python's string methods do them, with whitespace as `str.isspace` defines it.
- `Json`: the dynamic values the code handles, with Python truthiness and `dict.get`.
- `Seqs`: filters and the "keep what succeeded" fold.
- `Dedup`: keep-first de-duplication by a key.
- `KeywordRules`: the "first group with a phrase in the text" classifier shared by intent recognition and type inference.

Where the source updates state step by step, the model does too.

- The client's cache is a `map` field of a class. `_get_cached_result` and `_cache_result` are methods that change it.
- The annotation tool is a class whose methods move `currentIndex` and append to `annotations`.
- A graph node whose properties are written in place is a class.
- Every loop of the source that updates state is a `while` loop with invariants. The `any(...)` scans over keyword groups are pure and are recursion (`KeywordRules.FirstMatch`). Each is proved equal to a specification function, and the lemmas beside that function state what the source promises.

Effects are parameters:

- The graph store is a function from a query to `Option<records>`, where `None` means the driver raised.
- The language model takes two forms.
  - In `KgLlmEnhancer` it is a function to `Option<string>`, where `None` means the call timed out or failed.
  - In `BackendApi` it is `Option<string -> LlmReply>`. `None` means no client is configured. A call answers `Reply(content)` or `Failed(error)`, and the error text goes into the answer.
  - In `GenerateData` its results are a sequence, with `None` for a falsy result.
- The clock is an `int`.
- The user's answers and the file contents are sequences.

## Model

| member | source | states |
|---|---|---|
| KnowledgeGraphQuery.KeepNameChars | modules/knowledge_graph_query.py:166 | Only characters of the class (word characters, the CJK block, whitespace, `-`, `_`) remain, in order; a name made only of such characters is unchanged |
| KnowledgeGraphQuery.SanitizeEntityName | modules/knowledge_graph_query.py:160-172 | The result is in sanitised form (allowed characters only, at most 100 long, no surrounding whitespace); an empty name gives "" |
| KnowledgeGraphQuery.SanitizedHasNoQuotes | modules/knowledge_graph_query.py:166 | A sanitised name holds no quote, double quote, semicolon, `\|` or `:` |
| KnowledgeGraphQuery.SanitizeFixesSanitized | modules/knowledge_graph_query.py:160-172 | A name already in sanitised form is returned unchanged |
| KnowledgeGraphQuery.SanitizeIdempotent | modules/knowledge_graph_query.py:160-172 | Sanitising twice is the same as sanitising once |
| KnowledgeGraphQuery.ValidatedEntities | modules/knowledge_graph_query.py:174-185 | At most 50 names are returned |
| KnowledgeGraphQuery.ValidatedEntitiesSpec | modules/knowledge_graph_query.py:174-185 | Every returned name is non-empty and is the sanitised form of one of the first 50 inputs; every non-empty sanitised name among the first 50 is returned |
| KnowledgeGraphQuery.ValidateEntities | modules/knowledge_graph_query.py:179-185 | The validation loop returns exactly `ValidatedEntities` |
| KnowledgeGraphQuery.CacheKeyInjective | modules/knowledge_graph_query.py:87-89 | Two cache keys are equal only for the same query type and the same arguments, when no type holds `:` and no argument holds `\|` |
| KnowledgeGraphQuery.AttributesFrom | modules/knowledge_graph_query.py:115-158 | Every attribute taken is a field of the list whose `prefix_field` column is truthy, with that column's value; every such field is taken |
| KnowledgeGraphQuery.FormatEntityAttributes | modules/knowledge_graph_query.py:115-158 | At most the six fields, each present exactly when its column is truthy, with its value |
| KnowledgeGraphQuery.FormatRecordFields | modules/knowledge_graph_query.py:262-271 | A complete record's fact has its two names, its relation or the default relation, and both attribute maps |
| KnowledgeGraphQuery.FactsAreCompleteRecords | modules/knowledge_graph_query.py:261-273 | Exactly the records with both names truthy become facts, one each |
| KnowledgeGraphQuery.FormatRecords | modules/knowledge_graph_query.py:415-428 | The formatting loop returns exactly one fact per complete record, in record order |
| KnowledgeGraphQuery.StoredIsServed | modules/knowledge_graph_query.py:187-204 | Right after a successful store call, the same key is a fresh hit and is answered from the cache without the store |
| KnowledgeGraphQuery.KnowledgeGraphQueryClient.constructor | modules/knowledge_graph_query.py:73-76 | The cache starts empty |
| KnowledgeGraphQuery.KnowledgeGraphQueryClient.GetCachedResult | modules/knowledge_graph_query.py:91-100 | A result is returned iff the key is present and younger than 600 s, and it is the stored one; a stale entry is deleted; nothing else changes |
| KnowledgeGraphQuery.KnowledgeGraphQueryClient.CacheResult | modules/knowledge_graph_query.py:102-113 | The key maps to (result, now); no remaining entry is 600 s old or more; every other fresh entry stays |
| KnowledgeGraphQuery.KnowledgeGraphQueryClient.ExecuteQueryWithCache | modules/knowledge_graph_query.py:187-204 | The store is called iff there is no fresh hit (an empty key never hits); a hit leaves the cache unchanged; a failed call returns [] and caches nothing; a successful one is returned and cached |
| KnowledgeGraphQuery.KnowledgeGraphQueryClient.FindEntitiesByRelation | modules/knowledge_graph_query.py:206-277 | No valid entity, an empty relation or an empty sanitised relation gives [] without a store call or a cache change; otherwise the facts of the cached query under key `find_entities_by_relation:(names)\|relation\|threshold` |
| KnowledgeGraphQuery.KnowledgeGraphQueryClient.FindRelationByEntities | modules/knowledge_graph_query.py:279-372 | Fewer than two valid entities gives [] without a store call; otherwise the facts between the first two, under the key of the two names, threshold and direction flag |
| KnowledgeGraphQuery.KnowledgeGraphQueryClient.FindEntityRelations | modules/knowledge_graph_query.py:374-432 | An empty sanitised name gives [] without a store call; otherwise the query's limit is min(limit, 1000) and the facts are those of the cached query |
| KgLlmEnhancer.Truncate | modules/kg_llm_enhancer.py:14-15 | A string result is a prefix at most `trunc_len` long; a short string is unchanged; a falsy value gives "" |
| KgLlmEnhancer.TruncateString | modules/kg_llm_enhancer.py:14-15 | On a string, truncation takes the first `trunc_len` characters |
| KgLlmEnhancer.ScoreRelation | modules/kg_llm_enhancer.py:17-35 | The score is between 0 and 6; an exact `entity1` match scores at least 3; the score is 6 iff entity1 and entity2 both equal the topic and the relation has a keyword |
| KgLlmEnhancer.RankedSorted | modules/kg_llm_enhancer.py:59 | The ranked dicts are in non-increasing score order |
| KgLlmEnhancer.RankedPermutation | modules/kg_llm_enhancer.py:59 | Ranking is a permutation of the dict items of the input |
| KgLlmEnhancer.RankedStable | modules/kg_llm_enhancer.py:59 | Items of equal score keep their input order (the sort is stable) |
| KgLlmEnhancer.PickRelations | modules/kg_llm_enhancer.py:60-68 | The loop with `break` returns exactly the first `relation_limit` string triples of the ranking |
| KgLlmEnhancer.PickedProperties | modules/kg_llm_enhancer.py:59-68 | At most `relation_limit` triples are picked; they are a prefix of the ranking's string triples and sorted by score |
| KgLlmEnhancer.MergedIsFirstWriter | modules/kg_llm_enhancer.py:37-51 | Each field appears once, and its value is the stripped, truncated value of the first fact whose topic side has a non-blank string for it |
| KgLlmEnhancer.MergedBounds | modules/kg_llm_enhancer.py:37-51 | Merged keys are among the six fields and values are at most `trunc_len` long |
| KgLlmEnhancer.MergeTopicAttributes | modules/kg_llm_enhancer.py:37-51 | The nested loops compute exactly the merge, taking `entity1_attributes` when entity1 is the topic, else `entity2_attributes` when entity2 is; None when an item or its attributes is not a dict, where the source raises |
| KgLlmEnhancer.BuildContext | modules/kg_llm_enhancer.py:53-70 | Given facts are used and the cache is untouched; with none, the topic's relations (limit 50) are fetched through the cache |
| KgLlmEnhancer.EvidenceLines | modules/kg_llm_enhancer.py:106-111 | The header line, then one line per attribute in map order, then the relations numbered from 1 in context order |
| KgLlmEnhancer.GenerateWithKg | modules/kg_llm_enhancer.py:101-112 | The stripped reply ("" on timeout), a blank line, and the evidence lines joined by newlines; the cache is exactly what fetching the topic's relations (limit 50) leaves |
| KgLlmEnhancer.CollectNames | modules/kg_llm_enhancer.py:126-132 | The loop collects the string `entity1`/`entity2` names of the dict items, in order |
| KgLlmEnhancer.FirstMaxSpec | modules/kg_llm_enhancer.py:133-134 | The choice is a candidate of maximal count, the first to reach that count |
| KgLlmEnhancer.MostCommonSpec | modules/kg_llm_enhancer.py:133-134 | The inferred topic is a most frequent name, ties going to the first seen |
| KgLlmEnhancer.AnswerWithKg | modules/kg_llm_enhancer.py:119-148 | With a result, the context uses the given or most frequent topic (else "相关实体") and leaves the cache unchanged; with only a topic, it queries the graph; with neither, the context is empty |
| BackendApi.RouteOf | modules/backend_api.py:30-35 | Each of the three mapped intents goes to its own handler, and only it; every other intent goes to the general handler |
| BackendApi.DefinitionQuestionsAreGeneral | modules/backend_api.py:74-79 | A question the rules classify as `find_entity_relations` is answered by the general handler |
| BackendApi.LlmResponse | modules/backend_api.py:100-132 | Without a client the fixed apology is returned |
| BackendApi.NumberedLinesSpec | modules/backend_api.py:108-114 | No more lines than items; each line is that of some item at its 1-based position, and every item with a line contributes it |
| BackendApi.ContextInfoSpec | modules/backend_api.py:104-117 | No context without results; otherwise a header and at most one line for each of the first 5 results; later results are ignored |
| BackendApi.ContextLines | modules/backend_api.py:105-114 | The context loop builds exactly `context_info` |
| BackendApi.GenerateLlmResponse | modules/backend_api.py:89-132 | Returns the model's answer to the prompt built from the context |
| BackendApi.AddNodeSpec | modules/backend_api.py:303-309 | Adding a node keeps ids distinct as Python compares them (`True` and `1` are one id); afterwards exactly the old ids and the new one are present up to that equality; the old list is a prefix, so the id seen first stays; no id is invented |
| BackendApi.BoolAndIntShareANode | modules/backend_api.py:303-309 | Links `a`–`True` then `b`–`1` draw the three ids `a`, `True`, `b`: `1 in {True}` holds |
| BackendApi.PushNode | modules/backend_api.py:303-309 | One `if x not in node_ids` step: the node list is `AddNode`'s, and the id set still holds exactly the keys of the drawn ids |
| BackendApi.AddLinkSpec | modules/backend_api.py:312-322 | Adding a link keeps link keys distinct in both directions, keys compared as Python compares tuples; the link's key or its reverse is then present; the old list is a prefix and every old key stays |
| BackendApi.PushLink | modules/backend_api.py:312-322 | One step of the two-way `link_keys` check: the link list is `AddLink`'s, and the key set still holds exactly the keys of the drawn links |
| BackendApi.FoldNodesSpec | modules/backend_api.py:288-350 | Before the cap, no two node ids are equal as Python compares them; every node is an endpoint, and every endpoint is drawn up to that equality |
| BackendApi.FoldLinksSpec | modules/backend_api.py:288-350 | Before the cap, no link key repeats even reversed; every link is an input link; every input link's key, or its reverse, is drawn |
| BackendApi.GraphOfSpec | modules/backend_api.py:276-355 | No results give `{}`; otherwise at most 20 nodes, no two equal as Python compares ids, all endpoints, and at most 30 input links, no key repeated even reversed |
| BackendApi.ConvertToGraphData | modules/backend_api.py:286-355 | The loop with its id set and link-key set, holding Python's keys, computes exactly the graph |
| BackendApi.RelationPlan | modules/backend_api.py:141-149 | Corrected plan: a relation word queries that relation; no relation word but a trigger phrase uses 包含; no entity answers plainly; the missing method is never reached |
| BackendApi.MissingHandlerCase | modules/backend_api.py:141-147 | As written, an entity with neither a relation word nor a trigger phrase calls the undefined `_handle_find_entity_relations`; the corrected plan queries the entity's relations |
| BackendApi.ByRelationAsWrittenVersusIntended | modules/backend_api.py:134-179 | The by-relation answer as written equals the corrected one exactly when the missing-method case does not arise; in that case it is the plain model answer with success True and the cache unchanged, as the `except` branch gives |
| BackendApi.RuleDecidedByRelationAsIntended | modules/backend_api.py:141-147 | When the rules classify the question as by-relation, the missing method is never reached and the answer as written is the corrected one |
| BackendApi.QueryOutcomeGuards | modules/backend_api.py:59-64 | Blank input gives success False, the fixed message and `{}`, with the cache unchanged; an unmapped intent answers with success True, no graph and the cache unchanged; a drawn graph implies non-blank input |
| BackendApi.ApiHandler.constructor | modules/backend_api.py:23-35 | The handler holds the given client, recognizer and model |
| BackendApi.ApiHandler.RespondWith | modules/backend_api.py:152-179 | A handler's answer from a result: the model's answer, the drawn graph and the first 10 results, or the error branch when drawing raises |
| BackendApi.ApiHandler.HandleFindSingleEntity | modules/backend_api.py:218-255 | The response and cache equal the single-entity outcome (relations of the first entity, else a plain answer) |
| BackendApi.ApiHandler.HandleFindRelationBetweenEntities | modules/backend_api.py:181-216 | The response and cache equal the between-entities outcome (two entities needed) |
| BackendApi.ApiHandler.HandleFindEntityByRelation | modules/backend_api.py:134-179 | The response and cache follow the plan as written: a relation query through the cache, or a plain model answer with success True (also where the missing method raises and the `except` answers) |
| BackendApi.ApiHandler.HandleGeneralQuery | modules/backend_api.py:257-274 | A plain model answer with success True |
| BackendApi.ApiHandler.ProcessQuery | modules/backend_api.py:49-87 | The blank guard, then the handler `RouteOf` picks for the recognised intent of the stripped input |
| KeywordRules.FirstMatchSpec | modules/intent_recognition.py:129-138 | The default iff no group has a phrase in the text, else the kind of the first group that has one |
| IntentRecognition.RuleBasedIntentSpec | modules/intent_recognition.py:96-138 | Groups are tried in the order definition, between-entities, by-relation, single-entity; "unknown" iff none has a phrase in the lowered text |
| IntentRecognition.RuleByRelationHasTrigger | modules/intent_recognition.py:106-136 | A question the rules classify as by-relation holds one of the six by-relation trigger phrases, before lowering too |
| IntentRecognition.RecognizeIntent | modules/intent_recognition.py:58-94 | The rule result whenever it is not "unknown", else the model's answer |
| IntentRecognition.RuleWinsOverModel | modules/intent_recognition.py:68-71 | When a rule matches, the model's answer does not matter |
| IntentRecognition.MentionedSpec | modules/intent_recognition.py:154-165 | The extracted ids are those of lexicon entries with a synonym in the text, in lexicon order, every such entry included; no id repeats when the lexicon's ids are distinct |
| IntentRecognition.MatchLexicon | modules/intent_recognition.py:154-158 | The nested loop with `break` returns exactly the mentioned ids |
| IntentRecognition.ExtractElements | modules/intent_recognition.py:140-167 | Entities and relations are the ids mentioned in each lexicon |
| IntentRecognition.Understand | modules/intent_recognition.py:195-217 | Echoes the text, with the recognised intent and the extracted entities and relations |
| Product.After | neo4j/product.py:268 | The text after the first `)` is shorter and only uses the input's characters |
| Product.RemoveParens | neo4j/product.py:268 | Removing groups never lengthens the text |
| Product.RemoveParensSpec | neo4j/product.py:268 | No complete `(...)` group remains, no character is invented, and a text without `(` is unchanged |
| Product.NormalizeEntity | neo4j/product.py:259-273 | An empty name gives "" |
| Product.NormalizeEntitySpec | neo4j/product.py:259-273 | The result has no quotes and no surrounding whitespace; every whitespace character in it is a plain space; every character comes from the input or is a space |
| Product.NormalizeKeepsNormalNames | neo4j/product.py:259-273 | An already normal name is unchanged |
| Product.NormalizeDropsGloss | neo4j/product.py:267-268 | `name(gloss)` normalises to `name`, as in 快速排序(QuickSort) → 快速排序 |
| Product.NormalizeValue | neo4j/product.py:423-424 | A falsy field gives "", a string is normalised, any other value raises |
| Product.EntityTypeSpec | neo4j/product.py:275-313 | A record type among the six known types wins; then the vocabulary's entry; then the first matching keyword group, "Concept" iff none matches |
| Product.TypeRulesKinds | neo4j/product.py:288-310 | Every heuristic group yields one of the known types, never "Concept" |
| Product.HeuristicTypeSpec | neo4j/product.py:285-313 | The kind of the first keyword group with a phrase in the lowered name, "Concept" iff none |
| Product.LookupNamesAreAlgorithms | neo4j/product.py:289-302 | 查找 is in both the algorithm and the operation groups, so such names are always algorithms |
| Product.SatisfiesTypesSpec | neo4j/product.py:361-371 | An undeclared or unconstrained relation accepts every pair; one declaring both types accepts exactly that pair |
| Product.LoadedRelationshipsSpec | neo4j/product.py:407-451 | A raising record empties the result; otherwise exactly the normalised records with non-empty head, tail and relation, head ≠ tail and confidence (default 1.0) ≥ threshold are kept |
| Product.LoadEntityOffsets | neo4j/product.py:419-441 | The filtering loop returns exactly those records |
| Json.HashKey | neo4j/product.py:528 | A key never holds a boolean, and any other value is its own key (`True` hashes as `1`, `False` as `0`) |
| Json.HashKeyIsPyEquals | modules/backend_api.py:303-322 | Two hashable values share a key exactly when Python's `==` holds between them |
| Product.UniqueRelationships | neo4j/product.py:521-534 | None (TypeError) iff some relation is a list or dict; otherwise no (head, relation, tail) key twice and exactly the keys of the input |
| Product.RemoveDuplicateRelationships | neo4j/product.py:521-534 | The `seen`-set loop returns exactly `UniqueRelationships` |
| Dedup.DedupHashable | neo4j/product.py:523-531 | The loop fails iff some key is unhashable; otherwise it gives the keep-first de-duplication |
| Dedup.DedupBy | neo4j/product.py:523-531 | Keep-first de-duplication keeps every key once, no more records than given, and only given records |
| Dedup.DedupByFirsts | neo4j/product.py:523-531 | The kept records are exactly the first record of each key, in input order |
| AePort.OperationName | neo4j/ae_port.py:204 | `name` when present, else `operation_name`, else "" |
| AePort.OperationText | neo4j/ae_port.py:202-216 | A non-dict is its `str`; a dict needs a string name, and gets ": desc" and " (用途: usage)" only when those are truthy |
| AePort.AttributeText | neo4j/ae_port.py:118-166 | A falsy value gives "", a string is unchanged, scalars are their `str`, and only a `common_operations` list with a non-string name raises |
| AePort.TimeComplexityAsAnyDict | neo4j/ae_port.py:147-188 | A `time_complexity` dict renders like any other dict |
| AePort.PlainOperationsAsAnyList | neo4j/ae_port.py:128-144 | A `common_operations` list without dicts renders like any other list |
| AePort.FormatPairs | neo4j/ae_port.py:139-140 | The loop renders each pair as "k: v" |
| AePort.FormatEntries | neo4j/ae_port.py:153-163 | The loop renders "k: v" or "k (nk: nv, ...)" joined with "; " |
| AePort.FormatTimeComplexity | neo4j/ae_port.py:168-190 | The loop renders "op (case: v, ...)" or "op: c" joined with "; " |
| AePort.FormatOperation | neo4j/ae_port.py:202-216 | One operation's text |
| AePort.FormatCommonOperations | neo4j/ae_port.py:192-219 | The operations' texts joined with "; " |
| AePort.FormatAttributeValue | neo4j/ae_port.py:118-166 | The formatter's loops compute exactly `AttributeText` |
| AePort.PendingUpdatesSpec | neo4j/ae_port.py:223-234 | No basic field and no empty text is set; every value set is the rendering of that key; every key with a non-empty rendering is set |
| AePort.PendingUpdatesRaises | neo4j/ae_port.py:226-234 | Once a rendering raises, the update raises |
| AePort.UpdateExistingEntity | neo4j/ae_port.py:221-243 | The non-empty renderings are written onto the node; the result is False iff there were none, and then the node is unchanged; `name` and `type` are never changed |
| EntityOffsets.OccurrencesFromSpec | DeepKE/example/ner/standard/w2ner/entity_offset_extractor.py:84-90 | The offsets are increasing, each starts an occurrence, and every occurrence from `start` is listed, overlapping ones included |
| EntityOffsets.OccurrencesSpec | DeepKE/example/ner/standard/w2ner/entity_offset_extractor.py:80-92 | An empty entity or sentence gives []; otherwise all occurrences in increasing order, and the first is `sentence.find(entity)` |
| EntityOffsets.FindEntityOffset | DeepKE/example/ner/standard/w2ner/entity_offset_extractor.py:69-92 | The `while True` loop returns exactly the occurrences |
| Seqs.GetOr | DeepKE/example/ner/standard/w2ner/entity_offset_extractor.py:104 | `dict.get(k, default)`: the entry when the key is present, the default otherwise; called with "ENTITY" here and with "Unknown" for generate_data/ae/relation_annotation_cli.py:54-56 |
| EntityOffsets.ResolveSpec | DeepKE/example/ner/standard/w2ner/entity_offset_extractor.py:121-158 | None iff a text is empty or an entity is absent; otherwise head offset ≤ tail offset, entity1 is the head on a tie, both offsets are first occurrences, ends are start + length, and types come from the vocabulary |
| EntityOffsets.ExtractEntityInfo | DeepKE/example/ner/standard/w2ner/entity_offset_extractor.py:106-158 | The fields are stripped and then resolved |
| EntityOffsets.ExtractAllEntities | DeepKE/example/ner/standard/w2ner/entity_offset_extractor.py:160-183 | The records of the sentences that resolve, in input order, and the number of sentences that do not |
| GenerateData.RelationKeysDistinct | generate_data/generate_data.py:248-257 | The eight relation types are distinct |
| GenerateData.EmptyPairs | generate_data/generate_data.py:248-257 | The eight types, each with an empty list |
| GenerateData.RelationPairsHas | generate_data/generate_data.py:574-581 | A pair is listed under a type iff the table lists it there and both members are known entities |
| GenerateData.RelationPairsSpec | generate_data/generate_data.py:246-583 | Exactly eight keys, and no pair twice under a key |
| GenerateData.CoreRelationsKnown | generate_data/generate_data.py:260-572 | The table only uses the eight relation types |
| GenerateData.AddPairs | generate_data/generate_data.py:575-577 | The inner loop appends the table's admitted pairs to that type, in table order |
| GenerateData.DedupEach | generate_data/generate_data.py:579-581 | Every list is replaced by its de-duplicated form |
| GenerateData.BuildRelationPairs | generate_data/generate_data.py:246-583 | The two loops compute exactly the relation pairs |
| GenerateData.AllEntitiesSpec | generate_data/generate_data.py:592-597 | No name twice, and exactly the names some category lists |
| GenerateData.CollectEntities | generate_data/generate_data.py:592-597 | The loop concatenates the categories and de-duplicates |
| GenerateData.GetAllEntities | generate_data/generate_data.py:592-597 | The same, over the course vocabulary |
| GenerateData.QuotaSum | generate_data/generate_data.py:617-621 | The quotas `n // k + (1 if i < n % k else 0)` add up to n |
| GenerateData.QuotaSpread | generate_data/generate_data.py:617-621 | Earlier types get at least as many prompts as later ones and at most one more |
| GenerateData.IsValidKgResponse | generate_data/generate_data.py:644-664 | Acceptance implies 15 ≤ length ≤ 200, some entity mentioned, no refusal phrase, and at least 15 characters once stripped |
| GenerateData.IsValidKgResponseComplete | generate_data/generate_data.py:644-664 | Conversely, a text meeting those conditions is accepted |
| GenerateData.DropTrailing | generate_data/generate_data.py:724 | Only a trailing run of the listed marks is removed, and none remains at the end |
| GenerateData.CleanedEndsWithFullStop | generate_data/generate_data.py:723-728 | A cleaned text always ends in exactly one added `。` |
| GenerateData.PostProcessSound | generate_data/generate_data.py:708-738 | Every kept record is a present result with its text cleaned, 15 to 200 long and ending in `。` |
| GenerateData.PostProcessComplete | generate_data/generate_data.py:714-738 | Every present result with a cleaned text of 15 to 200 characters is kept; falsy results are skipped |
| GenerateData.ProcessNext | generate_data/generate_data.py:714-738 | One step of the post-processing loop |
| GenerateData.PostProcessSentences | generate_data/generate_data.py:708-742 | The loop returns exactly the kept, cleaned records, in order |
| GenerateData.SplitSpec | generate_data/generate_data.py:843-851 | The three slices are consecutive, give the input back together, and hold 80%, 10% (rounded down) and the rest |
| GenerateData.AnnotationRowSpec | generate_data/generate_data.py:861-877 | A record is skipped iff an entity is absent; otherwise the offsets are first occurrences and end = start + length |
| GenerateData.WriteAnnotationFile | generate_data/generate_data.py:853-877 | The loop writes exactly the rows of the records that are not skipped |
| GenerateData.AnnotateNext | generate_data/generate_data.py:861-877 | One step of the writing loop |
| GenerateData.SaveDeepkeAnnotations | generate_data/generate_data.py:843-893 | The three files' rows, and sizes that count records, not rows written |
| Transform.RelationNameSpec | neo4j/transform.py:8-18 | A known code maps to its name and an unknown one is kept as it is; distinct codes get distinct names; mapping is idempotent |
| Transform.AllNodes | neo4j/transform.py:29-36 | Two nodes per row |
| Transform.AllLinks | neo4j/transform.py:23-27 | One link per row |
| Transform.AllNodesHas | neo4j/transform.py:29-36 | The nodes are exactly the rows' head and tail nodes |
| Transform.AllLinksHas | neo4j/transform.py:23-27 | The links are exactly the rows' links |
| Transform.GraphNodesSpec | neo4j/transform.py:38-41 | No node twice, and each is a row's head or tail |
| Transform.GraphHasRowNodes | neo4j/transform.py:22-43 | Every row's head and tail nodes are in the output |
| Transform.GraphLinksSpec | neo4j/transform.py:42-43 | No link twice; every row's link is present; every link comes from a row |
| Transform.GraphOfNonEmpty | neo4j/transform.py:36-43 | A non-empty table gives at least one node and one link |
| Transform.RowStep | neo4j/transform.py:38-43 | One row adds its head, its tail and its link exactly when each is not yet present |
| Transform.CsvToJson | neo4j/transform.py:22-44 | No rows write `{}`; otherwise the loop computes exactly the first-appearance de-duplicated graph |
| AnnotationCli.TypesFromHas | generate_data/ae/relation_annotation_cli.py:44-47 | An entity has a type iff it had one or some row with at least two fields names it |
| AnnotationCli.TypesFromLast | generate_data/ae/relation_annotation_cli.py:44-47 | The last row naming an entity decides its type |
| AnnotationCli.TypesFromUntouched | generate_data/ae/relation_annotation_cli.py:44-47 | An entity no row names keeps its type |
| AnnotationCli.LookupNone | generate_data/ae/relation_annotation_cli.py:82 | `get` finds nothing iff the key is absent |
| AnnotationCli.AssignLookup | generate_data/ae/relation_annotation_cli.py:82 | After `d[k] = v`, k maps to v and other keys are unchanged |
| AnnotationCli.AssignKeys | generate_data/ae/relation_annotation_cli.py:82 | Assignment keeps key order and appends a new key |
| AnnotationCli.AssignDistinct | generate_data/ae/relation_annotation_cli.py:82 | Assignment never repeats a key |
| AnnotationCli.SuggestedSpec | generate_data/ae/relation_annotation_cli.py:153-158 | None iff no rule matches the two types; otherwise the relation of the first matching rule in dict order |
| AnnotationCli.KeptLine | generate_data/ae/relation_annotation_cli.py:66-69 | A line is kept, stripped, iff it is neither blank nor a `#` comment |
| AnnotationCli.SplitFields | generate_data/ae/relation_annotation_cli.py:76 | At least one field, none holding a comma |
| AnnotationCli.SplitFieldsJoin | generate_data/ae/relation_annotation_cli.py:72-76 | Joining the fields with commas gives the line back |
| AnnotationCli.JoinSplitFields | generate_data/ae/relation_annotation_cli.py:72-76 | Splitting comma-free fields joined with commas gives them back |
| AnnotationCli.ParseIndexRoundTrip | generate_data/ae/relation_annotation_cli.py:85 | `int(str(i))` is i |
| AnnotationCli.ParseSignedUnderscores | generate_data/ae/relation_annotation_cli.py:85 | `int("1_000")` is 1000 |
| AnnotationCli.ParseSignedFullWidth | generate_data/ae/relation_annotation_cli.py:85 | `int("-１２")` is -12 |
| AnnotationCli.ParseSignedBadUnderscores | generate_data/ae/relation_annotation_cli.py:85 | A doubled, leading or trailing underscore is a bad index |
| AnnotationCli.ParseSignedRoundTrip | generate_data/ae/relation_annotation_cli.py:85 | The same for the signed form without surrounding whitespace |
| AnnotationCli.OutcomeSpec | generate_data/ae/relation_annotation_cli.py:77-86 | A row is a rule iff all four columns are non-empty and the index parses, and the rule holds the row's values; an unparsable index stops loading |
| AnnotationCli.LoadRowsOk | generate_data/ae/relation_annotation_cli.py:77-91 | Loading reports success iff no row's index fails to parse |
| AnnotationCli.LoadRowsFromEntry | generate_data/ae/relation_annotation_cli.py:77-86 | A rule that differs from the one held before loading is the entry of some row |
| AnnotationCli.LoadRowsDistinct | generate_data/ae/relation_annotation_cli.py:77-86 | Loading never repeats a relation |
| AnnotationCli.LoadRowsLast | generate_data/ae/relation_annotation_cli.py:77-86 | The last row for a relation decides its rule |
| AnnotationCli.LoadRowsUntouched | generate_data/ae/relation_annotation_cli.py:77-86 | A relation no row names keeps its rule |
| AnnotationCli.LoadedDataSpec | generate_data/ae/relation_annotation_cli.py:99-109 | After loading, no key repeats and the items are exactly the first of each 5-tuple key, in order; an unhashable key leaves the raw list |
| AnnotationCli.FirstParsedSpec | generate_data/ae/relation_annotation_cli.py:205-215 | The first recognised line decides; none only when no line is recognised |
| AnnotationCli.FirstAnswerSpec | generate_data/ae/relation_annotation_cli.py:205-215 | The answer is that of the first line reading y/yes/是, n/no/否 or q/quit/退出 |
| AnnotationCli.GetYesNoInput | generate_data/ae/relation_annotation_cli.py:203-217 | The prompt loop returns exactly the first recognised answer |
| AnnotationCli.RelationAnnotator.constructor | generate_data/ae/relation_annotation_cli.py:25-31 | Empty data, annotations, rules and vocabulary, index 0 |
| AnnotationCli.RelationAnnotator.LoadEntityTypes | generate_data/ae/relation_annotation_cli.py:39-52 | The vocabulary gets every row's entry, later rows overriding; nothing else changes |
| AnnotationCli.RelationAnnotator.LoadRelations | generate_data/ae/relation_annotation_cli.py:58-91 | The rules after filtering and parsing, and the success flag; distinct keys are kept; nothing else changes |
| AnnotationCli.RelationAnnotator.ReadRelations | generate_data/ae/relation_annotation_cli.py:72-91 | Reading the kept lines gives exactly the loaded rules and flag, and keeps keys distinct |
| AnnotationCli.RelationAnnotator.ReadRows | generate_data/ae/relation_annotation_cli.py:77-86 | The row loop stops at the first bad index |
| AnnotationCli.RelationAnnotator.FilterLines | generate_data/ae/relation_annotation_cli.py:65-69 | The filtering loop keeps exactly the kept lines |
| AnnotationCli.RelationAnnotator.KeepNext | generate_data/ae/relation_annotation_cli.py:66-69 | One step of the filter |
| AnnotationCli.RelationAnnotator.LoadData | generate_data/ae/relation_annotation_cli.py:93-114 | The data become the de-duplicated items and the flag the success; nothing else changes |
| Dedup.KeepIfNew | generate_data/ae/relation_annotation_cli.py:102-107 | One step of the `seen`-set loop: the kept list stays the first-of-key de-duplication of the prefix and `seen` its set of keys |
| AnnotationCli.RelationAnnotator.GetSuggestedRelation | generate_data/ae/relation_annotation_cli.py:153-158 | The loop returns the first matching rule's relation |
| AnnotationCli.RelationAnnotator.DisplayCurrentItem | generate_data/ae/relation_annotation_cli.py:173-201 | Done past the end; otherwise no rule or the suggested relation for the item's types |
| AnnotationCli.RelationAnnotator.AnnotateCurrentItem | generate_data/ae/relation_annotation_cli.py:219-261 | No suggestion: index + 1 and annotations unchanged. Quit: nothing changes and the loop stops. Yes: exactly one annotation with the suggested relation, index + 1. No: none, index + 1. Progress is saved iff the count or the index is a multiple of 10 |

## Left out

- Neo4j access is not modelled: the Cypher text, connection retries, the thread pool, the cache lock and `close`. A query is a value recording what its Cypher text depends on, and the store is a parameter.
- Flask routes, `get_status`, `set_api_url`, servers, threads and subprocesses are not modelled; they are web and process plumbing.
- The neural branch of `recognize_intent` (tokenizer, model, argmax) is a function parameter; loading the model is left out.
- `generate_pure` and `answer_pure` are not modelled; they only forward a prompt to the language model.
- The prompt texts sent to the language model are not modelled beyond what they are built from. `json.dumps` of the context is not modelled, and the prompt is a parameter of the model function.
- `_safe_llm` is modelled only as "a failure gives the empty reply". The thread-pool timeout itself is not modelled.
- KnowledgeGraphQuery.KeepNameChars: `\w` is taken as ASCII letters, digits and `_` plus the CJK block; Python's Unicode `\w` also keeps other scripts' letters and digits. `\s` is Python's full whitespace set.
- Text.Lower lowers ASCII letters only; Python's `str.lower` also lowers other scripts (the Kelvin sign U+212A becomes `k`). IntentRecognition.RuleBasedIntent and Product.HeuristicType match lowered text, so they differ from the source only on names holding such letters.
- Json.Repr escapes quotes, backslashes, control characters, U+007F-U+00A0, U+00AD and the Unicode spaces, separators and common format characters as Python's `repr` does. Other characters `str.isprintable` rejects (further format characters such as U+0600, private-use and unassigned code points) are left unescaped. A float threshold is carried as the text it prints as.
- `random.choice`, `random.shuffle` and the prompt templates of `generate_relation_prompts` are not modelled; only the quota arithmetic is. `SaveDeepkeAnnotations` takes the records already shuffled, and `relation.csv`'s rows are not modelled.
- The API calls, batching and retries of generate_data.py, and its `analyze_data_quality` and progress state, are not modelled; they are network I/O and logging.
- Reading and writing files is not modelled. This covers the vocabulary CSV, `relation.csv`, the JSON data, the progress file and the output CSVs; their contents are parameters and results. `load_progress` and `save_progress` are not modelled beyond the "saved" flag of AnnotateCurrentItem.
- AnnotationCli.RelationAnnotator.AnnotateCurrentItem requires an index inside the data, which is what `run` guarantees. Past the end, the source would prompt and then fail on indexing.
- Product.LoadedRelationshipsSpec: confidences are reals. A non-numeric confidence, which would make the comparison raise, cannot be expressed.
- Product: node and relationship creation, `clean_database`, `build_knowledge_graph` and the CSV loaders are not modelled; they are database writes and file I/O. The vocabulary and relation tables are parameters.
- `normalize_entity_name` in neo4j/ae_port.py:28-42 is the same code as `normalize_entity` in product.py and is modelled once, as Product.NormalizeEntity.
- AePort: `str()` of a nested value inside an f-string is modelled with Python's `str` on JSON scalars, lists and dicts, quoting strings inside containers through Json.Repr, with the gap just named. Floats are not modelled.
- Transform: rows are taken as parsed CSV records; missing columns are not modelled.
- AnnotationCli.SplitFields splits a line at every comma. `csv.DictReader`'s quoting (a quoted field holding a comma, a doubled quote, a field spanning lines) is not modelled; rows without quotes are read as the source reads them.
- AnnotationCli.RelationAnnotator.ReadRows reads an index through AnnotationCli.ParseIndex, which accepts ASCII and full-width digits with `_` grouping. The other Unicode decimal digits `int()` accepts (Arabic-Indic, Devanagari and the rest) are taken as a bad index, so loading stops where the source would go on.
- EntityOffsets.ExtractAllEntities takes the sentence items with string fields. In the source, `sentence_item.get(k, '').strip()` raises `AttributeError` on a null or numeric field, and nothing catches it, so the whole extraction aborts. The model has no such item.
- AnnotationCli.LoadedData takes items whose `sentence`, `head` and `tail` are strings. In the source, a missing key raises `KeyError` and a list or dict value raises `TypeError`; the `except` then makes `load_data` return False and keep the raw list, as it does for an unhashable offset, which the model does cover.
- Product.UniqueRelationships: relation values hold no floats, so the key shared by `1.0` and `1` does not arise.
- Synonym augmentation, longest-match span selection and embedding reranking are not part of this model; the code has none of them.

## Findings

| source | as written | input that shows it | evidently intended | confidence | as-written member | corrected member |
|---|---|---|---|---|---|---|
| modules/backend_api.py:147 | With entities but no relation word and no trigger phrase, `_handle_find_entity_by_relation` calls `self._handle_find_entity_relations`, which `APIHandler` does not define. The `AttributeError` is caught at modules/backend_api.py:171-179, and the answer comes without the knowledge graph | "二叉树的相关信息" with 二叉树 in the entity lexicon and no relation synonym in the text, labelled by-relation by the neural classifier; the rules never route such a question here (BackendApi.RuleDecidedByRelationAsIntended) | Query the entity's relations, as the single-entity handler does | not executed | BackendApi.ByRelationAsWrittenVersusIntended | BackendApi.RelationPlan |
