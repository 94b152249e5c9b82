/**
 * `APIHandler`: the empty-input guard and intent dispatch of `process_query`, the four query
 * handlers, the knowledge-graph context given to the language model, and the conversion of a
 * query result into the nodes and links the front end draws. The language model is a
 * function from the prompt to its reply (`None` when no client is configured).
 */
module BackendApi {
  import opened Wrappers
  import opened Text
  import opened Json
  import opened Seqs
  import KG = KnowledgeGraphQuery
  import IR = IntentRecognition
  import KeywordRules

  const EmptyInputMessage: string := "输入不能为空"
  const NoLlmMessage: string := "抱歉，LLM服务暂时不可用。"
  const LlmErrorPrefix: string := "抱歉，生成回复时出现错误："
  const ContextHeader: string := "根据知识图谱查询到以下相关信息："
  const NoContextMessage: string := "未找到相关的知识图谱信息。"
  const PromptInstruction: string :=
    "请基于以上知识图谱信息，用专业且易懂的语言回答用户的问题。如果知识图谱中没有相关信息，请诚实说明并提供一般性的解答。"
  /** How many query results the language model's context quotes. */
  const ContextItemLimit: nat := 5
  const NodeLimit: nat := 20
  const LinkLimit: nat := 30
  /** How many raw results a response carries for debugging. */
  const DebugResultLimit: nat := 10
  /** Phrases that make a by-relation question without a relation word use the default relation. */
  const DefaultRelationKeywords: seq<string> := ["有哪些", "包含", "属于", "类型", "分类", "种类"]
  const DefaultRelation: string := "包含"
  /** `find_entity_relations`'s default limit. */
  const EntityRelationsLimit: int := 50

  /** What the language model client answers: its content, or the text of the error it raised. */
  datatype LlmReply = Reply(content: string) | Failed(error: string)

  type Llm = Option<string -> LlmReply>

  /** A link of the drawn graph; its `value` is always 1. */
  datatype Edge = Edge(source: Json, target: Json, relation: Json)

  /** `{}`, or `{"nodes": ..., "links": ...}`; a node `{"id": x, "name": x, "group": 1}` is its id. */
  datatype GraphData = NoGraph | Graph(nodes: seq<Json>, links: seq<Edge>)

  /** The response dict; `kgResult` is the optional `kg_result` entry. */
  datatype Response = Response(success: bool, message: string, graphData: GraphData, kgResult: Option<seq<Json>>)

  // ---------------------------------------------------------------- dispatch

  /** The handlers of `intent_to_kg_method`. */
  datatype Route = ByRelation | BetweenEntities | SingleEntity | General

  /** The handler for an intent: the three mapped intents have their own, all others the general one. */
  function RouteOf(intent: string): (route: Route)
    ensures route == ByRelation <==> intent == IR.FindEntityByRelationAndEntity
    ensures route == BetweenEntities <==> intent == IR.FindRelationByTwoEntities
    ensures route == SingleEntity <==> intent == IR.FindSingleEntity
  {
    if intent == IR.FindEntityByRelationAndEntity then ByRelation
    else if intent == IR.FindRelationByTwoEntities then BetweenEntities
    else if intent == IR.FindSingleEntity then SingleEntity
    else General
  }

  /**
   * The rule classifier's highest-priority intent, `find_entity_relations`, is not among the
   * mapped intents, so a definition question is answered without the knowledge graph.
   */
  lemma DefinitionQuestionsAreGeneral(rec: IR.Recognizer, text: string)
    requires IR.RuleBasedIntent(text) == IR.FindEntityRelations
    ensures RouteOf(IR.RecognizeIntent(rec, text)) == General
  {
  }

  // ---------------------------------------------------------------- language model context

  function OptionList(o: Option<string>): seq<string> {
    if o.Some? then [o.value] else []
  }

  /** The context line of the `i`-th result: a fact, a lone entity, or nothing. */
  function ItemLine(i: nat, item: Json): Option<string> {
    if !item.JDict? then None
    else
      var e1 := Get(item.entries, "entity1");
      var e2 := Get(item.entries, "entity2");
      if e1.Some? && e2.Some? then
        Some(NatToString(i) + ". " + PyStr(e1.value) + " " + PyStr(Get(item.entries, "relation").GetOr(JStr("相关"))) +
             " " + PyStr(e2.value))
      else
        var e := Get(item.entries, "entity");
        if e.Some? then Some(NatToString(i) + ". 实体: " + PyStr(e.value)) else None
  }

  /** The lines `line` gives the elements of `items`, numbered by position from 1. */
  function NumberedLines<T>(items: seq<T>, line: (nat, T) -> Option<string>): seq<string>
    decreases |items|
  {
    if items == [] then []
    else NumberedLines(items[..|items| - 1], line) + OptionList(line(|items|, items[|items| - 1]))
  }

  function ItemLines(items: seq<Json>): seq<string> {
    NumberedLines(items, ItemLine)
  }

  /** `context_info`: the header and the lines of the first five results, or nothing. */
  function ContextInfo(kgResult: seq<Json>): seq<string> {
    if kgResult == [] then [] else [ContextHeader] + ItemLines(Take(kgResult, ContextItemLimit))
  }

  function ContextString(kgResult: seq<Json>): string {
    var info := ContextInfo(kgResult);
    if info == [] then NoContextMessage else Join(info, "\n")
  }

  function Prompt(userQuery: string, kgResult: seq<Json>): string {
    "用户问题：" + userQuery + "\n\n知识图谱查询结果：\n" + ContextString(kgResult) + "\n\n" + PromptInstruction
  }

  /** `_generate_llm_response`. */
  function LlmResponse(llm: Llm, userQuery: string, kgResult: seq<Json>): (text: string)
    ensures llm.None? ==> text == NoLlmMessage
  {
    if llm.None? then NoLlmMessage
    else match llm.value(Prompt(userQuery, kgResult))
      case Reply(content) => content
      case Failed(error) => LlmErrorPrefix + error
  }

  /** Numbering one more item adds its line, if it has one. */
  lemma NumberedLinesStep<T>(items: seq<T>, line: (nat, T) -> Option<string>, i: nat)
    requires i < |items|
    ensures NumberedLines(items[..i + 1], line) == NumberedLines(items[..i], line) + OptionList(line(i + 1, items[i]))
  {
    assert items[..i + 1][..i] == items[..i];
  }

  lemma {:induction false} NumberedLinesSpec<T>(items: seq<T>, line: (nat, T) -> Option<string>)
    ensures |NumberedLines(items, line)| <= |items|
    ensures forall j :: 0 <= j < |NumberedLines(items, line)| ==>
      exists k :: 0 <= k < |items| && line(k + 1, items[k]) == Some(NumberedLines(items, line)[j])
    ensures forall k :: 0 <= k < |items| && line(k + 1, items[k]).Some? ==>
      line(k + 1, items[k]).value in NumberedLines(items, line)
    decreases |items|
  {
    if items != [] {
      var n := |items| - 1;
      var init := items[..n];
      NumberedLinesSpec(init, line);
      var p := NumberedLines(init, line);
      var r := NumberedLines(items, line);
      assert r == p + OptionList(line(n + 1, items[n]));
      assert forall k :: 0 <= k < n ==> init[k] == items[k];
      forall j | 0 <= j < |r|
        ensures exists k :: 0 <= k < |items| && line(k + 1, items[k]) == Some(r[j])
      {
        if j < |p| {
          assert r[j] == p[j];
          var k :| 0 <= k < |init| && line(k + 1, init[k]) == Some(p[j]);
          assert items[k] == init[k];
        } else {
          assert line(n + 1, items[n]) == Some(r[j]);
        }
      }
    }
  }

  /**
   * The context quotes at most the first five results: the header, then one line per
   * result among the first five that is a fact or an entity, numbered by its position.
   */
  lemma ContextInfoSpec(kgResult: seq<Json>)
    ensures kgResult == [] <==> ContextInfo(kgResult) == []
    ensures kgResult != [] ==> ContextInfo(kgResult)[0] == ContextHeader
    ensures |ContextInfo(kgResult)| <= 1 + ContextItemLimit
    ensures forall j :: 1 <= j < |ContextInfo(kgResult)| ==>
      exists k :: 0 <= k < ContextItemLimit && k < |kgResult| && ItemLine(k + 1, kgResult[k]) == Some(ContextInfo(kgResult)[j])
    ensures ContextInfo(kgResult) == ContextInfo(Take(kgResult, ContextItemLimit))
  {
    HeadedLinesSpec(kgResult, ContextItemLimit, ItemLine);
  }

  /** `ContextInfoSpec` for any line renderer and any limit. */
  lemma HeadedLinesSpec<T>(items: seq<T>, limit: nat, line: (nat, T) -> Option<string>)
    ensures var info := if items == [] then [] else [ContextHeader] + NumberedLines(Take(items, limit), line);
      && (items == [] <==> info == [])
      && (items != [] ==> info[0] == ContextHeader)
      && |info| <= 1 + limit
      && (forall j :: 1 <= j < |info| ==>
            exists k :: 0 <= k < limit && k < |items| && line(k + 1, items[k]) == Some(info[j]))
  {
    if items != [] {
      var first := Take(items, limit);
      NumberedLinesSpec(first, line);
      var lines := NumberedLines(first, line);
      var info := [ContextHeader] + lines;
      forall j | 1 <= j < |info|
        ensures exists k :: 0 <= k < limit && k < |items| && line(k + 1, items[k]) == Some(info[j])
      {
        assert info[j] == lines[j - 1];
        var k :| 0 <= k < |first| && line(k + 1, first[k]) == Some(lines[j - 1]);
        assert first[k] == items[k];
      }
    }
  }

  /** The loop of `_generate_llm_response` that assembles `context_info`. */
  method ContextLines(kgResult: seq<Json>) returns (info: seq<string>)
    ensures info == ContextInfo(kgResult)
  {
    info := [];
    if kgResult != [] {
      info := [ContextHeader];
      var items := Take(kgResult, ContextItemLimit);
      var i := 0;
      while i < |items|
        invariant 0 <= i <= |items|
        invariant info == [ContextHeader] + ItemLines(items[..i])
      {
        var line := ItemLine(i + 1, items[i]);
        NumberedLinesStep(items, ItemLine, i);
        ghost var before := ItemLines(items[..i]);
        assert [ContextHeader] + before + OptionList(line) == [ContextHeader] + (before + OptionList(line));
        if line.Some? {
          info := info + [line.value];
        }
        i := i + 1;
      }
      assert items[..|items|] == items;
    }
  }

  /** `_generate_llm_response`, building the prompt with the context loop. */
  method GenerateLlmResponse(llm: Llm, userQuery: string, kgResult: seq<Json>) returns (text: string)
    ensures text == LlmResponse(llm, userQuery, kgResult)
  {
    if llm.None? {
      return NoLlmMessage;
    }
    var info := ContextLines(kgResult);
    var contextStr := if info == [] then NoContextMessage else Join(info, "\n");
    var reply := llm.value("用户问题：" + userQuery + "\n\n知识图谱查询结果：\n" + contextStr + "\n\n" + PromptInstruction);
    text := match reply
      case Reply(content) => content
      case Failed(error) => LlmErrorPrefix + error;
  }

  // ---------------------------------------------------------------- graph data

  /** What one result contributes: nothing, a link, or the error that aborts the conversion. */
  datatype ItemEdge = Skip | Emit(edge: Edge) | Raise

  /**
   * A flat fact (a string `entity1` and some `entity2`), or a fact whose `entity1` is a
   * node dict, in which case names, types and `str()` of the other values are used.
   */
  function EdgeOf(item: Json): ItemEdge {
    if !item.JDict? then Skip
    else
      var d := item.entries;
      var e1 := Get(d, "entity1");
      var e2 := Get(d, "entity2");
      var r := Get(d, "relation");
      if e1.Some? && e2.Some? && e1.value.JStr? then
        var relation := r.GetOr(JStr("关系"));
        if Hashable(e2.value) && Hashable(relation) then Emit(Edge(e1.value, e2.value, relation)) else Raise
      else if e1.Some? && e1.value.JDict? then
        var name1 := Get(e1.value.entries, "name").GetOr(JStr("未知"));
        var name2 := if e2.Some? && e2.value.JDict? then Get(e2.value.entries, "name").GetOr(JStr("未知"))
                     else JStr(PyStr(e2.GetOr(JStr("未知"))));
        var relType := if r.Some? && r.value.JDict? then Get(r.value.entries, "type").GetOr(JStr("关系"))
                       else JStr(PyStr(r.GetOr(JStr("关系"))));
        if Hashable(name1) && Hashable(name2) && Hashable(relType) then Emit(Edge(name1, name2, relType)) else Raise
      else Skip
  }

  /** The links of the results, in order; `None` when one of them raises. */
  function EdgesOf(result: seq<Json>): Option<seq<Edge>>
    decreases |result|
  {
    if result == [] then Some([])
    else
      var prior := EdgesOf(result[..|result| - 1]);
      match EdgeOf(result[|result| - 1])
      case Skip => prior
      case Emit(e) => if prior.Some? then Some(prior.value + [e]) else None
      case Raise => None
  }

  function Flip(e: Edge): Edge {
    Edge(e.target, e.source, e.relation)
  }

  /** A link's entry in `link_keys`: the tuple `(source, target, relation)`, compared as Python compares it. */
  function LinkKey(e: Edge): (Json, Json, Json) {
    (HashKey(e.source), HashKey(e.target), HashKey(e.relation))
  }

  /** `x in node_ids`: a node already drawn has an id Python finds equal to `x`. */
  predicate HasNode(nodes: seq<Json>, x: Json) {
    exists k :: 0 <= k < |nodes| && HashKey(nodes[k]) == HashKey(x)
  }

  /** `key in link_keys`: a link already drawn has that key. */
  predicate HasLink(links: seq<Edge>, key: (Json, Json, Json)) {
    exists k :: 0 <= k < |links| && LinkKey(links[k]) == key
  }

  /** A node is added unless an equal id is already drawn; the id seen first stays. */
  function AddNode(nodes: seq<Json>, x: Json): seq<Json> {
    if HasNode(nodes, x) then nodes else nodes + [x]
  }

  /** A link is added unless it, or the same link reversed, is already there. */
  function AddLink(links: seq<Edge>, e: Edge): seq<Edge> {
    if HasLink(links, LinkKey(e)) || HasLink(links, LinkKey(Flip(e))) then links else links + [e]
  }

  /** The node ids of the links, in order of first appearance, before the cap. */
  function NodesOf(edges: seq<Edge>): seq<Json>
    decreases |edges|
  {
    if edges == [] then []
    else
      var e := edges[|edges| - 1];
      AddNode(AddNode(NodesOf(edges[..|edges| - 1]), e.source), e.target)
  }

  /** The links kept, before the cap. */
  function LinksOf(edges: seq<Edge>): seq<Edge>
    decreases |edges|
  {
    if edges == [] then [] else AddLink(LinksOf(edges[..|edges| - 1]), edges[|edges| - 1])
  }

  /** `_convert_to_graph_data`; `None` when it raises. */
  function GraphOf(result: seq<Json>): Option<GraphData> {
    if result == [] then Some(NoGraph)
    else
      var edges := EdgesOf(result);
      if edges.None? then None
      else
        Some(Graph(Take(NodesOf(edges.value), NodeLimit), Take(LinksOf(edges.value), LinkLimit)))
  }

  predicate IsEndpoint(edges: seq<Edge>, x: Json) {
    exists k :: 0 <= k < |edges| && (edges[k].source == x || edges[k].target == x)
  }

  /** No two node ids are equal as Python compares them (so `True` and `1` are one id). */
  predicate DistinctNodes(nodes: seq<Json>) {
    forall i, j :: 0 <= i < j < |nodes| ==> HashKey(nodes[i]) != HashKey(nodes[j])
  }

  /** No two links have the same key, in either direction. */
  predicate DistinctLinks(links: seq<Edge>) {
    forall i, j :: 0 <= i < j < |links| ==> LinkKey(links[j]) != LinkKey(links[i]) && LinkKey(links[j]) != LinkKey(Flip(links[i]))
  }

  /** Appending an id adds exactly its key to those present. */
  lemma HasNodeSnoc(nodes: seq<Json>, s: Json, x: Json)
    ensures HasNode(nodes + [s], x) <==> HasNode(nodes, x) || HashKey(x) == HashKey(s)
  {
    var r := nodes + [s];
    if HasNode(nodes, x) {
      var k :| 0 <= k < |nodes| && HashKey(nodes[k]) == HashKey(x);
      assert r[k] == nodes[k];
    }
    if HasNode(r, x) {
      var k :| 0 <= k < |r| && HashKey(r[k]) == HashKey(x);
      if k < |nodes| {
        assert r[k] == nodes[k];
      }
    }
    assert r[|nodes|] == s;
  }

  /** Appending a link adds exactly its key to those present. */
  lemma HasLinkSnoc(links: seq<Edge>, e: Edge, key: (Json, Json, Json))
    ensures HasLink(links + [e], key) <==> HasLink(links, key) || LinkKey(e) == key
  {
    var r := links + [e];
    if HasLink(links, key) {
      var k :| 0 <= k < |links| && LinkKey(links[k]) == key;
      assert r[k] == links[k];
    }
    if HasLink(r, key) {
      var k :| 0 <= k < |r| && LinkKey(r[k]) == key;
      if k < |links| {
        assert r[k] == links[k];
      }
    }
    assert r[|links|] == e;
  }

  lemma AddNodeSpec(nodes: seq<Json>, x: Json)
    requires DistinctNodes(nodes)
    ensures DistinctNodes(AddNode(nodes, x))
    ensures nodes <= AddNode(nodes, x)
    ensures forall y :: HasNode(AddNode(nodes, x), y) <==> HasNode(nodes, y) || HashKey(y) == HashKey(x)
    ensures forall y :: y in AddNode(nodes, x) ==> y in nodes || y == x
  {
    forall y ensures HasNode(AddNode(nodes, x), y) <==> HasNode(nodes, y) || HashKey(y) == HashKey(x) {
      HasNodeSnoc(nodes, x, y);
    }
  }

  lemma AddLinkSpec(links: seq<Edge>, e: Edge)
    requires DistinctLinks(links)
    ensures DistinctLinks(AddLink(links, e))
    ensures links <= AddLink(links, e)
    ensures forall l :: l in AddLink(links, e) ==> l in links || l == e
    ensures HasLink(AddLink(links, e), LinkKey(e)) || HasLink(AddLink(links, e), LinkKey(Flip(e)))
    ensures forall key :: HasLink(links, key) ==> HasLink(AddLink(links, e), key)
  {
    if !(HasLink(links, LinkKey(e)) || HasLink(links, LinkKey(Flip(e)))) {
      var r := links + [e];
      forall i, j | 0 <= i < j < |r| ensures LinkKey(r[j]) != LinkKey(r[i]) && LinkKey(r[j]) != LinkKey(Flip(r[i])) {
        if j == |links| {
          assert r[i] == links[i];
        }
      }
      HasLinkSnoc(links, e, LinkKey(e));
      forall key | HasLink(links, key) ensures HasLink(r, key) {
        HasLinkSnoc(links, e, key);
      }
    }
  }

  /**
   * Before the caps, no two node ids are equal as Python compares them; every node is an
   * endpoint, and every endpoint is drawn (as itself or as an id equal to it).
   */
  lemma FoldNodesSpec(edges: seq<Edge>)
    ensures DistinctNodes(NodesOf(edges))
    ensures forall x :: x in NodesOf(edges) ==> IsEndpoint(edges, x)
    ensures forall k :: 0 <= k < |edges| ==>
      HasNode(NodesOf(edges), edges[k].source) && HasNode(NodesOf(edges), edges[k].target)
  {
    NodesDistinct(edges);
    NodesAreEndpoints(edges);
    EndpointsAreDrawn(edges);
  }

  lemma {:induction false} NodesDistinct(edges: seq<Edge>)
    ensures DistinctNodes(NodesOf(edges))
    decreases |edges|
  {
    if edges != [] {
      var e := edges[|edges| - 1];
      var p := NodesOf(edges[..|edges| - 1]);
      NodesDistinct(edges[..|edges| - 1]);
      AddNodeSpec(p, e.source);
      AddNodeSpec(AddNode(p, e.source), e.target);
    }
  }

  lemma {:induction false} NodesAreEndpoints(edges: seq<Edge>)
    ensures forall x :: x in NodesOf(edges) ==> IsEndpoint(edges, x)
    decreases |edges|
  {
    if edges != [] {
      var init := edges[..|edges| - 1];
      var e := edges[|edges| - 1];
      NodesAreEndpoints(init);
      var p := NodesOf(init);
      var q := AddNode(p, e.source);
      assert forall x :: x in q ==> x in p || x == e.source;
      assert forall x :: x in AddNode(q, e.target) ==> x in q || x == e.target;
      forall x | x in NodesOf(edges) ensures IsEndpoint(edges, x) {
        IsEndpointSnoc(edges, x);
      }
    }
  }

  lemma {:induction false} EndpointsAreDrawn(edges: seq<Edge>)
    ensures forall k :: 0 <= k < |edges| ==>
      HasNode(NodesOf(edges), edges[k].source) && HasNode(NodesOf(edges), edges[k].target)
    decreases |edges|
  {
    if edges != [] {
      var n := |edges| - 1;
      var init := edges[..n];
      var e := edges[n];
      EndpointsAreDrawn(init);
      var p := NodesOf(init);
      var q := AddNode(p, e.source);
      var f := AddNode(q, e.target);
      assert NodesOf(edges) == f;
      AddNodeKeeps(p, e.source);
      AddNodeKeeps(q, e.target);
      forall k | 0 <= k < |edges| ensures HasNode(f, edges[k].source) && HasNode(f, edges[k].target) {
        if k < n {
          assert edges[k] == init[k];
          assert HasNode(p, init[k].source) && HasNode(p, init[k].target);
        } else {
          assert edges[k] == e;
        }
      }
    }
  }

  /** Adding an id keeps every id drawn and draws the new one. */
  lemma AddNodeKeeps(nodes: seq<Json>, x: Json)
    ensures HasNode(AddNode(nodes, x), x)
    ensures forall y :: HasNode(nodes, y) ==> HasNode(AddNode(nodes, x), y)
  {
    forall y | HasNode(nodes, y) ensures HasNode(AddNode(nodes, x), y) {
      HasNodeSnoc(nodes, x, y);
    }
    HasNodeSnoc(nodes, x, x);
  }

  /** The endpoints of a list of edges are those of all but the last, and the last's two. */
  lemma IsEndpointSnoc(edges: seq<Edge>, x: Json)
    requires edges != []
    ensures IsEndpoint(edges, x) <==>
      IsEndpoint(edges[..|edges| - 1], x) || x == edges[|edges| - 1].source || x == edges[|edges| - 1].target
  {
    var init := edges[..|edges| - 1];
    if IsEndpoint(edges, x) {
      var k :| 0 <= k < |edges| && (edges[k].source == x || edges[k].target == x);
      if k < |init| {
        assert init[k] == edges[k];
      }
    }
    if IsEndpoint(init, x) {
      var k :| 0 <= k < |init| && (init[k].source == x || init[k].target == x);
      assert edges[k] == init[k];
    }
  }

  /**
   * Before the caps, no link repeats as Python compares keys, even reversed; every link is an
   * input link, and every input link's key, or its reverse, is drawn.
   */
  lemma {:induction false} FoldLinksSpec(edges: seq<Edge>)
    ensures DistinctLinks(LinksOf(edges))
    ensures forall l :: l in LinksOf(edges) ==> l in edges
    ensures forall k :: 0 <= k < |edges| ==>
      HasLink(LinksOf(edges), LinkKey(edges[k])) || HasLink(LinksOf(edges), LinkKey(Flip(edges[k])))
    decreases |edges|
  {
    if edges != [] {
      var n := |edges| - 1;
      var init := edges[..n];
      var e := edges[n];
      FoldLinksSpec(init);
      var p := LinksOf(init);
      AddLinkSpec(p, e);
      var f := LinksOf(edges);
      assert f == AddLink(p, e);
      forall l | l in f ensures l in edges {
        if l in p {
          var k :| 0 <= k < |init| && init[k] == l;
          assert edges[k] == l;
        } else {
          assert edges[n] == l;
        }
      }
      forall k | 0 <= k < n ensures HasLink(f, LinkKey(edges[k])) || HasLink(f, LinkKey(Flip(edges[k]))) {
        assert edges[k] == init[k];
      }
    }
  }

  /** The drawn graph: `{}` for no results, else at most 20 distinct nodes and 30 distinct links. */
  lemma GraphOfSpec(result: seq<Json>)
    ensures result == [] ==> GraphOf(result) == Some(NoGraph)
    ensures GraphOf(result).Some? && result != [] ==>
      var g := GraphOf(result).value;
      g.Graph? && |g.nodes| <= NodeLimit && |g.links| <= LinkLimit &&
      DistinctNodes(g.nodes) && DistinctLinks(g.links) &&
      (forall x :: x in g.nodes ==> IsEndpoint(EdgesOf(result).value, x)) &&
      (forall l :: l in g.links ==> l in EdgesOf(result).value)
  {
    if result != [] && EdgesOf(result).Some? {
      var edges := EdgesOf(result).value;
      FoldNodesSpec(edges);
      FoldLinksSpec(edges);
      var nodes := Take(NodesOf(edges), NodeLimit);
      var links := Take(LinksOf(edges), LinkLimit);
      assert forall i :: 0 <= i < |nodes| ==> nodes[i] == NodesOf(edges)[i];
      assert forall i :: 0 <= i < |links| ==> links[i] == LinksOf(edges)[i];
    }
  }

  /** `True` and `1` are one node id, as in Python: `a`–`True` then `b`–`1` draws three nodes. */
  lemma BoolAndIntShareANode()
    ensures NodesOf([Edge(JStr("a"), JBool(true), JStr("关系")), Edge(JStr("b"), JInt(1), JStr("关系"))]) ==
      [JStr("a"), JBool(true), JStr("b")]
  {
    var e1 := Edge(JStr("a"), JBool(true), JStr("关系"));
    var e2 := Edge(JStr("b"), JInt(1), JStr("关系"));
    assert [e1, e2][..1] == [e1];
    assert [e1][..0] == [];
    assert NodesOf([]) == [];
    assert AddNode([], JStr("a")) == [JStr("a")];
    assert !HasNode([JStr("a")], JBool(true)) by {
      assert HashKey(JStr("a")) != HashKey(JBool(true));
    }
    var p := NodesOf([e1]);
    assert p == [JStr("a"), JBool(true)];
    assert !HasNode(p, JStr("b")) by {
      assert forall k :: 0 <= k < |p| ==> HashKey(p[k]) != HashKey(JStr("b"));
    }
    var q := AddNode(p, JStr("b"));
    assert q == [JStr("a"), JBool(true), JStr("b")];
    assert HasNode(q, JInt(1)) by {
      assert HashKey(q[1]) == HashKey(JInt(1));
    }
    assert NodesOf([e1, e2]) == AddNode(q, JInt(1));
  }

  lemma {:induction false} EdgesNoneStays(result: seq<Json>, i: nat)
    requires i <= |result| && EdgesOf(result[..i]).None?
    ensures EdgesOf(result).None?
    decreases |result| - i
  {
    if i < |result| {
      assert result[..i + 1][..i] == result[..i];
      EdgesNoneStays(result, i + 1);
    } else {
      assert result[..i] == result;
    }
  }

  /** One step of the loop: the id is drawn, and its key entered in `node_ids`, unless present. */
  method PushNode(nodes: seq<Json>, nodeIds: set<Json>, x: Json) returns (nodes': seq<Json>, nodeIds': set<Json>)
    requires forall y :: HashKey(y) in nodeIds <==> HasNode(nodes, y)
    ensures nodes' == AddNode(nodes, x)
    ensures forall y :: HashKey(y) in nodeIds' <==> HasNode(nodes', y)
  {
    nodes', nodeIds' := nodes, nodeIds;
    if HashKey(x) !in nodeIds {
      nodes' := nodes + [x];
      nodeIds' := nodeIds + {HashKey(x)};
      forall y ensures HashKey(y) in nodeIds' <==> HasNode(nodes', y) {
        HasNodeSnoc(nodes, x, y);
      }
    }
  }

  /** One step of the loop: the link is drawn, and its key entered in `link_keys`, unless it or its reverse is present. */
  method PushLink(links: seq<Edge>, linkKeys: set<(Json, Json, Json)>, e: Edge)
    returns (links': seq<Edge>, linkKeys': set<(Json, Json, Json)>)
    requires forall key :: key in linkKeys <==> HasLink(links, key)
    ensures links' == AddLink(links, e)
    ensures forall key :: key in linkKeys' <==> HasLink(links', key)
  {
    links', linkKeys' := links, linkKeys;
    if LinkKey(e) !in linkKeys && LinkKey(Flip(e)) !in linkKeys {
      links' := links + [e];
      linkKeys' := linkKeys + {LinkKey(e)};
      forall key ensures key in linkKeys' <==> HasLink(links', key) {
        HasLinkSnoc(links, e, key);
      }
    }
  }

  /**
   * The loop of `_convert_to_graph_data`, with the id set and the link-key set beside the lists.
   * A set holds keys (`HashKey`), so `True` and `1` are one member, as in Python.
   */
  method ConvertToGraphData(result: seq<Json>) returns (g: Option<GraphData>)
    ensures g == GraphOf(result)
  {
    if result == [] {
      return Some(NoGraph);
    }
    var nodes: seq<Json> := [];
    var links: seq<Edge> := [];
    var nodeIds: set<Json> := {};
    var linkKeys: set<(Json, Json, Json)> := {};
    var i := 0;
    while i < |result|
      invariant 0 <= i <= |result|
      invariant EdgesOf(result[..i]).Some?
      invariant NodesOf(EdgesOf(result[..i]).value) == nodes && LinksOf(EdgesOf(result[..i]).value) == links
      invariant forall y :: HashKey(y) in nodeIds <==> HasNode(nodes, y)
      invariant forall key :: key in linkKeys <==> HasLink(links, key)
    {
      assert result[..i + 1][..i] == result[..i];
      ghost var edges := EdgesOf(result[..i]).value;
      match EdgeOf(result[i]) {
        case Skip =>
        case Raise =>
          EdgesNoneStays(result, i + 1);
          return None;
        case Emit(e) =>
          assert EdgesOf(result[..i + 1]).value == edges + [e];
          assert (edges + [e])[..|edges|] == edges;
          nodes, nodeIds := PushNode(nodes, nodeIds, e.source);
          nodes, nodeIds := PushNode(nodes, nodeIds, e.target);
          links, linkKeys := PushLink(links, linkKeys, e);
      }
      i := i + 1;
    }
    assert result[..|result|] == result;
    return Some(Graph(Take(nodes, NodeLimit), Take(links, LinkLimit)));
  }

  // ---------------------------------------------------------------- handlers

  /**
   * A handler's response once it has a query result: the model's answer, the drawn graph and
   * the first ten results; if drawing raises, the handler's error branch answers without
   * context, with `successOnError` as its success flag.
   */
  function KgResponse(llm: Llm, query: string, result: seq<Json>, successOnError: bool): Response {
    var g := GraphOf(result);
    if g.None? then Response(successOnError, LlmResponse(llm, query, []), NoGraph, None)
    else Response(true, LlmResponse(llm, query, result), g.value, Some(Take(result, DebugResultLimit)))
  }

  /** A response without the knowledge graph. */
  function PlainResponse(llm: Llm, query: string, success: bool): Response {
    Response(success, LlmResponse(llm, query, []), NoGraph, None)
  }

  /** What `_handle_find_entity_by_relation` does with the extracted entities and relations. */
  datatype Plan = QueryRelation(relation: string) | QueryEntityRelations | AnswerPlainly | MissingHandler

  predicate NeedsDefault(query: string, entities: seq<string>, relations: seq<string>) {
    entities != [] && relations == []
  }

  /**
   * The plan as written: without a relation word and without a trigger phrase, the handler
   * calls `_handle_find_entity_relations`, which `APIHandler` does not define.
   */
  function PlanAsWritten(query: string, entities: seq<string>, relations: seq<string>): Plan {
    if NeedsDefault(query, entities, relations) && !KeywordRules.AnyIn(DefaultRelationKeywords, query) then MissingHandler
    else
      var rels := if NeedsDefault(query, entities, relations) then [DefaultRelation] else relations;
      if entities != [] && rels != [] then QueryRelation(rels[0]) else AnswerPlainly
  }

  /** The plan as intended: the missing call is the entity-relations query of the single-entity handler. */
  function RelationPlan(query: string, entities: seq<string>, relations: seq<string>): (plan: Plan)
    ensures plan != MissingHandler
    ensures entities != [] && relations == [] && KeywordRules.AnyIn(DefaultRelationKeywords, query) ==>
      plan == QueryRelation(DefaultRelation)
    ensures entities != [] && relations != [] ==> plan == QueryRelation(relations[0])
    ensures entities == [] ==> plan == AnswerPlainly
  {
    if NeedsDefault(query, entities, relations) && !KeywordRules.AnyIn(DefaultRelationKeywords, query) then QueryEntityRelations
    else PlanAsWritten(query, entities, relations)
  }

  /**
   * As written, a named entity with neither a relation word nor a trigger phrase (such as
   * "二叉树的相关信息" naming 二叉树) reaches the missing method; its `AttributeError` is
   * caught and the answer is given without the knowledge graph, while the intended plan
   * queries the entity's relations.
   */
  lemma MissingHandlerCase(query: string, entities: seq<string>)
    requires entities != [] && !KeywordRules.AnyIn(DefaultRelationKeywords, query)
    ensures PlanAsWritten(query, entities, []) == MissingHandler
    ensures RelationPlan(query, entities, []) == QueryEntityRelations
  {
  }

  /** The response and cache of `_handle_find_single_entity`. */
  ghost function SingleEntityOutcome(rec: IR.Recognizer, llm: Llm, m: map<string, KG.CacheEntry>, query: string,
                                     store: KG.Query -> Option<seq<KG.Record>>, now: int)
    : (Response, map<string, KG.CacheEntry>)
  {
    var entities := IR.Mentioned(rec.entities, query);
    if entities == [] then (PlainResponse(llm, query, false), m)
    else
      (KgResponse(llm, query, KG.FactsJson(KG.EntityRelationsResult(m, entities[0], EntityRelationsLimit, store, now)), false),
       KG.EntityRelationsCache(m, entities[0], EntityRelationsLimit, store, now))
  }

  /** The response and cache of `_handle_find_relation_between_entities`. */
  ghost function BetweenEntitiesOutcome(rec: IR.Recognizer, llm: Llm, m: map<string, KG.CacheEntry>, query: string,
                                        store: KG.Query -> Option<seq<KG.Record>>, now: int)
    : (Response, map<string, KG.CacheEntry>)
  {
    var entities := IR.Mentioned(rec.entities, query);
    if |entities| < 2 then (PlainResponse(llm, query, false), m)
    else
      (KgResponse(llm, query, KG.FactsJson(KG.RelationByEntitiesResult(m, entities[..2], None, true, store, now)), false),
       KG.RelationByEntitiesCache(m, entities[..2], None, true, store, now))
  }

  /**
   * The response and cache of `_handle_find_entity_by_relation` as written. Its missing-method
   * call raises `AttributeError`, which the handler's own `except` turns into a plain answer
   * with success and no graph, leaving the cache as it was.
   */
  ghost function ByRelationOutcome(rec: IR.Recognizer, llm: Llm, m: map<string, KG.CacheEntry>, query: string,
                                   store: KG.Query -> Option<seq<KG.Record>>, now: int)
    : (Response, map<string, KG.CacheEntry>)
  {
    var entities := IR.Mentioned(rec.entities, query);
    var plan := PlanAsWritten(query, entities, IR.Mentioned(rec.relations, query));
    if plan.QueryRelation? then
      (KgResponse(llm, query, KG.FactsJson(KG.EntitiesByRelationResult(m, entities, plan.relation, None, store, now)), true),
       KG.EntitiesByRelationCache(m, entities, plan.relation, None, store, now))
    else (PlainResponse(llm, query, true), m)
  }

  /** The same handler with the intended plan, which queries the entity's relations instead. */
  ghost function IntendedByRelationOutcome(rec: IR.Recognizer, llm: Llm, m: map<string, KG.CacheEntry>, query: string,
                                           store: KG.Query -> Option<seq<KG.Record>>, now: int)
    : (Response, map<string, KG.CacheEntry>)
  {
    var entities := IR.Mentioned(rec.entities, query);
    var plan := RelationPlan(query, entities, IR.Mentioned(rec.relations, query));
    if plan.QueryRelation? then
      (KgResponse(llm, query, KG.FactsJson(KG.EntitiesByRelationResult(m, entities, plan.relation, None, store, now)), true),
       KG.EntitiesByRelationCache(m, entities, plan.relation, None, store, now))
    else if plan == QueryEntityRelations then SingleEntityOutcome(rec, llm, m, query, store, now)
    else (PlainResponse(llm, query, true), m)
  }

  /**
   * The handler as written and as intended agree except when the question names an entity but
   * neither a relation word nor a trigger phrase; there the written one answers plainly, with
   * success and without the graph, and the intended one never does (its single-entity answer
   * either fails or carries the query result).
   */
  lemma ByRelationAsWrittenVersusIntended(rec: IR.Recognizer, llm: Llm, m: map<string, KG.CacheEntry>, query: string,
                                          store: KG.Query -> Option<seq<KG.Record>>, now: int)
    ensures var missing := IR.Mentioned(rec.entities, query) != [] && IR.Mentioned(rec.relations, query) == [] &&
                           !KeywordRules.AnyIn(DefaultRelationKeywords, query);
      (ByRelationOutcome(rec, llm, m, query, store, now) == IntendedByRelationOutcome(rec, llm, m, query, store, now) <==> !missing) &&
      (missing ==> ByRelationOutcome(rec, llm, m, query, store, now) == (PlainResponse(llm, query, true), m))
  {
    var entities := IR.Mentioned(rec.entities, query);
    var relations := IR.Mentioned(rec.relations, query);
    var written := ByRelationOutcome(rec, llm, m, query, store, now);
    var intended := IntendedByRelationOutcome(rec, llm, m, query, store, now);
    if entities != [] && relations == [] && !KeywordRules.AnyIn(DefaultRelationKeywords, query) {
      assert PlanAsWritten(query, entities, relations) == MissingHandler;
      assert written == (PlainResponse(llm, query, true), m);
      assert RelationPlan(query, entities, relations) == QueryEntityRelations;
      assert intended == SingleEntityOutcome(rec, llm, m, query, store, now);
      var result := KG.FactsJson(KG.EntityRelationsResult(m, entities[0], EntityRelationsLimit, store, now));
      assert intended.0 == KgResponse(llm, query, result, false);
      assert !intended.0.success || intended.0.kgResult.Some?;
    } else {
      assert PlanAsWritten(query, entities, relations) == RelationPlan(query, entities, relations);
    }
  }

  /**
   * A question the rules classify as by-relation always holds a trigger phrase, so the missing
   * method is reached only when the neural classifier chose the intent.
   */
  lemma RuleDecidedByRelationAsIntended(rec: IR.Recognizer, llm: Llm, m: map<string, KG.CacheEntry>, query: string,
                                        store: KG.Query -> Option<seq<KG.Record>>, now: int)
    requires IR.RuleBasedIntent(query) == IR.FindEntityByRelationAndEntity
    ensures PlanAsWritten(query, IR.Mentioned(rec.entities, query), IR.Mentioned(rec.relations, query)) != MissingHandler
    ensures ByRelationOutcome(rec, llm, m, query, store, now) == IntendedByRelationOutcome(rec, llm, m, query, store, now)
  {
    IR.RuleByRelationHasTrigger(query);
    assert DefaultRelationKeywords == IR.FindByRelationPatterns;
    ByRelationAsWrittenVersusIntended(rec, llm, m, query, store, now);
  }

  /** The response and cache of `process_query`. */
  ghost function QueryOutcome(rec: IR.Recognizer, llm: Llm, m: map<string, KG.CacheEntry>, userInput: string,
                              store: KG.Query -> Option<seq<KG.Record>>, now: int)
    : (Response, map<string, KG.CacheEntry>)
  {
    if AllSpace(userInput) then (Response(false, EmptyInputMessage, NoGraph, None), m)
    else
      var q := Strip(userInput);
      match RouteOf(IR.RecognizeIntent(rec, q))
      case ByRelation => ByRelationOutcome(rec, llm, m, q, store, now)
      case BetweenEntities => BetweenEntitiesOutcome(rec, llm, m, q, store, now)
      case SingleEntity => SingleEntityOutcome(rec, llm, m, q, store, now)
      case General => (PlainResponse(llm, q, true), m)
  }

  /**
   * Blank input is refused with a fixed message and no graph, and a question that is not
   * routed to a graph handler leaves the cache as it was.
   */
  lemma QueryOutcomeGuards(rec: IR.Recognizer, llm: Llm, m: map<string, KG.CacheEntry>, userInput: string,
                           store: KG.Query -> Option<seq<KG.Record>>, now: int)
    ensures AllSpace(userInput) ==> QueryOutcome(rec, llm, m, userInput, store, now) == (Response(false, EmptyInputMessage, NoGraph, None), m)
    ensures !AllSpace(userInput) && RouteOf(IR.RecognizeIntent(rec, Strip(userInput))) == General ==>
      QueryOutcome(rec, llm, m, userInput, store, now).1 == m &&
      QueryOutcome(rec, llm, m, userInput, store, now).0.success &&
      QueryOutcome(rec, llm, m, userInput, store, now).0.graphData == NoGraph
    ensures QueryOutcome(rec, llm, m, userInput, store, now).0.graphData.Graph? ==> !AllSpace(userInput)
  {
    if AllSpace(userInput) {
      assert QueryOutcome(rec, llm, m, userInput, store, now) == (Response(false, EmptyInputMessage, NoGraph, None), m);
    } else {
      var q := Strip(userInput);
      if RouteOf(IR.RecognizeIntent(rec, q)) == General {
        assert QueryOutcome(rec, llm, m, userInput, store, now) == (PlainResponse(llm, q, true), m);
      }
    }
  }

  class ApiHandler {
    const kg: KG.KnowledgeGraphQueryClient
    const recognizer: IR.Recognizer
    const llm: Llm

    constructor (kg: KG.KnowledgeGraphQueryClient, recognizer: IR.Recognizer, llm: Llm)
      ensures this.kg == kg && this.recognizer == recognizer && this.llm == llm
    {
      this.kg := kg;
      this.recognizer := recognizer;
      this.llm := llm;
    }

    /** Answers from a query result, as every graph handler does. */
    method RespondWith(query: string, facts: seq<KG.Fact>, successOnError: bool) returns (resp: Response)
      ensures resp == KgResponse(llm, query, KG.FactsJson(facts), successOnError)
    {
      var result := KG.FactsJson(facts);
      var message := GenerateLlmResponse(llm, query, result);
      var graph := ConvertToGraphData(result);
      if graph.None? {
        var plain := GenerateLlmResponse(llm, query, []);
        return Response(successOnError, plain, NoGraph, None);
      }
      return Response(true, message, graph.value, Some(Take(result, DebugResultLimit)));
    }

    method HandleFindSingleEntity(query: string, store: KG.Query -> Option<seq<KG.Record>>, now: int)
      returns (resp: Response)
      modifies kg
      ensures (resp, kg.cache) == SingleEntityOutcome(recognizer, llm, old(kg.cache), query, store, now)
    {
      var entities := IR.MatchLexicon(recognizer.entities, query);
      if entities == [] {
        var message := GenerateLlmResponse(llm, query, []);
        return Response(false, message, NoGraph, None);
      }
      var facts, _ := kg.FindEntityRelations(entities[0], EntityRelationsLimit, store, now);
      resp := RespondWith(query, facts, false);
    }

    method HandleFindRelationBetweenEntities(query: string, store: KG.Query -> Option<seq<KG.Record>>, now: int)
      returns (resp: Response)
      modifies kg
      ensures (resp, kg.cache) == BetweenEntitiesOutcome(recognizer, llm, old(kg.cache), query, store, now)
    {
      var entities := IR.MatchLexicon(recognizer.entities, query);
      if |entities| < 2 {
        var message := GenerateLlmResponse(llm, query, []);
        return Response(false, message, NoGraph, None);
      }
      var facts, _ := kg.FindRelationByEntities(entities[..2], None, true, store, now);
      resp := RespondWith(query, facts, false);
    }

    method HandleFindEntityByRelation(query: string, store: KG.Query -> Option<seq<KG.Record>>, now: int)
      returns (resp: Response)
      modifies kg
      ensures (resp, kg.cache) == ByRelationOutcome(recognizer, llm, old(kg.cache), query, store, now)
    {
      var entities, relations := IR.ExtractElements(recognizer, query);
      var plan := PlanAsWritten(query, entities, relations);
      if plan.QueryRelation? {
        var facts, _ := kg.FindEntitiesByRelation(entities, plan.relation, None, store, now);
        resp := RespondWith(query, facts, true);
      } else {
        // AnswerPlainly, or MissingHandler: the `except` branch gives the same plain answer
        var message := GenerateLlmResponse(llm, query, []);
        resp := Response(true, message, NoGraph, None);
      }
    }

    method HandleGeneralQuery(query: string) returns (resp: Response)
      ensures resp == PlainResponse(llm, query, true)
    {
      var message := GenerateLlmResponse(llm, query, []);
      resp := Response(true, message, NoGraph, None);
    }

    /** `process_query`: the blank-input guard, then the handler of the recognized intent. */
    method ProcessQuery(userInput: string, store: KG.Query -> Option<seq<KG.Record>>, now: int)
      returns (resp: Response)
      modifies kg
      ensures (resp, kg.cache) == QueryOutcome(recognizer, llm, old(kg.cache), userInput, store, now)
    {
      var q := Strip(userInput);
      if q == [] {
        return Response(false, EmptyInputMessage, NoGraph, None);
      }
      var intent := IR.RecognizeIntent(recognizer, q);
      match RouteOf(intent) {
        case ByRelation => resp := HandleFindEntityByRelation(q, store, now);
        case BetweenEntities => resp := HandleFindRelationBetweenEntities(q, store, now);
        case SingleEntity => resp := HandleFindSingleEntity(q, store, now);
        case General => resp := HandleGeneralQuery(q);
      }
    }
  }
}
