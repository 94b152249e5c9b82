/**
 * `csv_to_json` in neo4j/transform.py: folds the rows of a predictions table into a graph
 * file with a `nodes` list and a `links` list, translating relation codes into their Chinese
 * names and keeping only the first copy of every node and every link.
 */
module Transform {
  import opened Dedup

  /** A row of the predictions table. */
  datatype Row = Row(head: string, tail: string, relation: string)

  /** `{'id': name, 'name': name}`. */
  datatype Node = Node(id: string, name: string)

  /** `{'source': head, 'target': tail, 'relation': name}`. */
  datatype Link = Link(source: string, target: string, relation: string)

  /** `relation_dict`. */
  const RelationNames: map<string, string> := map[
    "rely" := "依赖",
    "b-rely" := "被依赖",
    "belg" := "包含",
    "b-belg" := "被包含",
    "syno" := "同义",
    "relative" := "相对",
    "attr" := "拥有",
    "b-attr" := "属性",
    "none" := "无"
  ]

  /** `relation_dict.get(code, code)`. */
  function RelationName(code: string): string {
    if code in RelationNames then RelationNames[code] else code
  }

  /**
   * A known code becomes its Chinese name and any other text is kept as it is; no two codes
   * share a name, and since no name is itself a code, translating twice changes nothing.
   */
  lemma RelationNameSpec(code: string)
    ensures code in RelationNames ==> RelationName(code) == RelationNames[code] && RelationName(code) != code
    ensures code !in RelationNames ==> RelationName(code) == code
    ensures forall other :: other in RelationNames && other != code && code in RelationNames ==>
      RelationName(other) != RelationName(code)
    ensures RelationName(RelationName(code)) == RelationName(code)
  {
    assert forall c :: c in RelationNames ==> RelationNames[c] !in RelationNames;
    assert forall c :: c in RelationNames ==> RelationNames[c] in CodeOfName && CodeOfName[RelationNames[c]] == c;
  }

  /** `relation_dict` read backwards: each Chinese name gives back its code. */
  const CodeOfName: map<string, string> := map[
    "依赖" := "rely",
    "被依赖" := "b-rely",
    "包含" := "belg",
    "被包含" := "b-belg",
    "同义" := "syno",
    "相对" := "relative",
    "拥有" := "attr",
    "属性" := "b-attr",
    "无" := "none"
  ]

  /** The two nodes a row contributes, head first. */
  function RowNodes(row: Row): seq<Node> {
    [Node(row.head, row.head), Node(row.tail, row.tail)]
  }

  /** The link a row contributes. */
  function RowLink(row: Row): Link {
    Link(row.head, row.tail, RelationName(row.relation))
  }

  /** The nodes of all rows, in row order, before duplicates are dropped. */
  function AllNodes(rows: seq<Row>): (r: seq<Node>)
    ensures |r| == 2 * |rows|
  {
    if rows == [] then [] else AllNodes(rows[..|rows| - 1]) + RowNodes(rows[|rows| - 1])
  }

  /** The links of all rows, in row order, before duplicates are dropped. */
  function AllLinks(rows: seq<Row>): (r: seq<Link>)
    ensures |r| == |rows|
  {
    if rows == [] then [] else AllLinks(rows[..|rows| - 1]) + [RowLink(rows[|rows| - 1])]
  }

  /** `n` is the head node or the tail node of `row`. */
  predicate IsRowNode(row: Row, n: Node) {
    n == Node(row.head, row.head) || n == Node(row.tail, row.tail)
  }

  lemma {:induction false} AllNodesHas(rows: seq<Row>)
    ensures forall n :: n in AllNodes(rows) <==> exists i :: 0 <= i < |rows| && IsRowNode(rows[i], n)
    decreases |rows|
  {
    if rows != [] {
      var init := rows[..|rows| - 1];
      var last := rows[|rows| - 1];
      AllNodesHas(init);
      assert AllNodes(rows) == AllNodes(init) + RowNodes(last);
      assert forall i :: 0 <= i < |init| ==> init[i] == rows[i];
      assert forall n :: n in RowNodes(last) <==> IsRowNode(last, n);
      forall n | n in AllNodes(rows)
        ensures exists i :: 0 <= i < |rows| && IsRowNode(rows[i], n)
      {
        if n in AllNodes(init) {
          var i :| 0 <= i < |init| && IsRowNode(init[i], n);
          assert rows[i] == init[i];
        } else {
          assert IsRowNode(rows[|rows| - 1], n);
        }
      }
      forall n | exists i :: 0 <= i < |rows| && IsRowNode(rows[i], n)
        ensures n in AllNodes(rows)
      {
        var i :| 0 <= i < |rows| && IsRowNode(rows[i], n);
        if i < |init| {
          assert IsRowNode(init[i], n);
        }
      }
    }
  }

  lemma {:induction false} AllLinksHas(rows: seq<Row>)
    ensures forall l :: l in AllLinks(rows) <==> exists i :: 0 <= i < |rows| && l == RowLink(rows[i])
    decreases |rows|
  {
    if rows != [] {
      var init := rows[..|rows| - 1];
      AllLinksHas(init);
      assert forall i :: 0 <= i < |init| ==> init[i] == rows[i];
      forall l | exists i :: 0 <= i < |rows| && l == RowLink(rows[i])
        ensures l in AllLinks(rows)
      {
        var i :| 0 <= i < |rows| && l == RowLink(rows[i]);
        if i < |init| {
          assert l == RowLink(init[i]);
        }
      }
    }
  }

  /** The graph `csv_to_json` writes: `data['nodes']` and `data['links']`. */
  datatype Graph = Graph(nodes: seq<Node>, links: seq<Link>)

  /** What the fold produces: the first copy of every node and of every link, in row order. */
  function GraphOf(rows: seq<Row>): Graph {
    Graph(Unique(AllNodes(rows)), Unique(AllLinks(rows)))
  }

  /** No node appears twice, and every node of the graph is the head or the tail of some row. */
  lemma GraphNodesSpec(rows: seq<Row>)
    ensures Distinct(GraphOf(rows).nodes)
    ensures forall n :: n in GraphOf(rows).nodes ==> exists i :: 0 <= i < |rows| && IsRowNode(rows[i], n)
  {
    AllNodesHas(rows);
  }

  /** Every row's head and tail nodes are in the graph. */
  lemma GraphHasRowNodes(rows: seq<Row>, i: nat)
    requires i < |rows|
    ensures Node(rows[i].head, rows[i].head) in GraphOf(rows).nodes
    ensures Node(rows[i].tail, rows[i].tail) in GraphOf(rows).nodes
  {
    AllNodesHas(rows);
    assert IsRowNode(rows[i], Node(rows[i].head, rows[i].head));
    assert IsRowNode(rows[i], Node(rows[i].tail, rows[i].tail));
  }

  /** No link appears twice, every row's link is in the graph, and every link comes from a row. */
  lemma GraphLinksSpec(rows: seq<Row>)
    ensures Distinct(GraphOf(rows).links)
    ensures forall i :: 0 <= i < |rows| ==> RowLink(rows[i]) in GraphOf(rows).links
    ensures forall l :: l in GraphOf(rows).links ==> exists i :: 0 <= i < |rows| && l == RowLink(rows[i])
  {
    AllLinksHas(rows);
  }

  /**
   * The written file: `{}` when the table has no rows, since the keys are only created by
   * `setdefault` inside the loop, and otherwise the object with both keys.
   */
  datatype GraphFile = EmptyObject | Written(graph: Graph)

  /** A table with a row gives at least one node and one link, so both keys are written. */
  lemma GraphOfNonEmpty(rows: seq<Row>)
    requires rows != []
    ensures GraphOf(rows).nodes != [] && GraphOf(rows).links != []
  {
    GraphHasRowNodes(rows, 0);
    GraphLinksSpec(rows);
    assert RowLink(rows[0]) in GraphOf(rows).links;
  }

  /** What row `i` adds: its head node, then its tail node, then its link, each unless already there. */
  lemma RowStep(rows: seq<Row>, i: nat)
    requires i < |rows|
    ensures var before, head, tail := AllNodes(rows[..i]), Node(rows[i].head, rows[i].head), Node(rows[i].tail, rows[i].tail);
      var once := if head in Unique(before) then Unique(before) else Unique(before) + [head];
      Unique(AllNodes(rows[..i + 1])) == if tail in once then once else once + [tail]
    ensures var link := RowLink(rows[i]);
      Unique(AllLinks(rows[..i + 1])) ==
        if link in Unique(AllLinks(rows[..i])) then Unique(AllLinks(rows[..i])) else Unique(AllLinks(rows[..i])) + [link]
  {
    assert rows[..i + 1][..i] == rows[..i];
    var before := AllNodes(rows[..i]);
    var head, tail := Node(rows[i].head, rows[i].head), Node(rows[i].tail, rows[i].tail);
    assert AllNodes(rows[..i + 1]) == before + [head] + [tail];
    UniqueSnoc(before, head);
    UniqueSnoc(before + [head], tail);
    UniqueSnoc(AllLinks(rows[..i]), RowLink(rows[i]));
  }

  /** `csv_to_json`'s loop over the rows, and the object it dumps. */
  method CsvToJson(rows: seq<Row>) returns (file: GraphFile)
    ensures rows == [] <==> file == EmptyObject
    ensures rows != [] ==> file == Written(GraphOf(rows))
  {
    var nodes: seq<Node> := [];
    var links: seq<Link> := [];
    var i := 0;
    while i < |rows|
      invariant 0 <= i <= |rows|
      invariant nodes == Unique(AllNodes(rows[..i]))
      invariant links == Unique(AllLinks(rows[..i]))
    {
      var row := rows[i];
      var link := Link(row.head, row.tail, RelationName(row.relation));
      var headNode := Node(row.head, row.head);
      var tailNode := Node(row.tail, row.tail);
      RowStep(rows, i);
      if headNode !in nodes {
        nodes := nodes + [headNode];
      }
      if tailNode !in nodes {
        nodes := nodes + [tailNode];
      }
      if link !in links {
        links := links + [link];
      }
      i := i + 1;
    }
    assert rows[..|rows|] == rows;
    if rows != [] {
      GraphOfNonEmpty(rows);
    }
    file := if nodes == [] then EmptyObject else Written(Graph(nodes, links));
  }
}
