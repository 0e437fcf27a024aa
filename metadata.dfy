/**
  The schema graph of `fetch_metadata` (main.py:63-80): one table node per
  table row, then one relationship edge per foreign-key row.
 */
module Metadata {

  import opened Wrappers
  import opened Naming
  import opened Elements

  /** A row of the table query: `table_name`. */
  datatype TableRow = TableRow(tableName: string)

  /** A row of the foreign-key query: `table_name`, `foreign_table_name`. */
  datatype RelationshipRow = RelationshipRow(tableName: string, foreignTableName: string)

  /** The `KeyError` raised by indexing `table_nodes` with an unknown key. */
  datatype KeyError = KeyError(key: string)

  /** The names appearing among the table rows. */
  function TableNames(tables: seq<TableRow>): set<string>
  {
    set row | row in tables :: row.tableName
  }

  /** `table_nodes` (main.py:65): every table name mapped to its node id, and nothing else. */
  function TableNodeMap(tables: seq<TableRow>): map<string, string>
  {
    map name | name in TableNames(tables) :: TableNodeId(name)
  }

  /** The node emitted for a table row (main.py:68-69). */
  function TableNode(tableName: string): Element
  {
    Node(TableNodeId(tableName), tableName, Table)
  }

  /** The table nodes, one per row, in row order. */
  function TableNodes(tables: seq<TableRow>): (nodes: seq<Element>)
    ensures |nodes| == |tables|
    ensures forall i :: 0 <= i < |tables| ==> nodes[i] == TableNode(tables[i].tableName)
  {
    if tables == [] then []
    else TableNodes(tables[..|tables| - 1]) + [TableNode(tables[|tables| - 1].tableName)]
  }

  /**
    Where an edge for `rel` points (main.py:74): the mapped node id when the
    foreign table is known, the raw foreign name otherwise.
   */
  function EdgeTarget(tableNodes: map<string, string>, rel: RelationshipRow): string
  {
    if rel.foreignTableName in tableNodes then tableNodes[rel.foreignTableName] else rel.foreignTableName
  }

  /** The edge emitted for a relationship row whose owning table is known (main.py:73-77). */
  function RelationshipEdge(tableNodes: map<string, string>, rel: RelationshipRow): Element
    requires rel.tableName in tableNodes
  {
    var source := tableNodes[rel.tableName];
    var target := EdgeTarget(tableNodes, rel);
    Edge(EdgeId(source, target), source, target, Relationship)
  }

  /**
    The relationship edges, in row order; the first row whose owning table is not
    a key of `tableNodes` raises `KeyError` for that name.
   */
  function RelationshipEdges(tableNodes: map<string, string>, rels: seq<RelationshipRow>)
    : Result<seq<Element>, KeyError>
  {
    if rels == [] then Success([])
    else
      var last := rels[|rels| - 1];
      match RelationshipEdges(tableNodes, rels[..|rels| - 1])
      case Failure(e) => Failure(e)
      case Success(edges) =>
        if last.tableName in tableNodes then Success(edges + [RelationshipEdge(tableNodes, last)])
        else Failure(KeyError(last.tableName))
  }

  /** The whole schema graph: table nodes first, then relationship edges (main.py:63-80). */
  function MetadataGraph(tables: seq<TableRow>, rels: seq<RelationshipRow>): Result<seq<Element>, KeyError>
  {
    match RelationshipEdges(TableNodeMap(tables), rels)
    case Failure(e) => Failure(e)
    case Success(edges) => Success(TableNodes(tables) + edges)
  }

  /**
    The relationship loop succeeds exactly when every owning table is a key of
    `tableNodes`; then edge i belongs to row i. Otherwise the error is the
    `KeyError` of the first row whose owning table is missing.
   */
  lemma {:induction false} RelationshipEdgesMeaning(tableNodes: map<string, string>, rels: seq<RelationshipRow>)
    ensures var r := RelationshipEdges(tableNodes, rels);
      (r.Success? <==> forall i :: 0 <= i < |rels| ==> rels[i].tableName in tableNodes) &&
      (r.Success? ==> (|r.value| == |rels| &&
        forall i :: 0 <= i < |rels| ==> rels[i].tableName in tableNodes && r.value[i] == RelationshipEdge(tableNodes, rels[i]))) &&
      (r.Failure? ==>
        exists j :: (0 <= j < |rels| && rels[j].tableName !in tableNodes && r.error == KeyError(rels[j].tableName) &&
          forall i :: 0 <= i < j ==> rels[i].tableName in tableNodes))
  {
    if rels != [] {
      var prefix := rels[..|rels| - 1];
      RelationshipEdgesMeaning(tableNodes, prefix);
      assert forall i :: 0 <= i < |prefix| ==> prefix[i] == rels[i];
    }
  }

  /** Once a prefix of the rows raises, the whole sequence raises the same error. */
  lemma {:induction false} RelationshipEdgesFailureStays(tableNodes: map<string, string>, rels: seq<RelationshipRow>, k: nat)
    requires k <= |rels|
    requires RelationshipEdges(tableNodes, rels[..k]).Failure?
    ensures RelationshipEdges(tableNodes, rels) == RelationshipEdges(tableNodes, rels[..k])
    decreases |rels| - k
  {
    if k < |rels| {
      var prefix := rels[..|rels| - 1];
      assert prefix[..k] == rels[..k];
      RelationshipEdgesFailureStays(tableNodes, prefix, k);
    } else {
      assert rels[..k] == rels;
    }
  }

  /** One more table row appends one more table node. */
  lemma TableNodesStep(tables: seq<TableRow>, i: nat)
    requires i < |tables|
    ensures TableNodes(tables[..i + 1]) == TableNodes(tables[..i]) + [TableNode(tables[i].tableName)]
  {
  }

  /** One more relationship row appends its edge, or raises for its owning table. */
  lemma RelationshipEdgesStep(tableNodes: map<string, string>, rels: seq<RelationshipRow>, j: nat)
    requires j < |rels|
    requires RelationshipEdges(tableNodes, rels[..j]).Success?
    ensures rels[j].tableName in tableNodes ==>
      RelationshipEdges(tableNodes, rels[..j + 1]) ==
        Success(RelationshipEdges(tableNodes, rels[..j]).value + [RelationshipEdge(tableNodes, rels[j])])
    ensures rels[j].tableName !in tableNodes ==>
      RelationshipEdges(tableNodes, rels[..j + 1]) == Failure(KeyError(rels[j].tableName))
  {
    assert rels[..j + 1][..j] == rels[..j];
  }

  /**
    The transform of `fetch_metadata` on already fetched rows: the loops of
    main.py:67-78 appending to `elements`, the lookup of main.py:73 raising.
   */
  method TransformMetadata(tables: seq<TableRow>, relationships: seq<RelationshipRow>)
    returns (r: Result<seq<Element>, KeyError>)
    ensures r == MetadataGraph(tables, relationships)
  {
    var elements: seq<Element> := [];
    var tableNodes := TableNodeMap(tables);

    for i := 0 to |tables|
      invariant elements == TableNodes(tables[..i])
    {
      var name := tables[i].tableName;
      TableNodesStep(tables, i);
      elements := elements + [Node(tableNodes[name], name, Table)];
    }
    assert tables[..|tables|] == tables;
    ghost var nodes := elements;

    for j := 0 to |relationships|
      invariant RelationshipEdges(tableNodes, relationships[..j]).Success?
      invariant elements == nodes + RelationshipEdges(tableNodes, relationships[..j]).value
    {
      var rel := relationships[j];
      RelationshipEdgesStep(tableNodes, relationships, j);
      if rel.tableName !in tableNodes {
        RelationshipEdgesFailureStays(tableNodes, relationships, j + 1);
        return Failure(KeyError(rel.tableName));
      }
      var sourceId := tableNodes[rel.tableName];
      var targetId := if rel.foreignTableName in tableNodes then tableNodes[rel.foreignTableName] else rel.foreignTableName;
      elements := elements + [Edge(EdgeId(sourceId, targetId), sourceId, targetId, Relationship)];
    }
    assert relationships[..|relationships|] == relationships;
    r := Success(elements);
  }

  // Properties of the schema graph

  /** The transform succeeds exactly when every relationship's owning table is among the table rows. */
  lemma MetadataSucceedsIff(tables: seq<TableRow>, rels: seq<RelationshipRow>)
    ensures MetadataGraph(tables, rels).Success? <==> forall i :: 0 <= i < |rels| ==> rels[i].tableName in TableNames(tables)
  {
    RelationshipEdgesMeaning(TableNodeMap(tables), rels);
    var m := TableNodeMap(tables);
    assert m.Keys == TableNames(tables);
  }

  /**
    A failure is the `KeyError` of the first relationship whose owning table is
    unknown; no partial output survives it.
   */
  lemma MetadataRaisesFirstUnknown(tables: seq<TableRow>, rels: seq<RelationshipRow>)
    requires MetadataGraph(tables, rels).Failure?
    ensures exists j :: (0 <= j < |rels| && rels[j].tableName !in TableNames(tables) &&
      MetadataGraph(tables, rels).error == KeyError(rels[j].tableName) &&
      forall i :: 0 <= i < j ==> rels[i].tableName in TableNames(tables))
  {
    RelationshipEdgesMeaning(TableNodeMap(tables), rels);
    var m := TableNodeMap(tables);
    assert m.Keys == TableNames(tables);
  }

  /** One element per table row and one per relationship row; nothing deduplicated or merged. */
  lemma MetadataLength(tables: seq<TableRow>, rels: seq<RelationshipRow>)
    requires MetadataGraph(tables, rels).Success?
    ensures |MetadataGraph(tables, rels).value| == |tables| + |rels|
  {
    RelationshipEdgesMeaning(TableNodeMap(tables), rels);
  }

  /** Element i is the node of table row i: id "table_" + name, label name, type "table". */
  lemma MetadataTableNodeAt(tables: seq<TableRow>, rels: seq<RelationshipRow>, i: nat)
    requires MetadataGraph(tables, rels).Success?
    requires i < |tables|
    ensures MetadataGraph(tables, rels).value[i] == Node("table_" + tables[i].tableName, tables[i].tableName, Table)
  {
    RelationshipEdgesMeaning(TableNodeMap(tables), rels);
  }

  /**
    Element |tables| + i is the edge of relationship row i: source "table_" + owner,
    target "table_" + foreign when the foreign table is a table row and the raw
    foreign name otherwise, id "edge_" + source + "_to_" + target, type "relationship".
   */
  lemma MetadataEdgeAt(tables: seq<TableRow>, rels: seq<RelationshipRow>, i: nat)
    requires MetadataGraph(tables, rels).Success?
    requires i < |rels|
    ensures var source := "table_" + rels[i].tableName;
      var foreign := rels[i].foreignTableName;
      var target := if foreign in TableNames(tables) then "table_" + foreign else foreign;
      |MetadataGraph(tables, rels).value| == |tables| + |rels| &&
      MetadataGraph(tables, rels).value[|tables| + i] ==
        Edge("edge_" + source + "_to_" + target, source, target, Relationship)
  {
    RelationshipEdgesMeaning(TableNodeMap(tables), rels);
    var m := TableNodeMap(tables);
    assert m.Keys == TableNames(tables);
  }

  /**
    The nodes come first and the edges after them, and every edge's id is built
    from that edge's own source and target.
   */
  lemma MetadataShape(tables: seq<TableRow>, rels: seq<RelationshipRow>)
    requires MetadataGraph(tables, rels).Success?
    ensures var elements := MetadataGraph(tables, rels).value;
      forall k :: 0 <= k < |elements| ==>
        (elements[k].Node? <==> k < |tables|) &&
        (elements[k].Node? ==> elements[k].kind == Table && elements[k].kind.Wire() == "table") &&
        (elements[k].Edge? ==> (elements[k].kind == Relationship && elements[k].kind.Wire() == "relationship" &&
          elements[k].id == EdgeId(elements[k].source, elements[k].target)))
  {
    RelationshipEdgesMeaning(TableNodeMap(tables), rels);
  }

  /**
    Referential integrity: every edge starts at a node of the same graph, and it
    ends at one whenever its foreign table is among the table rows.
   */
  lemma MetadataReferentialIntegrity(tables: seq<TableRow>, rels: seq<RelationshipRow>, i: nat)
    requires MetadataGraph(tables, rels).Success?
    requires i < |rels|
    ensures var elements := MetadataGraph(tables, rels).value;
      |elements| == |tables| + |rels| && elements[|tables| + i].Edge? &&
      IsNodeId(elements, elements[|tables| + i].source) &&
      (rels[i].foreignTableName in TableNames(tables) ==> IsNodeId(elements, elements[|tables| + i].target))
  {
    RelationshipEdgesMeaning(TableNodeMap(tables), rels);
    var elements := MetadataGraph(tables, rels).value;
    var m := TableNodeMap(tables);
    assert m.Keys == TableNames(tables);
    var s :| 0 <= s < |tables| && tables[s].tableName == rels[i].tableName;
    assert elements[s].id == elements[|tables| + i].source;
    if rels[i].foreignTableName in TableNames(tables) {
      var t :| 0 <= t < |tables| && tables[t].tableName == rels[i].foreignTableName;
      assert elements[t].id == elements[|tables| + i].target;
    }
  }

  /** Distinct table names give distinct node ids. */
  lemma MetadataNodeIdsUnique(tables: seq<TableRow>, rels: seq<RelationshipRow>, i: nat, j: nat)
    requires MetadataGraph(tables, rels).Success?
    requires i < j < |tables|
    requires tables[i].tableName != tables[j].tableName
    ensures MetadataGraph(tables, rels).value[i].id != MetadataGraph(tables, rels).value[j].id
  {
    RelationshipEdgesMeaning(TableNodeMap(tables), rels);
    TableNodeIdInjective(tables[i].tableName, tables[j].tableName);
  }

  /**
    Repeated relationship rows (two foreign keys between the same pair of
    tables) are all kept, as equal edges with one shared id.
   */
  lemma MetadataKeepsDuplicates(tables: seq<TableRow>, rels: seq<RelationshipRow>, i: nat, j: nat)
    requires MetadataGraph(tables, rels).Success?
    requires i < j < |rels|
    requires rels[i] == rels[j]
    ensures var elements := MetadataGraph(tables, rels).value;
      |elements| == |tables| + |rels| &&
      elements[|tables| + i] == elements[|tables| + j] && elements[|tables| + i].Edge?
  {
    RelationshipEdgesMeaning(TableNodeMap(tables), rels);
  }

  /** Without relationships the graph is exactly the table nodes; it never fails. */
  lemma MetadataWithoutRelationships(tables: seq<TableRow>)
    ensures MetadataGraph(tables, []) == Success(TableNodes(tables))
    ensures forall k :: 0 <= k < |tables| ==> TableNodes(tables)[k].Node?
  {
    assert TableNodes(tables) + [] == TableNodes(tables);
  }

  /** Empty catalogue, empty graph. */
  lemma MetadataEmpty()
    ensures MetadataGraph([], []) == Success([])
  {
    MetadataWithoutRelationships([]);
  }

  /** One table with one relationship of its own, spelled out. */
  lemma MetadataOneTableOneEdge(name: string, foreign: string)
    ensures var target := if foreign == name then TableNodeId(name) else foreign;
      MetadataGraph([TableRow(name)], [RelationshipRow(name, foreign)]) ==
        Success([TableNode(name), Edge(EdgeId(TableNodeId(name), target), TableNodeId(name), target, Relationship)])
  {
    var tables, rels := [TableRow(name)], [RelationshipRow(name, foreign)];
    assert tables[0].tableName == name;
    assert TableNames(tables) == {name};
    MetadataSucceedsIff(tables, rels);
    MetadataLength(tables, rels);
    MetadataTableNodeAt(tables, rels, 0);
    MetadataEdgeAt(tables, rels, 0);
    var elements := MetadataGraph(tables, rels).value;
    var target := if foreign == name then TableNodeId(name) else foreign;
    assert |elements| == 2;
    assert elements == [TableNode(name), Edge(EdgeId(TableNodeId(name), target), TableNodeId(name), target, Relationship)];
  }

  /** A relationship to a table outside the rows keeps the raw name as its target. */
  lemma MetadataDanglingExample()
    ensures MetadataGraph([TableRow("orders")], [RelationshipRow("orders", "ghost")]) ==
      Success([Node("table_orders", "orders", Table),
               Edge("edge_table_orders_to_ghost", "table_orders", "ghost", Relationship)])
  {
    MetadataOneTableOneEdge("orders", "ghost");
    assert TableNodeId("orders") == "table_orders";
    assert EdgeId("table_orders", "ghost") == "edge_table_orders_to_ghost";
  }

  /**
    The raw fallback cannot be told apart from a resolved target: a foreign
    table named "table_orders", absent from the rows, yields an edge whose target
    is the id of the node of table "orders".
   */
  lemma MetadataFallbackAliasExample()
    ensures var elements := MetadataGraph([TableRow("orders")], [RelationshipRow("orders", "table_orders")]).value;
      "table_orders" !in TableNames([TableRow("orders")]) &&
      |elements| == 2 && elements[1].target == elements[0].id
  {
  }

  /** A relationship whose owning table is not a table row raises `KeyError` for that name. */
  lemma MetadataUnknownSourceExample()
    ensures MetadataGraph([TableRow("orders")], [RelationshipRow("items", "orders")]) == Failure(KeyError("items"))
  {
  }
}
