/**
  The column graph of `fetch_columns` (main.py:92-108): one node per column row,
  then one table-to-column edge per column row. The table's own node is built
  (main.py:96) but not part of the result.
 */
module Columns {

  import opened Naming
  import opened Elements

  /** A row of the column query: `column_name`. */
  datatype ColumnRow = ColumnRow(columnName: string)

  /** The node emitted for a column (main.py:99-102). */
  function ColumnNode(table: string, column: string): Element
  {
    Node(ColumnNodeId(table, column), column, Column)
  }

  /**
    The edge emitted for a column (main.py:103-106). Its id joins the raw table
    name, not the table node id, to the column id.
   */
  function ColumnEdge(table: string, column: string): Element
  {
    Edge(EdgeId(table, ColumnNodeId(table, column)), TableNodeId(table), ColumnNodeId(table, column), ColumnRelationship)
  }

  /** `column_elements`: the column nodes in row order. */
  function ColumnNodes(table: string, columns: seq<ColumnRow>): (nodes: seq<Element>)
    ensures |nodes| == |columns|
    ensures forall i :: 0 <= i < |columns| ==> nodes[i] == ColumnNode(table, columns[i].columnName)
  {
    if columns == [] then []
    else ColumnNodes(table, columns[..|columns| - 1]) + [ColumnNode(table, columns[|columns| - 1].columnName)]
  }

  /** `edge_elements`: the table-to-column edges in row order. */
  function ColumnEdges(table: string, columns: seq<ColumnRow>): (edges: seq<Element>)
    ensures |edges| == |columns|
    ensures forall i :: 0 <= i < |columns| ==> edges[i] == ColumnEdge(table, columns[i].columnName)
  {
    if columns == [] then []
    else ColumnEdges(table, columns[..|columns| - 1]) + [ColumnEdge(table, columns[|columns| - 1].columnName)]
  }

  /** The result list `column_elements + edge_elements` (main.py:108). */
  function ColumnGraph(table: string, columns: seq<ColumnRow>): seq<Element>
  {
    ColumnNodes(table, columns) + ColumnEdges(table, columns)
  }

  /**
    The transform of `fetch_columns` on already fetched rows: the loop of
    main.py:98-106 appending to both lists, then their concatenation.
   */
  method TransformColumns(table: string, columns: seq<ColumnRow>) returns (elements: seq<Element>)
    ensures elements == ColumnGraph(table, columns)
  {
    var columnElements: seq<Element> := [];
    var edgeElements: seq<Element> := [];
    var tableId := TableNodeId(table);
    ghost var tableNode := Node(tableId, table, Table);

    for i := 0 to |columns|
      invariant columnElements == ColumnNodes(table, columns[..i])
      invariant edgeElements == ColumnEdges(table, columns[..i])
    {
      assert columns[..i + 1][..i] == columns[..i];
      var columnId := ColumnNodeId(table, columns[i].columnName);
      columnElements := columnElements + [Node(columnId, columns[i].columnName, Column)];
      edgeElements := edgeElements + [Edge(EdgeId(table, columnId), tableId, columnId, ColumnRelationship)];
    }
    assert columns[..|columns|] == columns;
    elements := columnElements + edgeElements;
  }

  // Properties of the column graph

  /**
    Two elements per column: element i is the node of column i, with id
    table + "_" + column, label the column and type "column"; element
    |columns| + i is its edge, from "table_" + table to that node, with id
    "edge_" + table + "_to_" + table + "_" + column and type "column-relationship".
   */
  lemma ColumnGraphAt(table: string, columns: seq<ColumnRow>, i: nat)
    requires i < |columns|
    ensures var elements := ColumnGraph(table, columns);
      var column := columns[i].columnName;
      |elements| == 2 * |columns| &&
      elements[i] == Node(table + "_" + column, column, Column) &&
      elements[|columns| + i] ==
        Edge("edge_" + table + "_to_" + table + "_" + column, "table_" + table, table + "_" + column, ColumnRelationship)
  {
  }

  /** No columns, no elements: not an error. */
  lemma ColumnGraphEmpty(table: string)
    ensures ColumnGraph(table, []) == []
  {
  }

  /**
    The nodes come first and the edges after them; every edge leaves the one
    table node id; no element is a table node.
   */
  lemma ColumnGraphShape(table: string, columns: seq<ColumnRow>)
    ensures var elements := ColumnGraph(table, columns);
      |elements| == 2 * |columns| &&
      forall k :: 0 <= k < |elements| ==>
        elements[k].kind != Table && elements[k].kind.Wire() != "table" &&
        (elements[k].Node? <==> k < |columns|) &&
        (elements[k].Node? ==> elements[k].kind == Column && elements[k].kind.Wire() == "column") &&
        (elements[k].Edge? ==> (elements[k].kind == ColumnRelationship && elements[k].kind.Wire() == "column-relationship" &&
          elements[k].source == TableNodeId(table)))
  {
  }

  /** Referential integrity: every edge's target is the id of the node just as many places before it. */
  lemma ColumnEdgeTargetsResolve(table: string, columns: seq<ColumnRow>, k: nat)
    requires |columns| <= k < 2 * |columns|
    ensures var elements := ColumnGraph(table, columns);
      elements[k].Edge? && elements[k - |columns|].Node? &&
      elements[k].target == elements[k - |columns|].id &&
      IsNodeId(elements, elements[k].target)
  {
  }

  /**
    Unlike a schema edge, a column edge's id is not EdgeId of its own source and
    target: it is built from the raw table name, which is six characters shorter.
   */
  lemma ColumnEdgeIdNotFromEnds(table: string, columns: seq<ColumnRow>, k: nat)
    requires |columns| <= k < 2 * |columns|
    ensures var e := ColumnGraph(table, columns)[k];
      e.Edge? && e.id != EdgeId(e.source, e.target)
  {
  }

  /** Distinct column names give distinct node ids and distinct edge ids. */
  lemma ColumnIdsUnique(table: string, columns: seq<ColumnRow>, i: nat, j: nat)
    requires i < j < |columns|
    requires columns[i].columnName != columns[j].columnName
    ensures var elements := ColumnGraph(table, columns);
      elements[i].id != elements[j].id &&
      elements[|columns| + i].id != elements[|columns| + j].id
  {
    var a, b := columns[i].columnName, columns[j].columnName;
    ColumnNodeIdInjective(table, a, b);
    EdgeIdInjectiveInTarget(table, ColumnNodeId(table, a), ColumnNodeId(table, b));
  }

  /** Two columns, spelled out in terms of the element builders. */
  lemma ColumnGraphOfTwo(table: string, a: string, b: string)
    ensures ColumnGraph(table, [ColumnRow(a), ColumnRow(b)]) ==
      [ColumnNode(table, a), ColumnNode(table, b), ColumnEdge(table, a), ColumnEdge(table, b)]
  {
    var elements := ColumnGraph(table, [ColumnRow(a), ColumnRow(b)]);
    assert |elements| == 4;
  }

  /** The ids of table "users" and its columns "id" and "email". */
  lemma UsersIds()
    ensures TableNodeId("users") == "table_users"
    ensures ColumnNodeId("users", "id") == "users_id"
    ensures ColumnNodeId("users", "email") == "users_email"
    ensures EdgeId("users", "users_id") == "edge_users_to_users_id"
    ensures EdgeId("users", "users_email") == "edge_users_to_users_email"
  {
  }

  /** Two columns of table "users". */
  lemma ColumnGraphUsersExample()
    ensures ColumnGraph("users", [ColumnRow("id"), ColumnRow("email")]) ==
      [Node("users_id", "id", Column),
       Node("users_email", "email", Column),
       Edge("edge_users_to_users_id", "table_users", "users_id", ColumnRelationship),
       Edge("edge_users_to_users_email", "table_users", "users_email", ColumnRelationship)]
  {
    ColumnGraphOfTwo("users", "id", "email");
    UsersIds();
  }
}
