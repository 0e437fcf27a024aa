/**
  Identifier conventions of the graph: every node and edge id is a plain
  concatenation of catalog names with fixed separators (main.py:65, 76, 95, 99, 104).
 */
module Naming {

  /** Id of the node of table `tableName`: "table_" + name. */
  function TableNodeId(tableName: string): string
  {
    "table_" + tableName
  }

  /** Id of the node of column `columnName` of table `tableName`: table + "_" + column. */
  function ColumnNodeId(tableName: string, columnName: string): string
  {
    tableName + "_" + columnName
  }

  /** Id of an edge: "edge_" + source + "_to_" + target. */
  function EdgeId(source: string, target: string): string
  {
    "edge_" + source + "_to_" + target
  }

  /** The fixed prefix keeps distinct table names apart. */
  lemma TableNodeIdInjective(a: string, b: string)
    ensures TableNodeId(a) == TableNodeId(b) <==> a == b
  {
    if TableNodeId(a) == TableNodeId(b) {
      assert a == TableNodeId(a)[6..];
      assert b == TableNodeId(b)[6..];
    }
  }

  /** Within one table, distinct column names give distinct column ids. */
  lemma ColumnNodeIdInjective(tableName: string, a: string, b: string)
    ensures ColumnNodeId(tableName, a) == ColumnNodeId(tableName, b) <==> a == b
  {
    if ColumnNodeId(tableName, a) == ColumnNodeId(tableName, b) {
      assert a == ColumnNodeId(tableName, a)[|tableName| + 1..];
      assert b == ColumnNodeId(tableName, b)[|tableName| + 1..];
    }
  }

  /** For a fixed source, distinct targets give distinct edge ids. */
  lemma EdgeIdInjectiveInTarget(source: string, a: string, b: string)
    ensures EdgeId(source, a) == EdgeId(source, b) <==> a == b
  {
    if EdgeId(source, a) == EdgeId(source, b) {
      assert a == EdgeId(source, a)[|source| + 9..];
      assert b == EdgeId(source, b)[|source| + 9..];
    }
  }

  /**
    Edge ids do not determine their endpoints: a name containing "_to_" lets two
    different (source, target) pairs share one id.
   */
  lemma EdgeIdAmbiguous()
    ensures EdgeId("a_to_b", "c") == EdgeId("a", "b_to_c")
  {
  }
}
