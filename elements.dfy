/**
  The graph elements the transforms emit. Each element stands for one
  `{"data": {...}}` entry of the `elements` list (main.py:68-69, 75-77, 100-105).
 */
module Elements {

  /** The `type` field of an element. */
  datatype ElementType = Table | Column | Relationship | ColumnRelationship
  {
    /** The exact text the source writes into the `type` field. */
    function Wire(): string
    {
      match this
      case Table => "table"
      case Column => "column"
      case Relationship => "relationship"
      case ColumnRelationship => "column-relationship"
    }
  }

  /** A node carries `id`, `label` (here `name`) and `type`; an edge `id`, `source`, `target` and `type`. */
  datatype Element =
    | Node(id: string, name: string, kind: ElementType)
    | Edge(id: string, source: string, target: string, kind: ElementType)

  /** `id` is the id of some node among `elements`. */
  ghost predicate IsNodeId(elements: seq<Element>, id: string)
  {
    exists k :: 0 <= k < |elements| && elements[k].Node? && elements[k].id == id
  }

  /**
    Distinct wire names: the four element types cannot be confused by a client.
    Documentation of the enumeration; the shape lemmas of both transforms state
    the wire text of every element they emit.
   */
  lemma WireInjective(a: ElementType, b: ElementType)
    ensures a.Wire() == b.Wire() <==> a == b
  {
  }
}
