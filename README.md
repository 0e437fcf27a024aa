# Catalog-metadata graph transform

A model of the part of the DataAtlas backend that turns relational catalogue
metadata into the flat element list a graph-drawing client renders. Two
operations are modelled. Both start from rows that have already been fetched:

- the schema graph of `fetch_metadata`. It emits one node per table, then one
  edge per foreign-key row. The edge goes from the owning table's node to the
  referenced table's node. If the referenced table is not among the table rows,
  the raw foreign table name is the target instead.
- the column graph of `fetch_columns`. It emits one node per column of one
  table, then one table-to-column edge per column.

Files:

- `wrappers.dfy`: `Result` holds either a value or the error raised.
- `naming.dfy`: the id conventions `"table_" + t`, `t + "_" + c` and
  `"edge_" + s + "_to_" + d`, with their injectivity properties.
- `elements.dfy`: the element datatype. Each value is one `{"data": {...}}`
  entry. Dafny reserves `label`, so the node's `label` field is called `name`.
  The `type` field is the enumeration `ElementType`, and `Wire()` gives its
  exact text.
- `metadata.dfy`: the schema transform.
- `columns.dfy`: the column transform.

Each transform is an imperative method, written the way the source builds its
lists: `for` loops append to sequences, and `table_nodes` is a map built before
the loops. Each method is proved equal to a recursive specification function
(`MetadataGraph`, `ColumnGraph`). The lemmas state the index-by-index meaning
of those functions. That covers lengths, order, id formats, the fallback, the
`KeyError`, referential integrity and uniqueness.

Points where the code's behaviour is easy to misread:

- A column edge's id uses the raw table name. So it is
  `"edge_" + table + "_to_" + table + "_" + column`, e.g.
  `edge_users_to_users_id`, not `edge_table_users_to_users_id`.
  `ColumnEdgeIdNotFromEnds` proves that a column edge's id is never `EdgeId`
  of its own source and target. A schema edge's id always is.
- The owning table of a relationship is looked up by direct indexing. So a
  relationship whose owning table is not among the table rows raises
  `KeyError`, and no graph is produced. The model returns
  `Failure(KeyError(name))` for the first such row.
- The table node built in `fetch_columns` is never emitted.
  `ColumnGraphShape` proves that no column-graph element has type `table`.

## Model

| member | source | states |
|---|---|---|
| Naming.TableNodeId | main.py:65 | definition; meaning given by `Naming.TableNodeIdInjective` and `Metadata.MetadataTableNodeAt` |
| Naming.ColumnNodeId | main.py:99 | definition; meaning given by `Naming.ColumnNodeIdInjective` and `Columns.ColumnGraphAt` |
| Naming.EdgeId | main.py:76 | definition; meaning given by `Naming.EdgeIdInjectiveInTarget`, `Naming.EdgeIdAmbiguous` and `Metadata.MetadataEdgeAt` |
| Naming.TableNodeIdInjective | main.py:65 | two table node ids are equal exactly when the table names are equal |
| Naming.ColumnNodeIdInjective | main.py:99 | within one table, two column ids are equal exactly when the column names are equal |
| Naming.EdgeIdInjectiveInTarget | main.py:104 | for a fixed source, two edge ids are equal exactly when the targets are equal |
| Naming.EdgeIdAmbiguous | main.py:76 | two different (source, target) pairs can share one edge id when a name contains `_to_` |
| Elements.WireInjective | main.py:69-105 | documentation: the four `type` strings are pairwise distinct |
| Metadata.TableNodeMap | main.py:65 | definition; meaning given by `Metadata.MetadataSucceedsIff` and `Metadata.MetadataEdgeAt` |
| Metadata.TableNode | main.py:68-69 | definition; meaning given by `Metadata.MetadataTableNodeAt` |
| Metadata.EdgeTarget | main.py:74 | definition; meaning given by `Metadata.MetadataEdgeAt` |
| Metadata.RelationshipEdge | main.py:73-77 | definition; meaning given by `Metadata.MetadataEdgeAt` |
| Metadata.RelationshipEdges | main.py:72-78 | definition; meaning given by `Metadata.RelationshipEdgesMeaning` |
| Metadata.MetadataGraph | main.py:63-80 | definition; meaning given by `Metadata.MetadataSucceedsIff`, `Metadata.MetadataRaisesFirstUnknown`, `Metadata.MetadataLength`, `Metadata.MetadataTableNodeAt` and `Metadata.MetadataEdgeAt` |
| Metadata.TableNodes | main.py:67-70 | one table node per table row, in row order, with id `"table_" + name`, label the name and type table |
| Metadata.RelationshipEdgesMeaning | main.py:72-78 | the relationship loop succeeds exactly when every owning table is a key of `table_nodes`; then edge i belongs to row i; otherwise the error is the `KeyError` of the first row whose owning table is unknown |
| Metadata.RelationshipEdgesFailureStays | main.py:72-73 | once a prefix of the rows raises, the whole loop raises that same error |
| Metadata.TableNodesStep | main.py:67-70 | proof helper for `TransformMetadata`: one more table row appends exactly its node |
| Metadata.RelationshipEdgesStep | main.py:72-78 | proof helper for `TransformMetadata`: one more relationship row appends exactly its edge, or raises `KeyError` for its owning table |
| Metadata.TransformMetadata | main.py:63-80 | the loops that append to `elements` give exactly `MetadataGraph`, including the `KeyError` result |
| Metadata.MetadataSucceedsIff | main.py:65-73 | the schema transform succeeds exactly when every relationship's owning table is among the table rows |
| Metadata.MetadataRaisesFirstUnknown | main.py:72-73 | a failure is `KeyError` for the first relationship whose owning table is not a table row |
| Metadata.MetadataLength | main.py:67-78 | on success there are exactly `|tables| + |relationships|` elements |
| Metadata.MetadataTableNodeAt | main.py:65-70 | element i is `Node("table_" + name_i, name_i, table)` |
| Metadata.MetadataEdgeAt | main.py:65-78 | element `|tables| + i` is the edge of row i; its source is `"table_" + owner`; its target is `"table_" + foreign` if that table is a row and the raw foreign name otherwise; its id is `"edge_" + source + "_to_" + target` |
| Metadata.MetadataShape | main.py:67-78 | nodes come exactly before index `|tables|`; every node has type table (wire text `"table"`); every edge has type relationship (wire text `"relationship"`) and id `EdgeId(source, target)` |
| Metadata.MetadataReferentialIntegrity | main.py:65-74 | every edge's source is the id of a node in the graph; so is its target whenever the foreign table is among the rows |
| Metadata.MetadataNodeIdsUnique | main.py:65-70 | table rows with distinct names get distinct node ids |
| Metadata.MetadataKeepsDuplicates | main.py:72-78 | repeated relationship rows are all kept, as equal edges with one shared id |
| Metadata.MetadataWithoutRelationships | main.py:63-80 | with no relationship rows the transform never fails and yields exactly the table nodes |
| Metadata.MetadataEmpty | main.py:63-80 | no tables and no relationships give an empty element list |
| Metadata.MetadataOneTableOneEdge | main.py:63-80 | the full output for one table with one relationship of its own |
| Metadata.MetadataDanglingExample | main.py:74 | `orders -> ghost` yields node `table_orders` and edge `edge_table_orders_to_ghost` with raw target `ghost` |
| Metadata.MetadataFallbackAliasExample | main.py:74 | a raw fallback target can equal a real node id, so resolved and unresolved targets cannot be told apart |
| Metadata.MetadataUnknownSourceExample | main.py:73 | a relationship owned by an unknown table `items` raises `KeyError("items")` |
| Columns.ColumnNode | main.py:99-102 | definition; meaning given by `Columns.ColumnGraphAt` |
| Columns.ColumnEdge | main.py:103-106 | definition; meaning given by `Columns.ColumnGraphAt` and `Columns.ColumnEdgeIdNotFromEnds` |
| Columns.ColumnGraph | main.py:108 | definition; meaning given by `Columns.ColumnGraphAt`, `Columns.ColumnGraphShape` and `Columns.ColumnEdgeTargetsResolve` |
| Columns.ColumnNodes | main.py:98-102 | `column_elements` holds one node per column row, in row order |
| Columns.ColumnEdges | main.py:103-106 | `edge_elements` holds one table-to-column edge per column row, in row order |
| Columns.TransformColumns | main.py:92-108 | the loop that appends to both lists, then their concatenation, gives exactly `ColumnGraph` |
| Columns.ColumnGraphAt | main.py:95-108 | there are `2 * |columns|` elements; element i is `Node(table + "_" + c_i, c_i, column)`; element `|columns| + i` is the edge from `"table_" + table` to `table + "_" + c_i`, with id `"edge_" + table + "_to_" + table + "_" + c_i` and type column-relationship |
| Columns.ColumnGraphEmpty | main.py:98-108 | no column rows give an empty element list, not an error |
| Columns.ColumnGraphShape | main.py:95-108 | nodes come exactly before index `|columns|`; no element has type table; every node has wire text `"column"`; every edge has type column-relationship (wire text `"column-relationship"`) and the same source `"table_" + table` |
| Columns.ColumnEdgeTargetsResolve | main.py:99-105 | every edge's target is the id of the column node `|columns|` places before it |
| Columns.ColumnEdgeIdNotFromEnds | main.py:104 | a column edge's id is never `EdgeId` of its own source and target, because it uses the raw table name |
| Columns.ColumnIdsUnique | main.py:99-104 | distinct column names get distinct node ids and distinct edge ids |
| Columns.ColumnGraphOfTwo | main.py:98-108 | two columns give node, node, edge, edge in that order |
| Columns.ColumnGraphUsersExample | main.py:98-108 | table `users` with columns `id` and `email` gives `users_id`, `users_email`, `edge_users_to_users_id` and `edge_users_to_users_email` |

## Left out

- Database access is not modelled: pool creation and closing, acquiring a connection, `conn.fetch` and the SQL text (main.py:35-61, 84-91, 116-130). This is I/O against an external client. The rows it returns are the inputs of the transforms.
- The query string built by interpolating the table name (main.py:84-89) is not modelled. It is query construction, not part of the transform.
- The web layer is not modelled: the FastAPI app, routes, dependency injection, CORS, the mapping of exceptions to HTTP 500, request models and server start-up (main.py:1-29, 110-151).
- The process-wide `pool` variable and the async structure are not modelled (main.py:32, 36, 113). They are resource lifecycle and concurrency, with no logic to verify.
- JSON serialisation of `{"elements": ...}` and the `{"data": ...}` wrapper are not modelled. The result is a sequence of `Element` values, one per wrapped entry.
- Python's dynamic row access is not modelled. Rows are typed records, so a missing `table_name` or `column_name` field, or a non-string value, cannot occur in the model.
