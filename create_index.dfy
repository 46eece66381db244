/**
  The CREATE INDEX node: an immutable record of the index's name, table,
  flags, columns and optional filter, and the copy-with-a-new-filter
  operation that rewriters use on it.
*/
module CreateIndexExpressions {
  import opened Wrappers
  import opened SqlExpressionTypes

  /** The table an index is created on. */
  datatype TableRef = TableRef(name: string)

  /** An indexed column, with its sort direction. */
  datatype IndexedColumn = IndexedColumn(column: string, descending: bool)

  /** The kind of index structure requested (the engine's own names). */
  datatype IndexType = DefaultIndex | NamedIndexType(name: string)

  /** A filter condition; two conditions are the same node when they are equal. */
  datatype Condition = Condition(text: string)

  datatype CreateIndexNode = CreateIndexNode(
    indexName: string,
    table: TableRef,
    unique: bool,
    indexType: IndexType,
    ifNotExist: bool,
    columns: seq<IndexedColumn>,
    includedColumns: seq<IndexedColumn>,
    filter: Option<Condition>,
    clustered: Option<bool>)

  /** The node kind of every CREATE INDEX node. */
  function NodeType(node: CreateIndexNode): (k: SqlExpressionType)
    ensures k == SqlExpressionType.CreateIndex && Ordinal(k) == 8214
  {
    SqlExpressionType.CreateIndex
  }

  /** The full constructor; the filter and the clustered flag default to none. */
  function NewCreateIndex(indexName: string, table: TableRef, unique: bool, indexType: IndexType, ifNotExist: bool,
                          columns: seq<IndexedColumn>, includedColumns: seq<IndexedColumn>,
                          filter: Option<Condition> := None, clustered: Option<bool> := None): (r: CreateIndexNode)
    ensures r.indexName == indexName && r.table == table && r.unique == unique && r.indexType == indexType
    ensures r.ifNotExist == ifNotExist && r.columns == columns && r.includedColumns == includedColumns
    ensures r.filter == filter && r.clustered == clustered
  {
    CreateIndexNode(indexName, table, unique, indexType, ifNotExist, columns, includedColumns, filter, clustered)
  }

  /** The constructor from column sequences: no filter, no clustered flag. */
  function NewCreateIndexFromColumns(indexName: string, table: TableRef, unique: bool, indexType: IndexType, ifNotExist: bool,
                                     columns: seq<IndexedColumn>, includedColumns: seq<IndexedColumn>): (r: CreateIndexNode)
    ensures r.filter.None? && r.clustered.None?
    ensures r == NewCreateIndex(indexName, table, unique, indexType, ifNotExist, columns, includedColumns, None, None)
  {
    NewCreateIndex(indexName, table, unique, indexType, ifNotExist, columns, includedColumns)
  }

  /** The two nodes agree on everything but the filter and the clustered flag. */
  predicate SameIndex(a: CreateIndexNode, b: CreateIndexNode)
  {
    a.indexName == b.indexName && a.table == b.table && a.unique == b.unique && a.indexType == b.indexType &&
    a.ifNotExist == b.ifNotExist && a.columns == b.columns && a.includedColumns == b.includedColumns
  }

  /**
    The node with another filter: the node itself when the filter is the one it
    has, otherwise a new node with the same index description and the new
    filter, built without the clustered flag.
  */
  function ChangeWhere(node: CreateIndexNode, filter: Option<Condition>): (r: CreateIndexNode)
    ensures SameIndex(r, node) && r.filter == filter
    ensures filter == node.filter ==> r == node
    ensures filter != node.filter ==> r.clustered.None?
  {
    if filter == node.filter then node
    else NewCreateIndex(node.indexName, node.table, node.unique, node.indexType, node.ifNotExist,
                        node.columns, node.includedColumns, filter)
  }

  /** Changing to the same filter twice is changing it once. */
  lemma ChangeWhereIdempotent(node: CreateIndexNode, filter: Option<Condition>)
    ensures ChangeWhere(ChangeWhere(node, filter), filter) == ChangeWhere(node, filter)
  {
  }

  /**
    Changing the filter and changing it back restores the node exactly when
    the filter did not change or the node carried no clustered flag.
  */
  lemma ChangeWhereRoundTrip(node: CreateIndexNode, filter: Option<Condition>)
    ensures ChangeWhere(ChangeWhere(node, filter), node.filter) == node <==>
      filter == node.filter || node.clustered.None?
  {
    if filter != node.filter && node.clustered.Some? {
      assert ChangeWhere(ChangeWhere(node, filter), node.filter).clustered.None?;
    }
  }
}
