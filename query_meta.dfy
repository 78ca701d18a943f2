/** QueryMeta: a statement, its parameters and an optional column-to-field
    mapping that is allocated on first use. */
module QueryMetas {
  import opened Wrappers
  import opened JavaValues

  /** The mapping after put(column, field) on the mapping, allocated first
      when absent: column maps to field and every other entry is kept. */
  function WithMapping(mapping: Option<map<string, string>>, column: string, field: string): (r: map<string, string>)
    ensures column in r && r[column] == field
    ensures forall k :: k != column ==> (k in r <==> mapping.Some? && k in mapping.value)
    ensures forall k :: k != column && k in r ==> r[k] == mapping.value[k]
  {
    (if mapping.None? then map[] else mapping.value)[column := field]
  }

  class QueryMeta {
    var sql: Option<string>
    var params: Option<seq<Option<Value>>>
    var columnMapping: Option<map<string, string>>

    /** new QueryMeta(). */
    constructor ()
      ensures sql.None? && params.None? && columnMapping.None?
    {
      sql, params, columnMapping := None, None, None;
    }

    /** new QueryMeta(sql, params): no mapping yet. */
    constructor WithStatement(statement: Option<string>, values: Option<seq<Option<Value>>>)
      ensures sql == statement && params == values && columnMapping.None?
      ensures !HasColumnMapping()
    {
      sql, params, columnMapping := statement, values, None;
    }

    /** hasColumnMapping: a mapping exists and holds an entry. */
    function HasColumnMapping(): (r: bool)
      reads this
      ensures r <==> exists c :: columnMapping.Some? && c in columnMapping.value
    {
      columnMapping.Some? && |columnMapping.value| > 0
    }

    /** addColumnMapping(column, field): allocates the map when absent, then
        maps column to field; every other entry stays. */
    method AddColumnMapping(column: string, field: string)
      modifies this
      ensures columnMapping == Some(WithMapping(old(columnMapping), column, field))
      ensures sql == old(sql) && params == old(params)
      ensures HasColumnMapping()
    {
      if columnMapping.None? {
        columnMapping := Some(map[]);
      }
      columnMapping := Some(columnMapping.value[column := field]);
    }
  }
}
