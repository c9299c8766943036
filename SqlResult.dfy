/** `SqlResult` (SqlData/SqlResult.cs): the name and shape expected of one result set of QueryMultiple. */
module SqlResults {

  datatype ResultType = Scalar | Table

  datatype SqlResult = SqlResult(name: string, resultType: ResultType)

  /** `new SqlResult()`: Type is Table; the Name is left unset (null in C#, the empty string here). */
  function Default(): (r: SqlResult)
    ensures r.resultType == Table
  {
    SqlResult("", Table)
  }

  /** `SqlResult.Create(name)`: that name, materialized as a table. */
  function Create(name: string): (r: SqlResult)
    ensures r.name == name && r.resultType == Table
  {
    SqlResult(name, Table)
  }

  /** `SqlResult.Create(name, type)`: exactly the given name and type. */
  function CreateTyped(name: string, resultType: ResultType): (r: SqlResult)
    ensures r.name == name && r.resultType == resultType
  {
    SqlResult(name, resultType)
  }

  /** The one-argument overload is the two-argument one at Table. */
  lemma CreateIsCreateTable(name: string)
    ensures Create(name) == CreateTyped(name, Table)
  {
  }
}
