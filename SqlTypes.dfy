/**
 * Stand-ins for the ADO.NET and base-library types the core handles: SqlDbType,
 * ParameterDirection, the values a parameter or a column can hold, and SqlParameter.
 */
module SqlTypes {

  /** System.Data.SqlDbType. */
  datatype SqlDbType =
    | BigInt | Binary | Bit | Char | DateTime | Decimal | Float | Image | Int | Money
    | NChar | NText | NVarChar | Real | UniqueIdentifier | SmallDateTime | SmallInt
    | SmallMoney | Text | Timestamp | TinyInt | VarBinary | VarChar | Variant | Xml
    | Udt | Structured | Date | Time | DateTime2 | DateTimeOffset

  /** System.Data.ParameterDirection. */
  datatype ParameterDirection = Input | Output | InputOutput | ReturnValue

  /**
   * A value held by a property, a parameter or a column: C# null, DBNull.Value, a string, or any
   * other object, given by the SqlDbType ADO.NET infers for it and the text its ToString() yields.
   */
  datatype Value = Null | DbNull | Str(s: string) | Other(inferred: SqlDbType, repr: string)

  /** `value ?? DBNull.Value`. */
  function OrDbNull(v: Value): (r: Value)
    ensures r != Null
    ensures v != Null ==> r == v
    ensures v == Null ==> r == DbNull
  {
    if v.Null? then DbNull else v
  }

  /** `value.ToString()` of a non-null value. */
  function ToText(v: Value): string
    requires v != Null
  {
    match v
    case DbNull => ""
    case Str(s) => s
    case Other(_, repr) => repr
  }

  /** The SqlDbType `new SqlParameter(name, value)` infers from the value. */
  function InferType(v: Value): SqlDbType
  {
    match v
    case Other(t, _) => t
    case _ => NVarChar
  }

  /** A bound parameter of a SqlCommand, after construction and the assignments made to it. */
  datatype SqlParameter = SqlParameter(
    parameterName: string,
    value: Value,
    sqlDbType: SqlDbType,
    typeName: string,
    direction: ParameterDirection)

  /** `new SqlParameter(name, value)`: type inferred from the value, no type name, direction Input. */
  function NewSqlParameter(name: string, value: Value): (p: SqlParameter)
    ensures p.parameterName == name && p.value == value && p.sqlDbType == InferType(value)
    ensures p.typeName == "" && p.direction == Input
  {
    SqlParameter(name, value, InferType(value), "", Input)
  }
}
