/** `Parameter` (SqlData/Parameter.cs): a named value a command binds or splices into its text. */
module Parameters {
  import opened Wrappers
  import opened SqlTypes

  /** The properties of a Parameter at one moment. */
  datatype ParameterData = ParameterData(
    name: string,
    value: Value,
    parse: bool,                            // bind as a SqlParameter (true) or splice into the text (false)
    dbType: Option<SqlDbType>,              // `Type`
    typeName: Option<string>,               // `TypeName`
    direction: Option<ParameterDirection>)  // `Direction`

  /** A Parameter built by `Parameter.Create(name, value, parse)`. */
  function Created(name: string, value: Value, parse: bool := true): (d: ParameterData)
    ensures d.name == name && d.value == value && d.parse == parse
    ensures d.dbType == None && d.typeName == None && d.direction == None
  {
    ParameterData(name, value, parse, None, None, None)
  }

  class Parameter {
    var name: string
    var value: Value
    var parse: bool
    var dbType: Option<SqlDbType>
    var typeName: Option<string>
    var direction: Option<ParameterDirection>

    function Data(): ParameterData
      reads this
    {
      ParameterData(name, value, parse, dbType, typeName, direction)
    }

    /** `new Parameter()`: Parse is true; Value, Type, TypeName and Direction are unset. */
    constructor ()
      ensures Data() == ParameterData("", Null, true, None, None, None)
    {
      name, value, parse := "", Null, true;
      dbType, typeName, direction := None, None, None;
    }

    /** `new Parameter(name, value, parse = true)`. */
    constructor Init(name: string, value: Value, parse: bool := true)
      ensures Data() == Created(name, value, parse)
    {
      this.name, this.value, this.parse := name, value, parse;
      dbType, typeName, direction := None, None, None;
    }

    /** `Parameter.Create(name, value, parse = true)`: a new Parameter holding exactly these. */
    static method Create(name: string, value: Value, parse: bool := true) returns (p: Parameter)
      ensures fresh(p)
      ensures p.Data() == Created(name, value, parse)
    {
      p := new Parameter.Init(name, value, parse);
    }
  }

  /** The properties of each parameter of a list, in order. */
  function Snapshot(ps: seq<Parameter>): (r: seq<ParameterData>)
    reads ps
    ensures |r| == |ps|
    ensures forall i :: 0 <= i < |ps| ==> r[i] == ps[i].Data()
  {
    seq(|ps|, i reads ps requires 0 <= i < |ps| => ps[i].Data())
  }

  /** New Parameter objects holding the given properties, in order. */
  method Materialize(ds: seq<ParameterData>) returns (ps: seq<Parameter>)
    ensures forall p :: p in ps ==> fresh(p)
    ensures Snapshot(ps) == ds
  {
    ps := [];
    var i := 0;
    while i < |ds|
      invariant 0 <= i <= |ds|
      invariant |ps| == i
      invariant forall p :: p in ps ==> fresh(p)
      invariant forall k :: 0 <= k < i ==> ps[k].Data() == ds[k]
    {
      var p := new Parameter.Init(ds[i].name, ds[i].value, ds[i].parse);
      p.dbType, p.typeName, p.direction := ds[i].dbType, ds[i].typeName, ds[i].direction;
      ps := ps + [p];
      i := i + 1;
    }
  }
}
