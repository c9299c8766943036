/**
 * The command plumbing of `Data` (SqlData/Store.cs): the connection registry and how each entry
 * point resolves a connection, the stored-procedure call text, binding versus splicing of
 * parameters, the diagnostic query text, and the copy-back of output parameters. The database
 * round trip itself is a parameter: the values the server assigns to output parameters.
 */
module Store {
  import opened Wrappers
  import opened SqlTypes
  import opened Parameters
  import opened Commands
  import opened Metadata
  import opened Strings
  import opened StringExtensions

  // ---------------------------------------------------------------------------------------------
  // Connection registry: `Dictionary<string, string>` entries in insertion order.

  type Registry = seq<(string, string)>

  predicate UniqueNames(entries: Registry)
  {
    forall i, j :: 0 <= i < j < |entries| ==> entries[i].0 != entries[j].0
  }

  /** The connection string registered under `name`, if any. */
  function Lookup(entries: Registry, name: string): (r: Option<string>)
    ensures r.None? <==> forall i :: 0 <= i < |entries| ==> entries[i].0 != name
    ensures r.Some? ==> (name, r.value) in entries
  {
    if entries == [] then None
    else if entries[0].0 == name then Some(entries[0].1)
    else Lookup(entries[1..], name)
  }

  /** With distinct names, the entry found is the one registered under the name. */
  lemma LookupUnique(entries: Registry, i: nat)
    requires UniqueNames(entries) && i < |entries|
    ensures Lookup(entries, entries[i].0) == Some(entries[i].1)
  {
    if i > 0 {
      assert entries[0].0 != entries[i].0;
      assert entries[1..][i - 1] == entries[i];
      LookupUnique(entries[1..], i - 1);
    }
  }

  /** Registering a new name makes it resolve to its string and leaves every other name as it was. */
  lemma {:induction false} LookupAfterRegister(entries: Registry, name: string, connectionString: string, q: string)
    requires Lookup(entries, name).None?
    ensures Lookup(entries + [(name, connectionString)], q) ==
              if q == name then Some(connectionString) else Lookup(entries, q)
  {
    if entries != [] {
      assert (entries + [(name, connectionString)])[1..] == entries[1..] + [(name, connectionString)];
      if entries[0].0 != q {
        LookupAfterRegister(entries[1..], name, connectionString, q);
      }
    }
  }

  /** `DefaultConnection`: `connections.First()`, which throws on an empty registry. */
  function DefaultConnection(entries: Registry): (r: Result<(string, string)>)
    ensures r.Ok? <==> entries != []
    ensures r.Err? ==> r.error == EmptySequence
    ensures r.Ok? ==> r.value == entries[0]
  {
    if entries == [] then Err(EmptySequence) else Ok(entries[0])
  }

  /** `GetConnection(name)`: `connections[name]`, which throws on an unknown name. */
  function GetConnection(entries: Registry, name: string): (r: Result<string>)
    ensures r.Err? <==> forall i :: 0 <= i < |entries| ==> entries[i].0 != name
    ensures r.Err? ==> r.error == KeyNotFound(name)
    ensures r.Ok? ==> (name, r.value) in entries
  {
    match Lookup(entries, name)
    case None => Err(KeyNotFound(name))
    case Some(s) => Ok(s)
  }

  /** `GetConnection()`: the default entry's connection string. */
  function GetDefaultConnection(entries: Registry): (r: Result<string>)
    ensures r.Ok? <==> entries != []
    ensures r.Ok? ==> r.value == entries[0].1
  {
    match DefaultConnection(entries)
    case Err(e) => Err(e)
    case Ok(entry) => Ok(entry.1)
  }

  /** `ContainsConnection(name)`. */
  function ContainsConnection(entries: Registry, name: string): (r: bool)
    ensures r <==> exists i :: 0 <= i < |entries| && entries[i].0 == name
  {
    Lookup(entries, name).Some?
  }

  /** `GetConnectionNameForType`: the [Connection] attribute's value, else the default entry's name. */
  function GetConnectionNameForType(entries: Registry, t: TypeInfo): (r: Result<string>)
    ensures AssignedConnection(t).Err? ==> r == Err(AssignedConnection(t).error)
    ensures AssignedConnection(t) == Ok(None) ==>
              r == (if entries == [] then Err(EmptySequence) else Ok(entries[0].0))
    ensures forall n :: AssignedConnection(t) == Ok(Some(n)) ==> r == Ok(n)
  {
    match AssignedConnection(t)
    case Err(e) => Err(e)
    case Ok(None) =>
      (match DefaultConnection(entries)
       case Err(e) => Err(e)
       case Ok(entry) => Ok(entry.0))
    case Ok(Some(n)) => Ok(n)
  }

  /**
   * `GetConnectionForType`: the [Connection] attribute's registered string (an unregistered one
   * throws), else the default entry's string.
   */
  function GetConnectionForType(entries: Registry, t: TypeInfo): Result<string>
  {
    match AssignedConnection(t)
    case Err(e) => Err(e)
    case Ok(None) => GetDefaultConnection(entries)
    case Ok(Some(n)) => GetConnection(entries, n)
  }

  /** The connection string for a type is the one registered under the type's connection name. */
  lemma ConnectionForTypeIsRegisteredUnderName(entries: Registry, t: TypeInfo)
    ensures GetConnectionForType(entries, t) ==
              match GetConnectionNameForType(entries, t)
              case Err(e) => Err(e)
              case Ok(n) => GetConnection(entries, n)
  {
  }

  /** `Query` and `QueryToDataTable`: a null name is the default entry; any other must be registered. */
  function QueryConnection(entries: Registry, name: Option<string>): Result<string>
  {
    match name
    case None => GetDefaultConnection(entries)
    case Some(n) => GetConnection(entries, n)
  }

  /**
   * The other entry points, once the name is filled in: the registered string, or the name
   * itself when nothing is registered under it.
   */
  function LenientConnection(entries: Registry, name: string): string
  {
    match Lookup(entries, name)
    case Some(s) => s
    case None => name
  }

  /** On an unregistered name Query throws, while the lenient entry points connect with the name itself. */
  lemma StrictAndLenientResolution(entries: Registry, name: string)
    ensures Lookup(entries, name).None? ==>
              QueryConnection(entries, Some(name)) == Err(KeyNotFound(name)) && LenientConnection(entries, name) == name
    ensures Lookup(entries, name).Some? ==>
              QueryConnection(entries, Some(name)) == Ok(LenientConnection(entries, name))
  {
  }

  /** `QueryInternal`/`ScalarInternal`: a null name is filled from the type. */
  function TypeFilledName(entries: Registry, t: TypeInfo, name: Option<string>): Result<string>
  {
    match name
    case Some(n) => Ok(n)
    case None => GetConnectionNameForType(entries, t)
  }

  /** `QueryMultiple`/`QueryDynamic`/`ScalarDynamic`: a null name is filled with the default entry's name. */
  function DefaultFilledName(entries: Registry, name: Option<string>): Result<string>
  {
    match name
    case Some(n) => Ok(n)
    case None =>
      match DefaultConnection(entries)
      case Err(e) => Err(e)
      case Ok(entry) => Ok(entry.0)
  }

  // ---------------------------------------------------------------------------------------------
  // Stored-procedure call text

  /** `@Name`, followed by ` OUTPUT` for an Output parameter. */
  function ParameterToken(p: ParameterData): string
  {
    "@" + p.name + (if p.direction == Some(Output) then " OUTPUT" else "")
  }

  function ParameterTokens(ps: seq<ParameterData>): (r: seq<string>)
    ensures |r| == |ps| && forall i :: 0 <= i < |ps| ==> r[i] == ParameterToken(ps[i])
  {
    seq(|ps|, i requires 0 <= i < |ps| => ParameterToken(ps[i]))
  }

  /** `exec <name> ` followed by the parameter tokens joined with `, `. */
  function StoredProcedureText(query: string, ps: seq<ParameterData>): string
  {
    "exec " + query + " " + Join(", ", ParameterTokens(ps))
  }

  /** With no parameters the call text keeps its trailing space. */
  lemma StoredProcedureTextEmpty(query: string)
    ensures StoredProcedureText(query, []) == "exec " + query + " "
  {
  }

  /** One more parameter adds `, ` and its token (only its token after the first). */
  lemma StoredProcedureTextSnoc(query: string, ps: seq<ParameterData>, p: ParameterData)
    ensures StoredProcedureText(query, ps + [p]) ==
              if ps == [] then "exec " + query + " " + ParameterToken(p)
              else StoredProcedureText(query, ps) + ", " + ParameterToken(p)
  {
    assert ParameterTokens(ps + [p]) == ParameterTokens(ps) + [ParameterToken(p)];
    JoinSnoc(", ", ParameterTokens(ps), ParameterToken(p));
  }

  /** `GenerateStoredProcedureQuery`: collects the tokens in a list, then joins them after `exec <name> `. */
  method GenerateStoredProcedureQuery(query: string, parameters: seq<Parameter>) returns (r: string)
    ensures r == StoredProcedureText(query, Snapshot(parameters))
  {
    var strings: seq<string> := [];
    var i := 0;
    while i < |parameters|
      invariant 0 <= i <= |parameters|
      invariant |strings| == i
      invariant forall k :: 0 <= k < i ==> strings[k] == ParameterToken(parameters[k].Data())
    {
      if parameters[i].direction == Some(Output) {
        strings := strings + ["@" + parameters[i].name + " OUTPUT"];
      } else {
        strings := strings + ["@" + parameters[i].name];
      }
      i := i + 1;
    }
    assert strings == ParameterTokens(Snapshot(parameters));
    r := "exec " + query + " " + Join(", ", strings);
  }

  // ---------------------------------------------------------------------------------------------
  // BuildParameterList: bind Parse=true parameters, splice Parse=false ones into the text

  /** `char.IsWhiteSpace`: Unicode separators and the ASCII/Latin-1 control whitespace. */
  predicate IsWhiteSpace(c: char)
  {
    c == ' ' || ('\t' <= c <= '\r') || c == '\U{0085}' || c == '\U{00A0}' || c == '\U{1680}'
    || ('\U{2000}' <= c <= '\U{200A}') || c == '\U{2028}' || c == '\U{2029}' || c == '\U{202F}'
    || c == '\U{205F}' || c == '\U{3000}'
  }

  /** `string.IsNullOrWhiteSpace`. */
  predicate IsNullOrWhiteSpace(s: Option<string>)
  {
    s.None? || forall i :: 0 <= i < |s.value| ==> IsWhiteSpace(s.value[i])
  }

  /**
   * The SqlParameter bound for a Parse=true parameter: its name and value (null becomes DBNull),
   * with SqlDbType, TypeName and Direction overridden only when the parameter supplies them.
   */
  function Bind(p: ParameterData): (b: SqlParameter)
    ensures b.parameterName == p.name
    ensures b.value == OrDbNull(p.value)
    ensures b.sqlDbType == if p.dbType.Some? then p.dbType.value else InferType(p.value)
    ensures b.typeName == if IsNullOrWhiteSpace(p.typeName) then "" else p.typeName.value
    ensures b.direction == p.direction.GetOr(Input)
  {
    var b := NewSqlParameter(p.name, p.value);
    var b := if p.value == Null then b.(value := DbNull) else b;
    var b := if p.dbType.Some? then b.(sqlDbType := p.dbType.value) else b;
    var b := if !IsNullOrWhiteSpace(p.typeName) then b.(typeName := p.typeName.value) else b;
    if p.direction.Some? then b.(direction := p.direction.value) else b
  }

  /**
   * What `(string)parameter.Value` gives `Replace`: a string as it is; null, which `Replace`
   * treats as the empty string; anything else fails the cast.
   */
  function SpliceText(v: Value): (r: Result<string>)
    ensures r.Err? <==> v.DbNull? || v.Other?
  {
    match v
    case Null => Ok("")
    case Str(s) => Ok(s)
    case _ => Err(InvalidCast)
  }

  /** The loop of BuildParameterList from a given command text and bound list onwards. */
  function BuildFrom(text: string, bound: seq<SqlParameter>, ps: seq<ParameterData>): (r: Result<(string, seq<SqlParameter>)>)
    ensures (forall k :: 0 <= k < |bound| ==> bound[k].value != Null) ==>
              r.Ok? ==> forall k :: 0 <= k < |r.value.1| ==> r.value.1[k].value != Null
    decreases |ps|
  {
    if ps == [] then Ok((text, bound))
    else if ps[0].parse then BuildFrom(text, bound + [Bind(ps[0])], ps[1..])
    else match SpliceText(ps[0].value)
      case Err(e) => Err(e)
      case Ok(v) => BuildFrom(ReplaceAll(text, "@" + ps[0].name, v), bound, ps[1..])
  }

  /** The command text and bound parameters BuildParameterList leaves, or the cast failure. */
  function BuildParameters(text: string, ps: seq<ParameterData>): Result<(string, seq<SqlParameter>)>
  {
    BuildFrom(text, [], ps)
  }

  /** The parameters bound: one per Parse=true parameter, in list order. */
  function BoundOf(ps: seq<ParameterData>): (r: seq<SqlParameter>)
    ensures |r| <= |ps|
    ensures forall k :: 0 <= k < |r| ==> r[k].value != Null
  {
    if ps == [] then [] else (if ps[0].parse then [Bind(ps[0])] else []) + BoundOf(ps[1..])
  }

  /** Every Parse=false parameter holds a string or null. */
  predicate Splicable(ps: seq<ParameterData>)
  {
    forall i :: 0 <= i < |ps| && !ps[i].parse ==> SpliceText(ps[i].value).Ok?
  }

  /** The text replacements: `@Name` to the value, one per Parse=false parameter, in list order. */
  function SplicesOf(ps: seq<ParameterData>): (r: seq<(string, string)>)
    requires Splicable(ps)
    ensures KeysNonEmpty(r)
  {
    if ps == [] then []
    else (if ps[0].parse then [] else [("@" + ps[0].name, SpliceText(ps[0].value).value)]) + SplicesOf(ps[1..])
  }

  /**
   * BuildParameterList fails exactly when a Parse=false parameter holds a non-string; otherwise
   * the bound list is the Parse=true parameters and the text is the original with each
   * Parse=false parameter's `@Name` replaced in turn.
   */
  lemma {:induction false} BuildFromSpec(text: string, bound: seq<SqlParameter>, ps: seq<ParameterData>)
    ensures BuildFrom(text, bound, ps).Err? <==> !Splicable(ps)
    ensures Splicable(ps) ==>
              BuildFrom(text, bound, ps) == Ok((ReplaceSequentially(text, SplicesOf(ps)), bound + BoundOf(ps)))
    decreases |ps|
  {
    if ps != [] {
      var p := ps[0];
      SplicableTail(ps);
      if p.parse {
        assert BuildFrom(text, bound, ps) == BuildFrom(text, bound + [Bind(p)], ps[1..]);
        BuildFromSpec(text, bound + [Bind(p)], ps[1..]);
        if Splicable(ps) {
          ParsedHead(bound, ps);
        }
      } else if SpliceText(p.value).Ok? {
        var v := SpliceText(p.value).value;
        assert BuildFrom(text, bound, ps) == BuildFrom(ReplaceAll(text, "@" + p.name, v), bound, ps[1..]);
        BuildFromSpec(ReplaceAll(text, "@" + p.name, v), bound, ps[1..]);
        if Splicable(ps) {
          SplicedHead(text, ps);
        }
      }
    } else {
      assert bound + BoundOf(ps) == bound;
    }
  }

  lemma SplicableTail(ps: seq<ParameterData>)
    requires ps != []
    ensures Splicable(ps) <==> (ps[0].parse || SpliceText(ps[0].value).Ok?) && Splicable(ps[1..])
  {
    forall i | 0 <= i < |ps[1..]| ensures ps[1..][i] == ps[i + 1] { }
  }

  /** A Parse=true head is bound first and adds no replacement. */
  lemma ParsedHead(bound: seq<SqlParameter>, ps: seq<ParameterData>)
    requires ps != [] && ps[0].parse && Splicable(ps)
    ensures Splicable(ps[1..]) && SplicesOf(ps) == SplicesOf(ps[1..])
    ensures bound + BoundOf(ps) == (bound + [Bind(ps[0])]) + BoundOf(ps[1..])
  {
    SplicableTail(ps);
    assert BoundOf(ps) == [Bind(ps[0])] + BoundOf(ps[1..]);
  }

  /** A Parse=false head is replaced in the text first and binds nothing. */
  lemma SplicedHead(text: string, ps: seq<ParameterData>)
    requires ps != [] && !ps[0].parse && Splicable(ps)
    ensures Splicable(ps[1..]) && BoundOf(ps) == BoundOf(ps[1..])
    ensures ReplaceSequentially(text, SplicesOf(ps)) ==
              ReplaceSequentially(ReplaceAll(text, "@" + ps[0].name, SpliceText(ps[0].value).value), SplicesOf(ps[1..]))
  {
    SplicableTail(ps);
    var d := SplicesOf(ps);
    assert d == [("@" + ps[0].name, SpliceText(ps[0].value).value)] + SplicesOf(ps[1..]);
    assert d[1..] == SplicesOf(ps[1..]);
  }

  /** `BuildParameterList`: walks the parameters, appending bound ones and rewriting the text for the rest. */
  method BuildParameterList(commandText: string, parameters: seq<Parameter>) returns (r: Result<(string, seq<SqlParameter>)>)
    ensures r == BuildParameters(commandText, Snapshot(parameters))
  {
    ghost var ps := Snapshot(parameters);
    var text, bound := commandText, [];
    var i := 0;
    while i < |parameters|
      invariant 0 <= i <= |parameters|
      invariant BuildFrom(text, bound, ps[i..]) == BuildParameters(commandText, ps)
    {
      assert ps[i..][1..] == ps[i + 1..];
      var p := parameters[i];
      if p.parse {
        bound := bound + [Bind(p.Data())];
      } else {
        var splice := SpliceText(p.value);
        if splice.Err? {
          return Err(splice.error);
        }
        text := ReplaceAll(text, "@" + p.name, splice.value);
      }
      i := i + 1;
    }
    assert ps[i..] == [];
    r := Ok((text, bound));
  }

  // ---------------------------------------------------------------------------------------------
  // Diagnostic query text (GenerateSqlQuery)

  /** The eight SqlDbTypes whose values the diagnostic text quotes. */
  predicate QuotedType(t: SqlDbType)
  {
    t == DateTime || t == DateTime2 || t == NChar || t == NText || t == NVarChar
    || t == SmallDateTime || t == Text || t == VarChar
  }

  /** How the diagnostic text shows a bound parameter: NULL, a quoted value, or the value's text. */
  function Rendered(p: SqlParameter): string
    requires p.value != Null
  {
    if p.value == DbNull then "NULL"
    else if QuotedType(p.sqlDbType) then "'" + ToText(p.value) + "'"
    else ToText(p.value)
  }

  predicate NoNullValues(bound: seq<SqlParameter>)
  {
    forall k :: 0 <= k < |bound| ==> bound[k].value != Null
  }

  /** The replacements of the diagnostic text: each bound parameter's `@Name` by its rendering, in order. */
  function DiagnosticPairs(bound: seq<SqlParameter>): (r: seq<(string, string)>)
    requires NoNullValues(bound)
    ensures |r| == |bound| && KeysNonEmpty(r)
    ensures forall k :: 0 <= k < |bound| ==> r[k] == ("@" + bound[k].parameterName, Rendered(bound[k]))
  {
    seq(|bound|, k requires 0 <= k < |bound| => ("@" + bound[k].parameterName, Rendered(bound[k])))
  }

  /** The diagnostic text of a command text and its bound parameters. */
  function DiagnosticText(text: string, bound: seq<SqlParameter>): string
    requires NoNullValues(bound)
  {
    ReplaceSequentially(text, DiagnosticPairs(bound))
  }

  /** A bound parameter never holds C# null, so the diagnostic text is always defined for it. */
  lemma BoundHasNoNull(text: string, ps: seq<ParameterData>)
    ensures BuildParameters(text, ps).Ok? ==> NoNullValues(BuildParameters(text, ps).value.1)
  {
  }

  // ---------------------------------------------------------------------------------------------
  // Output parameters

  /** Position of the first bound parameter with the given name. */
  function FirstNamed(bound: seq<SqlParameter>, name: string): (r: Option<nat>)
    ensures r.Some? ==> r.value < |bound| && bound[r.value].parameterName == name
                        && forall j :: 0 <= j < r.value ==> bound[j].parameterName != name
    ensures r.None? ==> forall j :: 0 <= j < |bound| ==> bound[j].parameterName != name
  {
    if bound == [] then None
    else if bound[0].parameterName == name then Some(0)
    else match FirstNamed(bound[1..], name)
      case None => None
      case Some(j) => Some(j + 1)
  }

  /** A parameter after PopulateParameters: an Output one takes the value of the first bound parameter of its name. */
  function Populated(p: ParameterData, bound: seq<SqlParameter>): (r: ParameterData)
    ensures r.(value := p.value) == p
    ensures r != p ==> p.direction == Some(Output) && FirstNamed(bound, p.name).Some?
  {
    if p.direction == Some(Output) then
      match FirstNamed(bound, p.name)
      case Some(j) => p.(value := bound[j].value)
      case None => p
    else p
  }

  /** A parameter populated twice is populated once. */
  lemma PopulatedIdempotent(p: ParameterData, bound: seq<SqlParameter>)
    ensures Populated(Populated(p, bound), bound) == Populated(p, bound)
  {
  }

  /** `PopulateParameters`: copies back the value of every Output parameter; nothing else changes. */
  method PopulateParameters(bound: seq<SqlParameter>, parameters: seq<Parameter>)
    modifies parameters
    ensures forall i :: 0 <= i < |parameters| ==> parameters[i].Data() == Populated(old(parameters[i].Data()), bound)
  {
    var i := 0;
    while i < |parameters|
      invariant 0 <= i <= |parameters|
      invariant forall k :: 0 <= k < |parameters| ==>
                  parameters[k].Data() == if parameters[k] in parameters[..i]
                                          then Populated(old(parameters[k].Data()), bound)
                                          else old(parameters[k].Data())
    {
      var parameter := parameters[i];
      if parameter.direction == Some(Output) {
        var j := 0;
        while j < |bound|
          invariant 0 <= j <= |bound|
          invariant forall m :: 0 <= m < j ==> bound[m].parameterName != parameter.name
        {
          if bound[j].parameterName == parameter.name {
            parameter.value := bound[j].value;
            break;
          }
          j := j + 1;
        }
      }
      assert parameters[..i + 1] == parameters[..i] + [parameter];
      i := i + 1;
    }
    assert parameters[..i] == parameters;
  }

  // ---------------------------------------------------------------------------------------------
  // One execution

  /** What the server does to the bound parameters: it sets each non-Input one it returns a value for. */
  function AfterExecution(bound: seq<SqlParameter>, returned: map<string, Value>): (r: seq<SqlParameter>)
    ensures |r| == |bound|
    ensures forall k :: 0 <= k < |bound| ==> r[k].(value := bound[k].value) == bound[k]
  {
    seq(|bound|, k requires 0 <= k < |bound| =>
      if bound[k].direction != Input && bound[k].parameterName in returned
      then bound[k].(value := returned[bound[k].parameterName]) else bound[k])
  }

  /** The command text, bound parameters and timeout a SqlCommand ran with, and where. */
  datatype Execution = Execution(connectionString: string, commandText: string, parameters: seq<SqlParameter>, timeout: int)

  /** The state one execution leaves: the command's text, its parameters, the diagnostic text, the outcome. */
  datatype Outcome = Outcome(query: string, parameters: seq<ParameterData>, currentSqlQuery: string, result: Result<Execution>)

  /**
   * One execution: the stored-procedure rewrite of `command.Query`, BuildParameterList, the
   * diagnostic text when enabled, the round trip, and PopulateParameters.
   */
  function ExecuteSpec(query: string, style: CommandStyle, timeout: int, ps: seq<ParameterData>, connectionString: string,
                       generateQueryText: bool, currentSqlQuery: string, returned: map<string, Value>): Outcome
  {
    var q := if style == StoredProcedure then StoredProcedureText(query, ps) else query;
    BoundHasNoNull(q, ps);
    match BuildParameters(q, ps)
    case Err(e) => Outcome(q, ps, currentSqlQuery, Err(e))
    case Ok(built) =>
      var diagnostic := if generateQueryText then DiagnosticText(built.0, built.1) else currentSqlQuery;
      var executed := AfterExecution(built.1, returned);
      Outcome(q, seq(|ps|, i requires 0 <= i < |ps| => Populated(ps[i], executed)), diagnostic,
              Ok(Execution(connectionString, built.0, executed, timeout)))
  }

  /**
   * An Output parameter bound under a name no earlier parameter uses gets back the value the
   * server returned for it; a non-Output parameter is never changed.
   */
  lemma OutputValueCopiedBack(query: string, timeout: int, ps: seq<ParameterData>, connectionString: string,
                              gen: bool, diag: string, returned: map<string, Value>, i: nat)
    requires i < |ps| && ps[i].parse && ps[i].direction == Some(Output) && ps[i].name in returned
    requires forall j :: 0 <= j < i ==> ps[j].name != ps[i].name
    requires Splicable(ps)
    ensures ExecuteSpec(query, CommandStyle.Query, timeout, ps, connectionString, gen, diag, returned).parameters[i].value
            == returned[ps[i].name]
  {
    var bound := BoundOf(ps);
    var executed := AfterExecution(bound, returned);
    ExecuteSplicable(query, timeout, ps, connectionString, gen, diag, returned);
    var k := BoundIndex(ps, i);
    FirstNamedAfterExecution(bound, returned, ps[i].name);
    assert bound[k].direction == Output && bound[k].parameterName == ps[i].name;
    assert executed[k].value == returned[ps[i].name];
    assert Populated(ps[i], executed).value == returned[ps[i].name];
  }

  /** With splicable parameters, each parameter after the execution is populated from the executed bound list. */
  lemma ExecuteSplicable(query: string, timeout: int, ps: seq<ParameterData>, connectionString: string,
                         gen: bool, diag: string, returned: map<string, Value>)
    requires Splicable(ps)
    ensures var executed := AfterExecution(BoundOf(ps), returned);
            ExecuteSpec(query, CommandStyle.Query, timeout, ps, connectionString, gen, diag, returned).parameters ==
              seq(|ps|, i requires 0 <= i < |ps| => Populated(ps[i], executed))
  {
    BuildFromSpec(query, [], ps);
    assert [] + BoundOf(ps) == BoundOf(ps);
  }

  /** The server changes values only, so name lookups are the same before and after. */
  lemma {:induction false} FirstNamedAfterExecution(bound: seq<SqlParameter>, returned: map<string, Value>, name: string)
    ensures FirstNamed(AfterExecution(bound, returned), name) == FirstNamed(bound, name)
  {
    if bound != [] {
      var executed := AfterExecution(bound, returned);
      assert executed[0].(value := bound[0].value) == bound[0];
      assert executed[1..] == AfterExecution(bound[1..], returned);
      FirstNamedAfterExecution(bound[1..], returned, name);
    }
  }

  /** Binding a list whose head is a parameter of another name leaves the lookup of `name` one place later. */
  lemma FirstNamedPastHead(ps: seq<ParameterData>, name: string, k: nat)
    requires ps != [] && ps[0].name != name
    requires FirstNamed(BoundOf(ps[1..]), name) == Some(k)
    ensures ps[0].parse ==> BoundOf(ps) == [Bind(ps[0])] + BoundOf(ps[1..])
                            && FirstNamed(BoundOf(ps), name) == Some(k + 1)
    ensures !ps[0].parse ==> BoundOf(ps) == BoundOf(ps[1..])
  {
    if ps[0].parse {
      var b := BoundOf(ps);
      assert b[1..] == BoundOf(ps[1..]);
    }
  }

  /** The position in BoundOf(ps) of the Parse=true parameter at index i, when no earlier one shares its name. */
  function BoundIndex(ps: seq<ParameterData>, i: nat): (k: nat)
    requires i < |ps| && ps[i].parse
    requires forall j :: 0 <= j < i ==> ps[j].name != ps[i].name
    ensures k < |BoundOf(ps)| && BoundOf(ps)[k] == Bind(ps[i]) && FirstNamed(BoundOf(ps), ps[i].name) == Some(k)
  {
    if i == 0 then
      assert BoundOf(ps)[0] == Bind(ps[0]);
      0
    else
      assert ps[1..][i - 1] == ps[i];
      var k := BoundIndex(ps[1..], i - 1);
      FirstNamedPastHead(ps, ps[i].name, k);
      if ps[0].parse then k + 1 else k
  }

  /**
   * A list of Parse=true parameters none of which is Output (what the entity builders produce)
   * runs the text unchanged, binds every parameter, and comes back with the same parameters.
   */
  lemma {:induction false} ExecuteBoundOnly(query: string, timeout: int, ps: seq<ParameterData>, connectionString: string,
                                            gen: bool, diag: string, returned: map<string, Value>)
    requires forall i :: 0 <= i < |ps| ==> ps[i].parse && ps[i].direction != Some(Output)
    ensures ExecuteSpec(query, CommandStyle.Query, timeout, ps, connectionString, gen, diag, returned) ==
              Outcome(query, ps, if gen then DiagnosticText(query, BoundOf(ps)) else diag,
                      Ok(Execution(connectionString, query, AfterExecution(BoundOf(ps), returned), timeout)))
  {
    BuildFromSpec(query, [], ps);
    assert SplicesOf(ps) == [] by { AllBoundNoSplices(ps); }
    assert [] + BoundOf(ps) == BoundOf(ps);
    var executed := AfterExecution(BoundOf(ps), returned);
    assert seq(|ps|, i requires 0 <= i < |ps| => Populated(ps[i], executed)) == ps;
  }

  lemma {:induction false} AllBoundNoSplices(ps: seq<ParameterData>)
    requires forall i :: 0 <= i < |ps| ==> ps[i].parse
    ensures Splicable(ps) && SplicesOf(ps) == []
  {
    if ps != [] {
      AllBoundNoSplices(ps[1..]);
    }
  }

  /** The data of a command's parameter list; a null list has none. */
  function ParamsData(command: Command): seq<ParameterData>
    reads command`parameters, command.ParameterObjects()
  {
    if command.parameters.Some? then Snapshot(command.parameters.value) else []
  }

  /** `command.Parameters ?? new List<Parameter>()`. */
  function Normalized(parameters: Option<seq<Parameter>>): (r: Option<seq<Parameter>>)
    ensures r.Some?
  {
    if parameters.None? then Some([]) else parameters
  }

  /** The store: the registry, the trust switch and the diagnostic text. */
  class Data {
    var connections: Registry
    var isPartialTrust: bool
    var generateQueryText: bool
    var currentSqlQuery: string

    ghost predicate Valid()
      reads this
    {
      UniqueNames(connections)
    }

    constructor ()
      ensures Valid()
      ensures connections == [] && !isPartialTrust && !generateQueryText && currentSqlQuery == ""
    {
      connections, isPartialTrust, generateQueryText, currentSqlQuery := [], false, false, "";
    }

    /** `GenerateQueryText = value`: switching it off clears the diagnostic text. */
    method SetGenerateQueryText(value: bool)
      modifies this`generateQueryText, this`currentSqlQuery
      ensures generateQueryText == value
      ensures currentSqlQuery == if value then old(currentSqlQuery) else ""
    {
      generateQueryText := value;
      if !generateQueryText {
        currentSqlQuery := "";
      }
    }

    /**
     * `AddConnection(name, connectionString)`: `Dictionary.Add`, which throws on a name already
     * present. Entries are never removed or replaced, so the first one stays the default.
     */
    method AddConnection(name: string, connectionString: string) returns (r: Result<()>)
      requires Valid()
      modifies this`connections
      ensures Valid()
      ensures old(connections) <= connections
      ensures Lookup(old(connections), name).Some? ==> r == Err(DuplicateKey(name)) && connections == old(connections)
      ensures Lookup(old(connections), name).None? ==> r == Ok(()) && connections == old(connections) + [(name, connectionString)]
      ensures old(connections) != [] ==> connections[0] == old(connections)[0]
    {
      if Lookup(connections, name).Some? {
        return Err(DuplicateKey(name));
      }
      connections := connections + [(name, connectionString)];
      r := Ok(());
    }

    /** The shared part of every entry point once the connection string is known. */
    method Execute(command: Command, connectionString: string, returned: map<string, Value>) returns (r: Result<Execution>)
      requires command.parameters.Some?
      modifies this`currentSqlQuery, command`query, command.parameters.value
      ensures command.parameters == old(command.parameters)
      ensures var o := ExecuteSpec(old(command.query), command.style, command.timeout, old(Snapshot(command.parameters.value)),
                                   connectionString, generateQueryText, old(currentSqlQuery), returned);
              command.query == o.query && Snapshot(command.parameters.value) == o.parameters
              && currentSqlQuery == o.currentSqlQuery && r == o.result
    {
      var ps := command.parameters.value;
      ghost var data := Snapshot(ps);
      ghost var o := ExecuteSpec(command.query, command.style, command.timeout, data, connectionString,
                                 generateQueryText, currentSqlQuery, returned);
      if command.style == StoredProcedure {
        var q := GenerateStoredProcedureQuery(command.query, ps);
        command.query := q;
      }
      assert command.query == o.query;
      BoundHasNoNull(command.query, data);
      var built := BuildParameterList(command.query, ps);
      assert built == BuildParameters(o.query, data);
      if built.Err? {
        assert o == Outcome(o.query, data, currentSqlQuery, Err(built.error));
        return Err(built.error);
      }
      var text, bound := built.value.0, built.value.1;
      r := RunBuilt(text, bound, ps, connectionString, command.timeout, returned);
      assert o == Outcome(o.query, Snapshot(ps), currentSqlQuery, r);
    }

    /**
     * The rest of one execution once the parameters are built: the diagnostic text when enabled,
     * the round trip, and PopulateParameters on the parameter objects.
     */
    method RunBuilt(text: string, bound: seq<SqlParameter>, ps: seq<Parameter>, connectionString: string, timeout: int,
                    returned: map<string, Value>) returns (r: Result<Execution>)
      requires NoNullValues(bound)
      modifies this`currentSqlQuery, ps
      ensures currentSqlQuery == if generateQueryText then DiagnosticText(text, bound) else old(currentSqlQuery)
      ensures var executed := AfterExecution(bound, returned);
              && r == Ok(Execution(connectionString, text, executed, timeout))
              && Snapshot(ps) == seq(|ps|, i requires 0 <= i < |ps| => Populated(old(Snapshot(ps))[i], executed))
    {
      if generateQueryText {
        GenerateSqlQuery(text, bound);
      }
      var executed := AfterExecution(bound, returned);
      PopulateParameters(executed, ps);
      r := Ok(Execution(connectionString, text, executed, timeout));
    }

    /** `GenerateSqlQuery`: starts from the command text and replaces each bound parameter's `@Name` by its rendering. */
    method GenerateSqlQuery(commandText: string, bound: seq<SqlParameter>)
      requires NoNullValues(bound)
      modifies this`currentSqlQuery
      ensures currentSqlQuery == DiagnosticText(commandText, bound)
    {
      ghost var pairs := DiagnosticPairs(bound);
      currentSqlQuery := commandText;
      var i := 0;
      while i < |bound|
        invariant 0 <= i <= |bound|
        invariant ReplaceSequentially(currentSqlQuery, pairs[i..]) == DiagnosticText(commandText, bound)
      {
        assert pairs[i..][1..] == pairs[i + 1..];
        var parameter := bound[i];
        if parameter.value == DbNull {
          currentSqlQuery := ReplaceAll(currentSqlQuery, "@" + parameter.parameterName, "NULL");
        } else if QuotedType(parameter.sqlDbType) {
          currentSqlQuery := ReplaceAll(currentSqlQuery, "@" + parameter.parameterName, "'" + ToText(parameter.value) + "'");
        } else {
          currentSqlQuery := ReplaceAll(currentSqlQuery, "@" + parameter.parameterName, ToText(parameter.value));
        }
        i := i + 1;
      }
    }

    /** `command.Parameters = command.Parameters ?? new List<Parameter>()`. */
    method NormalizeParameters(command: Command)
      modifies command`parameters
      ensures command.parameters == Normalized(old(command.parameters))
      ensures ParamsData(command) == old(ParamsData(command))
    {
      if command.parameters.None? {
        command.parameters := Some([]);
      }
    }

    /**
     * `Query(command)` (and `QueryToDataTable`, which resolves and prepares the command the same
     * way): the connection is resolved strictly first, then a null parameter list is replaced by an
     * empty one and the command runs.
     */
    method Query(command: Command, returned: map<string, Value>) returns (r: Result<Execution>)
      modifies this`currentSqlQuery, command`query, command`parameters, command.ParameterObjects()
      ensures QueryConnection(connections, command.connection).Err? ==>
                && r == Err(QueryConnection(connections, command.connection).error)
                && command.query == old(command.query) && command.parameters == old(command.parameters)
                && currentSqlQuery == old(currentSqlQuery) && ParamsData(command) == old(ParamsData(command))
      ensures QueryConnection(connections, command.connection).Ok? ==>
                var o := ExecuteSpec(old(command.query), command.style, command.timeout, old(ParamsData(command)),
                                     QueryConnection(connections, command.connection).value, generateQueryText,
                                     old(currentSqlQuery), returned);
                && command.parameters == Normalized(old(command.parameters))
                && command.query == o.query && ParamsData(command) == o.parameters
                && currentSqlQuery == o.currentSqlQuery && r == o.result
    {
      var connectionString := QueryConnection(connections, command.connection);
      if connectionString.Err? {
        return Err(connectionString.error);
      }
      NormalizeParameters(command);
      r := Execute(command, connectionString.value, returned);
    }

    /**
     * `Query<T>(command)` and `Scalar<T>(command)`: a null parameter list is replaced first; the
     * partial-trust switch picks the internal variant (both resolve and prepare alike); a null
     * connection name is filled from the type and kept on the command; an unregistered name is
     * used as the connection string.
     */
    method QueryOf(command: Command, t: TypeInfo, returned: map<string, Value>) returns (r: Result<Execution>, partialTrust: bool)
      modifies this`currentSqlQuery, command`query, command`parameters, command`connection, command.ParameterObjects()
      ensures partialTrust == isPartialTrust
      ensures command.parameters == Normalized(old(command.parameters))
      ensures TypeFilledName(connections, t, old(command.connection)).Err? ==>
                && r == Err(TypeFilledName(connections, t, old(command.connection)).error)
                && command.query == old(command.query) && command.connection == old(command.connection)
                && currentSqlQuery == old(currentSqlQuery) && ParamsData(command) == old(ParamsData(command))
      ensures TypeFilledName(connections, t, old(command.connection)).Ok? ==>
                var name := TypeFilledName(connections, t, old(command.connection)).value;
                var o := ExecuteSpec(old(command.query), command.style, command.timeout, old(ParamsData(command)),
                                     LenientConnection(connections, name), generateQueryText, old(currentSqlQuery), returned);
                && command.connection == Some(name)
                && command.query == o.query && ParamsData(command) == o.parameters
                && currentSqlQuery == o.currentSqlQuery && r == o.result
    {
      NormalizeParameters(command);
      partialTrust := isPartialTrust;
      var name := TypeFilledName(connections, t, command.connection);
      if name.Err? {
        return Err(name.error), partialTrust;
      }
      command.connection := Some(name.value);
      ghost var data := Snapshot(command.parameters.value);
      assert data == old(ParamsData(command));
      r := Execute(command, LenientConnection(connections, name.value), returned);
      assert ParamsData(command) == Snapshot(command.parameters.value);
    }

    /**
     * `QueryMultiple`, `QueryDynamic` and `ScalarDynamic`: a null connection name is filled with
     * the default entry's name and kept on the command; an unregistered name is used as the
     * connection string; then a null parameter list is replaced and the command runs.
     */
    method QueryByDefault(command: Command, returned: map<string, Value>) returns (r: Result<Execution>)
      modifies this`currentSqlQuery, command`query, command`parameters, command`connection, command.ParameterObjects()
      ensures DefaultFilledName(connections, old(command.connection)).Err? ==>
                && r == Err(DefaultFilledName(connections, old(command.connection)).error)
                && command.query == old(command.query) && command.connection == old(command.connection)
                && command.parameters == old(command.parameters)
                && currentSqlQuery == old(currentSqlQuery) && ParamsData(command) == old(ParamsData(command))
      ensures DefaultFilledName(connections, old(command.connection)).Ok? ==>
                var name := DefaultFilledName(connections, old(command.connection)).value;
                var o := ExecuteSpec(old(command.query), command.style, command.timeout, old(ParamsData(command)),
                                     LenientConnection(connections, name), generateQueryText, old(currentSqlQuery), returned);
                && command.connection == Some(name)
                && command.parameters == Normalized(old(command.parameters))
                && command.query == o.query && ParamsData(command) == o.parameters
                && currentSqlQuery == o.currentSqlQuery && r == o.result
    {
      var name := DefaultFilledName(connections, command.connection);
      if name.Err? {
        return Err(name.error);
      }
      command.connection := Some(name.value);
      NormalizeParameters(command);
      r := Execute(command, LenientConnection(connections, name.value), returned);
    }
  }
}
