/** `Command` (SqlData/Command.cs): the statement, connection name and parameters a Store call runs. */
module Commands {
  import opened Wrappers
  import opened SqlTypes
  import opened Parameters
  import opened SqlResults

  datatype CommandStyle = Query | StoredProcedure

  /** The `Dictionary<string, object>` behind `Command.SessionContext`, in insertion order. */
  class SessionContext {
    var entries: seq<(string, Value)>

    constructor ()
      ensures entries == []
    {
      entries := [];
    }

    /** `Dictionary.Add`: fails on a key already present, otherwise appends the entry. */
    method Add(key: string, value: Value) returns (r: Result<()>)
      modifies this
      ensures (exists i :: 0 <= i < |old(entries)| && old(entries)[i].0 == key) ==>
                r == Err(DuplicateKey(key)) && entries == old(entries)
      ensures (forall i :: 0 <= i < |old(entries)| ==> old(entries)[i].0 != key) ==>
                r == Ok(()) && entries == old(entries) + [(key, value)]
    {
      var i := 0;
      while i < |entries|
        invariant 0 <= i <= |entries|
        invariant forall k :: 0 <= k < i ==> entries[k].0 != key
      {
        if entries[i].0 == key {
          return Err(DuplicateKey(key));
        }
        i := i + 1;
      }
      entries := entries + [(key, value)];
      r := Ok(());
    }
  }

  class Command {
    var query: string
    var connection: Option<string>
    var timeout: int
    var parameters: Option<seq<Parameter>>
    const sessionContext: SessionContext
    var style: CommandStyle
    var tables: Option<seq<SqlResult>>

    /**
     * `new Command()`: Timeout 30, empty Parameters and Tables lists, Style Query, an empty
     * SessionContext that can be filled but never replaced; no connection name.
     */
    constructor ()
      ensures query == "" && connection == None
      ensures timeout == 30
      ensures parameters == Some([]) && tables == Some([])
      ensures style == Query
      ensures fresh(sessionContext) && sessionContext.entries == []
    {
      query, connection, timeout := "", None, 30;
      parameters, tables, style := Some([]), Some([]), Query;
      sessionContext := new SessionContext();
    }

    /** The parameter objects a Store call may update (none while Parameters is null). */
    function ParameterObjects(): set<Parameter>
      reads this`parameters
    {
      if parameters.Some? then set p | p in parameters.value else {}
    }
  }

  /** `Command.AddParameters(params)`: a list holding exactly the given parameters, in order. */
  function AddParameters(ps: seq<Parameter>): (r: seq<Parameter>)
    ensures |r| == |ps| && forall i :: 0 <= i < |ps| ==> r[i] == ps[i]
  {
    ps
  }

  /** `Command.AddTables(tables)`: a list holding exactly the given result descriptors, in order. */
  function AddTables(ts: seq<SqlResult>): (r: seq<SqlResult>)
    ensures |r| == |ts| && forall i :: 0 <= i < |ts| ==> r[i] == ts[i]
  {
    ts
  }
}
