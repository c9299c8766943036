/**
 * The column-level parts of `Data` and `StoreEntityExtensions` (SqlData/Store.cs): the property
 * map a typed query materializes through, the column list of `All<T>`, the naming and shaping of
 * `QueryMultiple`'s result sets, and the DataTable `CreateAll` bulk-copies. A reader's result set
 * is its column names and its rows of values.
 */
module StoreMapping {
  import opened Wrappers
  import opened SqlTypes
  import opened Commands
  import opened Metadata
  import opened Strings
  import opened StringExtensions
  import opened TypeExtensions
  import opened SqlResults
  import opened Store
  import opened Entities

  // ---------------------------------------------------------------------------------------------
  // HasColumn and GetPropertyMap

  /** `HasColumn(reader, name)`: some column of the schema has exactly this name. */
  function HasColumn(columns: seq<string>, name: string): (r: bool)
    ensures r <==> name in columns
  {
    if columns == [] then false
    else columns[0] == name || HasColumn(columns[1..], name)
  }

  /**
   * The map `GetPropertyMap<T>` builds over the properties seen so far, as (property position,
   * ordinal) pairs in insertion order: a property the read rule keeps and whose exact name is a
   * column, with the reader's ordinal for that name.
   */
  function PropertyMap(props: seq<PropertyInfo>, columns: seq<string>, ignoreAll: bool): (r: seq<(nat, nat)>)
    ensures forall k :: 0 <= k < |r| ==> r[k].0 < |props|
  {
    if props == [] then []
    else
      var n := |props| - 1;
      var p := props[n];
      PropertyMap(props[..n], columns, ignoreAll) +
        if Keeps(Read, p, ignoreAll) && HasColumn(columns, p.name) then
          match GetOrdinal(columns, p.name)
          case Ok(o) => [(n, o)]
          case Err(_) => []
        else []
  }

  /** Some entry of the map is for the property at position i. */
  predicate Mapped(m: seq<(nat, nat)>, i: nat)
  {
    exists k :: 0 <= k < |m| && m[k].0 == i
  }

  /** An entry for a property the read rule keeps, with the first column of exactly its name. */
  predicate EntryFor(props: seq<PropertyInfo>, columns: seq<string>, ignoreAll: bool, e: (nat, nat))
  {
    && e.0 < |props|
    && Keeps(Read, props[e.0], ignoreAll)
    && props[e.0].name in columns
    && e.1 == IndexOf(columns, props[e.0].name).value
  }

  /**
   * Each entry is for a property the read rule keeps, with the first column of exactly that name,
   * and the entries follow declaration order.
   */
  lemma {:induction false} PropertyMapEntries(props: seq<PropertyInfo>, columns: seq<string>, ignoreAll: bool)
    ensures forall k :: 0 <= k < |PropertyMap(props, columns, ignoreAll)| ==>
              EntryFor(props, columns, ignoreAll, PropertyMap(props, columns, ignoreAll)[k])
    ensures forall j, k :: 0 <= j < k < |PropertyMap(props, columns, ignoreAll)| ==>
              PropertyMap(props, columns, ignoreAll)[j].0 < PropertyMap(props, columns, ignoreAll)[k].0
  {
    if props != [] {
      var n := |props| - 1;
      var prev := PropertyMap(props[..n], columns, ignoreAll);
      PropertyMapEntries(props[..n], columns, ignoreAll);
      GetOrdinalSpec(columns, props[n].name);
      var m := PropertyMap(props, columns, ignoreAll);
      var kept := Keeps(Read, props[n], ignoreAll) && props[n].name in columns;
      assert m == prev + if kept then [(n, IndexOf(columns, props[n].name).value)] else [];
      forall k | 0 <= k < |m|
        ensures EntryFor(props, columns, ignoreAll, m[k])
      {
        if k < |prev| {
          assert EntryFor(props[..n], columns, ignoreAll, prev[k]);
          assert props[..n][prev[k].0] == props[prev[k].0];
        }
      }
      forall j, k | 0 <= j < k < |m|
        ensures m[j].0 < m[k].0
      {
        if k >= |prev| {
          assert EntryFor(props[..n], columns, ignoreAll, prev[j]);
        }
      }
    }
  }

  /** The map holds exactly the properties the read rule keeps whose exact name is a column. */
  lemma {:induction false} PropertyMapComplete(props: seq<PropertyInfo>, columns: seq<string>, ignoreAll: bool)
    ensures var m := PropertyMap(props, columns, ignoreAll);
            forall i :: 0 <= i < |props| ==> (Mapped(m, i) <==> Keeps(Read, props[i], ignoreAll) && props[i].name in columns)
  {
    if props != [] {
      var n := |props| - 1;
      var prev := PropertyMap(props[..n], columns, ignoreAll);
      PropertyMapComplete(props[..n], columns, ignoreAll);
      GetOrdinalSpec(columns, props[n].name);
      var m := PropertyMap(props, columns, ignoreAll);
      assert forall k :: 0 <= k < |prev| ==> m[k] == prev[k];
      forall i | 0 <= i < |props|
        ensures Mapped(m, i) <==> Keeps(Read, props[i], ignoreAll) && props[i].name in columns
      {
        if i < n {
          assert props[..n][i] == props[i];
          if Mapped(m, i) {
            var k :| 0 <= k < |m| && m[k].0 == i;
            assert k < |prev|;
          }
        } else {
          assert forall k :: 0 <= k < |prev| ==> m[k].0 < n;
          if Keeps(Read, props[i], ignoreAll) && props[i].name in columns {
            assert m[|prev|].0 == n;
          }
        }
      }
    }
  }

  /** `GetPropertyMap<T>(reader, isClassIgnoreAll)`. */
  method GetPropertyMap(t: TypeInfo, columns: seq<string>, isClassIgnoreAll: bool) returns (m: seq<(nat, nat)>)
    ensures m == PropertyMap(t.properties, columns, isClassIgnoreAll)
  {
    var props := t.properties;
    m := [];
    var i := 0;
    while i < |props|
      invariant 0 <= i <= |props|
      invariant m == PropertyMap(props[..i], columns, isClassIgnoreAll)
    {
      var p := props[i];
      assert props[..i + 1][..i] == props[..i];
      if p.ignore {
      } else if isClassIgnoreAll && !p.included && !p.key {
      } else if !HasColumn(columns, p.name) {
      } else {
        GetOrdinalSpec(columns, p.name);
        m := m + [(i, GetOrdinal(columns, p.name).value)];
      }
      i := i + 1;
    }
    assert props[..i] == props;
  }

  /**
   * The typed query's map and `GetOrdinalValuesFromDataReader` disagree on a column whose name
   * differs from the property's only in case: the first needs an exact match, the second does not.
   */
  lemma CaseOnlyColumnMatch()
    ensures var p := PropertyInfo("User", "UserId", false, false, false, false, true);
            && PropertyMap([p], ["userid"], false) == []
            && OrdinalMap([p], ["userid"], false) == [("UserId", 0)]
  {
    var p := PropertyInfo("User", "UserId", false, false, false, false, true);
    assert SameIgnoringCase("userid", "UserId");
    assert "UserId" !in ["userid"];
    assert [p][..0] == [];
  }

  // ---------------------------------------------------------------------------------------------
  // All<T>

  /** `All<T>`'s template: `SELECT {Columns} FROM [{Table}]`. */
  const AllSql := Concat(AllPieces())

  function AllPieces(): seq<string>
  {
    ["SELECT ", "{Columns}", " FROM [", "{Table}", "]"]
  }

  /** `All<T>`'s column list: `[N]` for each property the read rule keeps, comma-separated. */
  function AllColumns(props: seq<PropertyInfo>, ignoreAll: bool): string
  {
    Join(",", Bracketed(SelectedNames(props, Read, ignoreAll)))
  }

  /** The template with the table name replaced first and the column list second. */
  function AllText(table: string, columns: string): string
  {
    var d := [("{Table}", table), ("{Columns}", columns)];
    assert KeysNonEmpty(d) by { assert forall k :: 0 <= k < |d| ==> d[k].0[0] == '{'; }
    ReplaceSequentially(AllSql, d)
  }

  /**
   * `All<T>()`'s statement: the type's connection name is resolved first, then its table name; the
   * command carries no parameters.
   */
  function AllStatement(entries: Registry, t: TypeInfo): Result<Statement>
  {
    match GetConnectionNameForType(entries, t)
    case Err(e) => Err(e)
    case Ok(connection) =>
      match EntityName(t)
      case Err(e) => Err(e)
      case Ok(table) => Ok(Statement(connection, AllText(table, AllColumns(t.properties, IsIgnoreAll(t))), []))
  }

  lemma AllTemplate()
    ensures forall i :: 0 <= i < |AllPieces()| ==> IsPiece(AllPieces()[i])
  {
    assert IsPlaceholder("{Table}") && IsPlaceholder("{Columns}");
  }

  /** With a brace-free table name and column list, `All<T>` runs `SELECT columns FROM [table]`. */
  lemma AllTextShape(table: string, columns: string)
    requires NoBrace(table) && NoBrace(columns)
    ensures AllText(table, columns) == "SELECT " + columns + " FROM [" + table + "]"
  {
    var ps := AllPieces();
    AllTemplate();
    NoBraceIsPiece(table);
    NoBraceIsPiece(columns);
    var d := [("{Table}", table), ("{Columns}", columns)];
    assert IsPlaceholder("{Table}") && IsPlaceholder("{Columns}");
    assert TemplateDictionary(d);
    ReplaceSequentiallyTemplate(ps, d);
    var s1 := ["SELECT ", "{Columns}", " FROM [", table, "]"];
    var s2 := ["SELECT ", columns, " FROM [", table, "]"];
    assert Subst(ps, "{Table}", table) == s1;
    NoBraceNotKey(table, "{Columns}");
    assert Subst(s1, "{Columns}", columns) == s2;
    SubstAllTwo(ps, d[0], d[1]);
    ConcatFive("SELECT ", columns, " FROM [", table, "]");
  }

  /** With brace-free names, `All<T>` selects exactly the read columns from the entity's table. */
  lemma AllStatementShape(entries: Registry, t: TypeInfo)
    requires GetConnectionNameForType(entries, t).Ok? && EntityName(t).Ok?
    requires NoBrace(EntityName(t).value) && BraceFreeNames(t)
    ensures AllStatement(entries, t) ==
              Ok(Statement(GetConnectionNameForType(entries, t).value,
                           "SELECT " + AllColumns(t.properties, IsIgnoreAll(t)) + " FROM [" + EntityName(t).value + "]", []))
  {
    var names := SelectedNames(t.properties, Read, IsIgnoreAll(t));
    NamesBraceFree(t, Read, IsIgnoreAll(t));
    JoinAvoids(",", Bracketed(names), '{');
    AllTextShape(EntityName(t).value, AllColumns(t.properties, IsIgnoreAll(t)));
  }

  /** One turn of `All<T>`'s loop appends `[N]` for a kept property and nothing otherwise. */
  lemma AllColumnsStep(props: seq<PropertyInfo>, ignoreAll: bool, i: nat)
    requires i < |props|
    ensures Keeps(Read, props[i], ignoreAll) ==>
              var prev, names := AllColumns(props[..i], ignoreAll), SelectedNames(props[..i], Read, ignoreAll);
              AllColumns(props[..i + 1], ignoreAll) == (if names == [] then prev else prev + ",") + "[" + props[i].name + "]"
    ensures !Keeps(Read, props[i], ignoreAll) ==> AllColumns(props[..i + 1], ignoreAll) == AllColumns(props[..i], ignoreAll)
  {
    var names := SelectedNames(props[..i], Read, ignoreAll);
    var next := SelectedNames(props[..i + 1], Read, ignoreAll);
    SelectedNamesStep(props, Read, ignoreAll, i);
    assert AllColumns(props[..i], ignoreAll) == Join(",", Bracketed(names));
    assert AllColumns(props[..i + 1], ignoreAll) == Join(",", Bracketed(next));
    if Keeps(Read, props[i], ignoreAll) {
      JoinedSnoc(names, props[i].name);
    }
  }

  /** `All<T>`'s loop over the properties with its `first` flag. */
  method BuildAllColumns(props: seq<PropertyInfo>, ignoreAll: bool) returns (columns: string)
    ensures columns == AllColumns(props, ignoreAll)
  {
    columns := "";
    var first := true;
    ghost var written: seq<string> := [];
    var i := 0;
    while i < |props|
      invariant 0 <= i <= |props|
      invariant columns == AllColumns(props[..i], ignoreAll)
      invariant written == SelectedNames(props[..i], Read, ignoreAll)
      invariant first <==> written == []
    {
      var p := props[i];
      AllColumnsStep(props, ignoreAll, i);
      SelectedNamesStep(props, Read, ignoreAll, i);
      if p.ignore {
        assert !Keeps(Read, p, ignoreAll);
      } else if ignoreAll && !p.included && !p.key {
        assert !Keeps(Read, p, ignoreAll);
      } else {
        assert Keeps(Read, p, ignoreAll);
        if !first {
          columns := columns + ",";
        }
        columns := columns + "[" + p.name + "]";
        first := false;
        written := written + [p.name];
      }
      i := i + 1;
    }
    assert props[..i] == props;
  }

  /**
   * `All<T>()`: builds the SELECT for the type and runs it with `Query<T>`; the command has the
   * default timeout and no parameters, so nothing is bound or spliced.
   */
  method All(data: Data, t: TypeInfo, returned: map<string, Value>) returns (r: Result<Execution>, command: Command?)
    modifies data`currentSqlQuery
    ensures var s := AllStatement(data.connections, t);
            s.Err? ==> r == Err(s.error) && command == null && data.currentSqlQuery == old(data.currentSqlQuery)
    ensures var s := AllStatement(data.connections, t);
            s.Ok? ==>
              && command != null && fresh(command)
              && command.connection == Some(s.value.connection) && command.query == s.value.sql && ParamsData(command) == []
              && r == Ok(Execution(LenientConnection(data.connections, s.value.connection), s.value.sql, [], 30))
              && data.currentSqlQuery == if data.generateQueryText then s.value.sql else old(data.currentSqlQuery)
  {
    var statement := BuildAllStatement(data.connections, t);
    if statement.Err? {
      return Err(statement.error), null;
    }
    assert DiagnosticText(statement.value.sql, BoundOf([])) == statement.value.sql;
    assert AfterExecution(BoundOf([]), returned) == [];
    r, command := RunLenient(data, statement.value, t, returned);
  }

  /** `All<T>`'s statement, built as `All<T>` builds it. */
  method BuildAllStatement(entries: Registry, t: TypeInfo) returns (r: Result<Statement>)
    ensures r == AllStatement(entries, t)
  {
    var connection := GetConnectionNameForType(entries, t);
    if connection.Err? {
      return Err(connection.error);
    }
    var tableName := EntityName(t);
    if tableName.Err? {
      return Err(tableName.error);
    }
    var columns := BuildAllColumns(t.properties, IsIgnoreAll(t));
    var d := [("{Table}", tableName.value), ("{Columns}", columns)];
    assert KeysNonEmpty(d) by { assert forall k :: 0 <= k < |d| ==> d[k].0[0] == '{'; }
    var sql := ReplaceDictionary(AllSql, d);
    r := Ok(Statement(connection.value, sql, []));
  }

  // ---------------------------------------------------------------------------------------------
  // QueryMultiple

  /** One result set of a reader: its column names and its rows. */
  datatype ResultSet = ResultSet(columns: seq<string>, rows: seq<seq<Value>>)

  /** Every row has one value per column. */
  predicate WellFormed(rs: ResultSet)
  {
    forall r :: 0 <= r < |rs.rows| ==> |rs.rows[r]| == |rs.columns|
  }

  /** What `QueryMultiple` stores under a result set's name: a list of row objects, or one row object. */
  datatype Dynamic = Rows(items: seq<map<string, Value>>) | Single(item: map<string, Value>)

  /** `Convert.IsDBNull(value) ? null : value`. */
  function FromDb(v: Value): (r: Value)
    ensures r != DbNull
    ensures v != DbNull ==> r == v
  {
    if v == DbNull then Null else v
  }

  /** A row as an expando object: each column's value under its name, a later column overwriting an earlier one of the same name. */
  function RowObject(columns: seq<string>, row: seq<Value>): map<string, Value>
    requires |row| == |columns|
  {
    if columns == [] then map[]
    else
      var n := |columns| - 1;
      RowObject(columns[..n], row[..n])[columns[n] := FromDb(row[n])]
  }

  /** Column a is the last column of its name. */
  predicate LastOfName(columns: seq<string>, a: int)
  {
    0 <= a < |columns| && forall b :: a < b < |columns| ==> columns[b] != columns[a]
  }

  /** A row object has exactly the column names as members. */
  lemma {:induction false} RowObjectKeys(columns: seq<string>, row: seq<Value>)
    requires |row| == |columns|
    ensures forall name :: name in RowObject(columns, row) <==> name in columns
  {
    if columns != [] {
      var n := |columns| - 1;
      RowObjectKeys(columns[..n], row[..n]);
      assert columns == columns[..n] + [columns[n]];
    }
  }

  /** Each member of a row object holds the value of the last column of that name. */
  lemma {:induction false} RowObjectValues(columns: seq<string>, row: seq<Value>)
    requires |row| == |columns|
    ensures forall a :: LastOfName(columns, a) ==>
              columns[a] in RowObject(columns, row) && RowObject(columns, row)[columns[a]] == FromDb(row[a])
  {
    if columns != [] {
      var n := |columns| - 1;
      var prefix := columns[..n];
      RowObjectValues(prefix, row[..n]);
      forall a | LastOfName(columns, a)
        ensures columns[a] in RowObject(columns, row) && RowObject(columns, row)[columns[a]] == FromDb(row[a])
      {
        if a < n {
          assert columns[n] != columns[a];
          assert prefix[a] == columns[a] && row[..n][a] == row[a];
          assert LastOfName(prefix, a) by {
            forall b | a < b < n
              ensures prefix[b] != prefix[a]
            {
              assert prefix[b] == columns[b];
            }
          }
        }
      }
    }
  }

  /** Every row of a set as a row object, in order. */
  function RowObjects(rs: ResultSet): (r: seq<map<string, Value>>)
    requires WellFormed(rs)
    ensures |r| == |rs.rows|
  {
    seq(|rs.rows|, i requires 0 <= i < |rs.rows| => RowObject(rs.columns, rs.rows[i]))
  }

  /** The description of result set `count` (1-based), when `Tables` has that many entries. */
  function Descriptor(tables: Option<seq<SqlResult>>, count: nat): Option<SqlResult>
  {
    if tables.Some? && 1 <= count <= |tables.value| then Some(tables.value[count - 1]) else None
  }

  /** The name result set `count` is stored under: its description's name, or "Table" + count. */
  function SetName(tables: Option<seq<SqlResult>>, count: nat): string
  {
    match Descriptor(tables, count)
    case Some(d) => d.name
    case None => "Table" + NatToString(count)
  }

  /** One turn of the do-while: a table-shaped set stores all its rows, a scalar one its first row if it has one. */
  function Stored(result: map<string, Dynamic>, tables: Option<seq<SqlResult>>, rs: ResultSet, count: nat): map<string, Dynamic>
    requires WellFormed(rs)
  {
    var name := SetName(tables, count);
    var d := Descriptor(tables, count);
    if d.None? || d.value.resultType == Table then result[name := Rows(RowObjects(rs))]
    else if |rs.rows| > 0 then result[name := Single(RowObject(rs.columns, rs.rows[0]))]
    else result
  }

  /** The reader's set number `count`; a reader with no result set at all reads as one empty set. */
  function SetAt(sets: seq<ResultSet>, count: nat): ResultSet
  {
    if 1 <= count <= |sets| then sets[count - 1] else ResultSet([], [])
  }

  /** The do-while runs once, then once more for each further result set. */
  function Turns(sets: seq<ResultSet>): nat
  {
    if |sets| == 0 then 1 else |sets|
  }

  predicate AllWellFormed(sets: seq<ResultSet>)
  {
    forall i :: 0 <= i < |sets| ==> WellFormed(sets[i])
  }

  /** The expando object after the first n turns. */
  function CollectedUpTo(tables: Option<seq<SqlResult>>, sets: seq<ResultSet>, n: nat): map<string, Dynamic>
    requires AllWellFormed(sets)
  {
    if n == 0 then map[]
    else Stored(CollectedUpTo(tables, sets, n - 1), tables, SetAt(sets, n), n)
  }

  /** Set `count` leaves an entry: it is table-shaped, or scalar with at least one row. */
  predicate Adds(tables: Option<seq<SqlResult>>, sets: seq<ResultSet>, count: nat)
  {
    var d := Descriptor(tables, count);
    d.None? || d.value.resultType == Table || |SetAt(sets, count).rows| > 0
  }

  /** The entry set `count` leaves. */
  function Entry(tables: Option<seq<SqlResult>>, sets: seq<ResultSet>, count: nat): Dynamic
    requires AllWellFormed(sets)
  {
    var d, rs := Descriptor(tables, count), SetAt(sets, count);
    if d.None? || d.value.resultType == Table then Rows(RowObjects(rs))
    else if |rs.rows| > 0 then Single(RowObject(rs.columns, rs.rows[0]))
    else Rows([])
  }

  /** Some set among the first n that leaves an entry is stored under `name`. */
  predicate NamedWithin(tables: Option<seq<SqlResult>>, sets: seq<ResultSet>, n: nat, name: string)
  {
    exists k :: 1 <= k <= n && Adds(tables, sets, k) && SetName(tables, k) == name
  }

  /** Set k leaves an entry and no later set up to n that leaves one reuses its name. */
  predicate LastNamed(tables: Option<seq<SqlResult>>, sets: seq<ResultSet>, n: nat, k: int)
  {
    1 <= k <= n && Adds(tables, sets, k) &&
    forall j :: k < j <= n && Adds(tables, sets, j) ==> SetName(tables, j) != SetName(tables, k)
  }

  /** One turn adds the set's entry under its name when it leaves one, and changes nothing otherwise. */
  lemma StoredEntry(tables: Option<seq<SqlResult>>, sets: seq<ResultSet>, n: nat)
    requires AllWellFormed(sets) && n >= 1
    ensures CollectedUpTo(tables, sets, n) ==
              if Adds(tables, sets, n) then CollectedUpTo(tables, sets, n - 1)[SetName(tables, n) := Entry(tables, sets, n)]
              else CollectedUpTo(tables, sets, n - 1)
  {
  }

  /** After n turns a name is present exactly when some set up to n that leaves an entry is named so. */
  lemma {:induction false} CollectedUpToKeys(tables: Option<seq<SqlResult>>, sets: seq<ResultSet>, n: nat)
    requires AllWellFormed(sets)
    ensures forall name :: name in CollectedUpTo(tables, sets, n) <==> NamedWithin(tables, sets, n, name)
  {
    if n > 0 {
      CollectedUpToKeys(tables, sets, n - 1);
      StoredEntry(tables, sets, n);
      forall name
        ensures name in CollectedUpTo(tables, sets, n) <==> NamedWithin(tables, sets, n, name)
      {
        if NamedWithin(tables, sets, n - 1, name) {
          var k :| 1 <= k <= n - 1 && Adds(tables, sets, k) && SetName(tables, k) == name;
          assert 1 <= k <= n;
        }
        if NamedWithin(tables, sets, n, name) && !(Adds(tables, sets, n) && SetName(tables, n) == name) {
          var k :| 1 <= k <= n && Adds(tables, sets, k) && SetName(tables, k) == name;
          assert k <= n - 1;
        }
      }
    }
  }

  /** After n turns a name holds the entry of the last set up to n stored under it. */
  lemma {:induction false} CollectedUpToValues(tables: Option<seq<SqlResult>>, sets: seq<ResultSet>, n: nat)
    requires AllWellFormed(sets)
    ensures forall k :: LastNamed(tables, sets, n, k) ==>
              SetName(tables, k) in CollectedUpTo(tables, sets, n) &&
              CollectedUpTo(tables, sets, n)[SetName(tables, k)] == Entry(tables, sets, k)
  {
    if n > 0 {
      CollectedUpToValues(tables, sets, n - 1);
      StoredEntry(tables, sets, n);
      var prev, next := CollectedUpTo(tables, sets, n - 1), CollectedUpTo(tables, sets, n);
      forall k | LastNamed(tables, sets, n, k)
        ensures SetName(tables, k) in next && next[SetName(tables, k)] == Entry(tables, sets, k)
      {
        if k < n {
          assert LastNamed(tables, sets, n - 1, k);
          assert SetName(tables, k) in prev && prev[SetName(tables, k)] == Entry(tables, sets, k);
          if Adds(tables, sets, n) {
            assert SetName(tables, n) != SetName(tables, k);
          }
        }
      }
    }
  }

  /** The whole do-while. */
  function Collected(tables: Option<seq<SqlResult>>, sets: seq<ResultSet>): map<string, Dynamic>
    requires AllWellFormed(sets)
  {
    CollectedUpTo(tables, sets, Turns(sets))
  }

  /** "Table" + j and "Table" + k are different names for different j and k. */
  lemma DefaultNamesDiffer(j: nat, k: nat)
    requires j != k
    ensures "Table" + NatToString(j) != "Table" + NatToString(k)
  {
    if "Table" + NatToString(j) == "Table" + NatToString(k) {
      assert ("Table" + NatToString(j))[5..] == NatToString(j);
      assert ("Table" + NatToString(k))[5..] == NatToString(k);
      NatToStringInjective(j, k);
    }
  }

  /** Without descriptions set k is named "Table" + k and always leaves an entry. */
  lemma UndescribedNames(tables: Option<seq<SqlResult>>, sets: seq<ResultSet>)
    requires tables.None? || tables.value == []
    ensures forall k :: SetName(tables, k) == "Table" + NatToString(k) && Adds(tables, sets, k)
  {
    assert forall k :: Descriptor(tables, k) == None;
  }

  /** `name` is one of "Table1" to "Table" + n. */
  predicate DefaultName(n: nat, name: string)
  {
    exists k :: 1 <= k <= n && name == "Table" + NatToString(k)
  }

  /** Without descriptions the names stored are exactly "Table1" to "Table" + the number of turns. */
  lemma UndescribedSetNames(tables: Option<seq<SqlResult>>, sets: seq<ResultSet>)
    requires AllWellFormed(sets)
    requires tables.None? || tables.value == []
    ensures forall name :: name in Collected(tables, sets) <==> DefaultName(Turns(sets), name)
  {
    var n := Turns(sets);
    UndescribedNames(tables, sets);
    CollectedUpToKeys(tables, sets, n);
    assert Collected(tables, sets) == CollectedUpTo(tables, sets, n);
    forall name
      ensures name in Collected(tables, sets) <==> DefaultName(n, name)
    {
      assert name in Collected(tables, sets) <==> NamedWithin(tables, sets, n, name);
      if NamedWithin(tables, sets, n, name) {
        var k :| 1 <= k <= n && Adds(tables, sets, k) && SetName(tables, k) == name;
        assert name == "Table" + NatToString(k);
      }
      if DefaultName(n, name) {
        var k :| 1 <= k <= n && name == "Table" + NatToString(k);
        assert Adds(tables, sets, k) && SetName(tables, k) == name;
        assert NamedWithin(tables, sets, n, name);
      }
    }
  }

  /**
   * Without descriptions every set is stored under its own "Table" + k with all its rows: the
   * default names never collide.
   */
  lemma UndescribedSetRows(tables: Option<seq<SqlResult>>, sets: seq<ResultSet>)
    requires AllWellFormed(sets)
    requires tables.None? || tables.value == []
    ensures forall k :: 1 <= k <= Turns(sets) ==>
              "Table" + NatToString(k) in Collected(tables, sets) &&
              Collected(tables, sets)["Table" + NatToString(k)] == Rows(RowObjects(SetAt(sets, k)))
  {
    var n := Turns(sets);
    UndescribedNames(tables, sets);
    CollectedUpToValues(tables, sets, n);
    forall k | 1 <= k <= n
      ensures "Table" + NatToString(k) in Collected(tables, sets) &&
              Collected(tables, sets)["Table" + NatToString(k)] == Rows(RowObjects(SetAt(sets, k)))
    {
      forall j | k < j <= n
        ensures SetName(tables, j) != SetName(tables, k)
      {
        DefaultNamesDiffer(j, k);
      }
      assert LastNamed(tables, sets, n, k);
    }
  }

  /** A described name that a later set reuses loses the earlier set: the later one overwrites it. */
  lemma LaterSetOverwritesSameName(first: ResultSet, second: ResultSet)
    requires WellFormed(first) && WellFormed(second)
    ensures Collected(Some([SqlResult("Table2", Table)]), [first, second]) == map["Table2" := Rows(RowObjects(second))]
  {
    var tables := Some([SqlResult("Table2", Table)]);
    var sets := [first, second];
    assert NatToString(2) == "2";
    assert SetName(tables, 1) == "Table2" && SetName(tables, 2) == "Table2";
    assert SetAt(sets, 2) == second;
    assert Turns(sets) == 2;
    assert CollectedUpTo(tables, sets, 1) == map["Table2" := Rows(RowObjects(first))];
    assert CollectedUpTo(tables, sets, 2) == CollectedUpTo(tables, sets, 1)["Table2" := Rows(RowObjects(second))];
  }

  /** `QueryMultiple`'s do-while over the result sets, counting from 1. */
  method CollectResults(tables: Option<seq<SqlResult>>, sets: seq<ResultSet>) returns (result: map<string, Dynamic>)
    requires AllWellFormed(sets)
    ensures result == Collected(tables, sets)
  {
    result := map[];
    var count := 1;
    while true
      invariant 1 <= count <= Turns(sets)
      invariant result == CollectedUpTo(tables, sets, count - 1)
      decreases Turns(sets) - count
    {
      var rs := SetAt(sets, count);
      assert WellFormed(rs);
      var tableName := "Table" + NatToString(count);
      var tableResult: Option<SqlResult> := None;
      if tables.Some? && |tables.value| >= count {
        tableResult := Some(tables.value[count - 1]);
        tableName := tables.value[count - 1].name;
      }
      assert tableResult == Descriptor(tables, count) && tableName == SetName(tables, count);
      ghost var prev := result;
      if tableResult.None? || tableResult.value.resultType == Table {
        result := result[tableName := Rows(RowObjects(rs))];
      } else if tableResult.value.resultType == Scalar {
        if |rs.rows| > 0 {
          result := result[tableName := Single(RowObject(rs.columns, rs.rows[0]))];
        }
      }
      assert result == Stored(prev, tables, rs, count);
      assert result == CollectedUpTo(tables, sets, count);
      count := count + 1;
      if count > |sets| {
        assert count - 1 == Turns(sets);
        break;
      }
    }
  }

  /**
   * `QueryMultiple(command)`: the command is run as `QueryByDefault` runs it (default connection
   * filled in, null parameters replaced, stored procedure text generated, parameters bound and
   * outputs populated), and the reader's result sets `sets` are then collected into one object
   * keyed by set name.
   */
  method QueryMultiple(data: Data, command: Command, returned: map<string, Value>, sets: seq<ResultSet>)
    returns (r: Result<map<string, Dynamic>>)
    requires AllWellFormed(sets)
    modifies data`currentSqlQuery, command`query, command`parameters, command`connection, command.ParameterObjects()
    ensures DefaultFilledName(data.connections, old(command.connection)).Err? ==>
              && r == Err(DefaultFilledName(data.connections, old(command.connection)).error)
              && command.query == old(command.query) && command.connection == old(command.connection)
              && command.parameters == old(command.parameters) && ParamsData(command) == old(ParamsData(command))
              && data.currentSqlQuery == old(data.currentSqlQuery)
    ensures DefaultFilledName(data.connections, old(command.connection)).Ok? ==>
              var name := DefaultFilledName(data.connections, old(command.connection)).value;
              var o := ExecuteSpec(old(command.query), command.style, command.timeout, old(ParamsData(command)),
                                   LenientConnection(data.connections, name), data.generateQueryText, old(data.currentSqlQuery), returned);
              && command.connection == Some(name)
              && command.parameters == Normalized(old(command.parameters))
              && command.query == o.query && ParamsData(command) == o.parameters
              && data.currentSqlQuery == o.currentSqlQuery
              && (o.result.Err? ==> r == Err(o.result.error))
              && (o.result.Ok? ==> r == Ok(Collected(command.tables, sets)))
  {
    var executed := data.QueryByDefault(command, returned);
    if executed.Err? {
      return Err(executed.error);
    }
    var result := CollectResults(command.tables, sets);
    r := Ok(result);
  }

  // ---------------------------------------------------------------------------------------------
  // ToDataTable and CreateAll

  /** A DataTable: its column names in order, and its rows with one value per column. */
  datatype DataTable = DataTable(columns: seq<string>, rows: seq<seq<Value>>)

  /** No two names are equal. */
  predicate Distinct(names: seq<string>)
  {
    forall i, j :: 0 <= i < j < |names| ==> names[i] != names[j]
  }

  /**
   * `table.Columns.Add(name, ...)` for each name in turn: `DataColumnCollection` keeps its names
   * in an ordinal dictionary, so only a name exactly equal to a column already present throws
   * DuplicateNameException; names that differ only in case are both added.
   */
  function AddColumns(names: seq<string>): Result<seq<string>>
  {
    if names == [] then Ok([])
    else
      var n := |names| - 1;
      match AddColumns(names[..n])
      case Err(e) => Err(e)
      case Ok(columns) =>
        if names[n] in columns then Err(DuplicateKey(names[n])) else Ok(columns + [names[n]])
  }

  /** Adding the columns succeeds exactly when the names are distinct, and then keeps them all, in order. */
  lemma {:induction false} AddColumnsSpec(names: seq<string>)
    ensures AddColumns(names).Ok? <==> Distinct(names)
    ensures AddColumns(names).Ok? ==> AddColumns(names).value == names
    ensures AddColumns(names).Err? ==> exists j :: 0 <= j < |names| && AddColumns(names) == Err(DuplicateKey(names[j]))
  {
    if names != [] {
      var n := |names| - 1;
      var init := names[..n];
      AddColumnsSpec(init);
      assert forall k :: 0 <= k < n ==> init[k] == names[k];
      if AddColumns(init).Err? {
        var j :| 0 <= j < n && AddColumns(init) == Err(DuplicateKey(init[j]));
        assert AddColumns(names) == Err(DuplicateKey(names[j]));
        var a, b :| 0 <= a < b < n && init[a] == init[b];
        assert names[a] == names[b];
      } else {
        assert AddColumns(init).value == init;
        if names[n] in init {
          var a :| 0 <= a < n && init[a] == names[n];
          assert names[a] == names[n];
          assert AddColumns(names) == Err(DuplicateKey(names[n]));
        } else {
          assert AddColumns(names) == Ok(init + [names[n]]);
          assert init + [names[n]] == names;
          forall a, b | 0 <= a < b < |names|
            ensures names[a] != names[b]
          {
            if b < n {
              assert init[a] == names[a] && init[b] == names[b];
            } else {
              assert init[a] == names[a];
            }
          }
        }
      }
    }
  }

  /** `Id` and `ID` are two columns; only a second `Id` is a duplicate. */
  lemma ColumnsDifferingInCase()
    ensures AddColumns(["Id", "ID"]) == Ok(["Id", "ID"])
    ensures AddColumns(["Id", "Id"]) == Err(DuplicateKey("Id"))
  {
    var one: seq<string> := ["Id"];
    var none: seq<string> := [];
    assert AddColumns(none) == Ok([]);
    AddColumnsSnoc(none, "Id");
    assert none + ["Id"] == one;
    assert "ID" !in one by { assert "ID"[1] != "Id"[1]; }
    AddColumnsSnoc(one, "ID");
    AddColumnsSnoc(one, "Id");
    assert one + ["ID"] == ["Id", "ID"] && one + ["Id"] == ["Id", "Id"];
  }

  /** One bulk row: each property the bulk rule keeps contributes its value, null becoming DBNull. */
  function BulkRow(props: seq<PropertyInfo>, ignoreAll: bool, item: seq<Value>): seq<Value>
    requires |item| == |props|
  {
    if props == [] then []
    else
      var n := |props| - 1;
      BulkRow(props[..n], ignoreAll, item[..n]) + if Keeps(Bulk, props[n], ignoreAll) then [OrDbNull(item[n])] else []
  }

  /** A bulk row holds, for the k-th kept property, that property's value with null as DBNull. */
  lemma {:induction false} BulkRowSpec(props: seq<PropertyInfo>, ignoreAll: bool, item: seq<Value>)
    requires |item| == |props|
    ensures |BulkRow(props, ignoreAll, item)| == |Selected(props, Bulk, ignoreAll)|
    ensures forall k :: 0 <= k < |BulkRow(props, ignoreAll, item)| ==>
              BulkRow(props, ignoreAll, item)[k] == OrDbNull(item[Selected(props, Bulk, ignoreAll)[k]])
  {
    if props != [] {
      var n := |props| - 1;
      BulkRowSpec(props[..n], ignoreAll, item[..n]);
      var sel := Selected(props[..n], Bulk, ignoreAll);
      forall k | 0 <= k < |sel|
        ensures item[..n][sel[k]] == item[sel[k]]
      {
      }
    }
  }

  /** The DataTable `ToDataTable` builds from the items, each item one value per property. */
  function BulkTable(props: seq<PropertyInfo>, ignoreAll: bool, items: seq<seq<Value>>): Result<DataTable>
    requires forall i :: 0 <= i < |items| ==> |items[i]| == |props|
  {
    match AddColumns(SelectedNames(props, Bulk, ignoreAll))
    case Err(e) => Err(e)
    case Ok(columns) =>
      Ok(DataTable(columns, seq(|items|, i requires 0 <= i < |items| => BulkRow(props, ignoreAll, items[i]))))
  }

  /**
   * The table exists exactly when no two bulk columns have the same name; its columns are the
   * names of the properties the bulk rule keeps (so [Key] is kept and [ReadOnly] dropped), it has
   * one row per item, and each row cell is the matching property's value, never null.
   */
  lemma BulkTableSpec(props: seq<PropertyInfo>, ignoreAll: bool, items: seq<seq<Value>>)
    requires forall i :: 0 <= i < |items| ==> |items[i]| == |props|
    ensures BulkTable(props, ignoreAll, items).Ok? <==> Distinct(SelectedNames(props, Bulk, ignoreAll))
    ensures BulkTable(props, ignoreAll, items).Ok? ==>
              var table, sel := BulkTable(props, ignoreAll, items).value, Selected(props, Bulk, ignoreAll);
              && table.columns == SelectedNames(props, Bulk, ignoreAll)
              && |table.rows| == |items|
              && forall i :: 0 <= i < |items| ==>
                   |table.rows[i]| == |sel| &&
                   forall k :: 0 <= k < |sel| ==> table.rows[i][k] == OrDbNull(items[i][sel[k]]) && table.rows[i][k] != Null
  {
    var names, sel := SelectedNames(props, Bulk, ignoreAll), Selected(props, Bulk, ignoreAll);
    AddColumnsSpec(names);
    if AddColumns(names).Ok? {
      var table := BulkTable(props, ignoreAll, items).value;
      forall i | 0 <= i < |items|
        ensures |table.rows[i]| == |sel|
        ensures forall k :: 0 <= k < |sel| ==> table.rows[i][k] == OrDbNull(items[i][sel[k]]) && table.rows[i][k] != Null
      {
        BulkRowSpec(props, ignoreAll, items[i]);
      }
    }
  }

  /** `data.ToDataTable()`: the columns, then one row per item. */
  method ToDataTable(t: TypeInfo, items: seq<seq<Value>>) returns (r: Result<DataTable>)
    requires forall i :: 0 <= i < |items| ==> |items[i]| == |t.properties|
    ensures r == BulkTable(t.properties, IsIgnoreAll(t), items)
  {
    var props := t.properties;
    var isIgnoreAll := IsIgnoreAll(t);
    var columns := BuildBulkColumns(props, isIgnoreAll);
    if columns.Err? {
      return Err(columns.error);
    }
    var rows: seq<seq<Value>> := [];
    var j := 0;
    while j < |items|
      invariant 0 <= j <= |items|
      invariant |rows| == j && forall k :: 0 <= k < j ==> rows[k] == BulkRow(props, isIgnoreAll, items[k])
    {
      var row := BuildBulkRow(props, isIgnoreAll, items[j]);
      rows := rows + [row];
      j := j + 1;
    }
    assert rows == seq(|items|, k requires 0 <= k < |items| => BulkRow(props, isIgnoreAll, items[k]));
    r := Ok(DataTable(columns.value, rows));
  }

  /** `ToDataTable`'s first loop: `table.Columns.Add(prop.Name, ...)` for each bulk property. */
  method BuildBulkColumns(props: seq<PropertyInfo>, isIgnoreAll: bool) returns (r: Result<seq<string>>)
    ensures r == AddColumns(SelectedNames(props, Bulk, isIgnoreAll))
  {
    var columns: seq<string> := [];
    var i := 0;
    while i < |props|
      invariant 0 <= i <= |props|
      invariant AddColumns(SelectedNames(props[..i], Bulk, isIgnoreAll)) == Ok(columns)
    {
      var p := props[i];
      SelectedNamesStep(props, Bulk, isIgnoreAll, i);
      if p.ignore {
        assert !Keeps(Bulk, p, isIgnoreAll);
      } else if p.readOnly {
        assert !Keeps(Bulk, p, isIgnoreAll);
      } else if isIgnoreAll && !p.included && !p.key {
        assert !Keeps(Bulk, p, isIgnoreAll);
      } else {
        assert Keeps(Bulk, p, isIgnoreAll);
        AddColumnsSnoc(SelectedNames(props[..i], Bulk, isIgnoreAll), p.name);
        if p.name in columns {
          BulkFailsAfter(props, isIgnoreAll, i + 1);
          return Err(DuplicateKey(p.name));
        }
        columns := columns + [p.name];
      }
      i := i + 1;
    }
    assert props[..i] == props;
    r := Ok(columns);
  }

  /** Adding one more name to columns that added cleanly either fails on that name or appends it. */
  lemma AddColumnsSnoc(names: seq<string>, name: string)
    requires AddColumns(names).Ok?
    ensures AddColumns(names + [name]) ==
              if name in AddColumns(names).value then Err(DuplicateKey(name))
              else Ok(AddColumns(names).value + [name])
  {
    var s := names + [name];
    assert s[..|s| - 1] == names;
  }

  /** Once the columns of a prefix fail to add, the columns of the whole list fail with the same error. */
  lemma {:induction false} BulkFailsAfter(props: seq<PropertyInfo>, ignoreAll: bool, i: nat)
    requires i <= |props|
    requires AddColumns(SelectedNames(props[..i], Bulk, ignoreAll)).Err?
    ensures AddColumns(SelectedNames(props, Bulk, ignoreAll)) == AddColumns(SelectedNames(props[..i], Bulk, ignoreAll))
    decreases |props| - i
  {
    if i < |props| {
      SelectedNamesSnoc(props[..i + 1], Bulk, ignoreAll);
      assert props[..i + 1][..i] == props[..i];
      var names, prev := SelectedNames(props[..i + 1], Bulk, ignoreAll), SelectedNames(props[..i], Bulk, ignoreAll);
      if Keeps(Bulk, props[i], ignoreAll) {
        assert names == prev + [props[i].name];
        assert names[..|names| - 1] == prev;
      } else {
        assert names == prev;
      }
      assert AddColumns(names) == AddColumns(prev);
      BulkFailsAfter(props, ignoreAll, i + 1);
    } else {
      assert props[..i] == props;
    }
  }

  /** One row of `ToDataTable`: `row[prop.Name] = prop.GetValue(item) ?? DBNull.Value` for each bulk property. */
  method BuildBulkRow(props: seq<PropertyInfo>, ignoreAll: bool, item: seq<Value>) returns (row: seq<Value>)
    requires |item| == |props|
    ensures row == BulkRow(props, ignoreAll, item)
  {
    row := [];
    var i := 0;
    while i < |props|
      invariant 0 <= i <= |props|
      invariant row == BulkRow(props[..i], ignoreAll, item[..i])
    {
      assert props[..i + 1][..i] == props[..i] && item[..i + 1][..i] == item[..i];
      var p := props[i];
      if p.ignore {
      } else if p.readOnly {
      } else if ignoreAll && !p.included && !p.key {
      } else {
        row := row + [OrDbNull(item[i])];
      }
      i := i + 1;
    }
    assert props[..i] == props && item[..i] == item;
  }

  /** What `CreateAll` hands to SqlBulkCopy: the connection string, the bracketed table name, and the table. */
  datatype BulkCopy = BulkCopy(connectionString: string, destination: string, table: DataTable)

  /**
   * `items.CreateAll()`: the type's connection string (its [Connection] entry, or the default),
   * then the table name in brackets, then the DataTable; the first of these to fail decides the error.
   */
  method CreateAll(data: Data, t: TypeInfo, items: seq<seq<Value>>) returns (r: Result<BulkCopy>)
    requires forall i :: 0 <= i < |items| ==> |items[i]| == |t.properties|
    ensures GetConnectionForType(data.connections, t).Err? ==> r == Err(GetConnectionForType(data.connections, t).error)
    ensures GetConnectionForType(data.connections, t).Ok? && EntityName(t).Err? ==> r == Err(EntityName(t).error)
    ensures GetConnectionForType(data.connections, t).Ok? && EntityName(t).Ok? ==>
              var table := BulkTable(t.properties, IsIgnoreAll(t), items);
              && (table.Err? ==> r == Err(table.error))
              && (table.Ok? ==> r == Ok(BulkCopy(GetConnectionForType(data.connections, t).value,
                                                "[" + EntityName(t).value + "]", table.value)))
  {
    var connectionString := GetConnectionForType(data.connections, t);
    if connectionString.Err? {
      return Err(connectionString.error);
    }
    var tableName := EntityName(t);
    if tableName.Err? {
      return Err(tableName.error);
    }
    var table := ToDataTable(t, items);
    if table.Err? {
      return Err(table.error);
    }
    r := Ok(BulkCopy(connectionString.value, "[" + tableName.value + "]", table.value));
  }
}
