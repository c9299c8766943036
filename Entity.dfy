/**
 * `Entity<T>` (SqlData/Entity.cs): an object that inserts, updates and deletes its own row. Each
 * builder walks the type's properties once, collecting column text, value text and parameters,
 * fills a SQL template and hands the command to the store.
 */
module Entities {
  import opened Wrappers
  import opened SqlTypes
  import opened Parameters
  import opened Commands
  import opened Metadata
  import opened Strings
  import opened StringExtensions
  import opened Validation
  import opened Store

  // ---------------------------------------------------------------------------------------------
  // The three templates

  /** Create's template: `INSERT INTO [{Table}] ({Columns}) VALUES ({Values}); SELECT TOP 1 {PrimaryKey},{Columns} FROM [{Table}] WHERE [{PrimaryKey}] = SCOPE_IDENTITY();` */
  const InsertSql := Concat(InsertPieces())
  /** Update's template: `UPDATE [{Table}] SET {Columns} WHERE [{PrimaryKey}] = @Id; SELECT TOP 1 {PrimaryKey},{Columns} FROM [{Table}] WHERE [{PrimaryKey}] = @Id;` */
  const UpdateSql := Concat(UpdatePieces())
  /** Delete's template: `DELETE FROM [{Table}] WHERE [{PrimaryKey}] = @Id;` */
  const DeleteSql := Concat(DeletePieces())

  function DeletePieces(): seq<string>
  {
    ["DELETE FROM [", "{Table}", "] WHERE [", "{PrimaryKey}", "] = @Id;"]
  }

  lemma DeleteTemplate()
    ensures forall i :: 0 <= i < |DeletePieces()| ==> IsPiece(DeletePieces()[i])
  {
    assert IsPlaceholder("{Table}") && IsPlaceholder("{PrimaryKey}");
  }

  /** Substituting brace-free parts into Delete's pieces puts each part where its key stood. */
  lemma DeleteSubst(table: string, primaryKey: string)
    requires NoBrace(table) && NoBrace(primaryKey)
    ensures SubstAll(DeletePieces(), [("{Table}", table), ("{PrimaryKey}", primaryKey)]) ==
              ["DELETE FROM [", table, "] WHERE [", primaryKey, "] = @Id;"]
  {
    var ps := DeletePieces();
    var d := [("{Table}", table), ("{PrimaryKey}", primaryKey)];
    var s1 := ["DELETE FROM [", table, "] WHERE [", "{PrimaryKey}", "] = @Id;"];
    assert Subst(ps, "{Table}", table) == s1;
    NoBraceNotKey(table, "{PrimaryKey}");
    SubstAllTwo(ps, d[0], d[1]);
  }

  /** Sequential replacement on Delete's template is substitution on its pieces. */
  lemma DeleteReplacement(d: seq<(string, string)>)
    requires TemplateDictionary(d)
    ensures KeysNonEmpty(d)
    ensures ReplaceSequentially(DeleteSql, d) == Concat(SubstAll(DeletePieces(), d))
  {
    DeleteTemplate();
    ReplaceSequentiallyTemplate(DeletePieces(), d);
  }

  lemma DeleteSqlShape(table: string, primaryKey: string)
    requires NoBrace(table) && NoBrace(primaryKey)
    ensures KeysNonEmpty([("{Table}", table), ("{PrimaryKey}", primaryKey)])
    ensures ReplaceSequentially(DeleteSql, [("{Table}", table), ("{PrimaryKey}", primaryKey)]) ==
              "DELETE FROM [" + table + "] WHERE [" + primaryKey + "] = @Id;"
  {
    var d := [("{Table}", table), ("{PrimaryKey}", primaryKey)];
    NoBraceIsPiece(table);
    NoBraceIsPiece(primaryKey);
    assert IsPlaceholder("{Table}") && IsPlaceholder("{PrimaryKey}");
    assert TemplateDictionary(d);
    DeleteReplacement(d);
    DeleteSubst(table, primaryKey);
    ConcatFive("DELETE FROM [", table, "] WHERE [", primaryKey, "] = @Id;");
  }

  lemma SubstAllThree(ps: seq<string>, e1: (string, string), e2: (string, string), e3: (string, string))
    ensures SubstAll(ps, [e1, e2, e3]) == Subst(Subst(Subst(ps, e1.0, e1.1), e2.0, e2.1), e3.0, e3.1)
  {
    var d := [e1, e2, e3];
    assert d[1..] == [e2, e3];
    SubstAllTwo(Subst(ps, e1.0, e1.1), e2, e3);
  }

  lemma SubstAllFour(ps: seq<string>, e1: (string, string), e2: (string, string), e3: (string, string), e4: (string, string))
    ensures SubstAll(ps, [e1, e2, e3, e4]) ==
              Subst(Subst(Subst(Subst(ps, e1.0, e1.1), e2.0, e2.1), e3.0, e3.1), e4.0, e4.1)
  {
    var d := [e1, e2, e3, e4];
    assert d[1..] == [e2, e3, e4];
    SubstAllThree(Subst(ps, e1.0, e1.1), e2, e3, e4);
  }

  /** Fifteen pieces in three runs of five. */
  lemma ConcatFifteen(ps: seq<string>)
    requires |ps| == 15
    ensures Concat(ps) == ps[0] + ps[1] + ps[2] + ps[3] + ps[4] + ps[5] + ps[6] + ps[7] + ps[8] + ps[9]
                          + ps[10] + ps[11] + ps[12] + ps[13] + ps[14]
  {
    ConcatThirds(ps);
    ConcatRunOfFive(ps, 0);
    ConcatRunOfFive(ps, 5);
    ConcatRunOfFive(ps, 10);
    var x := ps[0] + ps[1] + ps[2] + ps[3] + ps[4];
    AppendFive(x, ps[5], ps[6], ps[7], ps[8], ps[9]);
    var y := x + ps[5] + ps[6] + ps[7] + ps[8] + ps[9];
    AppendFive(y, ps[10], ps[11], ps[12], ps[13], ps[14]);
  }

  lemma ConcatThirds(ps: seq<string>)
    requires |ps| == 15
    ensures Concat(ps) == Concat(ps[0..5]) + Concat(ps[5..10]) + Concat(ps[10..15])
  {
    var a, b, c := ps[0..5], ps[5..10], ps[10..15];
    assert ps == a + b + c;
    ConcatAppend(a + b, c);
    ConcatAppend(a, b);
  }

  lemma ConcatRunOfFive(ps: seq<string>, k: nat)
    requires k + 5 <= |ps|
    ensures Concat(ps[k..k + 5]) == ps[k] + ps[k + 1] + ps[k + 2] + ps[k + 3] + ps[k + 4]
  {
    assert ps[k..k + 5] == [ps[k], ps[k + 1], ps[k + 2], ps[k + 3], ps[k + 4]];
    ConcatFive(ps[k], ps[k + 1], ps[k + 2], ps[k + 3], ps[k + 4]);
  }

  function InsertPieces(): seq<string>
  {
    ["INSERT INTO [", "{Table}", "] (", "{Columns}", ") VALUES (", "{Values}", "); SELECT TOP 1 ",
     "{PrimaryKey}", ",", "{Columns}", " FROM [", "{Table}", "] WHERE [", "{PrimaryKey}", "] = SCOPE_IDENTITY();"]
  }

  lemma InsertTemplate()
    ensures forall i :: 0 <= i < |InsertPieces()| ==> IsPiece(InsertPieces()[i])
    ensures Concat(InsertPieces()) == InsertSql
  {
    assert IsPlaceholder("{Table}") && IsPlaceholder("{PrimaryKey}") && IsPlaceholder("{Columns}") && IsPlaceholder("{Values}");
  }

  /** The dictionary Create passes to ReplaceDictionary, in its order. */
  function InsertDictionary(table: string, columns: string, values: string, primaryKey: string): seq<(string, string)>
  {
    [("{Table}", table), ("{Columns}", columns), ("{Values}", values), ("{PrimaryKey}", primaryKey)]
  }

  lemma InsertDictionaryKeys(table: string, columns: string, values: string, primaryKey: string)
    ensures KeysNonEmpty(InsertDictionary(table, columns, values, primaryKey))
  {
    var d := InsertDictionary(table, columns, values, primaryKey);
    assert forall k :: 0 <= k < |d| ==> d[k].0[0] == '{';
  }

  /** Create's pieces with the table filled in. */
  function InsertWithTable(table: string): seq<string>
  {
    ["INSERT INTO [", table, "] (", "{Columns}", ") VALUES (", "{Values}", "); SELECT TOP 1 ",
     "{PrimaryKey}", ",", "{Columns}", " FROM [", table, "] WHERE [", "{PrimaryKey}", "] = SCOPE_IDENTITY();"]
  }

  /** Create's pieces with the table and the column list filled in. */
  function InsertWithColumns(table: string, columns: string): seq<string>
  {
    ["INSERT INTO [", table, "] (", columns, ") VALUES (", "{Values}", "); SELECT TOP 1 ",
     "{PrimaryKey}", ",", columns, " FROM [", table, "] WHERE [", "{PrimaryKey}", "] = SCOPE_IDENTITY();"]
  }

  /** Create's pieces with everything but the key filled in. */
  function InsertWithValues(table: string, columns: string, values: string): seq<string>
  {
    ["INSERT INTO [", table, "] (", columns, ") VALUES (", values, "); SELECT TOP 1 ",
     "{PrimaryKey}", ",", columns, " FROM [", table, "] WHERE [", "{PrimaryKey}", "] = SCOPE_IDENTITY();"]
  }

  lemma InsertSubstTable(table: string)
    ensures Subst(InsertPieces(), "{Table}", table) == InsertWithTable(table)
  {
  }

  lemma InsertSubstColumns(table: string, columns: string)
    requires NoBrace(table)
    ensures Subst(InsertWithTable(table), "{Columns}", columns) == InsertWithColumns(table, columns)
  {
    NoBraceNotKey(table, "{Columns}");
  }

  lemma InsertSubstValues(table: string, columns: string, values: string)
    requires NoBrace(table) && NoBrace(columns)
    ensures Subst(InsertWithColumns(table, columns), "{Values}", values) == InsertWithValues(table, columns, values)
  {
    NoBraceNotKey(table, "{Values}");
    NoBraceNotKey(columns, "{Values}");
  }

  lemma InsertSubstKey(table: string, columns: string, values: string, primaryKey: string)
    requires NoBrace(table) && NoBrace(columns) && NoBrace(values)
    ensures Subst(InsertWithValues(table, columns, values), "{PrimaryKey}", primaryKey) ==
              ["INSERT INTO [", table, "] (", columns, ") VALUES (", values, "); SELECT TOP 1 ",
               primaryKey, ",", columns, " FROM [", table, "] WHERE [", primaryKey, "] = SCOPE_IDENTITY();"]
  {
    NoBraceNotKey(table, "{PrimaryKey}");
    NoBraceNotKey(columns, "{PrimaryKey}");
    NoBraceNotKey(values, "{PrimaryKey}");
  }

  /** Substituting brace-free parts into Create's pieces puts each part where its key stood. */
  lemma InsertSubst(table: string, columns: string, values: string, primaryKey: string)
    requires NoBrace(table) && NoBrace(columns) && NoBrace(values) && NoBrace(primaryKey)
    ensures SubstAll(InsertPieces(), InsertDictionary(table, columns, values, primaryKey)) ==
              ["INSERT INTO [", table, "] (", columns, ") VALUES (", values, "); SELECT TOP 1 ",
               primaryKey, ",", columns, " FROM [", table, "] WHERE [", primaryKey, "] = SCOPE_IDENTITY();"]
  {
    var d := InsertDictionary(table, columns, values, primaryKey);
    InsertSubstTable(table);
    InsertSubstColumns(table, columns);
    InsertSubstValues(table, columns, values);
    InsertSubstKey(table, columns, values, primaryKey);
    SubstAllFour(InsertPieces(), d[0], d[1], d[2], d[3]);
  }

  /** Sequential replacement on Create's template is substitution on its pieces. */
  lemma InsertReplacement(d: seq<(string, string)>)
    requires TemplateDictionary(d)
    ensures KeysNonEmpty(d)
    ensures ReplaceSequentially(InsertSql, d) == Concat(SubstAll(InsertPieces(), d))
  {
    InsertTemplate();
    ReplaceSequentiallyTemplate(InsertPieces(), d);
  }

  lemma InsertDictionaryIsTemplate(table: string, columns: string, values: string, primaryKey: string)
    requires NoBrace(table) && NoBrace(columns) && NoBrace(values) && NoBrace(primaryKey)
    ensures TemplateDictionary(InsertDictionary(table, columns, values, primaryKey))
  {
    NoBraceIsPiece(table);
    NoBraceIsPiece(columns);
    NoBraceIsPiece(values);
    NoBraceIsPiece(primaryKey);
    assert IsPlaceholder("{Table}") && IsPlaceholder("{PrimaryKey}") && IsPlaceholder("{Columns}") && IsPlaceholder("{Values}");
  }

  /** With brace-free parts, Create's statement is the template with each key standing for its part. */
  lemma InsertSqlShape(table: string, columns: string, values: string, primaryKey: string)
    requires NoBrace(table) && NoBrace(columns) && NoBrace(values) && NoBrace(primaryKey)
    ensures KeysNonEmpty(InsertDictionary(table, columns, values, primaryKey))
    ensures ReplaceSequentially(InsertSql, InsertDictionary(table, columns, values, primaryKey)) ==
              "INSERT INTO [" + table + "] (" + columns + ") VALUES (" + values + "); SELECT TOP 1 " + primaryKey + ","
              + columns + " FROM [" + table + "] WHERE [" + primaryKey + "] = SCOPE_IDENTITY();"
  {
    InsertDictionaryIsTemplate(table, columns, values, primaryKey);
    InsertReplacement(InsertDictionary(table, columns, values, primaryKey));
    InsertSubst(table, columns, values, primaryKey);
    var filled := ["INSERT INTO [", table, "] (", columns, ") VALUES (", values, "); SELECT TOP 1 ",
                   primaryKey, ",", columns, " FROM [", table, "] WHERE [", primaryKey, "] = SCOPE_IDENTITY();"];
    ConcatFifteen(filled);
  }

  function UpdatePieces(): seq<string>
  {
    ["UPDATE [", "{Table}", "] SET ", "{Columns}", " WHERE [", "{PrimaryKey}", "] = @Id; SELECT TOP 1 ",
     "{PrimaryKey}", ",", "{Columns}", " FROM [", "{Table}", "] WHERE [", "{PrimaryKey}", "] = @Id;"]
  }

  lemma UpdateTemplate()
    ensures forall i :: 0 <= i < |UpdatePieces()| ==> IsPiece(UpdatePieces()[i])
    ensures Concat(UpdatePieces()) == UpdateSql
  {
    assert IsPlaceholder("{Table}") && IsPlaceholder("{PrimaryKey}") && IsPlaceholder("{Columns}");
  }

  /** The dictionary Update passes to ReplaceDictionary, in its order. */
  function UpdateDictionary(table: string, columns: string, primaryKey: string): seq<(string, string)>
  {
    [("{Table}", table), ("{Columns}", columns), ("{PrimaryKey}", primaryKey)]
  }

  lemma UpdateDictionaryKeys(table: string, columns: string, primaryKey: string)
    ensures KeysNonEmpty(UpdateDictionary(table, columns, primaryKey))
  {
    var d := UpdateDictionary(table, columns, primaryKey);
    assert forall k :: 0 <= k < |d| ==> d[k].0[0] == '{';
  }

  /** Update's pieces with the table filled in. */
  function UpdateWithTable(table: string): seq<string>
  {
    ["UPDATE [", table, "] SET ", "{Columns}", " WHERE [", "{PrimaryKey}", "] = @Id; SELECT TOP 1 ",
     "{PrimaryKey}", ",", "{Columns}", " FROM [", table, "] WHERE [", "{PrimaryKey}", "] = @Id;"]
  }

  /** Update's pieces with everything but the key filled in. */
  function UpdateWithColumns(table: string, columns: string): seq<string>
  {
    ["UPDATE [", table, "] SET ", columns, " WHERE [", "{PrimaryKey}", "] = @Id; SELECT TOP 1 ",
     "{PrimaryKey}", ",", columns, " FROM [", table, "] WHERE [", "{PrimaryKey}", "] = @Id;"]
  }

  lemma UpdateSubstTable(table: string)
    ensures Subst(UpdatePieces(), "{Table}", table) == UpdateWithTable(table)
  {
  }

  lemma UpdateSubstColumns(table: string, columns: string)
    requires NoBrace(table)
    ensures Subst(UpdateWithTable(table), "{Columns}", columns) == UpdateWithColumns(table, columns)
  {
    NoBraceNotKey(table, "{Columns}");
  }

  lemma UpdateSubstKey(table: string, columns: string, primaryKey: string)
    requires NoBrace(table) && NoBrace(columns)
    ensures Subst(UpdateWithColumns(table, columns), "{PrimaryKey}", primaryKey) ==
              ["UPDATE [", table, "] SET ", columns, " WHERE [", primaryKey, "] = @Id; SELECT TOP 1 ",
               primaryKey, ",", columns, " FROM [", table, "] WHERE [", primaryKey, "] = @Id;"]
  {
    NoBraceNotKey(table, "{PrimaryKey}");
    NoBraceNotKey(columns, "{PrimaryKey}");
  }

  /** Substituting brace-free parts into Update's pieces puts each part where its key stood. */
  lemma UpdateSubst(table: string, columns: string, primaryKey: string)
    requires NoBrace(table) && NoBrace(columns) && NoBrace(primaryKey)
    ensures SubstAll(UpdatePieces(), UpdateDictionary(table, columns, primaryKey)) ==
              ["UPDATE [", table, "] SET ", columns, " WHERE [", primaryKey, "] = @Id; SELECT TOP 1 ",
               primaryKey, ",", columns, " FROM [", table, "] WHERE [", primaryKey, "] = @Id;"]
  {
    var d := UpdateDictionary(table, columns, primaryKey);
    UpdateSubstTable(table);
    UpdateSubstColumns(table, columns);
    UpdateSubstKey(table, columns, primaryKey);
    SubstAllThree(UpdatePieces(), d[0], d[1], d[2]);
  }

  /** Sequential replacement on Update's template is substitution on its pieces. */
  lemma UpdateReplacement(d: seq<(string, string)>)
    requires TemplateDictionary(d)
    ensures KeysNonEmpty(d)
    ensures ReplaceSequentially(UpdateSql, d) == Concat(SubstAll(UpdatePieces(), d))
  {
    UpdateTemplate();
    ReplaceSequentiallyTemplate(UpdatePieces(), d);
  }

  lemma UpdateDictionaryIsTemplate(table: string, columns: string, primaryKey: string)
    requires NoBrace(table) && NoBrace(columns) && NoBrace(primaryKey)
    ensures TemplateDictionary(UpdateDictionary(table, columns, primaryKey))
  {
    NoBraceIsPiece(table);
    NoBraceIsPiece(columns);
    NoBraceIsPiece(primaryKey);
    assert IsPlaceholder("{Table}") && IsPlaceholder("{PrimaryKey}") && IsPlaceholder("{Columns}");
  }

  /** With brace-free parts, Update's statement is the template with each key standing for its part. */
  lemma UpdateSqlShape(table: string, columns: string, primaryKey: string)
    requires NoBrace(table) && NoBrace(columns) && NoBrace(primaryKey)
    ensures KeysNonEmpty(UpdateDictionary(table, columns, primaryKey))
    ensures ReplaceSequentially(UpdateSql, UpdateDictionary(table, columns, primaryKey)) ==
              "UPDATE [" + table + "] SET " + columns + " WHERE [" + primaryKey + "] = @Id; SELECT TOP 1 " + primaryKey + ","
              + columns + " FROM [" + table + "] WHERE [" + primaryKey + "] = @Id;"
  {
    UpdateDictionaryIsTemplate(table, columns, primaryKey);
    UpdateReplacement(UpdateDictionary(table, columns, primaryKey));
    UpdateSubst(table, columns, primaryKey);
    var filled := ["UPDATE [", table, "] SET ", columns, " WHERE [", primaryKey, "] = @Id; SELECT TOP 1 ",
                   primaryKey, ",", columns, " FROM [", table, "] WHERE [", primaryKey, "] = @Id;"];
    ConcatFifteen(filled);
  }

  // ---------------------------------------------------------------------------------------------
  // Column text, value text and parameters

  /** `[Name]` for each name. */
  function Bracketed(names: seq<string>): (r: seq<string>)
    ensures |r| == |names| && forall k :: 0 <= k < |names| ==> r[k] == "[" + names[k] + "]"
  {
    seq(|names|, k requires 0 <= k < |names| => "[" + names[k] + "]")
  }

  /** `@Name` for each name. */
  function AtNames(names: seq<string>): (r: seq<string>)
    ensures |r| == |names| && forall k :: 0 <= k < |names| ==> r[k] == "@" + names[k]
  {
    seq(|names|, k requires 0 <= k < |names| => "@" + names[k])
  }

  /** `[Name] = @Name` for each name. */
  function Assignments(names: seq<string>): (r: seq<string>)
    ensures |r| == |names| && forall k :: 0 <= k < |names| ==> r[k] == "[" + names[k] + "] = @" + names[k]
  {
    seq(|names|, k requires 0 <= k < |names| => "[" + names[k] + "] = @" + names[k])
  }

  /** The primary key Create and Update use: the last [Key] property's name, or "". */
  function KeyOrEmpty(props: seq<PropertyInfo>): string
  {
    match LastKey(props)
    case None => ""
    case Some(i) => props[i].name
  }

  /** One parameter per written column: its name and its value, null as DBNull. */
  function InsertParameters(props: seq<PropertyInfo>, values: seq<Value>, ignoreAll: bool): (r: seq<ParameterData>)
    requires |values| == |props|
    ensures |r| == |Selected(props, Write, ignoreAll)|
  {
    var sel := Selected(props, Write, ignoreAll);
    seq(|sel|, k requires 0 <= k < |sel| => Created(props[sel[k]].name, OrDbNull(values[sel[k]])))
  }

  /** What Create's loop collects. */
  datatype InsertParts = InsertParts(primaryKey: string, columns: string, values: string, parameters: seq<ParameterData>)

  function InsertSpec(props: seq<PropertyInfo>, values: seq<Value>, ignoreAll: bool): InsertParts
    requires |values| == |props|
  {
    var names := SelectedNames(props, Write, ignoreAll);
    InsertParts(KeyOrEmpty(props), Join(",", Bracketed(names)), Join(",", AtNames(names)), InsertParameters(props, values, ignoreAll))
  }

  /**
   * The columns, the values and the parameters of Create line up: the k-th of each names the
   * k-th written property, and the parameter carries that property's value.
   */
  lemma InsertAligned(props: seq<PropertyInfo>, values: seq<Value>, ignoreAll: bool, k: nat)
    requires |values| == |props| && k < |Selected(props, Write, ignoreAll)|
    ensures var sel, ps := Selected(props, Write, ignoreAll), InsertParameters(props, values, ignoreAll);
            var names := SelectedNames(props, Write, ignoreAll);
            && sel[k] < |props| && Keeps(Write, props[sel[k]], ignoreAll)
            && Bracketed(names)[k] == "[" + ps[k].name + "]" && AtNames(names)[k] == "@" + ps[k].name
            && ps[k] == Created(props[sel[k]].name, OrDbNull(values[sel[k]]))
  {
    SelectedSpec(props, Write, ignoreAll);
    assert Selected(props, Write, ignoreAll)[k] in Selected(props, Write, ignoreAll);
  }

  lemma InsertParametersSnoc(props: seq<PropertyInfo>, values: seq<Value>, ignoreAll: bool)
    requires |values| == |props| > 0
    ensures var n := |props| - 1;
            InsertParameters(props, values, ignoreAll) ==
              InsertParameters(props[..n], values[..n], ignoreAll)
              + if Keeps(Write, props[n], ignoreAll) then [Created(props[n].name, OrDbNull(values[n]))] else []
  {
    var n := |props| - 1;
    var sel, sel' := Selected(props, Write, ignoreAll), Selected(props[..n], Write, ignoreAll);
    assert sel == sel' + if Keeps(Write, props[n], ignoreAll) then [n] else [];
    forall k | 0 <= k < |sel'| ensures props[..n][sel'[k]] == props[sel'[k]] && values[..n][sel'[k]] == values[sel'[k]] { }
  }

  lemma KeyOrEmptySnoc(props: seq<PropertyInfo>)
    requires props != []
    ensures var n := |props| - 1;
            KeyOrEmpty(props) == if props[n].key then props[n].name else KeyOrEmpty(props[..n])
  {
  }

  /** Create's loop after the first i properties. */
  function InsertUpTo(props: seq<PropertyInfo>, values: seq<Value>, ignoreAll: bool, i: nat): InsertParts
    requires i <= |props| == |values|
  {
    InsertSpec(props[..i], values[..i], ignoreAll)
  }

  /** Appending to a comma-joined list adds a comma first unless the list was empty. */
  lemma JoinCommaSnoc(xs: seq<string>, x: string)
    ensures Join(",", xs + [x]) == (if xs == [] then Join(",", xs) else Join(",", xs) + ",") + x
  {
    JoinSnoc(",", xs, x);
    if xs == [] {
      assert "" + x == x;
    }
  }

  lemma JoinedSnoc(names: seq<string>, n: string)
    ensures var j := Join(",", Bracketed(names));
            Join(",", Bracketed(names + [n])) == (if names == [] then j else j + ",") + "[" + n + "]"
    ensures var j := Join(",", AtNames(names));
            Join(",", AtNames(names + [n])) == (if names == [] then j else j + ",") + "@" + n
  {
    assert Bracketed(names + [n]) == Bracketed(names) + ["[" + n + "]"];
    assert AtNames(names + [n]) == AtNames(names) + ["@" + n];
    JoinCommaSnoc(Bracketed(names), "[" + n + "]");
    JoinCommaSnoc(AtNames(names), "@" + n);
    var j, k := Join(",", Bracketed(names)), Join(",", AtNames(names));
    var x, y := if names == [] then j else j + ",", if names == [] then k else k + ",";
    assert x + ("[" + n + "]") == x + "[" + n + "]";
    assert y + ("@" + n) == y + "@" + n;
  }

  lemma AssignmentsSnoc(names: seq<string>, n: string)
    ensures var j := Join(",", Assignments(names));
            Join(",", Assignments(names + [n])) == (if names == [] then j else j + ",") + "[" + n + "] = @" + n
  {
    assert Assignments(names + [n]) == Assignments(names) + ["[" + n + "] = @" + n];
    JoinCommaSnoc(Assignments(names), "[" + n + "] = @" + n);
    var j := Join(",", Assignments(names));
    var x := if names == [] then j else j + ",";
    assert x + ("[" + n + "] = @" + n) == x + "[" + n + "] = @" + n;
  }

  /** One turn of Create's loop on a written property appends to all three lists. */
  lemma InsertStepKept(props: seq<PropertyInfo>, values: seq<Value>, ignoreAll: bool, i: nat)
    requires i < |props| == |values| && Keeps(Write, props[i], ignoreAll)
    ensures var prev, p := InsertUpTo(props, values, ignoreAll, i), props[i];
            var first := prev.parameters == [];
            InsertUpTo(props, values, ignoreAll, i + 1) ==
              InsertParts(prev.primaryKey,
                          (if first then prev.columns else prev.columns + ",") + "[" + p.name + "]",
                          (if first then prev.values else prev.values + ",") + "@" + p.name,
                          prev.parameters + [Created(p.name, OrDbNull(values[i]))])
  {
    var ps, vs := props[..i + 1], values[..i + 1];
    assert ps[..i] == props[..i] && vs[..i] == values[..i];
    SelectedNamesSnoc(ps, Write, ignoreAll);
    InsertParametersSnoc(ps, vs, ignoreAll);
    KeyOrEmptySnoc(ps);
    var names := SelectedNames(props[..i], Write, ignoreAll);
    JoinedSnoc(names, props[i].name);
    assert |InsertUpTo(props, values, ignoreAll, i).parameters| == |names|;
  }

  /** One turn of Create's loop on any other property changes at most the primary key. */
  lemma InsertStepSkipped(props: seq<PropertyInfo>, values: seq<Value>, ignoreAll: bool, i: nat)
    requires i < |props| == |values| && !Keeps(Write, props[i], ignoreAll)
    ensures var prev, p := InsertUpTo(props, values, ignoreAll, i), props[i];
            InsertUpTo(props, values, ignoreAll, i + 1) == if p.key then prev.(primaryKey := p.name) else prev
  {
    var ps, vs := props[..i + 1], values[..i + 1];
    assert ps[..i] == props[..i] && vs[..i] == values[..i];
    SelectedNamesSnoc(ps, Write, ignoreAll);
    InsertParametersSnoc(ps, vs, ignoreAll);
    KeyOrEmptySnoc(ps);
    assert SelectedNames(ps, Write, ignoreAll) == SelectedNames(props[..i], Write, ignoreAll);
    assert InsertParameters(ps, vs, ignoreAll) == InsertParameters(props[..i], values[..i], ignoreAll);
  }

  /** Create's loop: the key name, `[N]` columns, `@N` values and one parameter per written property. */
  method BuildInsert(props: seq<PropertyInfo>, values: seq<Value>, ignoreAll: bool) returns (r: InsertParts)
    requires |values| == |props|
    ensures r == InsertSpec(props, values, ignoreAll)
  {
    var primaryKey := "";
    var columns, valueText := "", "";
    var parameters: seq<ParameterData> := [];
    var first := true;
    var i := 0;
    while i < |props|
      invariant 0 <= i <= |props|
      invariant InsertParts(primaryKey, columns, valueText, parameters) == InsertUpTo(props, values, ignoreAll, i)
      invariant first <==> parameters == []
    {
      var p := props[i];
      if p.key {
        InsertStepSkipped(props, values, ignoreAll, i);
        primaryKey := p.name;
      } else if p.ignore || p.readOnly {
        InsertStepSkipped(props, values, ignoreAll, i);
      } else if ignoreAll && !p.included {
        InsertStepSkipped(props, values, ignoreAll, i);
      } else {
        InsertStepKept(props, values, ignoreAll, i);
        if !first {
          columns := columns + ",";
          valueText := valueText + ",";
        }
        columns := columns + "[" + p.name + "]";
        valueText := valueText + "@" + p.name;
        parameters := parameters + [Created(p.name, OrDbNull(values[i]))];
        first := false;
      }
      i := i + 1;
    }
    assert props[..i] == props && values[..i] == values;
    r := InsertParts(primaryKey, columns, valueText, parameters);
  }

  /** What one property adds to Update's parameters: an `Id` with the key's raw value, or the written column's value. */
  function UpdateEntry(p: PropertyInfo, v: Value, ignoreAll: bool): seq<ParameterData>
  {
    if p.key then [Created("Id", v)]
    else if Keeps(Write, p, ignoreAll) then [Created(p.name, OrDbNull(v))]
    else []
  }

  /** Update's parameters, property by property. */
  function UpdateParameters(props: seq<PropertyInfo>, values: seq<Value>, ignoreAll: bool): seq<ParameterData>
    requires |values| == |props|
  {
    if props == [] then []
    else
      var n := |props| - 1;
      UpdateParameters(props[..n], values[..n], ignoreAll) + UpdateEntry(props[n], values[n], ignoreAll)
  }

  /** What Update's loop collects. */
  datatype UpdateParts = UpdateParts(primaryKey: string, columns: string, parameters: seq<ParameterData>)

  function UpdateSpec(props: seq<PropertyInfo>, values: seq<Value>, ignoreAll: bool): UpdateParts
    requires |values| == |props|
  {
    UpdateParts(KeyOrEmpty(props), Join(",", Assignments(SelectedNames(props, Write, ignoreAll))),
                UpdateParameters(props, values, ignoreAll))
  }

  /**
   * Update's parameters of a concatenation are those of each part in turn: every property
   * contributes its entry at its own position.
   */
  lemma {:induction false} UpdateParametersAppend(a: seq<PropertyInfo>, va: seq<Value>, b: seq<PropertyInfo>, vb: seq<Value>, ignoreAll: bool)
    requires |va| == |a| && |vb| == |b|
    ensures UpdateParameters(a + b, va + vb, ignoreAll) == UpdateParameters(a, va, ignoreAll) + UpdateParameters(b, vb, ignoreAll)
    decreases |b|
  {
    if b == [] {
      assert a + b == a && va + vb == va;
      assert UpdateParameters(a, va, ignoreAll) + [] == UpdateParameters(a, va, ignoreAll);
    } else {
      var n := |b| - 1;
      AppendLast(a, b);
      AppendLast(va, vb);
      UpdateParametersAppend(a, va, b[..n], vb[..n], ignoreAll);
      var pa, pb := UpdateParameters(a, va, ignoreAll), UpdateParameters(b[..n], vb[..n], ignoreAll);
      var last := UpdateEntry(b[n], vb[n], ignoreAll);
      assert (pa + pb) + last == pa + (pb + last);
    }
  }

  /** Dropping the last element of a concatenation with a non-empty right part drops it from that part. */
  lemma AppendLast<T>(a: seq<T>, b: seq<T>)
    requires b != []
    ensures (a + b)[..|a + b| - 1] == a + b[..|b| - 1]
    ensures (a + b)[|a + b| - 1] == b[|b| - 1]
  {
  }

  /** On a type without a key, Update binds exactly Create's parameters. */
  lemma {:induction false} UpdateWithoutKeyBindsInsertParameters(props: seq<PropertyInfo>, values: seq<Value>, ignoreAll: bool)
    requires |values| == |props|
    requires forall i :: 0 <= i < |props| ==> !props[i].key
    ensures UpdateParameters(props, values, ignoreAll) == InsertParameters(props, values, ignoreAll)
  {
    if props != [] {
      var n := |props| - 1;
      UpdateWithoutKeyBindsInsertParameters(props[..n], values[..n], ignoreAll);
      InsertParametersSnoc(props, values, ignoreAll);
    }
  }

  /** Update's loop after the first i properties. */
  function UpdateUpTo(props: seq<PropertyInfo>, values: seq<Value>, ignoreAll: bool, i: nat): UpdateParts
    requires i <= |props| == |values|
  {
    UpdateSpec(props[..i], values[..i], ignoreAll)
  }

  /** One turn of Update's loop, with the `first` flag read off the columns written so far. */
  function UpdateTurn(prev: UpdateParts, p: PropertyInfo, v: Value, ignoreAll: bool): UpdateParts
  {
    if p.key then prev.(primaryKey := p.name, parameters := prev.parameters + [Created("Id", v)])
    else if Keeps(Write, p, ignoreAll) then
      prev.(columns := (if prev.columns == "" then prev.columns else prev.columns + ",") + "[" + p.name + "] = @" + p.name,
            parameters := prev.parameters + [Created(p.name, OrDbNull(v))])
    else prev
  }

  /** Update's loop after i turns, turn by turn. */
  function UpdateLoop(props: seq<PropertyInfo>, values: seq<Value>, ignoreAll: bool, i: nat): UpdateParts
    requires i <= |props| == |values|
  {
    if i == 0 then UpdateParts("", "", [])
    else UpdateTurn(UpdateLoop(props, values, ignoreAll, i - 1), props[i - 1], values[i - 1], ignoreAll)
  }

  /** The assignments are empty exactly when no column has been selected yet. */
  lemma AssignmentsEmpty(names: seq<string>)
    ensures Join(",", Assignments(names)) == "" <==> names == []
  {
    if names != [] {
      var xs := Assignments(names);
      assert xs[|xs| - 1] == "[" + names[|names| - 1] + "] = @" + names[|names| - 1];
      assert |Join(",", xs)| >= |xs[|xs| - 1]| > 0;
    }
  }

  lemma UpdateStepKey(props: seq<PropertyInfo>, values: seq<Value>, ignoreAll: bool, i: nat)
    requires i < |props| == |values| && props[i].key
    ensures UpdateUpTo(props, values, ignoreAll, i + 1) == UpdateTurn(UpdateUpTo(props, values, ignoreAll, i), props[i], values[i], ignoreAll)
  {
    var ps, vs := props[..i + 1], values[..i + 1];
    assert ps[..i] == props[..i] && vs[..i] == values[..i];
    SelectedNamesSnoc(ps, Write, ignoreAll);
    KeyOrEmptySnoc(ps);
    assert SelectedNames(ps, Write, ignoreAll) == SelectedNames(props[..i], Write, ignoreAll);
  }

  lemma UpdateStepKept(props: seq<PropertyInfo>, values: seq<Value>, ignoreAll: bool, i: nat)
    requires i < |props| == |values| && Keeps(Write, props[i], ignoreAll)
    ensures UpdateUpTo(props, values, ignoreAll, i + 1) == UpdateTurn(UpdateUpTo(props, values, ignoreAll, i), props[i], values[i], ignoreAll)
  {
    var ps, vs := props[..i + 1], values[..i + 1];
    assert ps[..i] == props[..i] && vs[..i] == values[..i];
    SelectedNamesSnoc(ps, Write, ignoreAll);
    KeyOrEmptySnoc(ps);
    var names := SelectedNames(props[..i], Write, ignoreAll);
    AssignmentsSnoc(names, props[i].name);
    AssignmentsEmpty(names);
  }

  lemma UpdateStepSkipped(props: seq<PropertyInfo>, values: seq<Value>, ignoreAll: bool, i: nat)
    requires i < |props| == |values| && !props[i].key && !Keeps(Write, props[i], ignoreAll)
    ensures UpdateUpTo(props, values, ignoreAll, i + 1) == UpdateTurn(UpdateUpTo(props, values, ignoreAll, i), props[i], values[i], ignoreAll)
  {
    var ps, vs := props[..i + 1], values[..i + 1];
    assert ps[..i] == props[..i] && vs[..i] == values[..i];
    SelectedNamesSnoc(ps, Write, ignoreAll);
    KeyOrEmptySnoc(ps);
    assert SelectedNames(ps, Write, ignoreAll) == SelectedNames(props[..i], Write, ignoreAll);
  }

  /** Turn by turn, Update's loop collects what UpdateSpec says of each prefix. */
  lemma UpdateLoopSpec(props: seq<PropertyInfo>, values: seq<Value>, ignoreAll: bool, i: nat)
    requires i <= |props| == |values|
    ensures UpdateLoop(props, values, ignoreAll, i) == UpdateUpTo(props, values, ignoreAll, i)
  {
    UpdateNothingYet(props, values, ignoreAll);
    var k := 0;
    while k < i
      invariant k <= i
      invariant UpdateLoop(props, values, ignoreAll, k) == UpdateUpTo(props, values, ignoreAll, k)
    {
      UpdateLoopStep(props, values, ignoreAll, k);
      k := k + 1;
    }
  }

  lemma UpdateLoopStep(props: seq<PropertyInfo>, values: seq<Value>, ignoreAll: bool, j: nat)
    requires j < |props| == |values|
    requires UpdateLoop(props, values, ignoreAll, j) == UpdateUpTo(props, values, ignoreAll, j)
    ensures UpdateLoop(props, values, ignoreAll, j + 1) == UpdateUpTo(props, values, ignoreAll, j + 1)
  {
    UpdateStep(props, values, ignoreAll, j);
    var prev := UpdateLoop(props, values, ignoreAll, j);
    assert UpdateLoop(props, values, ignoreAll, j + 1) == UpdateTurn(prev, props[j], values[j], ignoreAll);
  }

  /** Before the first turn Update has collected nothing. */
  lemma UpdateNothingYet(props: seq<PropertyInfo>, values: seq<Value>, ignoreAll: bool)
    requires |props| == |values|
    ensures UpdateUpTo(props, values, ignoreAll, 0) == UpdateParts("", "", [])
  {
    assert props[..0] == [] && values[..0] == [];
  }

  /** Each turn of Update's loop takes UpdateUpTo of one prefix to that of the next. */
  lemma UpdateStep(props: seq<PropertyInfo>, values: seq<Value>, ignoreAll: bool, i: nat)
    requires i < |props| == |values|
    ensures UpdateUpTo(props, values, ignoreAll, i + 1) == UpdateTurn(UpdateUpTo(props, values, ignoreAll, i), props[i], values[i], ignoreAll)
  {
    if props[i].key {
      UpdateStepKey(props, values, ignoreAll, i);
    } else if Keeps(Write, props[i], ignoreAll) {
      UpdateStepKept(props, values, ignoreAll, i);
    } else {
      UpdateStepSkipped(props, values, ignoreAll, i);
    }
  }

  /** Update's loop: the key name, `[N] = @N` assignments, and the `Id` and column parameters in property order. */
  method BuildUpdate(props: seq<PropertyInfo>, values: seq<Value>, ignoreAll: bool) returns (r: UpdateParts)
    requires |values| == |props|
    ensures r == UpdateSpec(props, values, ignoreAll)
  {
    var primaryKey := "";
    var columns := "";
    var parameters: seq<ParameterData> := [];
    var first := true;
    var i := 0;
    while i < |props|
      invariant 0 <= i <= |props|
      invariant UpdateParts(primaryKey, columns, parameters) == UpdateLoop(props, values, ignoreAll, i)
      invariant first <==> columns == ""
    {
      var p := props[i];
      if p.key {
        primaryKey := p.name;
        parameters := parameters + [Created("Id", values[i])];
      } else if p.ignore || p.readOnly {
      } else if ignoreAll && !p.included {
      } else {
        if !first {
          columns := columns + ",";
        }
        columns := columns + "[" + p.name + "] = @" + p.name;
        parameters := parameters + [Created(p.name, OrDbNull(values[i]))];
        first := false;
      }
      i := i + 1;
    }
    UpdateLoopSpec(props, values, ignoreAll, i);
    assert props[..i] == props && values[..i] == values;
    r := UpdateParts(primaryKey, columns, parameters);
  }

  /** What Delete's loop collects: the first key's name and one `Id` parameter, or "" and none. */
  datatype DeleteParts = DeleteParts(primaryKey: string, parameters: seq<ParameterData>)

  function DeleteSpec(props: seq<PropertyInfo>, values: seq<Value>): (r: DeleteParts)
    requires |values| == |props|
    ensures |r.parameters| <= 1
  {
    match FirstKey(props)
    case None => DeleteParts("", [])
    case Some(i) => DeleteParts(props[i].name, [Created("Id", values[i])])
  }

  /** Delete's loop: stops at the first key. */
  method BuildDelete(props: seq<PropertyInfo>, values: seq<Value>) returns (r: DeleteParts)
    requires |values| == |props|
    ensures r == DeleteSpec(props, values)
  {
    var primaryKey := "";
    var parameters: seq<ParameterData> := [];
    var i := 0;
    while i < |props|
      invariant 0 <= i <= |props|
      invariant forall j :: 0 <= j < i ==> !props[j].key
    {
      if props[i].key {
        primaryKey := props[i].name;
        parameters := parameters + [Created("Id", values[i])];
        break;
      }
      i := i + 1;
    }
    r := DeleteParts(primaryKey, parameters);
  }

  /** With a single key, Delete's key is the one Create and Update use, and it is `Entity.Key`. */
  lemma SingleKeyAgrees(t: TypeInfo, values: seq<Value>, i: nat)
    requires |values| == |t.properties| && i < |t.properties| && t.properties[i].key
    requires forall j :: 0 <= j < |t.properties| && j != i ==> !t.properties[j].key
    ensures DeleteSpec(t.properties, values).primaryKey == KeyOrEmpty(t.properties) == t.properties[i].name
    ensures KeyName(t) == Some(t.properties[i].name)
  {
    var props := t.properties;
    assert FirstKey(props) == Some(i) by {
      var f := FirstKey(props);
      assert f.Some? ==> f.value == i;
    }
    assert LastKey(props) == Some(i) by {
      var l := LastKey(props);
      assert l.Some? ==> l.value == i;
    }
  }

  /** Create's SQL: its template with the table, the collected columns, values and key replaced in that order. */
  function InsertText(table: string, parts: InsertParts): string
  {
    InsertDictionaryKeys(table, parts.columns, parts.values, parts.primaryKey);
    ReplaceSequentially(InsertSql, InsertDictionary(table, parts.columns, parts.values, parts.primaryKey))
  }

  /** Update's SQL: its template with the table, the collected assignments and key replaced in that order. */
  function UpdateText(table: string, parts: UpdateParts): string
  {
    UpdateDictionaryKeys(table, parts.columns, parts.primaryKey);
    ReplaceSequentially(UpdateSql, UpdateDictionary(table, parts.columns, parts.primaryKey))
  }

  /** Delete's SQL: its template with the table and the first key replaced. */
  function DeleteText(table: string, parts: DeleteParts): string
  {
    ReplaceSequentially(DeleteSql, [("{Table}", table), ("{PrimaryKey}", parts.primaryKey)])
  }

  /** Create's, Update's and Delete's statement: connection name, SQL text and parameters. */
  datatype Statement = Statement(connection: string, sql: string, parameters: seq<ParameterData>)

  function InsertStatement(entries: Registry, t: TypeInfo, values: seq<Value>): Result<Statement>
    requires |values| == |t.properties|
  {
    match EntityName(t)
    case Err(e) => Err(e)
    case Ok(table) =>
      match GetConnectionNameForType(entries, t)
      case Err(e) => Err(e)
      case Ok(connection) =>
        var parts := InsertSpec(t.properties, values, IsIgnoreAll(t));
        Ok(Statement(connection, InsertText(table, parts), parts.parameters))
  }

  function UpdateStatement(entries: Registry, t: TypeInfo, values: seq<Value>): Result<Statement>
    requires |values| == |t.properties|
  {
    match EntityName(t)
    case Err(e) => Err(e)
    case Ok(table) =>
      match GetConnectionNameForType(entries, t)
      case Err(e) => Err(e)
      case Ok(connection) =>
        var parts := UpdateSpec(t.properties, values, IsIgnoreAll(t));
        Ok(Statement(connection, UpdateText(table, parts), parts.parameters))
  }

  function DeleteStatement(entries: Registry, t: TypeInfo, values: seq<Value>): Result<Statement>
    requires |values| == |t.properties|
  {
    match EntityName(t)
    case Err(e) => Err(e)
    case Ok(table) =>
      match GetConnectionNameForType(entries, t)
      case Err(e) => Err(e)
      case Ok(connection) =>
        var parts := DeleteSpec(t.properties, values);
        Ok(Statement(connection, DeleteText(table, parts), parts.parameters))
  }

  /** Every property name of the type is brace-free. */
  predicate BraceFreeNames(t: TypeInfo)
  {
    forall i :: 0 <= i < |t.properties| ==> NoBrace(t.properties[i].name)
  }

  lemma NamesBraceFree(t: TypeInfo, rule: Rule, ignoreAll: bool)
    requires BraceFreeNames(t)
    ensures var names := SelectedNames(t.properties, rule, ignoreAll);
            forall k :: 0 <= k < |names| ==> NoBrace(names[k])
  {
  }

  lemma KeyOrEmptyBraceFree(t: TypeInfo)
    requires BraceFreeNames(t)
    ensures NoBrace(KeyOrEmpty(t.properties))
  {
  }

  /**
   * With a brace-free table name and brace-free property names, Create runs
   * `INSERT INTO [T] ([A],[B]) VALUES (@A,@B); SELECT TOP 1 K,[A],[B] FROM [T] WHERE [K] = SCOPE_IDENTITY();`
   * with one parameter per written column.
   */
  lemma InsertStatementShape(entries: Registry, t: TypeInfo, values: seq<Value>)
    requires |values| == |t.properties|
    requires EntityName(t).Ok? && GetConnectionNameForType(entries, t).Ok?
    requires NoBrace(EntityName(t).value) && BraceFreeNames(t)
    ensures var table, names := EntityName(t).value, SelectedNames(t.properties, Write, IsIgnoreAll(t));
            var columns, pk := Join(",", Bracketed(names)), KeyOrEmpty(t.properties);
            InsertStatement(entries, t, values) ==
              Ok(Statement(GetConnectionNameForType(entries, t).value,
                           "INSERT INTO [" + table + "] (" + columns + ") VALUES (" + Join(",", AtNames(names))
                           + "); SELECT TOP 1 " + pk + "," + columns + " FROM [" + table + "] WHERE [" + pk + "] = SCOPE_IDENTITY();",
                           InsertParameters(t.properties, values, IsIgnoreAll(t))))
  {
    var names := SelectedNames(t.properties, Write, IsIgnoreAll(t));
    NamesBraceFree(t, Write, IsIgnoreAll(t));
    KeyOrEmptyBraceFree(t);
    JoinAvoids(",", Bracketed(names), '{');
    JoinAvoids(",", AtNames(names), '{');
    var parts := InsertSpec(t.properties, values, IsIgnoreAll(t));
    assert InsertStatement(entries, t, values) ==
             Ok(Statement(GetConnectionNameForType(entries, t).value, InsertText(EntityName(t).value, parts), parts.parameters));
    InsertSqlShape(EntityName(t).value, parts.columns, parts.values, parts.primaryKey);
  }

  /**
   * With brace-free names, Update runs
   * `UPDATE [T] SET [A] = @A,[B] = @B WHERE [K] = @Id; SELECT TOP 1 K,[A] = @A,[B] = @B FROM [T] WHERE [K] = @Id;`
   * (the select list repeats the assignments, as the template does).
   */
  lemma UpdateStatementShape(entries: Registry, t: TypeInfo, values: seq<Value>)
    requires |values| == |t.properties|
    requires EntityName(t).Ok? && GetConnectionNameForType(entries, t).Ok?
    requires NoBrace(EntityName(t).value) && BraceFreeNames(t)
    ensures var table, names := EntityName(t).value, SelectedNames(t.properties, Write, IsIgnoreAll(t));
            var columns, pk := Join(",", Assignments(names)), KeyOrEmpty(t.properties);
            UpdateStatement(entries, t, values) ==
              Ok(Statement(GetConnectionNameForType(entries, t).value,
                           "UPDATE [" + table + "] SET " + columns + " WHERE [" + pk + "] = @Id; SELECT TOP 1 " + pk + ","
                           + columns + " FROM [" + table + "] WHERE [" + pk + "] = @Id;",
                           UpdateParameters(t.properties, values, IsIgnoreAll(t))))
  {
    var names := SelectedNames(t.properties, Write, IsIgnoreAll(t));
    NamesBraceFree(t, Write, IsIgnoreAll(t));
    KeyOrEmptyBraceFree(t);
    JoinAvoids(",", Assignments(names), '{');
    UpdateStatementText(entries, t, values);
    var parts := UpdateSpec(t.properties, values, IsIgnoreAll(t));
    UpdateSqlShape(EntityName(t).value, parts.columns, parts.primaryKey);
  }

  lemma UpdateStatementText(entries: Registry, t: TypeInfo, values: seq<Value>)
    requires |values| == |t.properties|
    requires EntityName(t).Ok? && GetConnectionNameForType(entries, t).Ok?
    ensures var parts := UpdateSpec(t.properties, values, IsIgnoreAll(t));
            UpdateStatement(entries, t, values) ==
              Ok(Statement(GetConnectionNameForType(entries, t).value, UpdateText(EntityName(t).value, parts), parts.parameters))
  {
  }

  /** With brace-free names, Delete runs `DELETE FROM [T] WHERE [K] = @Id;` with K the first key. */
  lemma DeleteStatementShape(entries: Registry, t: TypeInfo, values: seq<Value>)
    requires |values| == |t.properties|
    requires EntityName(t).Ok? && GetConnectionNameForType(entries, t).Ok?
    requires NoBrace(EntityName(t).value) && BraceFreeNames(t)
    ensures var parts := DeleteSpec(t.properties, values);
            DeleteStatement(entries, t, values) ==
              Ok(Statement(GetConnectionNameForType(entries, t).value,
                           "DELETE FROM [" + EntityName(t).value + "] WHERE [" + parts.primaryKey + "] = @Id;",
                           parts.parameters))
  {
    var parts := DeleteSpec(t.properties, values);
    DeleteSqlShape(EntityName(t).value, parts.primaryKey);
  }

  // ---------------------------------------------------------------------------------------------
  // The entity object

  /** `Entity<T>.Validate`'s default: a successful result with no message. */
  function AlwaysValid(operation: DataOperation, values: seq<Value>): (r: ValidationResult)
    ensures r.isSuccess && r.errorMessage == None
  {
    Default()
  }

  /** Some property has a public setter, so `Sync` reads the other object. */
  predicate HasSettable(props: seq<PropertyInfo>)
  {
    exists i :: 0 <= i < |props| && props[i].hasPublicSetter
  }

  /** `Sync`'s effect: each property with a public setter takes the newer object's value; the rest keep theirs. */
  function Synced(props: seq<PropertyInfo>, mine: seq<Value>, theirs: seq<Value>): (r: seq<Value>)
    requires |mine| == |props| == |theirs|
    ensures |r| == |props|
    ensures forall i :: 0 <= i < |props| ==> r[i] == if props[i].hasPublicSetter then theirs[i] else mine[i]
  {
    seq(|props|, i requires 0 <= i < |props| => if props[i].hasPublicSetter then theirs[i] else mine[i])
  }

  /** Syncing with an object that holds the same values changes nothing. */
  lemma SyncedWithSelf(props: seq<PropertyInfo>, mine: seq<Value>)
    requires |mine| == |props|
    ensures Synced(props, mine, mine) == mine
  {
  }

  /** Syncing twice with the same newer object is syncing once. */
  lemma SyncedIdempotent(props: seq<PropertyInfo>, mine: seq<Value>, theirs: seq<Value>)
    requires |mine| == |props| == |theirs|
    ensures Synced(props, Synced(props, mine, theirs), theirs) == Synced(props, mine, theirs)
  {
  }

  /** `new Command { Connection = name, Parameters = ..., Query = sql, Style = Query }`. */
  method NewQueryCommand(connection: string, sql: string, ds: seq<ParameterData>) returns (command: Command)
    ensures fresh(command) && fresh(command.ParameterObjects())
    ensures command.connection == Some(connection) && command.query == sql && command.style == CommandStyle.Query
    ensures command.parameters.Some? && ParamsData(command) == ds && command.timeout == 30
  {
    var parameters := Materialize(ds);
    command := new Command();
    command.connection := Some(connection);
    command.parameters := Some(parameters);
    command.query := sql;
    command.style := CommandStyle.Query;
  }

  /** Create's statement, built as Create builds it: table name, connection name, the loop, the replacements. */
  method BuildInsertStatement(entries: Registry, t: TypeInfo, values: seq<Value>) returns (r: Result<Statement>)
    requires |values| == |t.properties|
    ensures r == InsertStatement(entries, t, values)
  {
    var tableName := EntityName(t);
    if tableName.Err? {
      return Err(tableName.error);
    }
    var connection := GetConnectionNameForType(entries, t);
    if connection.Err? {
      return Err(connection.error);
    }
    var parts := BuildInsert(t.properties, values, IsIgnoreAll(t));
    InsertDictionaryKeys(tableName.value, parts.columns, parts.values, parts.primaryKey);
    var sql := ReplaceDictionary(InsertSql, InsertDictionary(tableName.value, parts.columns, parts.values, parts.primaryKey));
    assert sql == InsertText(tableName.value, parts);
    r := Ok(Statement(connection.value, sql, parts.parameters));
  }

  /** Update's statement, built as Update builds it. */
  method BuildUpdateStatement(entries: Registry, t: TypeInfo, values: seq<Value>) returns (r: Result<Statement>)
    requires |values| == |t.properties|
    ensures r == UpdateStatement(entries, t, values)
  {
    var tableName := EntityName(t);
    if tableName.Err? {
      return Err(tableName.error);
    }
    var connection := GetConnectionNameForType(entries, t);
    if connection.Err? {
      return Err(connection.error);
    }
    var parts := BuildUpdate(t.properties, values, IsIgnoreAll(t));
    UpdateDictionaryKeys(tableName.value, parts.columns, parts.primaryKey);
    var sql := ReplaceDictionary(UpdateSql, UpdateDictionary(tableName.value, parts.columns, parts.primaryKey));
    assert sql == UpdateText(tableName.value, parts);
    r := Ok(Statement(connection.value, sql, parts.parameters));
  }

  /** Delete's statement, built as Delete builds it. */
  method BuildDeleteStatement(entries: Registry, t: TypeInfo, values: seq<Value>) returns (r: Result<Statement>)
    requires |values| == |t.properties|
    ensures r == DeleteStatement(entries, t, values)
  {
    var tableName := EntityName(t);
    if tableName.Err? {
      return Err(tableName.error);
    }
    var connection := GetConnectionNameForType(entries, t);
    if connection.Err? {
      return Err(connection.error);
    }
    var parts := BuildDelete(t.properties, values);
    var sql := ReplaceDictionary(DeleteSql, [("{Table}", tableName.value), ("{PrimaryKey}", parts.primaryKey)]);
    r := Ok(Statement(connection.value, sql, parts.parameters));
  }

  /** Every parameter an entity operation binds is parsed and has the default direction. */
  predicate PlainParameters(ps: seq<ParameterData>)
  {
    forall i :: 0 <= i < |ps| ==> ps[i].parse && ps[i].direction == None
  }

  /** Create's and Update's parameters are all parsed, with the default direction. */
  lemma InsertStatementPlain(entries: Registry, t: TypeInfo, values: seq<Value>)
    requires |values| == |t.properties| && InsertStatement(entries, t, values).Ok?
    ensures PlainParameters(InsertStatement(entries, t, values).value.parameters)
  {
    InsertStatementParameters(entries, t, values);
    InsertParametersPlain(t.properties, values, IsIgnoreAll(t));
  }

  lemma InsertStatementParameters(entries: Registry, t: TypeInfo, values: seq<Value>)
    requires |values| == |t.properties| && InsertStatement(entries, t, values).Ok?
    ensures InsertStatement(entries, t, values).value.parameters == InsertParameters(t.properties, values, IsIgnoreAll(t))
  {
  }

  lemma InsertParametersPlain(props: seq<PropertyInfo>, values: seq<Value>, ignoreAll: bool)
    requires |values| == |props|
    ensures PlainParameters(InsertParameters(props, values, ignoreAll))
  {
    var ps := InsertParameters(props, values, ignoreAll);
    forall i | 0 <= i < |ps|
      ensures ps[i].parse && ps[i].direction == None
    {
    }
  }

  lemma {:induction false} UpdateParametersPlain(props: seq<PropertyInfo>, values: seq<Value>, ignoreAll: bool)
    requires |values| == |props|
    ensures PlainParameters(UpdateParameters(props, values, ignoreAll))
  {
    if props != [] {
      var n := |props| - 1;
      UpdateParametersPlain(props[..n], values[..n], ignoreAll);
    }
  }

  lemma UpdateStatementPlain(entries: Registry, t: TypeInfo, values: seq<Value>)
    requires |values| == |t.properties| && UpdateStatement(entries, t, values).Ok?
    ensures PlainParameters(UpdateStatement(entries, t, values).value.parameters)
  {
    UpdateParametersPlain(t.properties, values, IsIgnoreAll(t));
  }

  lemma DeleteStatementPlain(entries: Registry, t: TypeInfo, values: seq<Value>)
    requires |values| == |t.properties| && DeleteStatement(entries, t, values).Ok?
    ensures PlainParameters(DeleteStatement(entries, t, values).value.parameters)
  {
  }

  /**
   * A fresh command for the statement run through one of the two lenient entry points,
   * `Data.Store.Scalar<T>(command)` (Create and Update) or `Data.Store.Query<T>(command)` (`All`):
   * the named connection is used as given (a registered name's string, otherwise the name
   * itself), nothing is spliced, and the diagnostic text is regenerated when that switch is on.
   */
  method RunLenient(data: Data, statement: Statement, t: TypeInfo, returned: map<string, Value>) returns (r: Result<Execution>, command: Command)
    requires PlainParameters(statement.parameters)
    modifies data`currentSqlQuery
    ensures r == Ok(Execution(LenientConnection(data.connections, statement.connection), statement.sql,
                              AfterExecution(BoundOf(statement.parameters), returned), 30))
    ensures fresh(command)
    ensures command.connection == Some(statement.connection) && command.query == statement.sql
    ensures command.style == CommandStyle.Query && ParamsData(command) == statement.parameters
    ensures data.currentSqlQuery ==
              if data.generateQueryText then DiagnosticText(statement.sql, BoundOf(statement.parameters)) else old(data.currentSqlQuery)
  {
    command := NewQueryCommand(statement.connection, statement.sql, statement.parameters);
    ExecuteBoundOnly(statement.sql, command.timeout, statement.parameters, LenientConnection(data.connections, statement.connection),
                     data.generateQueryText, data.currentSqlQuery, returned);
    var partialTrust;
    r, partialTrust := data.QueryOf(command, t, returned);
  }

  /**
   * `Data.Store.Query(command)` on a fresh command for the statement: the connection name must be
   * registered; nothing is spliced, and the diagnostic text is regenerated when that switch is on.
   */
  method RunQuery(data: Data, statement: Statement, returned: map<string, Value>) returns (r: Result<Execution>, command: Command)
    requires PlainParameters(statement.parameters)
    modifies data`currentSqlQuery
    ensures fresh(command)
    ensures command.connection == Some(statement.connection) && command.query == statement.sql
    ensures command.style == CommandStyle.Query && ParamsData(command) == statement.parameters
    ensures var resolved := QueryConnection(data.connections, Some(statement.connection));
            && (resolved.Err? ==> r == Err(resolved.error) && data.currentSqlQuery == old(data.currentSqlQuery))
            && (resolved.Ok? ==>
                  && r == Ok(Execution(resolved.value, statement.sql, AfterExecution(BoundOf(statement.parameters), returned), command.timeout))
                  && data.currentSqlQuery ==
                       if data.generateQueryText then DiagnosticText(statement.sql, BoundOf(statement.parameters)) else old(data.currentSqlQuery))
  {
    command := NewQueryCommand(statement.connection, statement.sql, statement.parameters);
    var resolved := QueryConnection(data.connections, command.connection);
    if resolved.Ok? {
      ExecuteBoundOnly(statement.sql, command.timeout, statement.parameters, resolved.value,
                       data.generateQueryText, data.currentSqlQuery, returned);
    }
    r := data.Query(command, returned);
  }

  /**
   * An instance of a class derived from `Entity<T>`: its type's metadata, its `Validate`
   * override and the current values of its properties, in declaration order.
   */
  class Entity {
    const meta: TypeInfo
    const validate: (DataOperation, seq<Value>) -> ValidationResult
    var values: seq<Value>

    ghost predicate Valid()
      reads this
    {
      |values| == |meta.properties|
    }

    /** An entity whose class does not override `Validate`. */
    constructor (meta: TypeInfo, values: seq<Value>)
      requires |values| == |meta.properties|
      ensures this.meta == meta && this.values == values && Valid()
      ensures forall op, vs :: validate(op, vs) == AlwaysValid(op, vs)
    {
      this.meta, this.values, this.validate := meta, values, AlwaysValid;
    }

    /** An entity whose class overrides `Validate`. */
    constructor WithValidation(meta: TypeInfo, values: seq<Value>, validate: (DataOperation, seq<Value>) -> ValidationResult)
      requires |values| == |meta.properties|
      ensures this.meta == meta && this.values == values && this.validate == validate && Valid()
    {
      this.meta, this.values, this.validate := meta, values, validate;
    }

    /**
     * `Sync(newer)`: copies every property with a public setter from `newer`. A null `newer`
     * fails at the first such property (reading a property of null) before anything is copied.
     */
    method Sync(newer: Entity?) returns (r: Result<()>)
      requires Valid()
      requires newer != null ==> newer.meta == meta && newer.Valid()
      modifies this`values
      ensures Valid()
      ensures newer == null && HasSettable(meta.properties) ==> r == Err(NullTarget) && values == old(values)
      ensures newer == null && !HasSettable(meta.properties) ==> r == Ok(()) && values == old(values)
      ensures newer != null ==> r == Ok(()) && values == Synced(meta.properties, old(values), old(newer.values))
    {
      var props := meta.properties;
      var theirs := if newer == null then values else newer.values;
      ghost var mine := values;
      var i := 0;
      while i < |props|
        invariant 0 <= i <= |props|
        invariant |values| == |props|
        invariant forall j :: 0 <= j < |props| ==>
                    values[j] == if j < i && props[j].hasPublicSetter then theirs[j] else mine[j]
        invariant newer == null ==> forall j :: 0 <= j < i ==> !props[j].hasPublicSetter
      {
        if props[i].hasPublicSetter {
          if newer == null {
            assert values == mine;
            return Err(NullTarget);
          }
          values := values[i := theirs[i]];
        }
        i := i + 1;
      }
      r := Ok(());
    }

    /**
     * The tail Create and Update share: run the statement with `Scalar<T>`, then `Sync` with the
     * row read back, and answer the validation result unless `Sync` failed.
     */
    method RunAndSync(data: Data, statement: Statement, fetched: Entity?, returned: map<string, Value>, validation: ValidationResult)
      returns (r: Result<ValidationResult>, command: Command)
      requires Valid() && PlainParameters(statement.parameters)
      requires fetched != null ==> fetched.meta == meta && fetched.Valid()
      modifies this`values, data`currentSqlQuery
      ensures Valid() && fresh(command)
      ensures command.connection == Some(statement.connection) && command.query == statement.sql
      ensures command.style == CommandStyle.Query && ParamsData(command) == statement.parameters
      ensures data.currentSqlQuery ==
                if data.generateQueryText then DiagnosticText(statement.sql, BoundOf(statement.parameters)) else old(data.currentSqlQuery)
      ensures fetched == null && HasSettable(meta.properties) ==> r == Err(NullTarget) && values == old(values)
      ensures fetched == null && !HasSettable(meta.properties) ==> r == Ok(validation) && values == old(values)
      ensures fetched != null ==> r == Ok(validation) && values == Synced(meta.properties, old(values), old(fetched.values))
    {
      var executed;
      executed, command := RunLenient(data, statement, meta, returned);
      var synced := Sync(fetched);
      if synced.Err? {
        return Err(synced.error), command;
      }
      r := Ok(validation);
    }

    /**
     * `Create()`: validates for Insert and returns a failed validation untouched; otherwise
     * resolves the table and the connection name, builds the INSERT statement, runs it with
     * `Scalar<T>`, and syncs with the row it read back (`fetched`, null when none came back).
     * The command it ran is returned alongside.
     */
    method Create(data: Data, fetched: Entity?, returned: map<string, Value>) returns (r: Result<ValidationResult>, command: Command?)
      requires Valid()
      requires fetched != null ==> fetched.meta == meta && fetched.Valid()
      modifies this`values, data`currentSqlQuery
      ensures Valid()
      ensures var v := validate(Insert, old(values));
              !v.isSuccess ==> r == Ok(v) && command == null && values == old(values) && data.currentSqlQuery == old(data.currentSqlQuery)
      ensures var v, s := validate(Insert, old(values)), InsertStatement(data.connections, meta, old(values));
              v.isSuccess && s.Err? ==>
                r == Err(s.error) && command == null && values == old(values) && data.currentSqlQuery == old(data.currentSqlQuery)
      ensures var v, s := validate(Insert, old(values)), InsertStatement(data.connections, meta, old(values));
              v.isSuccess && s.Ok? ==>
                && command != null && fresh(command)
                && command.connection == Some(s.value.connection) && command.query == s.value.sql
                && command.style == CommandStyle.Query && ParamsData(command) == s.value.parameters
                && data.currentSqlQuery ==
                     (if data.generateQueryText then DiagnosticText(s.value.sql, BoundOf(s.value.parameters)) else old(data.currentSqlQuery))
                && (fetched == null && HasSettable(meta.properties) ==> r == Err(NullTarget) && values == old(values))
                && (fetched == null && !HasSettable(meta.properties) ==> r == Ok(v) && values == old(values))
                && (fetched != null ==> r == Ok(v) && values == Synced(meta.properties, old(values), old(fetched.values)))
    {
      var validation := validate(Insert, values);
      if !validation.isSuccess {
        return Ok(validation), null;
      }
      var statement := BuildInsertStatement(data.connections, meta, values);
      if statement.Err? {
        return Err(statement.error), null;
      }
      InsertStatementPlain(data.connections, meta, values);
      r, command := RunAndSync(data, statement.value, fetched, returned, validation);
    }

    /**
     * `Update()`: validates for Update and returns a failed validation untouched; otherwise builds
     * the UPDATE statement, runs it with `Scalar<T>` and syncs with the row read back.
     */
    method Update(data: Data, fetched: Entity?, returned: map<string, Value>) returns (r: Result<ValidationResult>, command: Command?)
      requires Valid()
      requires fetched != null ==> fetched.meta == meta && fetched.Valid()
      modifies this`values, data`currentSqlQuery
      ensures Valid()
      ensures var v := validate(DataOperation.Update, old(values));
              !v.isSuccess ==> r == Ok(v) && command == null && values == old(values) && data.currentSqlQuery == old(data.currentSqlQuery)
      ensures var v, s := validate(DataOperation.Update, old(values)), UpdateStatement(data.connections, meta, old(values));
              v.isSuccess && s.Err? ==>
                r == Err(s.error) && command == null && values == old(values) && data.currentSqlQuery == old(data.currentSqlQuery)
      ensures var v, s := validate(DataOperation.Update, old(values)), UpdateStatement(data.connections, meta, old(values));
              v.isSuccess && s.Ok? ==>
                && command != null && fresh(command)
                && command.connection == Some(s.value.connection) && command.query == s.value.sql
                && command.style == CommandStyle.Query && ParamsData(command) == s.value.parameters
                && data.currentSqlQuery ==
                     (if data.generateQueryText then DiagnosticText(s.value.sql, BoundOf(s.value.parameters)) else old(data.currentSqlQuery))
                && (fetched == null && HasSettable(meta.properties) ==> r == Err(NullTarget) && values == old(values))
                && (fetched == null && !HasSettable(meta.properties) ==> r == Ok(v) && values == old(values))
                && (fetched != null ==> r == Ok(v) && values == Synced(meta.properties, old(values), old(fetched.values)))
    {
      var validation := validate(DataOperation.Update, values);
      if !validation.isSuccess {
        return Ok(validation), null;
      }
      var statement := BuildUpdateStatement(data.connections, meta, values);
      if statement.Err? {
        return Err(statement.error), null;
      }
      UpdateStatementPlain(data.connections, meta, values);
      r, command := RunAndSync(data, statement.value, fetched, returned, validation);
    }

    /**
     * `Delete()`: validates for Delete and returns a failed validation untouched; otherwise builds
     * the DELETE statement and runs it with `Query`, which insists that the connection name is
     * registered. The entity itself is not changed.
     */
    method Delete(data: Data, returned: map<string, Value>) returns (r: Result<ValidationResult>, command: Command?)
      requires Valid()
      modifies data`currentSqlQuery
      ensures var v := validate(DataOperation.Delete, values);
              !v.isSuccess ==> r == Ok(v) && command == null && data.currentSqlQuery == old(data.currentSqlQuery)
      ensures var v, s := validate(DataOperation.Delete, values), DeleteStatement(data.connections, meta, values);
              v.isSuccess && s.Err? ==> r == Err(s.error) && command == null && data.currentSqlQuery == old(data.currentSqlQuery)
      ensures var v, s := validate(DataOperation.Delete, values), DeleteStatement(data.connections, meta, values);
              v.isSuccess && s.Ok? ==>
                && command != null && fresh(command)
                && command.connection == Some(s.value.connection) && command.query == s.value.sql
                && command.style == CommandStyle.Query && ParamsData(command) == s.value.parameters
                && var resolved := QueryConnection(data.connections, Some(s.value.connection));
                && (resolved.Err? ==> r == Err(resolved.error) && data.currentSqlQuery == old(data.currentSqlQuery))
                && (resolved.Ok? ==>
                      && r == Ok(v)
                      && data.currentSqlQuery ==
                           if data.generateQueryText then DiagnosticText(s.value.sql, BoundOf(s.value.parameters)) else old(data.currentSqlQuery))
    {
      var validation := validate(DataOperation.Delete, values);
      if !validation.isSuccess {
        return Ok(validation), null;
      }
      var statement := BuildDeleteStatement(data.connections, meta, values);
      if statement.Err? {
        return Err(statement.error), null;
      }
      DeleteStatementPlain(data.connections, meta, values);
      var executed;
      executed, command := RunQuery(data, statement.value, returned);
      if executed.Err? {
        return Err(executed.error), command;
      }
      r := Ok(validation);
    }
  }
}
