# SqlData core, modelled in Dafny

SqlData is a small ORM for SQL Server. Entity classes derive from `Entity<T>`. Attributes on the
class and its properties decide what is written and read:

- class attributes: `[Name]`, `[Connection]`, `[IgnoreAll]`;
- property attributes: `[Key]`, `[Ignore]`, `[Include]`, `[ReadOnly]`.

A singleton `Data` store keeps the named connection strings. It turns a `Command` into an ADO.NET
`SqlCommand` and runs it.

This project models that core, source file by source file:

- **`Entities`** (`SqlData/Entity.cs`):
  - the class-level `Entity` object with its `Validate` hook and property values;
  - `Create`, `Update` and `Delete`, with their column, value and parameter loops, their SQL
    templates filled by `ReplaceDictionary`, and the run through `Scalar<T>` or `Query`;
  - `Sync`, which copies the read-back row into the entity.
- **`Store`** (`SqlData/Store.cs`, class `Data`):
  - the insertion-ordered connection registry;
  - how each entry point resolves a connection. `Query` is strict. The typed and dynamic entry
    points fill a null name in and fall back to the name itself.
  - the stored-procedure call text;
  - `BuildParameterList`, which binds parameters with Parse set and splices the others into the
    command text;
  - the diagnostic `CurrentSqlQuery` text;
  - `PopulateParameters`, which copies output values back.
- **`StoreMapping`** (`SqlData/Store.cs`):
  - `HasColumn` and `GetPropertyMap`;
  - `All<T>`;
  - `QueryMultiple`'s do-while over result sets, with its table naming and its Table/Scalar
    shaping;
  - `ToDataTable` and `CreateAll`.
- **`TypeExtensions`**: `GetOrdinalValuesFromDataReader`, and `Is<T>` on types.
- **`StringExtensions`**: `ReplaceDictionary`, as .NET's ordinal, non-overlapping, left-to-right
  `Replace` applied entry by entry.
- **`Caching`**: `DataCache`'s get-or-add cache of property setters.
- **Value types**: `Command`, `Parameter`, `SqlResult` and `ValidationResult`.
- **`Metadata`**: the reflection metadata as data, the attribute lookups, and the three
  property-filtering rules the code applies:
  - Write, for insert and update;
  - Read, for `All`, `GetPropertyMap` and `GetOrdinalValuesFromDataReader`;
  - Bulk, for `ToDataTable`.

Imperative code is modelled as imperative Dafny. Each loop is a `method` proved equal to a
specification function, and lemmas state that function's properties.

Objects that the source updates in place are classes:

- `Data` (connections, `GenerateQueryText`, `CurrentSqlQuery`);
- `Command` and its `SessionContext`;
- `Parameter`, whose `Value` `PopulateParameters` overwrites;
- `Entity`, whose property values `Sync` overwrites;
- `DataCache`.

Pure reflection and string logic is modelled as functions and lemmas.

The database round trip is a parameter of the model:

- the values the `SqlParameter` objects hold when `PopulateParameters` copies them back, as
  `returned: map<string, Value>` (see "## Left out" for what these are on the reader paths);
- the reader's result sets, as `sets: seq<ResultSet>`;
- the row `Scalar<T>` reads back, as `fetched: Entity?`, where null means no row.

Behaviours of the source worth knowing before reading the model:

- `ToDataTable` also drops `[ReadOnly]` properties (the `Bulk` rule), unlike the `Read` rule
  that `All` and `GetPropertyMap` apply, which keeps them.
- A type without a `[Key]` is not an error.
  - The key name is `""`.
  - Create's read-back becomes `SELECT TOP 1 ,[A],...`.
  - Delete binds no `@Id` parameter.
- Create and Update take the last `[Key]` property; Delete and `Entity.Key` take the first.
- `Entity<T>` declares the public getters `EntityName` and `Key` without `[Ignore]`
  (SqlData/Entity.cs:231-257), so they are in every entity type's property list. On a type
  without `[IgnoreAll]` the Write and Bulk rules keep them: Create, Update and CreateAll emit
  `[EntityName]` and `[Key]` columns unless the caller's property list leaves them out.
- Update's read-back select list repeats the `[A] = @A` assignments, because the template uses
  `{Columns}` for both.
- `Query(command)` throws on an unregistered connection name. `Query<T>`, `Scalar<T>`,
  `QueryMultiple`, `QueryDynamic` and `ScalarDynamic` instead use the name itself as the
  connection string.

## Model

| member | source | states |
|---|---|---|
| `Strings.NatToString` | SqlData/Store.cs:533 | `count.ToString()` is a non-empty string of decimal digits |
| `Strings.ParseNatToString` | SqlData/Store.cs:533 | reading the decimal text of n back gives n (round trip) |
| `Strings.NatToStringInjective` | SqlData/Store.cs:533 | distinct counts give distinct texts, so default table names never collide |
| `SqlTypes.OrDbNull` | SqlData/Entity.cs:81 | `value ?? DBNull.Value` is never null, keeps a non-null value and turns null into DBNull |
| `SqlTypes.NewSqlParameter` | SqlData/Store.cs:999 | `new SqlParameter(name, value)` has that name and value, the inferred type, no type name and direction Input |
| `Parameters.Created` | SqlData/Parameter.cs:22-27 | a parameter built from name, value and parse holds exactly those, with Type, TypeName and Direction unset |
| `Parameters.Parameter.constructor` | SqlData/Parameter.cs:17-20 | `new Parameter()` has Parse true and everything else unset |
| `Parameters.Parameter.Init` | SqlData/Parameter.cs:22-27 | the three-argument constructor stores name, value and parse |
| `Parameters.Parameter.Create` | SqlData/Parameter.cs:29-32 | `Parameter.Create` returns a new object holding exactly the given name, value and parse |
| `SqlResults.Default` | SqlData/SqlResult.cs:6 | a new SqlResult is of type Table |
| `SqlResults.Create` | SqlData/SqlResult.cs:13-20 | `Create(name)` has that name and type Table |
| `SqlResults.CreateTyped` | SqlData/SqlResult.cs:22-29 | `Create(name, type)` has exactly that name and type |
| `SqlResults.CreateIsCreateTable` | SqlData/SqlResult.cs:13-29 | the one-argument overload equals the two-argument one at Table |
| `Validation.Default` | SqlData/ValidationResult.cs:19 | the default result is a success with no message |
| `Validation.Make` | SqlData/ValidationResult.cs:21-25 | the two-argument constructor stores the flag and the message |
| `Commands.SessionContext.constructor` | SqlData/Command.cs:25 | a command's session context starts empty |
| `Commands.SessionContext.Add` | SqlData/Command.cs:25 | `Dictionary.Add` fails on a present key and leaves the entries alone; otherwise it appends exactly that entry |
| `Commands.Command.constructor` | SqlData/Command.cs:12-33 | a new command has timeout 30, an empty parameter list and table list, style Query, and an empty session context |
| `Metadata.CountOfKind` | SqlData/TypeExtensions.cs:13 | the count of attributes of a kind is at most their number |
| `Metadata.CountOfKindZero` | SqlData/TypeExtensions.cs:13 | the count is zero exactly when no attribute has that kind |
| `Metadata.CountOfKindAppend` | SqlData/TypeExtensions.cs:13 | counting over two lists joined is the sum of the counts over each |
| `Metadata.Is` | SqlData/TypeExtensions.cs:11-17 | `type.Is<T>()` holds exactly when some class attribute is of kind T |
| `Metadata.FirstOfKind` | SqlData/DataAttributes/Connection.cs:18 | the position found is the first attribute of the kind at or after `from`; none means none remains |
| `Metadata.SingleOfKindSpec` | SqlData/DataAttributes/Connection.cs:16-19 | `SingleOrDefault` throws exactly when two or more attributes match, gives null exactly when none does, and otherwise gives the one attribute of that kind |
| `Metadata.EntityName` | SqlData/Entity.cs:231-239 | succeeds exactly when at most one `[Name]` is present; without one it is the type name, and with exactly one it is that attribute's value |
| `Metadata.AssignedConnection` | SqlData/DataAttributes/Connection.cs:16-19 | succeeds exactly when at most one `[Connection]` is present; null exactly when none; otherwise a `[Connection]` value of the type |
| `Metadata.Selected` | SqlData/Entity.cs:57-69 | the kept positions are valid positions, at most one per property |
| `Metadata.SelectedSpec` | SqlData/Entity.cs:57-69 | a position is kept exactly when the rule keeps that property, and kept positions are strictly increasing (declaration order) |
| `Metadata.RulesNested` | SqlData/Store.cs:1162-1169 | a Write column is a Bulk column; Bulk is Read without ReadOnly; Write is Bulk without Key |
| `Metadata.SelectedNames` | SqlData/Entity.cs:57-83 | one name per kept property |
| `Metadata.SelectedNamesSnoc` | SqlData/Entity.cs:57-83 | adding a property adds its name at the end when the rule keeps it, and nothing otherwise |
| `Metadata.FirstKey` | SqlData/Entity.cs:203-212 | the first `[Key]` property, or none when no property is a key |
| `Metadata.LastKey` | SqlData/Entity.cs:57-63 | the last `[Key]` property (each key overwrites the previous one), or none |
| `Metadata.KeyName` | SqlData/Entity.cs:241-257 | null exactly when no property is a key; otherwise the name of a key property |
| `TypeExtensions.IndexOf` | SqlData/TypeExtensions.cs:35 | the first column equal to the name, or none exactly when no column equals it |
| `TypeExtensions.IndexIgnoringCase` | SqlData/TypeExtensions.cs:35 | the first column equal to the name up to case, or none exactly when there is none |
| `TypeExtensions.GetOrdinalSpec` | SqlData/TypeExtensions.cs:35 | `GetOrdinal` throws exactly when no column matches up to case; an exact match wins, otherwise the first case-insensitive match |
| `TypeExtensions.OrdinalMapSpec` | SqlData/TypeExtensions.cs:19-45 | each entry maps a name to its ordinal, no name appears twice, and a name is present exactly when a property the Read rule keeps has it and the reader resolves it |
| `TypeExtensions.GetOrdinalValuesFromDataReader` | SqlData/TypeExtensions.cs:19-45 | the loop, with its caught throws, builds exactly that dictionary |
| `StringExtensions.ReplaceAllNoOccurrence` | SqlData/StringExtensions.cs:13 | replacing a pattern that does not occur changes nothing |
| `StringExtensions.ReplaceAllFirstOccurrence` | SqlData/StringExtensions.cs:13 | the text before the first occurrence is kept, that occurrence is replaced, and the scan resumes after it (non-overlapping) |
| `StringExtensions.ReplaceAllSelf` | SqlData/StringExtensions.cs:13 | replacing a pattern by itself is the identity |
| `StringExtensions.ReplaceAllRewritesLongerName` | SqlData/Store.cs:1026 | replacing `@Name` also rewrites the start of a longer `@NameX` |
| `StringExtensions.ReplaceSequentiallySnoc` | SqlData/StringExtensions.cs:8-17 | one more dictionary entry means one more `Replace` on the previous result |
| `StringExtensions.ReplaceDictionary` | SqlData/StringExtensions.cs:8-17 | the loop applies the entries in insertion order, each to the result of the previous one |
| `StringExtensions.ReplaceDictionaryEmpty` | SqlData/StringExtensions.cs:8-17 | an empty dictionary leaves the string unchanged |
| `StringExtensions.ReplaceSequentiallySkipsAbsentKey` | SqlData/StringExtensions.cs:8-17 | an entry whose key does not occur has no effect |
| `StringExtensions.ReplaceAllTemplate` | SqlData/StringExtensions.cs:13 | on a template of brace-free literals and `{X}` placeholders, replacing a placeholder substitutes exactly the matching pieces |
| `StringExtensions.ReplaceSequentiallyTemplate` | SqlData/StringExtensions.cs:8-17 | filling a template entry by entry is piece-wise substitution, so a replacement never reaches later placeholders |
| `Caching.Setter.constructor` | SqlData/DataCache.cs:83 | a delegate sets the property it was made for |
| `Caching.CreateSetMethod` | SqlData/DataCache.cs:60-84 | null exactly when the property has no public setter; otherwise a new delegate for that property |
| `Caching.DataCache.constructor` | SqlData/DataCache.cs:16-19 | the cache starts empty |
| `Caching.DataCache.GetSetter` | SqlData/DataCache.cs:43-58 | a hit returns the cached setter and leaves the cache unchanged; a miss adds exactly this property's new setter; no other entry changes; every entry matches its key |
| `Caching.DataCache.GetSetterTwice` | SqlData/DataCache.cs:43-58 | two lookups of one property return the identical delegate, and the second adds nothing |
| `Store.Lookup` | SqlData/Store.cs:91-94 | absent exactly when no entry has the name; otherwise a registered string of that name |
| `Store.LookupUnique` | SqlData/Store.cs:86-89 | in a registry without duplicate names, each entry is what its name looks up |
| `Store.LookupAfterRegister` | SqlData/Store.cs:86-89 | registering a new name changes the lookup of that name only |
| `Store.DefaultConnection` | SqlData/Store.cs:81-84 | `connections.First()` fails exactly on an empty registry and is otherwise the first entry added |
| `Store.GetConnection` | SqlData/Store.cs:91-94 | throws KeyNotFound exactly when the name is not registered; otherwise a string registered under it |
| `Store.GetDefaultConnection` | SqlData/Store.cs:96-99 | succeeds exactly on a non-empty registry, with the first entry's string |
| `Store.ContainsConnection` | SqlData/Store.cs:101-104 | true exactly when some entry has the name |
| `Store.GetConnectionNameForType` | SqlData/Store.cs:113-118 | a duplicated `[Connection]` throws; none gives the default entry's name; one gives its value |
| `Store.ConnectionForTypeIsRegisteredUnderName` | SqlData/Store.cs:106-111 | the type's connection string is the one registered under the type's connection name |
| `Store.StrictAndLenientResolution` | SqlData/Store.cs:133 | on an unregistered name `Query` throws while the other entry points use the name itself; on a registered name both give its string |
| `Store.ParameterTokens` | SqlData/Store.cs:1080-1090 | one `@Name` token per parameter, with ` OUTPUT` for Output ones, in order |
| `Store.StoredProcedureTextEmpty` | SqlData/Store.cs:1072-1095 | without parameters the call text is `exec <query> ` |
| `Store.StoredProcedureTextSnoc` | SqlData/Store.cs:1072-1095 | a further parameter appends `, ` and its token (no separator before the first) |
| `Store.GenerateStoredProcedureQuery` | SqlData/Store.cs:1072-1095 | the loop builds exactly the stored-procedure call text for the parameters' current data |
| `Store.Bind` | SqlData/Store.cs:997-1021 | a bound parameter has the parameter's name, null as DBNull, the given type or else the inferred one, a type name only when not blank, and the given direction or Input |
| `Store.SpliceText` | SqlData/Store.cs:1026 | the `(string)` cast fails exactly for DBNull and for non-string values |
| `Store.BoundOf` | SqlData/Store.cs:997-1022 | at most one bound parameter per parameter, and none holds null |
| `Store.SplicesOf` | SqlData/Store.cs:1023-1027 | every splice key is a non-empty `@Name` |
| `Store.BuildFromSpec` | SqlData/Store.cs:990-1030 | building fails exactly when a Parse=false value is not a string or null; otherwise the bound list is the Parse=true parameters in order and the text has each Parse=false `@Name` replaced in turn |
| `Store.BuildParameterList` | SqlData/Store.cs:990-1030 | the loop over the parameter objects gives exactly that text and bound list |
| `Store.DiagnosticPairs` | SqlData/Store.cs:1051-1069 | one replacement per bound parameter, `@Name` to NULL, the quoted value for the eight textual and date types, or the value text |
| `Store.BoundHasNoNull` | SqlData/Store.cs:1001-1004 | no bound parameter holds C# null, so the diagnostic text is always defined |
| `Store.FirstNamed` | SqlData/Store.cs:1036-1043 | the first bound parameter of the name, or none when none has it |
| `Store.Populated` | SqlData/Store.cs:1034-1044 | only the value can change, and only for an Output parameter some bound parameter is named after |
| `Store.PopulatedIdempotent` | SqlData/Store.cs:1032-1045 | populating twice is populating once |
| `Store.PopulateParameters` | SqlData/Store.cs:1032-1045 | every parameter object afterwards holds its populated data |
| `Store.BoundIndex` | SqlData/Store.cs:1032-1045 | a Parse=true parameter whose name no earlier one shares is bound at a position that the by-name lookup finds first |
| `Store.AfterExecution` | SqlData/Store.cs:157 | the server changes only values, and only of non-Input parameters |
| `Store.OutputValueCopiedBack` | SqlData/Store.cs:157-159 | an Output parameter with no earlier namesake ends up holding the value the server returned for it |
| `Store.ExecuteBoundOnly` | SqlData/Store.cs:149-159 | a list of bound, non-Output parameters runs the text unchanged and leaves the parameters as they were |
| `Store.Normalized` | SqlData/Store.cs:136-139 | after the null check a command always has a parameter list |
| `Store.Data.constructor` | SqlData/Store.cs:26-29 | a new store has no connections, partial trust and query text generation off, and an empty current query |
| `Store.Data.SetGenerateQueryText` | SqlData/Store.cs:56-65 | setting the flag stores it, and switching it off clears the current query text |
| `Store.Data.AddConnection` | SqlData/Store.cs:86-89 | a duplicate name throws and changes nothing; otherwise the entry is appended and the default entry stays first |
| `Store.Data.Execute` | SqlData/Store.cs:141-159 | the command's text, its parameters, the diagnostic text and the result are exactly those of one specified execution |
| `Store.Data.GenerateSqlQuery` | SqlData/Store.cs:1047-1070 | the current query text is the command text with each bound parameter's `@Name` replaced by its rendering, in order |
| `Store.Data.Query` | SqlData/Store.cs:130-164 | an unresolvable connection throws before anything changes; otherwise the command runs on the strictly resolved string |
| `Store.Data.NormalizeParameters` | SqlData/Store.cs:469-473 | a null parameter list becomes an empty one, and the parameters' data does not change |
| `Store.Data.QueryOf` | SqlData/Store.cs:467-479 | the partial-trust flag chooses the variant; a null connection name is filled from the type and kept; an unregistered name is used as the connection string |
| `Store.Data.QueryByDefault` | SqlData/Store.cs:485-503 | a null connection name is filled with the default entry's name and kept; otherwise as `QueryOf` |
| `StoreMapping.HasColumn` | SqlData/Store.cs:1097-1105 | true exactly when some column has exactly that name |
| `StoreMapping.PropertyMap` | SqlData/Store.cs:950-972 | every entry refers to a property of the type |
| `StoreMapping.PropertyMapEntries` | SqlData/Store.cs:950-972 | each entry is a property the Read rule keeps, mapped to the first column of exactly its name, in declaration order |
| `StoreMapping.PropertyMapComplete` | SqlData/Store.cs:950-972 | a property is mapped exactly when the Read rule keeps it and its exact name is a column |
| `StoreMapping.GetPropertyMap` | SqlData/Store.cs:950-972 | the loop builds exactly that map |
| `StoreMapping.CaseOnlyColumnMatch` | SqlData/Store.cs:965 | a column differing only in case is matched by `GetOrdinalValuesFromDataReader` but not by `GetPropertyMap` |
| `StoreMapping.AllTemplate` | SqlData/Store.cs:914 | `All<T>`'s template is brace-free literals and placeholders |
| `StoreMapping.AllTextShape` | SqlData/Store.cs:936-940 | with brace-free names the text is `SELECT <columns> FROM [<table>]` |
| `StoreMapping.AllStatementShape` | SqlData/Store.cs:901-948 | with brace-free names `All<T>` selects exactly the Read-kept columns, bracketed and comma-separated, from the entity's table |
| `StoreMapping.BuildAllColumns` | SqlData/Store.cs:917-934 | the loop with its `first` flag builds exactly the comma-joined `[Name]` list of Read-kept properties |
| `StoreMapping.BuildAllStatement` | SqlData/Store.cs:903-940 | the table-name lookup, the column loop and the replacement build exactly `All<T>`'s statement |
| `StoreMapping.All` | SqlData/Store.cs:901-948 | the connection name is resolved from the type, the statement built, and the command run through `Query<T>` with no parameters |
| `StoreMapping.FromDb` | SqlData/Store.cs:553 | a row value is never DBNull afterwards; other values are kept |
| `StoreMapping.RowObjectKeys` | SqlData/Store.cs:548-554 | a row object has exactly the reader's column names as keys |
| `StoreMapping.RowObjectValues` | SqlData/Store.cs:548-554 | each name holds the value of the last column of that name |
| `StoreMapping.RowObjects` | SqlData/Store.cs:544-557 | one object per row of the result set |
| `StoreMapping.CollectedUpToKeys` | SqlData/Store.cs:530-580 | after n turns a name is in the result exactly when some turn up to n stored under it |
| `StoreMapping.CollectedUpToValues` | SqlData/Store.cs:530-580 | each name holds what the last turn that stored under it produced |
| `StoreMapping.DefaultNamesDiffer` | SqlData/Store.cs:533 | different counts give different default names |
| `StoreMapping.UndescribedNames` | SqlData/Store.cs:533-542 | without descriptors every set is named `Table<count>` and stored as rows |
| `StoreMapping.UndescribedSetNames` | SqlData/Store.cs:528-580 | without descriptors the keys are exactly `Table1`..`TableN`, one per turn (at least one) |
| `StoreMapping.UndescribedSetRows` | SqlData/Store.cs:542-560 | without descriptors each `Table<k>` holds the row objects of the k-th set |
| `StoreMapping.LaterSetOverwritesSameName` | SqlData/Store.cs:539-559 | a descriptor named `Table2` for the first set is overwritten by the second set's default name |
| `StoreMapping.CollectResults` | SqlData/Store.cs:528-580 | the do-while over the reader builds exactly the collected map |
| `StoreMapping.QueryMultiple` | SqlData/Store.cs:485-586 | connection-name failure throws before anything changes; otherwise a null parameter list becomes empty, the command runs as specified, and the result is the collected map of its sets |
| `StoreMapping.AddColumnsSpec` | SqlData/Store.cs:1171 | adding the columns succeeds exactly when no two names are equal (names differing only in case are both added), with those columns; a failure is the duplicate-name error for one of them |
| `StoreMapping.ColumnsDifferingInCase` | SqlData/Store.cs:1171 | columns `Id` and `ID` are both added, while a second `Id` is the duplicate-name error |
| `StoreMapping.BulkRowSpec` | SqlData/Store.cs:1177-1190 | a row has one cell per Bulk-kept property, holding its value with null as DBNull |
| `StoreMapping.BulkTableSpec` | SqlData/Store.cs:1150-1193 | the table succeeds exactly when no two Bulk column names are equal; then the columns are the Bulk names, there is one row per item, and no cell is null |
| `StoreMapping.ToDataTable` | SqlData/Store.cs:1150-1193 | the column loop and row loop build exactly that table |
| `StoreMapping.BuildBulkColumns` | SqlData/Store.cs:1156-1172 | the column loop stops at the first duplicate and gives exactly the result of adding the Bulk names |
| `StoreMapping.BulkFailsAfter` | SqlData/Store.cs:1158-1172 | once a column add has failed, later properties do not change the failure |
| `StoreMapping.BuildBulkRow` | SqlData/Store.cs:1177-1191 | the inner loop builds exactly that row |
| `StoreMapping.CreateAll` | SqlData/Store.cs:1124-1148 | the type's connection is resolved first, then the table name, then the table is built; on success the copy targets `[<table>]` on that connection with that table |
| `Entities.DeleteTemplate` | SqlData/Entity.cs:199 | Delete's template is brace-free literals and placeholders |
| `Entities.DeleteSqlShape` | SqlData/Entity.cs:214-218 | with brace-free names the text is `DELETE FROM [T] WHERE [K] = @Id;` |
| `Entities.InsertTemplate` | SqlData/Entity.cs:47 | Create's template is brace-free literals and placeholders |
| `Entities.InsertSqlShape` | SqlData/Entity.cs:85-91 | with brace-free names each placeholder is replaced everywhere it occurs, giving the INSERT and its read-back select |
| `Entities.UpdateTemplate` | SqlData/Entity.cs:124 | Update's template is brace-free literals and placeholders |
| `Entities.UpdateSqlShape` | SqlData/Entity.cs:161-166 | with brace-free names the text is the UPDATE with the assignments and its read-back select |
| `Entities.Bracketed` | SqlData/Entity.cs:79 | each name becomes `[Name]` |
| `Entities.AtNames` | SqlData/Entity.cs:80 | each name becomes `@Name` |
| `Entities.Assignments` | SqlData/Entity.cs:156 | each name becomes `[Name] = @Name` |
| `Entities.InsertParameters` | SqlData/Entity.cs:81 | one parameter per written column |
| `Entities.InsertAligned` | SqlData/Entity.cs:77-81 | the k-th column, value and parameter all name the k-th written property, and the parameter holds its value with null as DBNull |
| `Entities.BuildInsert` | SqlData/Entity.cs:57-83 | Create's loop collects exactly the last key, the comma-joined columns and values, and the parameters |
| `Entities.UpdateParametersAppend` | SqlData/Entity.cs:133-159 | each property contributes its parameters at its own position |
| `Entities.UpdateWithoutKeyBindsInsertParameters` | SqlData/Entity.cs:133-159 | without a key Update binds exactly Create's parameters |
| `Entities.BuildUpdate` | SqlData/Entity.cs:133-159 | Update's loop collects exactly the last key, the assignments, and an `Id` parameter per key interleaved with the column parameters |
| `Entities.DeleteSpec` | SqlData/Entity.cs:203-212 | Delete binds at most one parameter |
| `Entities.BuildDelete` | SqlData/Entity.cs:203-212 | Delete's loop stops at the first key with its name and an `Id` parameter, or ends with "" and none |
| `Entities.SingleKeyAgrees` | SqlData/Entity.cs:241-257 | with exactly one key, Create/Update, Delete and `Entity.Key` all use its name |
| `Entities.InsertStatementShape` | SqlData/Entity.cs:34-99 | with brace-free names Create runs `INSERT INTO [T] (cols) VALUES (@vals); SELECT TOP 1 K,cols FROM [T] WHERE [K] = SCOPE_IDENTITY();` on the type's connection name with one parameter per written column |
| `Entities.UpdateStatementShape` | SqlData/Entity.cs:111-174 | with brace-free names Update runs the UPDATE with `[A] = @A` assignments and a read-back whose select list repeats them |
| `Entities.DeleteStatementShape` | SqlData/Entity.cs:186-226 | with brace-free names Delete runs `DELETE FROM [T] WHERE [K] = @Id;` with K the first key |
| `Entities.AlwaysValid` | SqlData/Entity.cs:12-15 | the default `Validate` succeeds with no message |
| `Entities.Synced` | SqlData/Entity.cs:21-27 | every property with a public setter takes the newer value; the others keep theirs |
| `Entities.SyncedWithSelf` | SqlData/Entity.cs:17-28 | syncing with an identical copy changes nothing |
| `Entities.SyncedIdempotent` | SqlData/Entity.cs:17-28 | syncing twice with the same object is syncing once |
| `Entities.NewQueryCommand` | SqlData/Entity.cs:93-99 | the command carries the connection name, the SQL, style Query, timeout 30 and exactly the parameters |
| `Entities.BuildInsertStatement` | SqlData/Entity.cs:44-91 | the table-name and connection lookups, the loop and the replacement build exactly Create's statement |
| `Entities.BuildUpdateStatement` | SqlData/Entity.cs:121-166 | the same for Update's statement |
| `Entities.BuildDeleteStatement` | SqlData/Entity.cs:196-218 | the same for Delete's statement |
| `Entities.InsertStatementPlain` | SqlData/Entity.cs:81 | Create's parameters are all bound (Parse true) and none is Output |
| `Entities.UpdateParametersPlain` | SqlData/Entity.cs:139-157 | Update's parameters are all bound and none is Output |
| `Entities.UpdateStatementPlain` | SqlData/Entity.cs:139-157 | Update's statement has only such parameters |
| `Entities.DeleteStatementPlain` | SqlData/Entity.cs:209 | Delete's statement has only such parameters |
| `Entities.RunLenient` | SqlData/Entity.cs:93-99 | `Scalar<T>` (and `Query<T>`, which `All` uses) runs the SQL unchanged on the named connection (the name itself when unregistered) with all parameters bound |
| `Entities.RunQuery` | SqlData/Entity.cs:220-226 | `Query` throws on an unregistered name; otherwise it runs the SQL unchanged with all parameters bound |
| `Entities.Entity.constructor` | SqlData/Entity.cs:12-15 | an entity without an override validates every operation as a success |
| `Entities.Entity.WithValidation` | SqlData/Entity.cs:12 | an entity with an overriding `Validate` uses it |
| `Entities.Entity.Sync` | SqlData/Entity.cs:17-28 | a null row throws exactly when some property is settable; otherwise the values become the synced values |
| `Entities.Entity.RunAndSync` | SqlData/Entity.cs:93-104 | runs the statement with `Scalar<T>`, syncs with the row read back, and returns the validation result |
| `Entities.Entity.Create` | SqlData/Entity.cs:34-105 | a failed validation is returned untouched and nothing runs; a name or connection failure throws; otherwise the INSERT runs and the entity is synced |
| `Entities.Entity.Update` | SqlData/Entity.cs:111-180 | the same for the UPDATE |
| `Entities.Entity.Delete` | SqlData/Entity.cs:186-229 | a failed validation is returned untouched; otherwise the DELETE runs through the strict `Query`, and the entity is not changed |

## Left out

- **Database I/O.** Opening connections, `ExecuteNonQuery` and `ExecuteReader`,
  `ExecuteSessionContext` (SqlData/Store.cs:1107-1119) and `SqlBulkCopy.WriteToServer`
  (SqlData/Store.cs:1137-1147) are not modelled as I/O. The server is a parameter: the output
  values it returns, the result sets the reader yields, and the row `Scalar<T>` reads back.
  `CreateAll` returns the bulk copy it would perform.
- **The integer results.** The affected-row count of `Query` and the command objects ADO.NET
  allocates are not modelled.
- **IL generation.** `ObjectGenerator` (SqlData/Store.cs:974-988) and the emitted body of
  `CreateSetMethod` (SqlData/DataCache.cs:66-83) are not modelled. A setter is an object that
  knows its property.
- **Row materialization and type coercion.** The materialization in `Query<T>`, `Scalar<T>`,
  `QueryDynamic`, `ScalarDynamic` and `QueryToDataTable` is not modelled; that is
  reflection-based setting of values through setters and `Convert.ChangeType`. Their connection
  resolution and command preparation are modelled (`QueryOf`, `QueryByDefault`, `Query`).
  Values are an abstract `Value` carrying the type ADO.NET would infer and its text.
- **The partial-trust variants.** The model captures which variant the flag chooses. The variants
  resolve and prepare commands alike and differ only in how rows are materialized.
- **Laziness, singletons and concurrency.** Laziness of the returned enumerables, the
  double-checked singletons of `Data` and `DataCache`, and thread safety are not modelled. Each
  is one explicit object here.
- **Case folding.** `GetOrdinal`'s case-insensitive match uses ASCII case folding, not
  culture-aware comparison.
- **Unset names.** An unset `SqlResult.Name`, `Command.Query` or `Parameter.Name` is the empty
  string, not null.
- **Parameter direction.** `SqlData/Parameter.cs` declares no `Direction` property, yet
  `SqlData/Store.cs:1016-1018`, `:1034` and `:1082` read `parameter.Direction`. The model gives
  `Parameter` a nullable `ParameterDirection` that defaults to null, taken from those uses; the
  declaration itself is not part of this model.
- **Output values on reader paths.** `Query<T>`, `Scalar<T>`, `QueryMultiple`, `QueryDynamic` and
  `ScalarDynamic` call `PopulateParameters` while the `SqlDataReader` is still open
  (`SqlData/Store.cs:263`, `:338`, `:526`, `:637`, `:697`). ADO.NET fills Output parameter values
  only once the reader is closed, so on these paths `returned` stands for what
  `SqlParameter.Value` holds while the reader is open, which in practice is the input value.
  Only `Query(command)`, which runs `ExecuteNonQuery` (`SqlData/Store.cs:155-157`), receives the
  server's output values. The model does not distinguish the two cases.
- **Bulk inputs.** Null items in `CreateAll`'s list, and the column types given to the DataTable,
  are not modelled.
- `StringExtensions.ReplaceDictionary`: requires non-empty keys. `StringBuilder.Replace` throws on
  an empty key, and no caller in the core passes one.
- `Store.AfterExecution`: the server is modelled as setting only non-Input parameters it returns a
  value for. What a real server does with other parameters is not captured.
