/**
 * `TypeExtensions` (SqlData/TypeExtensions.cs): the ordinal map a type's properties get from a
 * data reader. The reader is represented by its result set's column names in ordinal order, and
 * `SqlDataReader.GetOrdinal` by its documented lookup: the first exact match, otherwise the
 * first match ignoring case, otherwise an IndexOutOfRangeException.
 */
module TypeExtensions {
  import opened Wrappers
  import opened Metadata

  /** The first position of `name` among the columns. */
  function IndexOf(columns: seq<string>, name: string): (r: Option<nat>)
    ensures r.None? <==> name !in columns
    ensures r.Some? ==> r.value < |columns| && columns[r.value] == name && name !in columns[..r.value]
  {
    if columns == [] then None
    else if columns[0] == name then Some(0)
    else
      match IndexOf(columns[1..], name)
      case None => None
      case Some(i) =>
        assert columns[..i + 1] == [columns[0]] + columns[1..][..i];
        Some(i + 1)
  }

  /** ASCII lower case; other characters are left alone. */
  function LowerAscii(c: char): char
  {
    if 'A' <= c <= 'Z' then (c as int + 32) as char else c
  }

  /** Equal up to the case of ASCII letters. */
  predicate SameIgnoringCase(a: string, b: string)
  {
    |a| == |b| && forall i :: 0 <= i < |a| ==> LowerAscii(a[i]) == LowerAscii(b[i])
  }

  /** The first position of a column equal to `name` up to case. */
  function IndexIgnoringCase(columns: seq<string>, name: string): (r: Option<nat>)
    ensures r.None? <==> forall i :: 0 <= i < |columns| ==> !SameIgnoringCase(columns[i], name)
    ensures r.Some? ==> r.value < |columns| && SameIgnoringCase(columns[r.value], name)
    ensures r.Some? ==> forall i :: 0 <= i < r.value ==> !SameIgnoringCase(columns[i], name)
  {
    if columns == [] then None
    else if SameIgnoringCase(columns[0], name) then Some(0)
    else
      match IndexIgnoringCase(columns[1..], name)
      case None => None
      case Some(i) => Some(i + 1)
  }

  /** `reader.GetOrdinal(name)`. */
  function GetOrdinal(columns: seq<string>, name: string): (r: Result<nat>)
  {
    match IndexOf(columns, name)
    case Some(i) => Ok(i)
    case None =>
      match IndexIgnoringCase(columns, name)
      case Some(i) => Ok(i)
      case None => Err(NoSuchColumn(name))
  }

  /**
   * `GetOrdinal` finds a column exactly when some column equals the name up to case, answers
   * the first exact match when there is one, and otherwise the first match ignoring case.
   */
  lemma GetOrdinalSpec(columns: seq<string>, name: string)
    ensures GetOrdinal(columns, name).Err? <==> forall i :: 0 <= i < |columns| ==> !SameIgnoringCase(columns[i], name)
    ensures GetOrdinal(columns, name).Err? ==> GetOrdinal(columns, name) == Err(NoSuchColumn(name))
    ensures name in columns ==> GetOrdinal(columns, name) == Ok(IndexOf(columns, name).value)
    ensures GetOrdinal(columns, name).Ok? ==>
              var o := GetOrdinal(columns, name).value;
              o < |columns| && SameIgnoringCase(columns[o], name) && (name in columns ==> columns[o] == name)
  {
    if name in columns {
      var i := IndexOf(columns, name).value;
      assert SameIgnoringCase(columns[i], name);
    }
  }

  /** The names a dictionary keyed by name holds, in insertion order. */
  function KeysOf(dict: seq<(string, nat)>): (r: seq<string>)
    ensures |r| == |dict| && forall k :: 0 <= k < |dict| ==> r[k] == dict[k].0
  {
    seq(|dict|, k requires 0 <= k < |dict| => dict[k].0)
  }

  /**
   * The dictionary `GetOrdinalValuesFromDataReader` fills over the properties seen so far: a
   * property the read rule keeps is added under its name with its ordinal, unless `GetOrdinal`
   * throws or the name is already present (`Dictionary.Add` throws); both throws are caught.
   */
  function OrdinalMap(props: seq<PropertyInfo>, columns: seq<string>, ignoreAll: bool): seq<(string, nat)>
  {
    if props == [] then []
    else
      var n := |props| - 1;
      var prev, p := OrdinalMap(props[..n], columns, ignoreAll), props[n];
      if !Keeps(Read, p, ignoreAll) then prev
      else
        match GetOrdinal(columns, p.name)
        case Err(_) => prev
        case Ok(o) => if p.name in KeysOf(prev) then prev else prev + [(p.name, o)]
  }

  /** Some property the read rule keeps has this name and the reader resolves it. */
  predicate Resolvable(props: seq<PropertyInfo>, columns: seq<string>, ignoreAll: bool, name: string)
  {
    exists i :: 0 <= i < |props| && Keeps(Read, props[i], ignoreAll) && props[i].name == name && GetOrdinal(columns, name).Ok?
  }

  /** A name resolves over one property more when it resolved before or the new property is it. */
  lemma ResolvableSnoc(props: seq<PropertyInfo>, columns: seq<string>, ignoreAll: bool)
    requires props != []
    ensures var n := |props| - 1;
            forall name :: Resolvable(props, columns, ignoreAll, name) <==>
                             Resolvable(props[..n], columns, ignoreAll, name) ||
                             (Keeps(Read, props[n], ignoreAll) && props[n].name == name && GetOrdinal(columns, name).Ok?)
  {
    var n := |props| - 1;
    forall name
      ensures Resolvable(props, columns, ignoreAll, name) <==>
                Resolvable(props[..n], columns, ignoreAll, name) ||
                (Keeps(Read, props[n], ignoreAll) && props[n].name == name && GetOrdinal(columns, name).Ok?)
    {
      if Resolvable(props, columns, ignoreAll, name) {
        var i :| 0 <= i < |props| && Keeps(Read, props[i], ignoreAll) && props[i].name == name && GetOrdinal(columns, name).Ok?;
        if i < n {
          assert props[..n][i] == props[i];
        }
      }
      if Resolvable(props[..n], columns, ignoreAll, name) {
        var i :| 0 <= i < n && Keeps(Read, props[..n][i], ignoreAll) && props[..n][i].name == name && GetOrdinal(columns, name).Ok?;
        assert props[i] == props[..n][i];
      }
    }
  }

  /**
   * Every entry maps a name to the reader's ordinal for it, no name is entered twice, and a name
   * is present exactly when some kept property has it and the reader resolves it (so Ignore-marked
   * properties and, under IgnoreAll, properties without Include or Key are left out, while
   * ReadOnly ones are not).
   */
  lemma {:induction false} OrdinalMapSpec(props: seq<PropertyInfo>, columns: seq<string>, ignoreAll: bool)
    ensures var m := OrdinalMap(props, columns, ignoreAll);
            forall k :: 0 <= k < |m| ==> GetOrdinal(columns, m[k].0) == Ok(m[k].1)
    ensures var m := OrdinalMap(props, columns, ignoreAll);
            forall j, k :: 0 <= j < k < |m| ==> m[j].0 != m[k].0
    ensures var m := OrdinalMap(props, columns, ignoreAll);
            forall name :: name in KeysOf(m) <==> Resolvable(props, columns, ignoreAll, name)
  {
    if props != [] {
      var n := |props| - 1;
      var prev := OrdinalMap(props[..n], columns, ignoreAll);
      OrdinalMapSpec(props[..n], columns, ignoreAll);
      ResolvableSnoc(props, columns, ignoreAll);
      var m := OrdinalMap(props, columns, ignoreAll);
      if m != prev {
        assert KeysOf(m) == KeysOf(prev) + [props[n].name];
      }
    }
  }

  /** `type.GetOrdinalValuesFromDataReader(reader)`. */
  method GetOrdinalValuesFromDataReader(t: TypeInfo, columns: seq<string>) returns (dict: seq<(string, nat)>)
    ensures dict == OrdinalMap(t.properties, columns, IsIgnoreAll(t))
  {
    var props := t.properties;
    var isIgnoreAll := IsIgnoreAll(t);
    dict := [];
    var i := 0;
    while i < |props|
      invariant 0 <= i <= |props|
      invariant dict == OrdinalMap(props[..i], columns, isIgnoreAll)
    {
      var p := props[i];
      assert props[..i + 1][..i] == props[..i];
      if p.ignore {
      } else if isIgnoreAll && !p.included && !p.key {
      } else {
        var ordinal := GetOrdinal(columns, p.name);
        if ordinal.Ok? && p.name !in KeysOf(dict) {
          dict := dict + [(p.name, ordinal.value)];
        }
      }
      i := i + 1;
    }
    assert props[..i] == props;
  }
}
