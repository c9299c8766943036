/**
 * The reflection metadata the core reads, as a record: a type's name, its class attributes in
 * declaration order, and its properties in `GetProperties()` order with the property attributes
 * (Key, Ignore, Include, ReadOnly) as flags. On top of it: `Is<T>` for types
 * (SqlData/TypeExtensions.cs), the Name and Connection lookups (SingleOrDefault over the
 * attributes), and the three property-filtering rules the core applies.
 */
module Metadata {
  import opened Wrappers

  datatype PropertyInfo = PropertyInfo(
    declaringType: string,
    name: string,
    key: bool,               // [Key]
    ignore: bool,            // [Ignore]
    included: bool,          // [Include]
    readOnly: bool,          // [ReadOnly]
    hasPublicSetter: bool)   // GetSetMethod() != null

  /** The class-level attributes: [IgnoreAll], [Name("...")], [Connection("...")], or any other. */
  datatype TypeAttribute =
    | IgnoreAllAttribute
    | NameAttribute(name: string)
    | ConnectionAttribute(value: string)
    | OtherAttribute(kind: string)

  /** The attribute class `T` in `Is<T>()` and `x is T`. */
  datatype AttributeKind = IgnoreAllKind | NameKind | ConnectionKind | OtherKind(kind: string)

  function KindOf(a: TypeAttribute): AttributeKind
  {
    match a
    case IgnoreAllAttribute => IgnoreAllKind
    case NameAttribute(_) => NameKind
    case ConnectionAttribute(_) => ConnectionKind
    case OtherAttribute(k) => OtherKind(k)
  }

  datatype TypeInfo = TypeInfo(name: string, attributes: seq<TypeAttribute>, properties: seq<PropertyInfo>)

  /** `GetCustomAttributes(false).Count(x => x is T)`. */
  function CountOfKind(attributes: seq<TypeAttribute>, kind: AttributeKind): (n: nat)
    ensures n <= |attributes|
  {
    if attributes == [] then 0
    else CountOfKind(attributes[..|attributes| - 1], kind) + (if KindOf(attributes[|attributes| - 1]) == kind then 1 else 0)
  }

  /** The count is zero exactly when no attribute has the kind. */
  lemma {:induction false} CountOfKindZero(attributes: seq<TypeAttribute>, kind: AttributeKind)
    ensures CountOfKind(attributes, kind) == 0 <==> forall i :: 0 <= i < |attributes| ==> KindOf(attributes[i]) != kind
  {
    if attributes != [] {
      var n := |attributes| - 1;
      CountOfKindZero(attributes[..n], kind);
      forall i | 0 <= i < n ensures attributes[..n][i] == attributes[i] { }
    }
  }

  /** `type.Is<T>()`: the count of attributes of kind T is positive. */
  function Is(t: TypeInfo, kind: AttributeKind): (r: bool)
    ensures r <==> exists i :: 0 <= i < |t.attributes| && KindOf(t.attributes[i]) == kind
  {
    CountOfKindZero(t.attributes, kind);
    CountOfKind(t.attributes, kind) > 0
  }

  /** Whether the class is marked [IgnoreAll]. */
  function IsIgnoreAll(t: TypeInfo): bool
  {
    Is(t, IgnoreAllKind)
  }

  /** Index of the first attribute of the kind at or after `from`, if any. */
  function FirstOfKind(attributes: seq<TypeAttribute>, kind: AttributeKind, from: nat): (r: Option<nat>)
    requires from <= |attributes|
    ensures r.Some? ==> from <= r.value < |attributes| && KindOf(attributes[r.value]) == kind
    ensures r.Some? ==> forall j :: from <= j < r.value ==> KindOf(attributes[j]) != kind
    ensures r.None? ==> forall j :: from <= j < |attributes| ==> KindOf(attributes[j]) != kind
    decreases |attributes| - from
  {
    if from == |attributes| then None
    else if KindOf(attributes[from]) == kind then Some(from)
    else FirstOfKind(attributes, kind, from + 1)
  }

  /**
   * `GetCustomAttributes(false).SingleOrDefault(x => x is T)`: none gives None, exactly one gives
   * it, two or more throw InvalidOperationException.
   */
  function SingleOfKind(attributes: seq<TypeAttribute>, kind: AttributeKind): (r: Result<Option<TypeAttribute>>)
  {
    match FirstOfKind(attributes, kind, 0)
    case None => Ok(None)
    case Some(i) =>
      if FirstOfKind(attributes, kind, i + 1).Some? then Err(MoreThanOneMatch) else Ok(Some(attributes[i]))
  }

  lemma CountOfKindSnoc(attributes: seq<TypeAttribute>, a: TypeAttribute, kind: AttributeKind)
    ensures CountOfKind(attributes + [a], kind) == CountOfKind(attributes, kind) + (if KindOf(a) == kind then 1 else 0)
  {
    assert (attributes + [a])[..|attributes|] == attributes;
  }

  /** Counting is additive over concatenation. */
  lemma {:induction false} CountOfKindAppend(xs: seq<TypeAttribute>, ys: seq<TypeAttribute>, kind: AttributeKind)
    ensures CountOfKind(xs + ys, kind) == CountOfKind(xs, kind) + CountOfKind(ys, kind)
    decreases |ys|
  {
    if ys == [] {
      assert xs + ys == xs;
    } else {
      var m := |ys| - 1;
      CountOfKindAppend(xs, ys[..m], kind);
      CountOfKindAppendLast(xs, ys, kind);
    }
  }

  /** The last element of the right operand counts once on each side. */
  lemma CountOfKindAppendLast(xs: seq<TypeAttribute>, ys: seq<TypeAttribute>, kind: AttributeKind)
    requires ys != []
    ensures var m := |ys| - 1;
            CountOfKind(xs + ys, kind) - CountOfKind(xs + ys[..m], kind) == CountOfKind(ys, kind) - CountOfKind(ys[..m], kind)
  {
    var m := |ys| - 1;
    CountOfKindSnoc(xs + ys[..m], ys[m], kind);
    CountOfKindSnoc(ys[..m], ys[m], kind);
    assert ys == ys[..m] + [ys[m]];
    assert xs + ys == (xs + ys[..m]) + [ys[m]];
  }

  lemma CountOfKindSplit(attributes: seq<TypeAttribute>, kind: AttributeKind, i: nat)
    requires i <= |attributes|
    ensures CountOfKind(attributes, kind) == CountOfKind(attributes[..i], kind) + CountOfKind(attributes[i..], kind)
  {
    CountOfKindAppend(attributes[..i], attributes[i..], kind);
    assert attributes[..i] + attributes[i..] == attributes;
  }

  /** No attribute of the kind from `from` on is the same as a zero count over that suffix. */
  lemma NoneFromIffZero(attributes: seq<TypeAttribute>, kind: AttributeKind, from: nat)
    requires from <= |attributes|
    ensures FirstOfKind(attributes, kind, from).None? <==> CountOfKind(attributes[from..], kind) == 0
  {
    CountOfKindZero(attributes[from..], kind);
    forall k | 0 <= k < |attributes[from..]| ensures attributes[from..][k] == attributes[from + k] { }
  }

  /** The first match at position i means the prefix up to and including i holds exactly one. */
  lemma CountUpToFirst(attributes: seq<TypeAttribute>, kind: AttributeKind, i: nat)
    requires FirstOfKind(attributes, kind, 0) == Some(i)
    ensures CountOfKind(attributes[..i + 1], kind) == 1
  {
    var prefix := attributes[..i + 1];
    CountOfKindZero(attributes[..i], kind);
    assert prefix[..i] == attributes[..i];
    forall j | 0 <= j < i ensures KindOf(attributes[..i][j]) != kind {
      assert attributes[..i][j] == attributes[j];
    }
    assert prefix[i] == attributes[i];
  }

  /** With the first match at position i, the count is one plus the matches after it. */
  lemma CountAfterFirst(attributes: seq<TypeAttribute>, kind: AttributeKind, i: nat)
    requires FirstOfKind(attributes, kind, 0) == Some(i)
    ensures CountOfKind(attributes, kind) == 1 + CountOfKind(attributes[i + 1..], kind)
  {
    CountOfKindSplit(attributes, kind, i + 1);
    CountUpToFirst(attributes, kind, i);
  }

  /** SingleOrDefault succeeds exactly when at most one attribute has the kind, and then finds it. */
  lemma SingleOfKindSpec(attributes: seq<TypeAttribute>, kind: AttributeKind)
    ensures SingleOfKind(attributes, kind).Err? <==> CountOfKind(attributes, kind) >= 2
    ensures SingleOfKind(attributes, kind).Ok? ==>
              (SingleOfKind(attributes, kind).value.None? <==> CountOfKind(attributes, kind) == 0)
    ensures SingleOfKind(attributes, kind).Ok? && SingleOfKind(attributes, kind).value.Some? ==>
              SingleOfKind(attributes, kind).value.value in attributes &&
              KindOf(SingleOfKind(attributes, kind).value.value) == kind
    ensures SingleOfKind(attributes, kind).Ok? && SingleOfKind(attributes, kind).value.Some? ==>
              forall j :: 0 <= j < |attributes| && KindOf(attributes[j]) == kind ==>
                            attributes[j] == SingleOfKind(attributes, kind).value.value
  {
    var r := SingleOfKind(attributes, kind);
    match FirstOfKind(attributes, kind, 0)
    case None =>
      NoneFromIffZero(attributes, kind, 0);
      assert attributes[0..] == attributes;
      assert r == Ok(None);
    case Some(i) =>
      CountAfterFirst(attributes, kind, i);
      NoneFromIffZero(attributes, kind, i + 1);
      if FirstOfKind(attributes, kind, i + 1).Some? {
        assert r.Err?;
      } else {
        assert r == Ok(Some(attributes[i]));
      }
  }

  /** `EntityName`: the [Name] attribute's value, else the type name. */
  function EntityName(t: TypeInfo): (r: Result<string>)
    ensures r.Ok? <==> CountOfKind(t.attributes, NameKind) <= 1
    ensures CountOfKind(t.attributes, NameKind) == 0 ==> r == Ok(t.name)
    ensures forall n :: r == Ok(n) && n != t.name ==> NameAttribute(n) in t.attributes
    ensures forall n :: CountOfKind(t.attributes, NameKind) == 1 && NameAttribute(n) in t.attributes ==> r == Ok(n)
  {
    SingleOfKindSpec(t.attributes, NameKind);
    match SingleOfKind(t.attributes, NameKind)
    case Err(e) => Err(e)
    case Ok(None) => Ok(t.name)
    case Ok(Some(a)) => Ok(a.name)
  }

  /** `Connection.GetConnection(type)`: the [Connection] attribute's value, if the class has one. */
  function AssignedConnection(t: TypeInfo): (r: Result<Option<string>>)
    ensures r.Ok? <==> CountOfKind(t.attributes, ConnectionKind) <= 1
    ensures r == Ok(None) <==> CountOfKind(t.attributes, ConnectionKind) == 0
    ensures forall n :: r == Ok(Some(n)) ==> ConnectionAttribute(n) in t.attributes
  {
    SingleOfKindSpec(t.attributes, ConnectionKind);
    match SingleOfKind(t.attributes, ConnectionKind)
    case Err(e) => Err(e)
    case Ok(None) => Ok(None)
    case Ok(Some(a)) => Ok(Some(a.value))
  }

  // ---------------------------------------------------------------------------------------------
  // Property-filtering rules

  /** The three rules: insert/update columns, read paths, bulk insert. */
  datatype Rule = Write | Read | Bulk

  /**
   * Whether a property takes part under a rule, on a type that is or is not [IgnoreAll].
   * Write drops Key, Ignore and ReadOnly and, under IgnoreAll, whatever is not Include.
   * Read drops Ignore and, under IgnoreAll, whatever is neither Include nor Key.
   * Bulk is Read that also drops ReadOnly.
   */
  predicate Keeps(rule: Rule, p: PropertyInfo, ignoreAll: bool)
  {
    match rule
    case Write => !p.key && !p.ignore && !p.readOnly && (!ignoreAll || p.included)
    case Read => !p.ignore && (!ignoreAll || p.included || p.key)
    case Bulk => !p.ignore && !p.readOnly && (!ignoreAll || p.included || p.key)
  }

  /** The positions of the properties a rule keeps, in declaration order. */
  function Selected(props: seq<PropertyInfo>, rule: Rule, ignoreAll: bool): (r: seq<nat>)
    ensures |r| <= |props|
    ensures forall k :: 0 <= k < |r| ==> r[k] < |props|
  {
    if props == [] then []
    else
      var n := |props| - 1;
      Selected(props[..n], rule, ignoreAll) + (if Keeps(rule, props[n], ignoreAll) then [n] else [])
  }

  /** Selected lists, strictly ascending, exactly the positions whose property the rule keeps. */
  lemma {:induction false} SelectedSpec(props: seq<PropertyInfo>, rule: Rule, ignoreAll: bool)
    ensures forall i :: i in Selected(props, rule, ignoreAll) <==> 0 <= i < |props| && Keeps(rule, props[i], ignoreAll)
    ensures forall a, b :: 0 <= a < b < |Selected(props, rule, ignoreAll)| ==>
              Selected(props, rule, ignoreAll)[a] < Selected(props, rule, ignoreAll)[b]
  {
    if props != [] {
      var n := |props| - 1;
      SelectedSpec(props[..n], rule, ignoreAll);
      forall i | 0 <= i < n ensures props[..n][i] == props[i] { }
    }
  }

  /** Every column the insert/update builders write is also a column of the bulk insert, and each bulk column is read back. */
  lemma RulesNested(p: PropertyInfo, ignoreAll: bool)
    ensures Keeps(Write, p, ignoreAll) ==> Keeps(Bulk, p, ignoreAll)
    ensures Keeps(Bulk, p, ignoreAll) <==> Keeps(Read, p, ignoreAll) && !p.readOnly
    ensures Keeps(Write, p, ignoreAll) <==> Keeps(Bulk, p, ignoreAll) && !p.key
  {
  }

  /** The names of the selected properties, in order. */
  function SelectedNames(props: seq<PropertyInfo>, rule: Rule, ignoreAll: bool): (r: seq<string>)
    ensures |r| == |Selected(props, rule, ignoreAll)|
  {
    var sel := Selected(props, rule, ignoreAll);
    seq(|sel|, k requires 0 <= k < |sel| => props[sel[k]].name)
  }

  /** One more property adds its name at the end exactly when the rule keeps it. */
  lemma SelectedNamesSnoc(props: seq<PropertyInfo>, rule: Rule, ignoreAll: bool)
    requires props != []
    ensures var n := |props| - 1;
            SelectedNames(props, rule, ignoreAll) ==
              SelectedNames(props[..n], rule, ignoreAll) + if Keeps(rule, props[n], ignoreAll) then [props[n].name] else []
  {
    var n := |props| - 1;
    var sel, sel' := Selected(props, rule, ignoreAll), Selected(props[..n], rule, ignoreAll);
    assert sel == sel' + if Keeps(rule, props[n], ignoreAll) then [n] else [];
    forall k | 0 <= k < |sel'| ensures props[..n][sel'[k]] == props[sel'[k]] { }
  }

  /** The names selected from one prefix more: the step a loop over the properties takes. */
  lemma SelectedNamesStep(props: seq<PropertyInfo>, rule: Rule, ignoreAll: bool, i: nat)
    requires i < |props|
    ensures Keeps(rule, props[i], ignoreAll) ==>
              SelectedNames(props[..i + 1], rule, ignoreAll) == SelectedNames(props[..i], rule, ignoreAll) + [props[i].name]
    ensures !Keeps(rule, props[i], ignoreAll) ==>
              SelectedNames(props[..i + 1], rule, ignoreAll) == SelectedNames(props[..i], rule, ignoreAll)
  {
    SelectedNamesSnoc(props[..i + 1], rule, ignoreAll);
    assert props[..i + 1][..i] == props[..i];
    assert SelectedNames(props[..i], rule, ignoreAll) + [] == SelectedNames(props[..i], rule, ignoreAll);
  }

  /** Position of the first [Key] property. */
  function FirstKey(props: seq<PropertyInfo>): (r: Option<nat>)
    ensures r.Some? ==> r.value < |props| && props[r.value].key && forall j :: 0 <= j < r.value ==> !props[j].key
    ensures r.None? ==> forall j :: 0 <= j < |props| ==> !props[j].key
  {
    if props == [] then None
    else if props[0].key then Some(0)
    else match FirstKey(props[1..])
      case None => None
      case Some(i) => Some(i + 1)
  }

  /** Position of the last [Key] property. */
  function LastKey(props: seq<PropertyInfo>): (r: Option<nat>)
    ensures r.Some? ==> r.value < |props| && props[r.value].key && forall j :: r.value < j < |props| ==> !props[j].key
    ensures r.None? ==> forall j :: 0 <= j < |props| ==> !props[j].key
  {
    if props == [] then None
    else if props[|props| - 1].key then Some(|props| - 1)
    else LastKey(props[..|props| - 1])
  }

  /** `Entity.Key`: the first [Key] property's name, or null. */
  function KeyName(t: TypeInfo): (r: Option<string>)
    ensures r.None? <==> forall j :: 0 <= j < |t.properties| ==> !t.properties[j].key
    ensures r.Some? ==> exists j :: 0 <= j < |t.properties| && t.properties[j].key && t.properties[j].name == r.value
                                    && forall i :: 0 <= i < j ==> !t.properties[i].key
  {
    match FirstKey(t.properties)
    case None => None
    case Some(j) => Some(t.properties[j].name)
  }
}
