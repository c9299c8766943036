/**
 * `DataCache` (SqlData/DataCache.cs): the get-or-add cache of property setters. A setter is the
 * delegate `CreateSetMethod` emits for a property; its emitted IL is not modelled, only which
 * property it sets, and a property without a public setter gets null, which is cached like any
 * other value. The double-checked singleton is replaced by one explicit cache object.
 */
module Caching {
  import opened Metadata

  /** An emitted `GenericSetter` delegate: an object with its own identity that sets one property. */
  class Setter {
    const property: PropertyInfo

    constructor (property: PropertyInfo)
      ensures this.property == property
    {
      this.property := property;
    }
  }

  /** `CreateSetMethod(propertyInfo)`: null without a public setter, otherwise a new delegate for the property. */
  method CreateSetMethod(p: PropertyInfo) returns (s: Setter?)
    ensures s == null <==> !p.hasPublicSetter
    ensures s != null ==> fresh(s) && s.property == p
  {
    if !p.hasPublicSetter {
      return null;
    }
    s := new Setter(p);
  }

  class DataCache {
    var cachedSetters: map<PropertyInfo, Setter?>

    /** Every cached entry is what `CreateSetMethod` makes for its key. */
    predicate Valid()
      reads this
    {
      forall q :: q in cachedSetters ==>
        (cachedSetters[q] == null <==> !q.hasPublicSetter) &&
        (cachedSetters[q] != null ==> cachedSetters[q].property == q)
    }

    constructor ()
      ensures Valid() && cachedSetters == map[]
    {
      cachedSetters := map[];
    }

    /**
     * `GetSetter<T>(property)`: a hit returns the cached setter and leaves the cache alone; a miss
     * creates the setter, adds it under the property and returns it. Either way the property is
     * cached afterwards, and no other entry is added, removed or replaced.
     */
    method GetSetter(p: PropertyInfo) returns (s: Setter?)
      requires Valid()
      modifies this
      ensures Valid()
      ensures p in cachedSetters && s == cachedSetters[p]
      ensures s == null <==> !p.hasPublicSetter
      ensures s != null ==> s.property == p
      ensures p in old(cachedSetters) ==> s == old(cachedSetters[p]) && cachedSetters == old(cachedSetters)
      ensures p !in old(cachedSetters) ==> cachedSetters == old(cachedSetters)[p := s] && (s != null ==> fresh(s))
      ensures forall q :: q in old(cachedSetters) ==> q in cachedSetters && cachedSetters[q] == old(cachedSetters[q])
    {
      if p in cachedSetters {
        return cachedSetters[p];
      }
      s := CreateSetMethod(p);
      cachedSetters := cachedSetters[p := s];
    }

    /** Asking twice for the same property's setter yields the identical delegate, and the second call changes nothing. */
    method GetSetterTwice(p: PropertyInfo) returns (first: Setter?, second: Setter?)
      requires Valid()
      modifies this
      ensures Valid()
      ensures first == second
      ensures p in cachedSetters && cachedSetters[p] == first
      ensures cachedSetters == old(cachedSetters)[p := first]
    {
      first := GetSetter(p);
      ghost var afterFirst := cachedSetters;
      second := GetSetter(p);
      assert cachedSetters == afterFirst;
    }
  }
}
