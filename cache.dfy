/** The resolution cache of UICatalogue.cs: a dictionary from the cache key
    to a nullable resolution result, filled by GetOrAdd. Because the key's
    equality compares owner type and name only, the dictionary behaves as a
    map keyed by the key's Identity(). */
module ResolutionCache {
  import opened Common
  import opened CacheKeys
  import opened ComponentInfo
  import opened Resolution

  /** `OwnerTypeAndPropertyNameToComponentTypeLookup`; None is a cached
      "no match". */
  type Cache = map<(TypeId, string), Option<ComponentTypeAndPropertyInfo>>

  /** What one GetOrAdd returns, leaves behind, and how many predicates it
      called. */
  datatype Lookup = Lookup(outcome: Option<ComponentTypeAndPropertyInfo>, cache: Cache, evaluations: nat)

  /** `GetOrAdd(key, valueFactory)`, sequentially: a stored outcome is
      returned as is; a miss runs the resolver once and stores its outcome,
      null included. */
  function GetOrAdd(cache: Cache, registry: Registry, getProperty: PropertyLookup, key: OwnerTypeAndPropertyNameAndType)
    : (r: Lookup)
    ensures key.Identity() in r.cache && r.cache[key.Identity()] == r.outcome
    ensures forall id :: id in cache ==> id in r.cache && r.cache[id] == cache[id]
    ensures r.cache.Keys == cache.Keys + {key.Identity()}
    ensures key.Identity() in cache ==> r.outcome == cache[key.Identity()] && r.evaluations == 0
    ensures key.Identity() !in cache ==>
      r.outcome == Resolve(registry, getProperty, key) && r.evaluations == ResolveEvaluations(registry, getProperty, key)
  {
    var id := key.Identity();
    if id in cache then Lookup(cache[id], cache, 0)
    else
      var outcome := Resolve(registry, getProperty, key);
      Lookup(outcome, cache[id := outcome], ResolveEvaluations(registry, getProperty, key))
  }

  /** Every stored result names the property found by the lookup for its
      owner and name, and a component registered under its property type. */
  ghost predicate Consistent(cache: Cache, registry: Registry, getProperty: PropertyLookup) {
    forall id :: id in cache && cache[id].Some? ==>
      && cache[id].value.propertyInfo == getProperty(id.0, id.1)
      && cache[id].value.propertyType in registry
      && Registered(registry[cache[id].value.propertyType], cache[id].value.componentType)
  }

  /** A second lookup with an equal key — same owner and name, whatever its
      property type — returns the first outcome (a "no match" included),
      calls no predicate and leaves the cache as it was. */
  lemma RepeatedLookupIsStable(cache: Cache, registry: Registry, getProperty: PropertyLookup,
                               first: OwnerTypeAndPropertyNameAndType, second: OwnerTypeAndPropertyNameAndType)
    requires first.Equals(second)
    ensures var one := GetOrAdd(cache, registry, getProperty, first);
      var two := GetOrAdd(one.cache, registry, getProperty, second);
      two.outcome == one.outcome && two.cache == one.cache && two.evaluations == 0
  {
    EqualsIsIdentity(first, second, first.propertyType);
  }

  /** After a miss for one key, a lookup with an equal key carrying another
      property type gets the first key's property type back. */
  lemma FirstPropertyTypeIsKept(cache: Cache, registry: Registry, getProperty: PropertyLookup,
                                first: OwnerTypeAndPropertyNameAndType, other: TypeId)
    requires first.Identity() !in cache
    ensures var one := GetOrAdd(cache, registry, getProperty, first);
      var two := GetOrAdd(one.cache, registry, getProperty, first.(propertyType := other));
      two.outcome.Some? ==> two.outcome.value.propertyType == first.propertyType
  {
  }

  /** A hit calls no predicate; so does a miss for a property type with no
      registered list, which also stores "no match". */
  lemma LookupEvaluations(cache: Cache, registry: Registry, getProperty: PropertyLookup, key: OwnerTypeAndPropertyNameAndType)
    ensures key.Identity() in cache ==> GetOrAdd(cache, registry, getProperty, key).evaluations == 0
    ensures key.propertyType !in registry ==>
      GetOrAdd(cache, registry, getProperty, key).evaluations == 0
      && (key.Identity() !in cache ==> GetOrAdd(cache, registry, getProperty, key).outcome.None?)
  {
    ResolveMeaning(registry, getProperty, key);
  }

  /** GetOrAdd keeps the cache consistent with the registry. */
  lemma GetOrAddKeepsConsistency(cache: Cache, registry: Registry, getProperty: PropertyLookup,
                                 key: OwnerTypeAndPropertyNameAndType)
    requires Consistent(cache, registry, getProperty)
    ensures Consistent(GetOrAdd(cache, registry, getProperty, key).cache, registry, getProperty)
  {
    var id := key.Identity();
    if id !in cache && Resolve(registry, getProperty, key).Some? {
      ResolvedIsRegistered(registry, getProperty, key);
      ResolveMeaning(registry, getProperty, key);
    }
  }

  /** Registration only appends, so a component registered once stays
      registered: scanning never invalidates the cache's consistency. (The
      stored choice itself is never revisited, even when a later scan adds a
      candidate that would now win.) */
  lemma ExtensionKeepsConsistency(cache: Cache, older: Registry, newer: Registry, getProperty: PropertyLookup)
    requires Consistent(cache, older, getProperty) && Extends(older, newer)
    ensures Consistent(cache, newer, getProperty)
  {
    forall id | id in cache && cache[id].Some?
      ensures Registered(newer[cache[id].value.propertyType], cache[id].value.componentType)
    {
      var v := cache[id].value;
      var k :| 0 <= k < |older[v.propertyType]| && older[v.propertyType][k].Some?
               && older[v.propertyType][k].value.componentType == v.componentType;
      assert newer[v.propertyType][k] == older[v.propertyType][k];
    }
  }
}
