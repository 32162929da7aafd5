/** UICatalogue.cs: the process-wide catalogue. Its three dictionaries are
    the fields of one Catalogue object; the methods change them in place and
    are proved against the specification functions of Resolution, Scanning
    and ResolutionCache. */
module UICatalogue {
  import opened Common
  import CacheKeys
  import ComponentInfo
  import opened Resolution
  import opened ResolutionCache
  import opened Scanning

  class Catalogue {
    /** `ValueTypeToComponentTypesLookup` */
    var registry: Registry
    /** `OwnerTypeAndPropertyNameToComponentTypeLookup` */
    var cache: Cache
    /** `ScannedAssemblies` (only its keys matter) */
    var scanned: set<AssemblyId>
    /** Reflection's property lookup, fixed for the process. */
    const getProperty: PropertyLookup

    /** Every cached result agrees with the property lookup and names a
        registered component. */
    ghost predicate Valid()
      reads this
    {
      Consistent(cache, registry, getProperty)
    }

    /** The part of the state the scanner works on. */
    ghost function ScanView(): ScanState
      reads this
    {
      ScanState(registry, scanned)
    }

    /** The static initialisers: three empty dictionaries. */
    constructor (getProperty: PropertyLookup)
      ensures Valid()
      ensures registry == map[] && cache == map[] && scanned == {}
      ensures this.getProperty == getProperty
    {
      registry := map[];
      cache := map[];
      scanned := {};
      this.getProperty := getProperty;
    }

    // -------------------------------------------------------------------
    // Resolution

    /** `TryGetComponentTypeAndPropertyInfo`: null arguments throw from the
        key's constructor before the cache is touched; otherwise GetOrAdd on
        the cache, and the found flag is true exactly when the outcome is
        non-null. */
    method TryGetComponentTypeAndPropertyInfo(ownerType: Option<TypeId>, propertyName: Option<string>,
                                              propertyType: Option<TypeId>)
      returns (found: Result<bool>, info: Option<ComponentInfo.ComponentTypeAndPropertyInfo>, evaluations: nat)
      requires Valid()
      modifies this`cache
      ensures Valid()
      ensures var key := CacheKeys.New(ownerType, propertyName, propertyType);
        key.Failure? ==> found == Failure(key.error) && info.None? && evaluations == 0 && cache == old(cache)
      ensures var key := CacheKeys.New(ownerType, propertyName, propertyType);
        key.Success? ==>
          var lookup := GetOrAdd(old(cache), registry, getProperty, key.value);
          && found == Success(info.Some?)
          && info == lookup.outcome
          && cache == lookup.cache
          && evaluations == lookup.evaluations
    {
      var key := CacheKeys.New(ownerType, propertyName, propertyType);
      if key.Failure? {
        return Failure(key.error), None, 0;
      }
      var k := key.value;
      var id := k.Identity();
      if id in cache {
        info, evaluations := cache[id], 0;
      } else {
        var newEntry, n := FindMostApplicableUIForKey(k);
        if newEntry.None? {
          info := None;
        } else {
          var made := ComponentInfo.New(Some(newEntry.value.0), newEntry.value.1, propertyType);
          info := Some(made.value);
        }
        evaluations := n;
        cache := cache[id := info];
        GetOrAddKeepsConsistency(old(cache), registry, getProperty, k);
      }
      found := Success(info.Some?);
    }

    /** `FindMostApplicableUI(OwnerTypeAndPropertyNameAndType)` */
    method FindMostApplicableUIForKey(key: CacheKeys.OwnerTypeAndPropertyNameAndType)
      returns (r: Option<(TypeId, Option<PropertyInfo>)>, evaluations: nat)
      ensures r == MostApplicableUI(registry, getProperty, key)
      ensures evaluations == ResolveEvaluations(registry, getProperty, key)
    {
      var propertyInfo := getProperty(key.ownerType, key.propertyName);
      var mostSpecificComponentType, n := FindMostApplicableComponent(Some(key.ownerType), Some(key.propertyType), propertyInfo);
      evaluations := n;
      if mostSpecificComponentType.Failure? || mostSpecificComponentType.value.None? {
        r := None;
      } else {
        r := Some((mostSpecificComponentType.value.value, propertyInfo));
      }
    }

    /** `FindMostApplicableUI(ownerType, propertyType, propertyInfo)`: the
        loop keeps the running maximum, starting at int.MinValue, and a
        candidate replaces the leader only with a strictly greater priority. */
    method FindMostApplicableComponent(ownerType: Option<TypeId>, propertyType: Option<TypeId>,
                                       propertyInfo: Option<PropertyInfo>)
      returns (r: Result<Option<TypeId>>, evaluations: nat)
      ensures r == MostApplicableComponent(registry, ownerType, propertyType, propertyInfo)
      ensures evaluations == MostApplicableEvaluations(registry, propertyType, propertyInfo)
    {
      var effectiveType := EffectivePropertyType(propertyType, propertyInfo);
      if effectiveType.None? {
        return Failure(ArgumentNull(Some("propertyType"))), 0;
      }
      if effectiveType.value !in registry {
        return Success(None), 0;
      }
      var candidates := registry[effectiveType.value];
      var highestPriority: Int32 := IntMinValue;
      var mostSpecificComponentType: Option<TypeId> := None;
      ghost var leader: Option<nat> := None;
      evaluations := 0;
      for i := 0 to |candidates|
        invariant leader == Leader(candidates, ownerType, propertyInfo, i)
        invariant highestPriority == HighestPriority(candidates, ownerType, propertyInfo, leader)
        invariant mostSpecificComponentType == ComponentOf(candidates, leader)
        invariant evaluations == Evaluations(candidates[..i])
      {
        assert candidates[..i + 1][..i] == candidates[..i];
        var currentCandidate := candidates[i];
        if currentCandidate.Some? {
          var currentResult := currentCandidate.value.isUIFor(ownerType, propertyInfo);
          evaluations := evaluations + 1;
          if currentResult.supported && currentResult.priority > highestPriority {
            highestPriority := currentResult.priority;
            mostSpecificComponentType := Some(currentCandidate.value.componentType);
            leader := Some(i);
          }
        }
      }
      assert candidates[..|candidates|] == candidates;
      r := Success(mostSpecificComponentType);
    }

    // -------------------------------------------------------------------
    // Scanning

    /** `Scan(Assembly assembly, params Assembly[] additionalAssemblies)`:
        rejects a null primary assembly, treats a null array as empty, skips
        null entries, scans the additional assemblies in order and the
        primary one last, and stops at the first scan that throws. */
    method Scan(assembly: Option<Assembly>, additionalAssemblies: Option<seq<Option<Assembly>>>) returns (r: Outcome)
      requires Valid()
      modifies this`registry, this`scanned
      ensures Valid()
      ensures (ScanView(), r) == Scanning.Scan(old(ScanView()), assembly, additionalAssemblies)
    {
      if assembly.None? {
        return Fail(ArgumentNull(Some("assembly")));
      }
      var allAssemblies := AllAssemblies(assembly.value, additionalAssemblies);
      ghost var start := ScanView();
      var j := 0;
      while j < |allAssemblies|
        invariant 0 <= j <= |allAssemblies|
        invariant Valid()
        invariant ScanAssemblyList(start, allAssemblies) == ScanAssemblyList(ScanView(), allAssemblies[j..])
      {
        assert allAssemblies[j..][1..] == allAssemblies[j + 1..];
        var outcome := ScanAssembly(Some(allAssemblies[j]));
        if outcome.Fail? {
          return outcome;
        }
        j := j + 1;
      }
      r := Pass;
    }

    /** `Scan(Assembly assembly)`: a null assembly is rejected by the
        dictionary (argument "key"); an assembly already scanned is refused
        with nothing changed; otherwise it is marked scanned first and its
        exported types are scanned in order until one throws. */
    method ScanAssembly(assembly: Option<Assembly>) returns (r: Outcome)
      requires Valid()
      modifies this`registry, this`scanned
      ensures Valid()
      ensures assembly.None? ==>
        r == Fail(ArgumentNull(Some("key"))) && registry == old(registry) && scanned == old(scanned)
      ensures assembly.Some? ==> (ScanView(), r) == ScanAssemblyStep(old(ScanView()), assembly.value)
    {
      if assembly.None? {
        return Fail(ArgumentNull(Some("key")));
      }
      var a := assembly.value;
      if a.id in scanned {
        return Fail(AlreadyScanned(a.id));
      }
      scanned := scanned + {a.id};
      ghost var start := registry;
      var i := 0;
      while i < |a.exportedTypes|
        invariant 0 <= i <= |a.exportedTypes|
        invariant Valid()
        invariant scanned == old(scanned) + {a.id}
        invariant ScanTypes(start, a.exportedTypes) == ScanTypes(registry, a.exportedTypes[i..])
      {
        assert a.exportedTypes[i..][1..] == a.exportedTypes[i + 1..];
        var outcome := ScanType(a.exportedTypes[i]);
        if outcome.Fail? {
          return outcome;
        }
        i := i + 1;
      }
      r := Pass;
    }

    /** `Scan(Type componentType)`: skips a type that is not a concrete
        component or has no IUIFor<> implementation, rejects one with
        several, and otherwise appends one item for its value type. */
    method ScanType(componentType: TypeDescriptor) returns (r: Outcome)
      requires Valid()
      modifies this`registry
      ensures Valid()
      ensures (registry, r) == ScanTypeStep(old(registry), componentType)
    {
      if !componentType.isClass || componentType.isAbstract || !componentType.isComponent {
        return Pass;
      }
      var interfaces := componentType.uiForImplementations;
      if |interfaces| == 0 {
        return Pass;
      }
      if |interfaces| > 1 {
        return Fail(MultipleUIForImplementations(componentType.id, |interfaces|));
      }
      var currentInterface := interfaces[0];
      var valueType := currentInterface.valueType;
      var isUISupportedMethod := FirstIsUIForMethod(currentInterface.targetMethods);
      if isUISupportedMethod.None? {
        return Fail(NoMatchingElement);
      }
      var entry := LookupItem(componentType.id, currentInterface.targetMethods[isUISupportedMethod.value].invoke);
      if valueType in registry {
        registry := registry[valueType := registry[valueType] + [Some(entry)]];
      } else {
        registry := registry[valueType := [Some(entry)]];
      }
      ExtensionKeepsConsistency(cache, old(registry), registry, getProperty);
      r := Pass;
    }
  }
}
