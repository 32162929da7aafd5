/** The resolver of UICatalogue.cs (both FindMostApplicableUI overloads) as
    specification functions: candidates, the running-maximum choice the
    loop makes, and what that choice means. */
module Resolution {
  import opened Common
  import opened IsUIForResults
  import opened CacheKeys
  import opened ComponentInfo

  /** `IsUIForDelegate`: a component's static IsUIFor, called with the owner
      type and the property metadata. */
  type IsUIForDelegate = (Option<TypeId>, Option<PropertyInfo>) -> IsUIForResult

  /** `ValueTypeToComponentTypesLookupItem` */
  datatype LookupItem = LookupItem(componentType: TypeId, isUIFor: IsUIForDelegate)

  /** The candidates registered for one value type, in registration order.
      The list's element type is nullable, and the resolver skips nulls. */
  type Candidates = seq<Option<LookupItem>>

  /** `ValueTypeToComponentTypesLookup`: value type to its candidates. */
  type Registry = map<TypeId, Candidates>

  /** Candidate i is non-null and its predicate supports the property. */
  predicate Supported(cs: Candidates, i: nat, owner: Option<TypeId>, prop: Option<PropertyInfo>)
    requires i < |cs|
  {
    cs[i].Some? && cs[i].value.isUIFor(owner, prop).supported
  }

  /** The priority candidate i's predicate answers with. */
  function Priority(cs: Candidates, i: nat, owner: Option<TypeId>, prop: Option<PropertyInfo>): Int32
    requires i < |cs| && cs[i].Some?
  {
    cs[i].value.isUIFor(owner, prop).priority
  }

  /** The loop's `highestPriority`: int.MinValue until some candidate leads. */
  function HighestPriority(cs: Candidates, owner: Option<TypeId>, prop: Option<PropertyInfo>, leader: Option<nat>): Int32
    requires leader.Some? ==> leader.value < |cs| && cs[leader.value].Some?
  {
    if leader.None? then IntMinValue else Priority(cs, leader.value, owner, prop)
  }

  /** The index of the candidate leading after the loop has looked at the
      first n candidates: a candidate takes the lead only when it is supported
      and its priority is strictly greater than the running maximum. */
  function Leader(cs: Candidates, owner: Option<TypeId>, prop: Option<PropertyInfo>, n: nat): (k: Option<nat>)
    requires n <= |cs|
    ensures k.Some? ==> k.value < n && Supported(cs, k.value, owner, prop)
    decreases n
  {
    if n == 0 then None
    else
      var leader := Leader(cs, owner, prop, n - 1);
      if Supported(cs, n - 1, owner, prop)
         && Priority(cs, n - 1, owner, prop) > HighestPriority(cs, owner, prop, leader)
      then Some(n - 1)
      else leader
  }

  /** The component type of the leading candidate, if any. */
  function ComponentOf(cs: Candidates, leader: Option<nat>): Option<TypeId>
    requires leader.Some? ==> leader.value < |cs| && cs[leader.value].Some?
  {
    if leader.None? then None else Some(cs[leader.value].value.componentType)
  }

  /** The component type the loop returns for a whole candidate list. */
  function Selected(cs: Candidates, owner: Option<TypeId>, prop: Option<PropertyInfo>): Option<TypeId> {
    ComponentOf(cs, Leader(cs, owner, prop, |cs|))
  }

  /** How many predicates the loop invokes over cs: one per non-null item. */
  function Evaluations(cs: Candidates): (r: nat)
    ensures r <= |cs|
    ensures (forall i :: 0 <= i < |cs| ==> cs[i].Some?) ==> r == |cs|
    ensures (forall i :: 0 <= i < |cs| ==> cs[i].None?) ==> r == 0
    decreases |cs|
  {
    if cs == [] then 0
    else Evaluations(cs[..|cs| - 1]) + (if cs[|cs| - 1].Some? then 1 else 0)
  }

  // ---------------------------------------------------------------------
  // What the choice means, independently of the loop.

  /** Candidate k wins among the first n: it is supported, its priority is
      above int.MinValue, no supported candidate has a higher priority, and
      every supported candidate before it has a strictly lower one. */
  ghost predicate IsWinnerIn(cs: Candidates, owner: Option<TypeId>, prop: Option<PropertyInfo>, n: nat, k: nat)
    requires n <= |cs|
  {
    && k < n
    && Supported(cs, k, owner, prop)
    && Priority(cs, k, owner, prop) > IntMinValue
    && (forall j :: 0 <= j < n && Supported(cs, j, owner, prop) ==>
          Priority(cs, j, owner, prop) <= Priority(cs, k, owner, prop))
    && (forall j :: 0 <= j < k && Supported(cs, j, owner, prop) ==>
          Priority(cs, j, owner, prop) < Priority(cs, k, owner, prop))
  }

  /** No candidate among the first n can win: each is unsupported or
      supported with priority int.MinValue. */
  ghost predicate NoneEligibleIn(cs: Candidates, owner: Option<TypeId>, prop: Option<PropertyInfo>, n: nat)
    requires n <= |cs|
  {
    forall j :: 0 <= j < n && Supported(cs, j, owner, prop) ==> Priority(cs, j, owner, prop) == IntMinValue
  }

  /** The running maximum over a prefix picks that prefix's winner, and finds
      nothing exactly when no candidate in it is eligible. */
  lemma {:induction false} LeaderIsWinnerOfPrefix(cs: Candidates, owner: Option<TypeId>, prop: Option<PropertyInfo>, n: nat)
    requires n <= |cs|
    ensures Leader(cs, owner, prop, n).None? <==> NoneEligibleIn(cs, owner, prop, n)
    ensures Leader(cs, owner, prop, n).Some? ==> IsWinnerIn(cs, owner, prop, n, Leader(cs, owner, prop, n).value)
  {
    if n > 0 {
      LeaderIsWinnerOfPrefix(cs, owner, prop, n - 1);
    }
  }

  /** A prefix has at most one winner. */
  lemma WinnerIsUnique(cs: Candidates, owner: Option<TypeId>, prop: Option<PropertyInfo>, n: nat, k1: nat, k2: nat)
    requires n <= |cs|
    requires IsWinnerIn(cs, owner, prop, n, k1) && IsWinnerIn(cs, owner, prop, n, k2)
    ensures k1 == k2
  {
  }

  /** The loop's choice over the whole list, characterised both ways: it
      picks k exactly when k is the winner, and nothing exactly when no
      candidate is eligible. */
  lemma LeaderIffWinner(cs: Candidates, owner: Option<TypeId>, prop: Option<PropertyInfo>, k: nat)
    ensures Leader(cs, owner, prop, |cs|) == Some(k) <==> IsWinnerIn(cs, owner, prop, |cs|, k)
    ensures Leader(cs, owner, prop, |cs|).None? <==> NoneEligibleIn(cs, owner, prop, |cs|)
  {
    LeaderIsWinnerOfPrefix(cs, owner, prop, |cs|);
    var l := Leader(cs, owner, prop, |cs|);
    if IsWinnerIn(cs, owner, prop, |cs|, k) && l.Some? {
      WinnerIsUnique(cs, owner, prop, |cs|, k, l.value);
    }
  }

  /** A supported candidate whose priority is strictly above every other
      supported one wins, wherever it sits in registration order. */
  lemma HighestPriorityWinsInAnyOrder(cs: Candidates, owner: Option<TypeId>, prop: Option<PropertyInfo>, k: nat)
    requires k < |cs| && Supported(cs, k, owner, prop) && Priority(cs, k, owner, prop) > IntMinValue
    requires forall j :: 0 <= j < |cs| && j != k && Supported(cs, j, owner, prop) ==>
      Priority(cs, j, owner, prop) < Priority(cs, k, owner, prop)
    ensures Leader(cs, owner, prop, |cs|) == Some(k)
    ensures Selected(cs, owner, prop) == Some(cs[k].value.componentType)
  {
    LeaderIffWinner(cs, owner, prop, k);
  }

  /** Among supported candidates tied at the maximum priority, the one
      registered first wins. */
  lemma FirstRegisteredWinsTies(cs: Candidates, owner: Option<TypeId>, prop: Option<PropertyInfo>, k: nat, j: nat)
    requires k < j < |cs| && Supported(cs, k, owner, prop) && Supported(cs, j, owner, prop)
    requires Priority(cs, k, owner, prop) == Priority(cs, j, owner, prop)
    ensures Leader(cs, owner, prop, |cs|) != Some(j)
  {
    LeaderIffWinner(cs, owner, prop, j);
  }

  /** A candidate that is unsupported, or supported with priority exactly
      int.MinValue, is never chosen. */
  lemma IneligibleNeverWins(cs: Candidates, owner: Option<TypeId>, prop: Option<PropertyInfo>, k: nat)
    requires k < |cs|
    requires !Supported(cs, k, owner, prop) || Priority(cs, k, owner, prop) == IntMinValue
    ensures Leader(cs, owner, prop, |cs|) != Some(k)
  {
    LeaderIffWinner(cs, owner, prop, k);
  }

  // ---------------------------------------------------------------------
  // The two FindMostApplicableUI overloads and the cache's value factory.

  /** `propertyType ??= propertyInfo?.PropertyType ?? throw ...` */
  function EffectivePropertyType(propertyType: Option<TypeId>, propertyInfo: Option<PropertyInfo>): (r: Option<TypeId>)
    ensures r.None? <==> propertyType.None? && propertyInfo.None?
    ensures propertyType.Some? ==> r == propertyType
    ensures propertyType.None? && propertyInfo.Some? ==> r == Some(propertyInfo.value.propertyType)
  {
    if propertyType.Some? then propertyType
    else if propertyInfo.Some? then Some(propertyInfo.value.propertyType)
    else None
  }

  /** `FindMostApplicableUI(ownerType, propertyType, propertyInfo)`: no
      property type at all throws; a value type with no list gives null
      without calling any predicate; otherwise the loop's choice. */
  function MostApplicableComponent(registry: Registry, owner: Option<TypeId>, propertyType: Option<TypeId>,
                                   prop: Option<PropertyInfo>): (r: Result<Option<TypeId>>)
    ensures r.Failure? <==> propertyType.None? && prop.None?
    ensures r.Failure? ==> r.error == ArgumentNull(Some("propertyType"))
    ensures r.Success? && r.value.Some? ==>
      var t := EffectivePropertyType(propertyType, prop).value;
      && t in registry
      && exists k: nat :: IsWinnerIn(registry[t], owner, prop, |registry[t]|, k)
                     && registry[t][k].value.componentType == r.value.value
    ensures r.Success? && r.value.None? <==>
      && EffectivePropertyType(propertyType, prop).Some?
      && var t := EffectivePropertyType(propertyType, prop).value;
         t !in registry || NoneEligibleIn(registry[t], owner, prop, |registry[t]|)
    ensures propertyType.Some? && propertyType.value !in registry ==> r == Success(None)
  {
    match EffectivePropertyType(propertyType, prop)
    case None => Failure(ArgumentNull(Some("propertyType")))
    case Some(t) =>
      if t in registry then
        LeaderIsWinnerOfPrefix(registry[t], owner, prop, |registry[t]|);
        Success(Selected(registry[t], owner, prop))
      else Success(None)
  }

  /** The number of predicate calls MostApplicableComponent makes. */
  function MostApplicableEvaluations(registry: Registry, propertyType: Option<TypeId>, prop: Option<PropertyInfo>): nat {
    match EffectivePropertyType(propertyType, prop)
    case None => 0
    case Some(t) => if t in registry then Evaluations(registry[t]) else 0
  }

  /** The property lookup `ownerType.GetProperty(name, Public | NonPublic |
      Instance)`; reflection is a parameter. */
  type PropertyLookup = (TypeId, string) -> Option<PropertyInfo>

  /** `FindMostApplicableUI(OwnerTypeAndPropertyNameAndType)`: looks the
      property up, then asks the other overload with the key's non-null
      property type. */
  function MostApplicableUI(registry: Registry, getProperty: PropertyLookup, key: OwnerTypeAndPropertyNameAndType)
    : (r: Option<(TypeId, Option<PropertyInfo>)>)
    ensures key.propertyType !in registry ==> r.None?
    ensures r.Some? ==> r.value.1 == getProperty(key.ownerType, key.propertyName)
  {
    var prop := getProperty(key.ownerType, key.propertyName);
    var found := MostApplicableComponent(registry, Some(key.ownerType), Some(key.propertyType), prop);
    if found.Failure? || found.value.None? then None else Some((found.value.value, prop))
  }

  /** The cache's value factory: the found pair wrapped with the requested
      property type, or null. */
  function Resolve(registry: Registry, getProperty: PropertyLookup, key: OwnerTypeAndPropertyNameAndType)
    : (r: Option<ComponentTypeAndPropertyInfo>)
    ensures key.propertyType !in registry ==> r.None?
    ensures r.Some? ==>
      && r.value.propertyType == key.propertyType
      && r.value.propertyInfo == getProperty(key.ownerType, key.propertyName)
  {
    match MostApplicableUI(registry, getProperty, key)
    case None => None
    case Some((componentType, prop)) => Some(ComponentTypeAndPropertyInfo(componentType, prop, key.propertyType))
  }

  /** The number of predicate calls a cache miss costs. */
  function ResolveEvaluations(registry: Registry, getProperty: PropertyLookup, key: OwnerTypeAndPropertyNameAndType): nat {
    MostApplicableEvaluations(registry, Some(key.propertyType), getProperty(key.ownerType, key.propertyName))
  }

  /** The registry only grew — every list of older is
      a prefix of the same key's list in newer. */
  ghost predicate Extends(older: Registry, newer: Registry) {
    forall t :: t in older ==> t in newer && older[t] <= newer[t]
  }

  /** Extends is transitive. */
  lemma ExtendsTransitive(a: Registry, b: Registry, c: Registry)
    requires Extends(a, b) && Extends(b, c)
    ensures Extends(a, c)
  {
  }

  /** Component c is registered (as a non-null item) in cs. */
  ghost predicate Registered(cs: Candidates, c: TypeId) {
    exists i :: 0 <= i < |cs| && cs[i].Some? && cs[i].value.componentType == c
  }

  /** What a resolution means: a value type with no list, or a list without
      an eligible candidate, gives "no match"; otherwise the result names the
      winning candidate's component, the property found by the lookup and the
      property type that was asked for. */
  lemma ResolveMeaning(registry: Registry, getProperty: PropertyLookup, key: OwnerTypeAndPropertyNameAndType)
    ensures var prop := getProperty(key.ownerType, key.propertyName);
      Resolve(registry, getProperty, key).None? <==>
        (key.propertyType !in registry
         || NoneEligibleIn(registry[key.propertyType], Some(key.ownerType), prop, |registry[key.propertyType]|))
    ensures var prop := getProperty(key.ownerType, key.propertyName);
      var r := Resolve(registry, getProperty, key);
      r.Some? ==>
        && r.value.propertyType == key.propertyType
        && r.value.propertyInfo == prop
        && key.propertyType in registry
        && (exists k: nat :: IsWinnerIn(registry[key.propertyType], Some(key.ownerType), prop, |registry[key.propertyType]|, k)
                        && registry[key.propertyType][k].value.componentType == r.value.componentType)
    ensures key.propertyType !in registry ==> ResolveEvaluations(registry, getProperty, key) == 0
  {
    var prop := getProperty(key.ownerType, key.propertyName);
    if key.propertyType in registry {
      var cs := registry[key.propertyType];
      LeaderIsWinnerOfPrefix(cs, Some(key.ownerType), prop, |cs|);
    }
  }

  /** A resolved component is registered under the requested property type. */
  lemma ResolvedIsRegistered(registry: Registry, getProperty: PropertyLookup, key: OwnerTypeAndPropertyNameAndType)
    ensures Resolve(registry, getProperty, key).Some? ==>
      && key.propertyType in registry
      && Registered(registry[key.propertyType], Resolve(registry, getProperty, key).value.componentType)
  {
    if Resolve(registry, getProperty, key).Some? {
      var cs := registry[key.propertyType];
      var k := Leader(cs, Some(key.ownerType), getProperty(key.ownerType, key.propertyName), |cs|).value;
      assert cs[k].Some? && cs[k].value.componentType == Resolve(registry, getProperty, key).value.componentType;
    }
  }
}
