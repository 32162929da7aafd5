# Morris.Blazor.UIFor — resolution catalogue and binding validator in Dafny

Morris.Blazor.UIFor renders a Blazor component chosen at run time for a
property. Components declare, through `IUIFor<T>` and a static `IsUIFor`
predicate, which properties of value type `T` they can edit and with which
priority. This project models, and proves properties of:

- the value structs: `IsUIForResult`, the cache key
  `OwnerTypeAndPropertyNameAndType`, `OwnerTypeAndPropertyInfo` and
  `ComponentTypeAndPropertyInfo` (`is_ui_for_result.dfy`, `cache_key.dfy`,
  `owner_info.dfy`, `component_info.dfy`);
- the resolver, the two `FindMostApplicableUI` overloads. It is a running
  maximum over the candidates registered for a value type, specified by
  `Resolution.Leader` and characterised independently by
  `Resolution.IsWinnerIn` (`resolution.dfy`);
- the scanner, the three `Scan` overloads and `IsUIForMethod`. They are
  specified as folds over the registry and the set of scanned assemblies
  that stop at the first exception without rollback (`scanning.dfy`);
- the resolution cache, `GetOrAdd` on a dictionary whose key equality
  ignores the property type (`cache.dfy`);
- the static class `UICatalogue` itself, as a `Catalogue` object whose
  three dictionaries are fields. Its methods run the program's loops and are
  proved equal to the specification functions above (`catalogue.dfy`);
- the `UIFor<TValue>` component: the binding-parameter validator, the
  effective expression, and the "recompute the private state only when the
  effective expression changed" step (`ui_for.dfy`).

Modelling conventions:

- A nullable reference is an `Option`.
- A thrown exception is a `Failure`/`Fail` value of `Common.Error` that
  names the exception's kind and, for `ArgumentNullException`, the
  parameter name. The null checks keep the source's order.
- `int` is `Common.Int32`.
- Types and assemblies are identities (`TypeId`, `AssemblyId`).
- Property metadata (`PropertyInfo`) records the type it was obtained
  from (`ReflectedType`) together with the declaring type, the name and the
  property type. Two values are equal exactly when all four agree, as
  reflection's own objects are: the same property reached from a base type
  and from a derived type gives two unequal values.
- Reflection is given as descriptors and as a property-lookup function.
- Each predicate call of the resolver is counted in an `evaluations`
  out-parameter, so that "a cache hit calls no predicate" can be stated.

## Model

| member | source | states |
|---|---|---|
| IsUIForResults.True | Source/Lib/Morris.Blazor.UIFor/IsUIForResult.cs:10-11 | `True(p)` is supported, keeps `p` exactly as its priority (negative and int.MinValue included), and differs from `False` |
| IsUIForResults.FalseIsUnsupported | Source/Lib/Morris.Blazor.UIFor/IsUIForResult.cs:8 | `False` is unsupported with priority 0 |
| IsUIForResults.EveryResultIsFalseOrTrue | Source/Lib/Morris.Blazor.UIFor/IsUIForResult.cs:8-17 | with the constructor private, every value is `False` or `True` of its own priority, so an unsupported result has priority 0 |
| IsUIForResults.TrueIsInjective | Source/Lib/Morris.Blazor.UIFor/IsUIForResult.cs:10-11 | two `True` results are equal exactly when their priorities are |
| CacheKeys.New | Source/Lib/Morris.Blazor.UIFor/OwnerTypeAndPropertyName.cs:11-19 | succeeds exactly when all three arguments are non-null and stores them; otherwise reports the first null of owner type, property name, property type |
| CacheKeys.OwnerTypeAndPropertyNameAndType.Equals | Source/Lib/Morris.Blazor.UIFor/OwnerTypeAndPropertyName.cs:21-22 | true exactly when owner type and property name are equal; the property type is not compared (partner: `CacheKeys.EqualsIsIdentity`) |
| CacheKeys.OwnerTypeAndPropertyNameAndType.EqualsObject | Source/Lib/Morris.Blazor.UIFor/OwnerTypeAndPropertyName.cs:24-25 | false for null and for another runtime type; on a boxed key, `Equals` (partner: `CacheKeys.EqualsObjectOnlyForKeys`) |
| CacheKeys.OwnerTypeAndPropertyNameAndType.GetHashCode | Source/Lib/Morris.Blazor.UIFor/OwnerTypeAndPropertyName.cs:27 | the process-seeded combination of owner type and property name only (partner: `CacheKeys.EqualKeysHashEqually`) |
| CacheKeys.EqualityOperator | Source/Lib/Morris.Blazor.UIFor/OwnerTypeAndPropertyName.cs:29-30 | `left == right` is `left.Equals(right)` (partner: `CacheKeys.OperatorsAgreeWithEquals`) |
| CacheKeys.InequalityOperator | Source/Lib/Morris.Blazor.UIFor/OwnerTypeAndPropertyName.cs:32-33 | `left != right` is the negation of `==` (partner: `CacheKeys.OperatorsAgreeWithEquals`) |
| CacheKeys.EqualsIsIdentity | Source/Lib/Morris.Blazor.UIFor/OwnerTypeAndPropertyName.cs:21-22 | `Equals` holds exactly when the identities (owner type, name) are equal; the property type is ignored, so a key equals itself with any other property type |
| CacheKeys.EqualsIsEquivalence | Source/Lib/Morris.Blazor.UIFor/OwnerTypeAndPropertyName.cs:21-22 | `Equals` is reflexive, symmetric and transitive |
| CacheKeys.EqualsObjectOnlyForKeys | Source/Lib/Morris.Blazor.UIFor/OwnerTypeAndPropertyName.cs:24-25 | `Equals(object)` is false for null and other runtime types, and is `Equals` on a boxed key |
| CacheKeys.OperatorsAgreeWithEquals | Source/Lib/Morris.Blazor.UIFor/OwnerTypeAndPropertyName.cs:29-33 | `==` is `Equals`, `!=` its negation |
| CacheKeys.EqualKeysHashEqually | Source/Lib/Morris.Blazor.UIFor/OwnerTypeAndPropertyName.cs:27 | equal keys have equal hash codes for every combining function |
| OwnerInfo.FromOwner | Source/Lib/Morris.Blazor.UIFor/OwnerTypeAndPropertyInfo.cs:15-18 | rejects a null owner type ("ownerType"); otherwise stores it with a null name |
| OwnerInfo.FromOwnerAndName | Source/Lib/Morris.Blazor.UIFor/OwnerTypeAndPropertyInfo.cs:10-13 | succeeds exactly when owner and name are non-null; a null owner is reported before a null name; both are stored |
| OwnerInfo.FromTuple | Source/Lib/Morris.Blazor.UIFor/OwnerTypeAndPropertyInfo.cs:47-48 | the implicit tuple conversion succeeds exactly when owner and name are non-null, and then holds that owner and name |
| OwnerInfo.OwnerTypeAndPropertyInfo.Equals | Source/Lib/Morris.Blazor.UIFor/OwnerTypeAndPropertyInfo.cs:20-23 | true exactly when owner types are equal and names are equal, two null names counting as equal (partner: `OwnerInfo.EqualsIsStructural`) |
| OwnerInfo.OwnerTypeAndPropertyInfo.EqualsObject | Source/Lib/Morris.Blazor.UIFor/OwnerTypeAndPropertyInfo.cs:25-30 | false for null and for another runtime type; on a boxed value, `Equals` (partner: `OwnerInfo.EqualsObjectOnlyForOwnerInfo`) |
| OwnerInfo.OwnerTypeAndPropertyInfo.GetHashCode | Source/Lib/Morris.Blazor.UIFor/OwnerTypeAndPropertyInfo.cs:32-35 | the process-seeded combination of owner type and name (partner: `OwnerInfo.EqualValuesHashEqually`) |
| OwnerInfo.EqualityOperator | Source/Lib/Morris.Blazor.UIFor/OwnerTypeAndPropertyInfo.cs:37-40 | `left == right` is `left.Equals(right)` (partner: `OwnerInfo.OperatorsAgreeWithEquals`) |
| OwnerInfo.InequalityOperator | Source/Lib/Morris.Blazor.UIFor/OwnerTypeAndPropertyInfo.cs:42-45 | `left != right` is the negation of `==` (partner: `OwnerInfo.OperatorsAgreeWithEquals`) |
| OwnerInfo.TupleConversionIsTwoArgumentConstructor | Source/Lib/Morris.Blazor.UIFor/OwnerTypeAndPropertyInfo.cs:47-48 | the tuple conversion builds the same value, and reports the same nulls in the same order, as the two-argument constructor |
| OwnerInfo.EqualsIsStructural | Source/Lib/Morris.Blazor.UIFor/OwnerTypeAndPropertyInfo.cs:20-23 | `Equals` is equality of owner and name, two null names counting as equal |
| OwnerInfo.NamedDiffersFromOwnerOnly | Source/Lib/Morris.Blazor.UIFor/OwnerTypeAndPropertyInfo.cs:10-23 | a value with a name never equals the owner-only value of the same owner |
| OwnerInfo.EqualsObjectOnlyForOwnerInfo | Source/Lib/Morris.Blazor.UIFor/OwnerTypeAndPropertyInfo.cs:25-30 | `Equals(object)` is false for null and other runtime types, and is `Equals` on a boxed value |
| OwnerInfo.OperatorsAgreeWithEquals | Source/Lib/Morris.Blazor.UIFor/OwnerTypeAndPropertyInfo.cs:37-45 | `==` is `Equals`, `!=` its negation |
| OwnerInfo.EqualValuesHashEqually | Source/Lib/Morris.Blazor.UIFor/OwnerTypeAndPropertyInfo.cs:32-35 | equal values have equal hash codes |
| ComponentInfo.New | Source/Lib/Morris.Blazor.UIFor/ComponentTypeAndPropertyInfo.cs:12-20 | succeeds exactly when component type and property type are non-null; the property type is checked first (no parameter name), then the component type; the property metadata may be null and is stored as given |
| ComponentInfo.ComponentTypeAndPropertyInfo.Equals | Source/Lib/Morris.Blazor.UIFor/ComponentTypeAndPropertyInfo.cs:22-27 | true exactly when component type, property metadata and property type are all equal; metadata reached through different reflected types differs (partner: `ComponentInfo.EqualsIsStructural`) |
| ComponentInfo.ComponentTypeAndPropertyInfo.EqualsObject | Source/Lib/Morris.Blazor.UIFor/ComponentTypeAndPropertyInfo.cs:29-34 | false for null and for another runtime type; on a boxed value, `Equals` (partner: `ComponentInfo.EqualsObjectOnlyForComponentInfo`) |
| ComponentInfo.ComponentTypeAndPropertyInfo.GetHashCode | Source/Lib/Morris.Blazor.UIFor/ComponentTypeAndPropertyInfo.cs:36-39 | the process-seeded combination of the three fields (partner: `ComponentInfo.EqualValuesHashEqually`) |
| ComponentInfo.EqualityOperator | Source/Lib/Morris.Blazor.UIFor/ComponentTypeAndPropertyInfo.cs:41-44 | `left == right` is `left.Equals(right)` (partner: `ComponentInfo.OperatorsAgreeWithEquals`) |
| ComponentInfo.InequalityOperator | Source/Lib/Morris.Blazor.UIFor/ComponentTypeAndPropertyInfo.cs:46-49 | `left != right` is the negation of `==` (partner: `ComponentInfo.OperatorsAgreeWithEquals`) |
| ComponentInfo.EqualsIsStructural | Source/Lib/Morris.Blazor.UIFor/ComponentTypeAndPropertyInfo.cs:22-27 | `Equals` holds exactly when all three fields are equal |
| ComponentInfo.EqualsObjectOnlyForComponentInfo | Source/Lib/Morris.Blazor.UIFor/ComponentTypeAndPropertyInfo.cs:29-34 | `Equals(object)` is false for null and other runtime types, and is `Equals` on a boxed value |
| ComponentInfo.OperatorsAgreeWithEquals | Source/Lib/Morris.Blazor.UIFor/ComponentTypeAndPropertyInfo.cs:41-49 | `==` is `Equals`, `!=` its negation |
| ComponentInfo.EqualValuesHashEqually | Source/Lib/Morris.Blazor.UIFor/ComponentTypeAndPropertyInfo.cs:36-39 | equal values have equal hash codes |
| Resolution.Leader | Source/Lib/Morris.Blazor.UIFor/UICatalogue.cs:104-126 | after looking at the first n candidates the leader, if any, is one of them and is supported |
| Resolution.Evaluations | Source/Lib/Morris.Blazor.UIFor/UICatalogue.cs:108-118 | the loop calls at most one predicate per candidate: all of them when none is null, none when all are null |
| Resolution.LeaderIsWinnerOfPrefix | Source/Lib/Morris.Blazor.UIFor/UICatalogue.cs:104-126 | the running maximum over a prefix picks its winner (supported, above int.MinValue, no supported candidate higher, every earlier supported one strictly lower), and nothing exactly when no candidate is eligible |
| Resolution.WinnerIsUnique | Source/Lib/Morris.Blazor.UIFor/UICatalogue.cs:119-124 | a candidate list has at most one winner |
| Resolution.LeaderIffWinner | Source/Lib/Morris.Blazor.UIFor/UICatalogue.cs:104-127 | the loop chooses candidate k exactly when k is the winner, and nothing exactly when none is eligible |
| Resolution.HighestPriorityWinsInAnyOrder | Source/Lib/Morris.Blazor.UIFor/UICatalogue.cs:108-127 | a supported candidate with a priority above int.MinValue and strictly above every other supported one is chosen, wherever it was registered |
| Resolution.FirstRegisteredWinsTies | Source/Lib/Morris.Blazor.UIFor/UICatalogue.cs:119 | of two supported candidates with equal priority, the later-registered one is never chosen |
| Resolution.IneligibleNeverWins | Source/Lib/Morris.Blazor.UIFor/UICatalogue.cs:104-119 | an unsupported candidate, or a supported one with priority int.MinValue, is never chosen |
| Resolution.EffectivePropertyType | Source/Lib/Morris.Blazor.UIFor/UICatalogue.cs:93-94 | the given property type wins, else the metadata's property type, and there is none exactly when both are null |
| Resolution.MostApplicableComponent | Source/Lib/Morris.Blazor.UIFor/UICatalogue.cs:88-128 | the three-argument `FindMostApplicableUI`: throws ("propertyType") exactly when neither a property type nor metadata is given; otherwise, with the effective type (the given one, or the metadata's), a chosen component is the winning candidate of that type's registered list, and null is returned exactly when there is no list or no eligible candidate |
| Resolution.MostApplicableUI | Source/Lib/Morris.Blazor.UIFor/UICatalogue.cs:66-86 | the key overload: a property type with no registered list gives null; a found pair carries the metadata the property lookup returns for the owner and name |
| Resolution.Resolve | Source/Lib/Morris.Blazor.UIFor/UICatalogue.cs:49-59 | the cache's value factory: a property type with no registered list gives null; a result carries the requested property type and the looked-up metadata (full meaning: `Resolution.ResolveMeaning`) |
| Resolution.ResolveMeaning | Source/Lib/Morris.Blazor.UIFor/UICatalogue.cs:49-102 | a cache miss yields no match exactly when the value type has no list or no eligible candidate; otherwise the winner's component, the looked-up property and the requested property type; no list means no predicate is called |
| Resolution.ResolvedIsRegistered | Source/Lib/Morris.Blazor.UIFor/UICatalogue.cs:49-59 | a resolved component is registered under the requested property type |
| Scanning.EndsWithIffSplit | Source/Lib/Morris.Blazor.UIFor/UICatalogue.cs:217-219 | ordinal `EndsWith` holds exactly when the name is some prefix followed by the suffix |
| Scanning.IsUIForMethod | Source/Lib/Morris.Blazor.UIFor/UICatalogue.cs:209-220 | accepts a public method named exactly "IsUIFor" or a private one whose name ends ordinally with ".IsUIFor" (characterised by `Scanning.IsUIForMethodAccepts`) |
| Scanning.IsUIForMethodAccepts | Source/Lib/Morris.Blazor.UIFor/UICatalogue.cs:209-220 | a method is accepted exactly when it is public and named "IsUIFor", or private and named "<prefix>.IsUIFor"; other accessibilities are refused |
| Scanning.IsUIForMethodExamples | Source/Lib/Morris.Blazor.UIFor/UICatalogue.cs:209-220 | an explicit-implementation name is accepted; a private bare "IsUIFor" and a public "X.IsUIFor" are refused |
| Scanning.FirstIsUIForMethod | Source/Lib/Morris.Blazor.UIFor/UICatalogue.cs:190-192 | the index of the first accepted target method, and none exactly when no method is accepted (`First` throws) |
| Scanning.ClassifyType | Source/Lib/Morris.Blazor.UIFor/UICatalogue.cs:162-201 | skips exactly the types that are not concrete components or implement no `IUIFor<>`; rejects exactly those with several implementations or with no accepted target method; otherwise registers the type under its single implementation's value type with an accepted method's delegate |
| Scanning.AddItem | Source/Lib/Morris.Blazor.UIFor/UICatalogue.cs:203-206 | the item is appended to the value type's list, which is created when missing; every other key keeps its list |
| Scanning.ScanTypeStep | Source/Lib/Morris.Blazor.UIFor/UICatalogue.cs:160-207 | a non-concrete or non-implementing type changes nothing; several implementations, or no accepted method, throw with nothing registered; otherwise exactly one item is appended for the value type |
| Scanning.ScanTypes | Source/Lib/Morris.Blazor.UIFor/UICatalogue.cs:156-157 | scanning types in order only ever appends to lists (outcome and stopping point: `Scanning.ScanTypesPassIff`, `Scanning.ScanTypesFailsAtFirstReject`) |
| Scanning.ScanTypesAppend | Source/Lib/Morris.Blazor.UIFor/UICatalogue.cs:156-157 | scanning a concatenation scans the first part and continues from its registry only if it passed; a failure keeps what earlier types did |
| Scanning.ScanTypesPassIff | Source/Lib/Morris.Blazor.UIFor/UICatalogue.cs:156-157 | the scan of an assembly's types passes exactly when no type is rejected |
| Scanning.ScanTypesFailsAtFirstReject | Source/Lib/Morris.Blazor.UIFor/UICatalogue.cs:156-157 | when type k is the first rejected, the scan fails with its error and keeps the registry the types before it left |
| Scanning.SkippedTypesRegisterNothing | Source/Lib/Morris.Blazor.UIFor/UICatalogue.cs:162-177 | an assembly of types that are all skipped leaves the registry as it is |
| Scanning.ScanAssemblyStep | Source/Lib/Morris.Blazor.UIFor/UICatalogue.cs:146-157 | an already scanned assembly throws with nothing changed; otherwise it is marked scanned before its types are scanned, so it stays marked when a type throws |
| Scanning.RescanFailsAndChangesNothing | Source/Lib/Morris.Blazor.UIFor/UICatalogue.cs:148-154 | a second scan of the same assembly fails and changes nothing, whatever the first scan did |
| Scanning.ScanAssemblyList | Source/Lib/Morris.Blazor.UIFor/UICatalogue.cs:142-143 | scanning a list only grows registry and scanned set; on success every listed assembly is marked scanned (order and stopping point: `Scanning.ScanAssemblyListAppend`, `Scanning.ScanAssemblyListFailsAt`) |
| Scanning.ScanAssemblyListAppend | Source/Lib/Morris.Blazor.UIFor/UICatalogue.cs:142-143 | scanning a concatenation of assembly lists scans the first part and continues from its state only if it passed; nothing is rolled back |
| Scanning.ScanAssemblyListFailsAt | Source/Lib/Morris.Blazor.UIFor/UICatalogue.cs:142-143 | when the first k assemblies pass and assembly k fails, the whole scan ends with assembly k's state and error |
| Scanning.RepeatedAssemblyFails | Source/Lib/Morris.Blazor.UIFor/UICatalogue.cs:137-154 | a list that names one assembly twice always fails (no deduplication) |
| Scanning.AssemblyAlreadyScannedFails | Source/Lib/Morris.Blazor.UIFor/UICatalogue.cs:142-154 | a list that reaches an already scanned assembly fails |
| Scanning.NonNull | Source/Lib/Morris.Blazor.UIFor/UICatalogue.cs:137-138 | the filtered list is no longer than the array, and empty when every entry is null (order: `Scanning.NonNullAppend`) |
| Scanning.NonNullAppend | Source/Lib/Morris.Blazor.UIFor/UICatalogue.cs:137-138 | filtering distributes over concatenation, so kept entries stay in their original order whatever nulls lie between them |
| Scanning.NonNullMembers | Source/Lib/Morris.Blazor.UIFor/UICatalogue.cs:137-138 | the filtered list holds exactly the non-null entries |
| Scanning.NonNullKeepsOrder | Source/Lib/Morris.Blazor.UIFor/UICatalogue.cs:137-138 | with no null entries the filter returns the list itself, in order |
| Scanning.AllAssemblies | Source/Lib/Morris.Blazor.UIFor/UICatalogue.cs:136-140 | the primary assembly is last, and alone when the additional array is null |
| Scanning.Scan | Source/Lib/Morris.Blazor.UIFor/UICatalogue.cs:130-144 | a null primary assembly throws ("assembly") with nothing changed; otherwise the result is the in-order scan of the non-null additional assemblies followed by the primary, so `ScanAssemblyListFailsAt` gives where it stops; registry and scanned set only grow, and on success the primary is scanned |
| Scanning.PrimaryAlsoInAdditionalFails | Source/Lib/Morris.Blazor.UIFor/UICatalogue.cs:130-154 | passing the primary assembly among the additional ones always fails |
| ResolutionCache.GetOrAdd | Source/Lib/Morris.Blazor.UIFor/UICatalogue.cs:42-60 | a hit returns the stored outcome with no predicate call and leaves the cache unchanged; a miss returns the resolver's outcome (`Resolution.Resolve`) with its predicate count and stores it, null included, under the key's owner and name, keeping every earlier entry |
| ResolutionCache.RepeatedLookupIsStable | Source/Lib/Morris.Blazor.UIFor/UICatalogue.cs:42-63 | a later lookup with an equal key (any property type) returns the stored outcome, "no match" included, calls no predicate and leaves the cache unchanged |
| ResolutionCache.FirstPropertyTypeIsKept | Source/Lib/Morris.Blazor.UIFor/UICatalogue.cs:49-59 | after a miss, a lookup with another property type gets back a result carrying the first call's property type |
| ResolutionCache.LookupEvaluations | Source/Lib/Morris.Blazor.UIFor/UICatalogue.cs:96-102 | a hit calls no predicate; a miss for a value type with no list calls none and stores "no match" |
| ResolutionCache.GetOrAddKeepsConsistency | Source/Lib/Morris.Blazor.UIFor/UICatalogue.cs:42-60 | every stored result names the looked-up property and a component registered under its property type, before and after a lookup |
| ResolutionCache.ExtensionKeepsConsistency | Source/Lib/Morris.Blazor.UIFor/UICatalogue.cs:203-206 | since registration only appends, scanning keeps every cached component registered |
| UICatalogue.Catalogue.constructor | Source/Lib/Morris.Blazor.UIFor/UICatalogue.cs:27-34 | the three dictionaries start empty and consistent |
| UICatalogue.Catalogue.TryGetComponentTypeAndPropertyInfo | Source/Lib/Morris.Blazor.UIFor/UICatalogue.cs:36-64 | null arguments throw before the cache is touched; otherwise the outcome, new cache and predicate count are those of GetOrAdd; the flag is true exactly when a result is returned; consistency is kept |
| UICatalogue.Catalogue.FindMostApplicableUIForKey | Source/Lib/Morris.Blazor.UIFor/UICatalogue.cs:66-86 | returns the resolver's component paired with the looked-up property, or null, calling the predicates a miss costs |
| UICatalogue.Catalogue.FindMostApplicableComponent | Source/Lib/Morris.Blazor.UIFor/UICatalogue.cs:88-128 | the loop's result and predicate count equal the running-maximum specification, whose meaning `LeaderIffWinner` states |
| UICatalogue.Catalogue.Scan | Source/Lib/Morris.Blazor.UIFor/UICatalogue.cs:130-144 | the new registry, scanned set and outcome are those of the scan specification; consistency is kept |
| UICatalogue.Catalogue.ScanAssembly | Source/Lib/Morris.Blazor.UIFor/UICatalogue.cs:146-158 | a null assembly throws ("key") with nothing changed; otherwise the new state and outcome are those of ScanAssemblyStep |
| UICatalogue.Catalogue.ScanType | Source/Lib/Morris.Blazor.UIFor/UICatalogue.cs:160-207 | the new registry and outcome are those of ScanTypeStep; cached results stay consistent |
| UIForComponent.EnsureValidInputParameters | Source/Lib/Morris.Blazor.UIFor/UIFor.cs:74-122 | passes exactly when OneWay is given with no two-way parameter, or all three two-way parameters are given without OneWay; a rejection is one of the two input errors |
| UIForComponent.RejectionReasons | Source/Lib/Morris.Blazor.UIFor/UIFor.cs:114-121 | both inputs, and no input, give "cannot set two inputs"; an incomplete two-way set gives "cannot set independently" |
| UIForComponent.CallbackWithoutDelegateIsIncomplete | Source/Lib/Morris.Blazor.UIFor/UIFor.cs:96-101 | a TwoWayChanged without a delegate does not count, so the set is incomplete; with a delegate it passes |
| UIForComponent.EffectiveValueExpression | Source/Lib/Morris.Blazor.UIFor/UIFor.cs:28-29 | the effective expression is OneWay when non-null, otherwise TwoWayExpression, and null only when both are |
| UIForComponent.Assign | Source/Lib/Morris.Blazor.UIFor/UIFor.cs:37 | each of the four parameters present in the view is assigned its value, and each absent one keeps its previous value |
| UIForComponent.AssignIsIdempotent | Source/Lib/Morris.Blazor.UIFor/UIFor.cs:35-40 | assigning the same view twice equals assigning it once, so the effective expression does not change again |
| UIForComponent.ValidViewSelectsItsExpression | Source/Lib/Morris.Blazor.UIFor/UIFor.cs:28-40 | on a fresh component a valid view makes its own expression (OneWay or TwoWayExpression) the effective one |
| UIForComponent.EarlierOneWayOutlivesTwoWayView | Source/Lib/Morris.Blazor.UIFor/UIFor.cs:28-40 | a OneWay assigned earlier stays effective after a valid two-way view |
| UIForComponent.NullOneWayOnFreshComponentSkipsResolution | Source/Lib/Morris.Blazor.UIFor/UIFor.cs:33-40 | a valid view with a null OneWay leaves a fresh component's effective expression unchanged (null), so no private state is computed |
| UIForComponent.PrivateStateAfter | Source/Lib/Morris.Blazor.UIFor/UIFor.cs:53-72 | a null expression throws with nothing changed; the getter is replaced before anything else can throw; a failure never sets ComponentType or ValuePropertyInfo; success sets a component type |
| UIForComponent.PrivateStateMeaning | Source/Lib/Morris.Blazor.UIFor/UIFor.cs:53-72 | success renders a registered component with the property the lookup finds for the member; "no match" is thrown exactly when the catalogue finds nothing; the cache stays consistent |
| UIForComponent.UIFor.constructor | Source/Lib/Morris.Blazor.UIFor/UIFor.cs:13-27 | parameters and private fields start at their defaults |
| UIForComponent.UIFor.SetParameters | Source/Lib/Morris.Blazor.UIFor/UIFor.cs:31-41 | an invalid view throws before anything is assigned; a valid one is assigned; the private state is recomputed only when the effective expression changed, and then as PrivateStateAfter says |
| UIForComponent.UIFor.CreatePrivateState | Source/Lib/Morris.Blazor.UIFor/UIFor.cs:53-72 | the new private state, cache and outcome are those of PrivateStateAfter; the catalogue stays consistent |

## Left out

- Reflection (`GetProperty`, `GetInterfaces`, `GetGenericTypeDefinition`,
  `GetInterfaceMap`, `MethodInfo.Invoke`, `ExportedTypes`) is abstracted.
  A type is a descriptor that lists its `IUIFor<>` implementations with
  their target methods. Property lookup is a function parameter of the
  catalogue. Invoking the chosen method is its `IsUIForDelegate`.
- Exceptions thrown inside reflection are not modelled: the property lookup
  and the `IsUIForDelegate` are total functions. In the program a user
  `IsUIFor` that throws surfaces as a `TargetInvocationException`
  (UICatalogue.cs:195-197), and an ambiguous property name makes
  `GetProperty` throw `AmbiguousMatchException` (UICatalogue.cs:73-76).
  Either exception leaves `GetOrAdd` with nothing cached, so the next
  lookup of the same key tries again. The model's `GetOrAdd` always stores
  an outcome.
- UICatalogue.Catalogue.TryGetComponentTypeAndPropertyInfo: only sequential
  semantics are modelled. Under concurrent calls, `ConcurrentDictionary`'s
  `GetOrAdd` may run its value factory more than once. No exactly-once
  claim is made for that case.
- UICatalogue.Catalogue.Scan and Scanning.AddItem: only sequential
  semantics are modelled. Under concurrent scans, `AddOrUpdate` may run its
  update factory more than once. The model makes no claim about
  interleaved scans.
- ResolutionCache.GetOrAdd: a stored outcome is never revisited. After a
  later scan adds a better candidate, the cache still returns the old
  choice, or "no match". The model states that the cached component stays
  registered (`ExtensionKeepsConsistency`), not that it is still the winner.
- UICatalogue.Catalogue.FindMostApplicableComponent: the local
  `mostSpecificProperty` is assigned but never read, so it is not modelled.
- The catalogue is a static class. Here it is one object passed to the
  component, and the model's `scanned` is the key set of `ScannedAssemblies`.
- Blazor's rendering and lifecycle are not modelled: `BuildRenderTree`,
  async/await, `Expression.Compile`, `FieldIdentifier.Create` and
  `ParameterView` lookups. An expression is an identity plus the member
  access that `FieldIdentifier.Create` would extract. The compiled getter
  is represented by the expression it was compiled from.
- `base.SetParametersAsync` is modelled only for the four binding
  parameters. Unknown parameters and type-cast failures in `ParameterView`
  are not modelled.
- Concrete hash values from `HashCode.Combine` are seeded per process.
  Hashing is a function parameter, and only its consistency with equality
  is stated.
- Exception message texts are not modelled. Errors carry their kind, the
  parameter name, and the type, name or count the message mentions.
- `IUIFor.cs` has no behaviour. Its static `IsUIFor` signature is the
  `IsUIForDelegate` function type.
- Default `struct` values are not modelled: an instance built without a
  constructor has null fields. Only constructor-built values appear.
- The `propertyType ??=` fallback to the metadata's property type is
  modelled, although the catalogue's own callers always pass a non-null
  property type. The nullable list items are modelled too, although the
  scanner never stores null.
