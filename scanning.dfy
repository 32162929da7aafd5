/** The assembly scanner of UICatalogue.cs (the three Scan overloads and
    IsUIForMethod) as specification functions over the registry and the set
    of scanned assemblies. Reflection is abstracted into descriptors. */
module Scanning {
  import opened Common
  import opened Resolution

  /** A method's accessibility as MethodInfo reports it. */
  datatype Access = Public | Private | OtherAccess

  /** A target method of an interface map: its name, its accessibility and
      what invoking it statically with (owner type, property info) returns. */
  datatype MethodDescriptor = MethodDescriptor(name: string, access: Access, invoke: IsUIForDelegate)

  /** One implementation of IUIFor<T> on a type: T and the target methods of
      its interface map. */
  datatype UIForImplementation = UIForImplementation(valueType: TypeId, targetMethods: seq<MethodDescriptor>)

  /** An exported type: the reflection facts Scan(Type) asks about, with the
      interfaces already filtered down to the IUIFor<> implementations. */
  datatype TypeDescriptor = TypeDescriptor(
    id: TypeId,
    isClass: bool,
    isAbstract: bool,
    isComponent: bool,   // typeof(IComponent).IsAssignableFrom(type)
    uiForImplementations: seq<UIForImplementation>)

  /** An assembly: its identity and its exported types, in order. */
  datatype Assembly = Assembly(id: AssemblyId, exportedTypes: seq<TypeDescriptor>)

  // ---------------------------------------------------------------------
  // IsUIForMethod

  /** `s.EndsWith(suffix, StringComparison.Ordinal)` */
  predicate EndsWith(s: string, suffix: string) {
    |suffix| <= |s| && s[|s| - |suffix|..] == suffix
  }

  /** `nameof(IUIFor<object>.IsUIFor)` */
  const IsUIForName: string := "IsUIFor"

  /** `IsUIForMethod`: the public method named exactly IsUIFor, or a private
      (explicitly implemented) method whose name ends with ".IsUIFor". */
  predicate IsUIForMethod(m: MethodDescriptor) {
    || (m.access == Public && m.name == IsUIForName)
    || (m.access == Private && EndsWith(m.name, "." + IsUIForName))
  }

  /** Ordinal suffix matching means: the name is some prefix followed by the
      suffix, character for character. */
  lemma EndsWithIffSplit(s: string, suffix: string)
    ensures EndsWith(s, suffix) <==> exists prefix: string :: prefix + suffix == s
  {
    if EndsWith(s, suffix) {
      var prefix := s[..|s| - |suffix|];
      assert prefix + suffix == s;
    }
    if exists prefix: string :: prefix + suffix == s {
      var prefix: string :| prefix + suffix == s;
      assert s[|s| - |suffix|..] == suffix;
    }
  }

  /** IsUIForMethod accepts exactly the public "IsUIFor" and the private
      "<anything>.IsUIFor"; any other accessibility is rejected. */
  lemma IsUIForMethodAccepts(m: MethodDescriptor)
    ensures IsUIForMethod(m) <==>
      || (m.access == Public && m.name == "IsUIFor")
      || (m.access == Private && exists prefix: string :: prefix + ".IsUIFor" == m.name)
    ensures m.access == OtherAccess ==> !IsUIForMethod(m)
  {
    EndsWithIffSplit(m.name, ".IsUIFor");
  }

  /** Concrete cases: the explicit implementation name is accepted, a private
      method named just "IsUIFor" is not, nor a public method whose name
      merely ends with IsUIFor. */
  lemma IsUIForMethodExamples(f: IsUIForDelegate)
    ensures IsUIForMethod(MethodDescriptor("Morris.Blazor.UIFor.IUIFor<System.Int32>.IsUIFor", Private, f))
    ensures !IsUIForMethod(MethodDescriptor("IsUIFor", Private, f))
    ensures !IsUIForMethod(MethodDescriptor("X.IsUIFor", Public, f))
    ensures !IsUIForMethod(MethodDescriptor("IsUIFor", OtherAccess, f))
  {
    var explicit := "Morris.Blazor.UIFor.IUIFor<System.Int32>.IsUIFor";
    assert explicit[|explicit| - 8..] == ".IsUIFor";
    assert "IsUIFor" != "X.IsUIFor";
  }

  /** `targetMethods.First(IsUIForMethod)` as an index: the first accepted
      method, or None when `First` would throw. */
  function FirstIsUIForMethod(ms: seq<MethodDescriptor>): (r: Option<nat>)
    ensures r.Some? ==> r.value < |ms| && IsUIForMethod(ms[r.value])
    ensures r.Some? ==> forall j :: 0 <= j < r.value ==> !IsUIForMethod(ms[j])
    ensures r.None? <==> forall j :: 0 <= j < |ms| ==> !IsUIForMethod(ms[j])
    decreases |ms|
  {
    if ms == [] then None
    else if IsUIForMethod(ms[0]) then Some(0)
    else match FirstIsUIForMethod(ms[1..])
      case None => None
      case Some(i) => Some(i + 1)
  }

  // ---------------------------------------------------------------------
  // Scan(Type)

  /** The first test of Scan(Type): a non-abstract class implementing IComponent. */
  predicate IsConcreteComponent(t: TypeDescriptor) {
    t.isClass && !t.isAbstract && t.isComponent
  }

  /** What Scan(Type) decides for one type. */
  datatype TypeScan = Skip | Reject(error: Error) | Register(valueType: TypeId, item: LookupItem)

  function ClassifyType(t: TypeDescriptor): (r: TypeScan)
    ensures r.Skip? <==> !IsConcreteComponent(t) || |t.uiForImplementations| == 0
    ensures r.Reject? <==>
      && IsConcreteComponent(t)
      && (|t.uiForImplementations| > 1
          || (|t.uiForImplementations| == 1
              && forall j :: 0 <= j < |t.uiForImplementations[0].targetMethods| ==>
                   !IsUIForMethod(t.uiForImplementations[0].targetMethods[j])))
    ensures r.Register? ==>
      && |t.uiForImplementations| == 1
      && r.valueType == t.uiForImplementations[0].valueType
      && r.item.componentType == t.id
      && exists i :: 0 <= i < |t.uiForImplementations[0].targetMethods|
           && IsUIForMethod(t.uiForImplementations[0].targetMethods[i])
           && r.item.isUIFor == t.uiForImplementations[0].targetMethods[i].invoke
  {
    if !IsConcreteComponent(t) || |t.uiForImplementations| == 0 then Skip
    else if |t.uiForImplementations| > 1 then
      Reject(MultipleUIForImplementations(t.id, |t.uiForImplementations|))
    else
      var impl := t.uiForImplementations[0];
      match FirstIsUIForMethod(impl.targetMethods)
      case None => Reject(NoMatchingElement)
      case Some(i) => Register(impl.valueType, LookupItem(t.id, impl.targetMethods[i].invoke))
  }

  /** `AddOrUpdate(valueType, _ => [item], (_, list) => list.Add(item))`:
      the item goes at the end of valueType's list, which is created when
      missing; every other key keeps its list. */
  function AddItem(registry: Registry, valueType: TypeId, item: LookupItem): (r: Registry)
    ensures r.Keys == registry.Keys + {valueType}
    ensures valueType in registry ==> r[valueType] == registry[valueType] + [Some(item)]
    ensures valueType !in registry ==> r[valueType] == [Some(item)]
    ensures forall v :: v in registry && v != valueType ==> r[v] == registry[v]
    ensures Extends(registry, r)
  {
    if valueType in registry then registry[valueType := registry[valueType] + [Some(item)]]
    else registry[valueType := [Some(item)]]
  }

  /** Scan(Type) on the registry. */
  function ScanTypeStep(registry: Registry, t: TypeDescriptor): (r: (Registry, Outcome))
    ensures !IsConcreteComponent(t) || |t.uiForImplementations| == 0 ==> r == (registry, Pass)
    ensures IsConcreteComponent(t) && |t.uiForImplementations| > 1 ==>
      r == (registry, Fail(MultipleUIForImplementations(t.id, |t.uiForImplementations|)))
    ensures r.1.Fail? ==> r.0 == registry
    ensures IsConcreteComponent(t) && |t.uiForImplementations| == 1 ==>
      var impl := t.uiForImplementations[0];
      var first := FirstIsUIForMethod(impl.targetMethods);
      && (r.1.Pass? <==> first.Some?)
      && (first.Some? ==> r.0 == AddItem(registry, impl.valueType, LookupItem(t.id, impl.targetMethods[first.value].invoke)))
    ensures Extends(registry, r.0)
  {
    match ClassifyType(t)
    case Skip => (registry, Pass)
    case Reject(e) => (registry, Fail(e))
    case Register(v, item) => (AddItem(registry, v, item), Pass)
  }

  /** The foreach over an assembly's exported types: stops at the first type
      that throws, keeping what earlier types registered. */
  function ScanTypes(registry: Registry, ts: seq<TypeDescriptor>): (r: (Registry, Outcome))
    ensures Extends(registry, r.0)
    decreases |ts|
  {
    if ts == [] then (registry, Pass)
    else
      var step := ScanTypeStep(registry, ts[0]);
      if step.1.Fail? then step
      else
        var rest := ScanTypes(step.0, ts[1..]);
        ExtendsTransitive(registry, step.0, rest.0);
        rest
  }

  /** Types that are skipped leave the registry as it is: a list of them
      scans to nothing. */
  lemma {:induction false} SkippedTypesRegisterNothing(registry: Registry, ts: seq<TypeDescriptor>)
    requires forall i :: 0 <= i < |ts| ==> !IsConcreteComponent(ts[i]) || |ts[i].uiForImplementations| == 0
    ensures ScanTypes(registry, ts) == (registry, Pass)
    decreases |ts|
  {
    if ts != [] {
      SkippedTypesRegisterNothing(registry, ts[1..]);
    }
  }

  /** The types are scanned in order and nothing is rolled back: scanning a
      concatenation scans the first part and, only if it passed, continues
      from the registry it left. */
  lemma {:induction false} ScanTypesAppend(registry: Registry, xs: seq<TypeDescriptor>, ys: seq<TypeDescriptor>)
    ensures var first := ScanTypes(registry, xs);
      ScanTypes(registry, xs + ys) == if first.1.Fail? then first else ScanTypes(first.0, ys)
    decreases |xs|
  {
    if xs == [] {
      assert xs + ys == ys;
    } else {
      var step := ScanTypeStep(registry, xs[0]);
      assert (xs + ys)[0] == xs[0];
      assert (xs + ys)[1..] == xs[1..] + ys;
      if step.1.Pass? {
        ScanTypesAppend(step.0, xs[1..], ys);
      }
    }
  }

  /** The scan of an assembly's types passes exactly when none of them is
      rejected. */
  lemma {:induction false} ScanTypesPassIff(registry: Registry, ts: seq<TypeDescriptor>)
    ensures ScanTypes(registry, ts).1.Pass? <==> forall i :: 0 <= i < |ts| ==> !ClassifyType(ts[i]).Reject?
    decreases |ts|
  {
    if ts != [] {
      var step := ScanTypeStep(registry, ts[0]);
      if step.1.Pass? {
        ScanTypesPassIff(step.0, ts[1..]);
        assert forall i :: 1 <= i < |ts| ==> ts[i] == ts[1..][i - 1];
      }
    }
  }

  /** When type k is the first one rejected, the scan fails with its error
      and keeps what the types before it registered. */
  lemma ScanTypesFailsAtFirstReject(registry: Registry, ts: seq<TypeDescriptor>, k: nat)
    requires k < |ts| && ClassifyType(ts[k]).Reject?
    requires forall j :: 0 <= j < k ==> !ClassifyType(ts[j]).Reject?
    ensures ScanTypes(registry, ts) == (ScanTypes(registry, ts[..k]).0, Fail(ClassifyType(ts[k]).error))
  {
    ScanTypesPassIff(registry, ts[..k]);
    assert ts == ts[..k] + ts[k..];
    ScanTypesAppend(registry, ts[..k], ts[k..]);
    assert ts[k..][0] == ts[k];
  }

  // ---------------------------------------------------------------------
  // Scan(Assembly) and Scan(Assembly, params Assembly[])

  /** The registry and the set of scanned assemblies. */
  datatype ScanState = ScanState(registry: Registry, scanned: set<AssemblyId>)

  /** Scan(Assembly): a scanned assembly is refused with nothing changed;
      otherwise it is marked scanned BEFORE its types are scanned, so it
      stays marked even when a type throws. */
  function ScanAssemblyStep(s: ScanState, a: Assembly): (r: (ScanState, Outcome))
    ensures a.id in s.scanned ==> r == (s, Fail(AlreadyScanned(a.id)))
    ensures a.id !in s.scanned ==>
      r.0.scanned == s.scanned + {a.id} && (r.0.registry, r.1) == ScanTypes(s.registry, a.exportedTypes)
    ensures Extends(s.registry, r.0.registry)
  {
    if a.id in s.scanned then (s, Fail(AlreadyScanned(a.id)))
    else
      var types := ScanTypes(s.registry, a.exportedTypes);
      (ScanState(types.0, s.scanned + {a.id}), types.1)
  }

  /** Scanning an assembly a second time fails and changes nothing, whether
      or not the first scan succeeded. */
  lemma RescanFailsAndChangesNothing(s: ScanState, a: Assembly)
    ensures var first := ScanAssemblyStep(s, a);
      ScanAssemblyStep(first.0, a) == (first.0, Fail(AlreadyScanned(a.id)))
  {
  }

  /** The foreach over the combined array: stops at the first assembly whose
      scan throws; earlier scans are not rolled back. */
  function ScanAssemblyList(s: ScanState, assemblies: seq<Assembly>): (r: (ScanState, Outcome))
    ensures Extends(s.registry, r.0.registry) && s.scanned <= r.0.scanned
    ensures r.1.Pass? ==> forall i :: 0 <= i < |assemblies| ==> assemblies[i].id in r.0.scanned
    decreases |assemblies|
  {
    if assemblies == [] then (s, Pass)
    else
      var step := ScanAssemblyStep(s, assemblies[0]);
      if step.1.Fail? then step
      else
        var rest := ScanAssemblyList(step.0, assemblies[1..]);
        ExtendsTransitive(s.registry, step.0.registry, rest.0.registry);
        assert forall i :: 1 <= i < |assemblies| ==> assemblies[i] == assemblies[1..][i - 1];
        rest
  }

  /** Scanning a concatenation scans the first part and, only if it passed,
      continues from the state it left: scans are in order and a failure
      keeps what the earlier scans did. */
  lemma {:induction false} ScanAssemblyListAppend(s: ScanState, xs: seq<Assembly>, ys: seq<Assembly>)
    ensures var first := ScanAssemblyList(s, xs);
      ScanAssemblyList(s, xs + ys) == if first.1.Fail? then first else ScanAssemblyList(first.0, ys)
    decreases |xs|
  {
    if xs == [] {
      assert xs + ys == ys;
    } else {
      var step := ScanAssemblyStep(s, xs[0]);
      assert (xs + ys)[0] == xs[0];
      assert (xs + ys)[1..] == xs[1..] + ys;
      if step.1.Pass? {
        ScanAssemblyListAppend(step.0, xs[1..], ys);
      }
    }
  }

  /** If the first k assemblies pass and assembly k fails, the whole scan
      ends there: its state and error are those of assembly k's scan from
      the state the first k left behind. */
  lemma ScanAssemblyListFailsAt(s: ScanState, xs: seq<Assembly>, k: nat)
    requires k < |xs|
    requires ScanAssemblyList(s, xs[..k]).1.Pass?
    requires ScanAssemblyStep(ScanAssemblyList(s, xs[..k]).0, xs[k]).1.Fail?
    ensures ScanAssemblyList(s, xs) == ScanAssemblyStep(ScanAssemblyList(s, xs[..k]).0, xs[k])
  {
    var before := ScanAssemblyList(s, xs[..k]);
    assert xs == xs[..k] + xs[k..];
    ScanAssemblyListAppend(s, xs[..k], xs[k..]);
    assert xs[k..][0] == xs[k];
  }

  /** No deduplication: a list naming the same assembly twice always fails
      (at the second occurrence at the latest). */
  lemma {:induction false} RepeatedAssemblyFails(s: ScanState, assemblies: seq<Assembly>, i: nat, j: nat)
    requires i < j < |assemblies| && assemblies[i].id == assemblies[j].id
    ensures ScanAssemblyList(s, assemblies).1.Fail?
    decreases |assemblies|
  {
    var step := ScanAssemblyStep(s, assemblies[0]);
    if step.1.Pass? {
      var rest := assemblies[1..];
      if i == 0 {
        assert rest[j - 1].id in step.0.scanned;
        AssemblyAlreadyScannedFails(step.0, rest, j - 1);
      } else {
        RepeatedAssemblyFails(step.0, rest, i - 1, j - 1);
      }
    }
  }

  /** A list that reaches an already scanned assembly fails. */
  lemma {:induction false} AssemblyAlreadyScannedFails(s: ScanState, assemblies: seq<Assembly>, j: nat)
    requires j < |assemblies| && assemblies[j].id in s.scanned
    ensures ScanAssemblyList(s, assemblies).1.Fail?
    decreases |assemblies|
  {
    var step := ScanAssemblyStep(s, assemblies[0]);
    if step.1.Pass? && j > 0 {
      AssemblyAlreadyScannedFails(step.0, assemblies[1..], j - 1);
    }
  }

  /** `additionalAssemblies.Where(x => x is not null)` */
  function NonNull(xs: seq<Option<Assembly>>): (r: seq<Assembly>)
    ensures |r| <= |xs|
    ensures (forall i :: 0 <= i < |xs| ==> xs[i].None?) ==> r == []
    decreases |xs|
  {
    if xs == [] then []
    else
      var init := NonNull(xs[..|xs| - 1]);
      if xs[|xs| - 1].Some? then init + [xs[|xs| - 1].value] else init
  }

  /** The filtered list holds exactly the non-null entries. */
  lemma {:induction false} NonNullMembers(xs: seq<Option<Assembly>>)
    ensures forall i :: 0 <= i < |NonNull(xs)| ==> Some(NonNull(xs)[i]) in xs
    ensures forall i :: 0 <= i < |xs| && xs[i].Some? ==> xs[i].value in NonNull(xs)
    decreases |xs|
  {
    if xs != [] {
      var init := xs[..|xs| - 1];
      NonNullMembers(init);
      var r := NonNull(xs);
      forall i | 0 <= i < |r|
        ensures Some(r[i]) in xs
      {
        if i < |NonNull(init)| {
          assert r[i] == NonNull(init)[i];
          var j :| 0 <= j < |init| && init[j] == Some(r[i]);
          assert xs[j] == init[j];
        } else {
          assert xs[|xs| - 1] == Some(r[i]);
        }
      }
      forall i | 0 <= i < |xs| && xs[i].Some?
        ensures xs[i].value in r
      {
        if i < |init| {
          assert init[i] == xs[i];
          var j :| 0 <= j < |NonNull(init)| && NonNull(init)[j] == xs[i].value;
          assert r[j] == NonNull(init)[j];
        } else {
          assert r[|r| - 1] == xs[i].value;
        }
      }
    }
  }

  /** Filtering distributes over concatenation, so the kept entries stay in
      their original order whatever the nulls between them. */
  lemma {:induction false} NonNullAppend(xs: seq<Option<Assembly>>, ys: seq<Option<Assembly>>)
    ensures NonNull(xs + ys) == NonNull(xs) + NonNull(ys)
    decreases |ys|
  {
    if ys == [] {
      assert xs + ys == xs;
    } else {
      var init := ys[..|ys| - 1];
      assert (xs + ys)[..|xs + ys| - 1] == xs + init;
      assert (xs + ys)[|xs + ys| - 1] == ys[|ys| - 1];
      NonNullAppend(xs, init);
    }
  }

  /** Filtering keeps order: with no nulls, the filtered list is the list. */
  lemma {:induction false} NonNullKeepsOrder(xs: seq<Option<Assembly>>)
    requires forall i :: 0 <= i < |xs| ==> xs[i].Some?
    ensures |NonNull(xs)| == |xs|
    ensures forall i :: 0 <= i < |xs| ==> NonNull(xs)[i] == xs[i].value
    decreases |xs|
  {
    if xs != [] {
      var init := xs[..|xs| - 1];
      NonNullKeepsOrder(init);
      var r := NonNull(xs);
      assert r == NonNull(init) + [xs[|xs| - 1].value];
      forall i | 0 <= i < |xs|
        ensures r[i] == xs[i].value
      {
        if i < |init| {
          assert init[i] == xs[i];
        }
      }
    }
  }

  /** The combined array: the non-null additional assemblies in order (none
      when the array itself is null), then the primary assembly. */
  function AllAssemblies(primary: Assembly, additional: Option<seq<Option<Assembly>>>): (r: seq<Assembly>)
    ensures |r| >= 1 && r[|r| - 1] == primary
    ensures additional.None? ==> r == [primary]
  {
    NonNull(additional.GetOr([])) + [primary]
  }

  /** Scan(Assembly, params Assembly[]): a null primary assembly is refused
      with nothing changed; otherwise the combined array is scanned in order. */
  function Scan(s: ScanState, primary: Option<Assembly>, additional: Option<seq<Option<Assembly>>>): (r: (ScanState, Outcome))
    ensures primary.None? ==> r == (s, Fail(ArgumentNull(Some("assembly"))))
    ensures Extends(s.registry, r.0.registry) && s.scanned <= r.0.scanned
    ensures primary.Some? && r.1.Pass? ==> primary.value.id in r.0.scanned
  {
    if primary.None? then (s, Fail(ArgumentNull(Some("assembly"))))
    else ScanAssemblyList(s, AllAssemblies(primary.value, additional))
  }

  /** Passing the primary assembly again among the additional ones fails:
      it is scanned in its additional position, and again last. */
  lemma PrimaryAlsoInAdditionalFails(s: ScanState, primary: Assembly, additional: seq<Option<Assembly>>, k: nat)
    requires k < |additional| && additional[k] == Some(primary)
    ensures Scan(s, Some(primary), Some(additional)).1.Fail?
  {
    var all := AllAssemblies(primary, Some(additional));
    var filtered := NonNull(additional);
    NonNullMembers(additional);
    assert primary in filtered;
    var i :| 0 <= i < |filtered| && filtered[i] == primary;
    assert all[i] == primary && all[|all| - 1] == primary;
    RepeatedAssemblyFails(s, all, i, |all| - 1);
  }
}
