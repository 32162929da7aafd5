/** UIFor.cs: the component that checks its binding parameters, works out
    the expression it displays, and asks the catalogue which component to
    render whenever that expression changes. Blazor's rendering is not
    modelled; the catalogue, static in the program, is passed in. */
module UIForComponent {
  import opened Common
  import opened CacheKeys
  import opened Resolution
  import opened ResolutionCache
  import UICatalogue

  /** What `FieldIdentifier.Create` extracts from a member-access
      expression: the runtime type of the model object and the member name. */
  datatype FieldAccess = FieldAccess(modelType: TypeId, fieldName: string)

  /** An `Expression<Func<TValue>>` object. `id` stands for its identity
      (expressions are compared by reference); `field` is None when its body
      is not a member access. An expression object is immutable, so one id
      always comes with the same field, and comparing whole values compares
      identities. */
  datatype Expr = Expr(id: nat, field: Option<FieldAccess>)

  /** `EventCallback<TValue>`; the default value has no delegate. */
  datatype EventCallback = EventCallback(hasDelegate: bool)

  /** The four binding parameters as a `ParameterView` carries them: None
      when the parameter is absent, otherwise its value (a null expression
      included). */
  datatype ParameterView<TValue> = ParameterView(
    oneWay: Option<Option<Expr>>,
    twoWay: Option<TValue>,
    twoWayExpression: Option<Option<Expr>>,
    twoWayChanged: Option<EventCallback>)

  // ---------------------------------------------------------------------
  // EnsureValidInputParameters

  predicate HasOneWayParam<TValue>(p: ParameterView<TValue>) {
    p.oneWay.Some?
  }

  predicate HasTwoWayParam<TValue>(p: ParameterView<TValue>) {
    p.twoWay.Some?
  }

  predicate HasTwoWayExpressionParam<TValue>(p: ParameterView<TValue>) {
    p.twoWayExpression.Some?
  }

  /** A callback counts only when it carries a delegate. */
  predicate HasTwoWayChangedParam<TValue>(p: ParameterView<TValue>) {
    p.twoWayChanged.Some? && p.twoWayChanged.value.hasDelegate
  }

  predicate HasAnyTwoWayParams<TValue>(p: ParameterView<TValue>) {
    HasTwoWayParam(p) || HasTwoWayChangedParam(p) || HasTwoWayExpressionParam(p)
  }

  predicate HasAllTwoWayParams<TValue>(p: ParameterView<TValue>) {
    HasAnyTwoWayParams(p) && HasTwoWayParam(p) && HasTwoWayChangedParam(p) && HasTwoWayExpressionParam(p)
  }

  /** `EnsureValidInputParameters`: the three checks in the program's order. */
  function EnsureValidInputParameters<TValue>(p: ParameterView<TValue>): (r: Outcome)
    ensures r.Pass? <==>
      || (p.oneWay.Some? && p.twoWay.None? && p.twoWayExpression.None? && !HasTwoWayChangedParam(p))
      || (p.oneWay.None? && p.twoWay.Some? && p.twoWayExpression.Some? && HasTwoWayChangedParam(p))
    ensures r.Fail? ==> r.error == CannotSetTwoInputs || r.error == CannotSetTwoWayParametersIndependently
  {
    if HasOneWayParam(p) && HasAllTwoWayParams(p) then Fail(CannotSetTwoInputs)
    else if HasAnyTwoWayParams(p) && !HasAllTwoWayParams(p) then Fail(CannotSetTwoWayParametersIndependently)
    else if !HasOneWayParam(p) && !HasAnyTwoWayParams(p) then Fail(CannotSetTwoInputs)
    else Pass
  }

  /** Which message each rejected combination gets: both inputs, an
      incomplete two-way set (whether or not OneWay is there), or no input. */
  lemma RejectionReasons<TValue>(p: ParameterView<TValue>)
    ensures HasOneWayParam(p) && HasAllTwoWayParams(p) ==>
      EnsureValidInputParameters(p) == Fail(CannotSetTwoInputs)
    ensures HasAnyTwoWayParams(p) && !HasAllTwoWayParams(p) ==>
      EnsureValidInputParameters(p) == Fail(CannotSetTwoWayParametersIndependently)
    ensures !HasOneWayParam(p) && !HasAnyTwoWayParams(p) ==>
      EnsureValidInputParameters(p) == Fail(CannotSetTwoInputs)
  {
  }

  /** A complete-looking two-way set whose callback has no delegate is an
      incomplete one. */
  lemma CallbackWithoutDelegateIsIncomplete<TValue>(value: TValue, e: Option<Expr>)
    ensures EnsureValidInputParameters(ParameterView(None, Some(value), Some(e), Some(EventCallback(false))))
      == Fail(CannotSetTwoWayParametersIndependently)
    ensures EnsureValidInputParameters(ParameterView(None, Some(value), Some(e), Some(EventCallback(true)))) == Pass
  {
  }

  // ---------------------------------------------------------------------
  // Parameters and the effective expression

  /** The component's four parameter properties; `twoWay` is None while it
      still holds `default!`. */
  datatype Bindings<TValue> = Bindings(
    oneWay: Option<Expr>,
    twoWay: Option<TValue>,
    twoWayExpression: Option<Expr>,
    twoWayChanged: EventCallback)

  /** The property initialisers. */
  function InitialBindings<TValue>(): Bindings<TValue> {
    Bindings(None, None, None, EventCallback(false))
  }

  /** `EffectiveValueExpression`: `OneWay ?? TwoWayExpression`. */
  function EffectiveValueExpression<TValue>(b: Bindings<TValue>): (e: Option<Expr>)
    ensures e.Some? <==> b.oneWay.Some? || b.twoWayExpression.Some?
    ensures e == b.oneWay || e == b.twoWayExpression
    ensures b.oneWay.Some? ==> e == b.oneWay
  {
    if b.oneWay.Some? then b.oneWay else b.twoWayExpression
  }

  /** What `base.SetParametersAsync` does to the four properties: each
      parameter present in the view is assigned, the others keep their
      values. */
  function Assign<TValue>(b: Bindings<TValue>, p: ParameterView<TValue>): (r: Bindings<TValue>)
    ensures p.oneWay.Some? ==> r.oneWay == p.oneWay.value
    ensures p.oneWay.None? ==> r.oneWay == b.oneWay
    ensures p.twoWay.Some? ==> r.twoWay == p.twoWay
    ensures p.twoWay.None? ==> r.twoWay == b.twoWay
    ensures p.twoWayExpression.Some? ==> r.twoWayExpression == p.twoWayExpression.value
    ensures p.twoWayExpression.None? ==> r.twoWayExpression == b.twoWayExpression
    ensures p.twoWayChanged.Some? ==> r.twoWayChanged == p.twoWayChanged.value
    ensures p.twoWayChanged.None? ==> r.twoWayChanged == b.twoWayChanged
    ensures p.oneWay.None? && p.twoWay.None? && p.twoWayExpression.None? && p.twoWayChanged.None? ==> r == b
  {
    Bindings(
      if p.oneWay.Some? then p.oneWay.value else b.oneWay,
      if p.twoWay.Some? then p.twoWay else b.twoWay,
      if p.twoWayExpression.Some? then p.twoWayExpression.value else b.twoWayExpression,
      if p.twoWayChanged.Some? then p.twoWayChanged.value else b.twoWayChanged)
  }

  /** Assigning the same view twice is assigning it once, so a second
      render with unchanged parameters does not recompute anything. */
  lemma AssignIsIdempotent<TValue>(b: Bindings<TValue>, p: ParameterView<TValue>)
    ensures Assign(Assign(b, p), p) == Assign(b, p)
    ensures EffectiveValueExpression(Assign(Assign(b, p), p)) == EffectiveValueExpression(Assign(b, p))
  {
  }

  /** On a fresh component, a valid view makes the effective expression the
      one its binding mode supplies: OneWay, or TwoWayExpression. */
  lemma ValidViewSelectsItsExpression<TValue>(p: ParameterView<TValue>)
    requires EnsureValidInputParameters(p).Pass?
    ensures p.oneWay.Some? ==> EffectiveValueExpression(Assign(InitialBindings(), p)) == p.oneWay.value
    ensures p.oneWay.None? ==> EffectiveValueExpression(Assign(InitialBindings(), p)) == p.twoWayExpression.value
  {
  }

  /** Parameters absent from a later view keep their values: a component
      first bound one way and then given a valid two-way view still shows
      its old OneWay expression. */
  lemma EarlierOneWayOutlivesTwoWayView<TValue>(b: Bindings<TValue>, p: ParameterView<TValue>)
    requires b.oneWay.Some?
    requires EnsureValidInputParameters(p).Pass? && p.oneWay.None?
    ensures EffectiveValueExpression(Assign(b, p)) == b.oneWay
  {
  }

  /** A valid view whose OneWay value is null leaves a fresh component's
      effective expression null, so no private state is computed. */
  lemma NullOneWayOnFreshComponentSkipsResolution<TValue>()
    ensures var p: ParameterView<TValue> := ParameterView(Some(None), None, None, None);
      && EnsureValidInputParameters(p).Pass?
      && EffectiveValueExpression(Assign(InitialBindings(), p)) == EffectiveValueExpression(InitialBindings<TValue>())
  {
  }

  // ---------------------------------------------------------------------
  // CreatePrivateState

  /** The private fields: the component type to render, the compiled value
      getter (the expression it was compiled from) and the property info. */
  datatype PrivateState = PrivateState(componentType: Option<TypeId>, getValue: Option<Expr>,
                                       valuePropertyInfo: Option<PropertyInfo>)

  /** Outcome of one `CreatePrivateState`: what it threw, the private state
      it leaves and the catalogue's cache after it. */
  datatype Recomputed = Recomputed(outcome: Outcome, state: PrivateState, cache: Cache)

  /** `CreatePrivateState` on the catalogue's state: compiling a null
      expression throws; the getter is replaced before the field is
      extracted; a non-member expression throws; then the catalogue is asked
      with the model's type, the member name and TValue, and "no match"
      throws before the component type and property info are assigned. */
  function PrivateStateAfter(effective: Option<Expr>, valueType: TypeId, state: PrivateState,
                             cache: Cache, registry: Registry, getProperty: PropertyLookup): (r: Recomputed)
    ensures effective.None? ==> r == Recomputed(Fail(NullReference), state, cache)
    ensures r.outcome.Fail? ==>
      r.state.componentType == state.componentType && r.state.valuePropertyInfo == state.valuePropertyInfo
    ensures effective.Some? ==> r.state.getValue == effective
    ensures r.outcome.Pass? ==> effective.Some? && effective.value.field.Some? && r.state.componentType.Some?
  {
    if effective.None? then Recomputed(Fail(NullReference), state, cache)
    else
      var compiled := state.(getValue := effective);
      match effective.value.field
      case None => Recomputed(Fail(NotAFieldAccess), compiled, cache)
      case Some(field) =>
        var key := OwnerTypeAndPropertyNameAndType(field.modelType, field.fieldName, valueType);
        var lookup := GetOrAdd(cache, registry, getProperty, key);
        if lookup.outcome.None? then
          Recomputed(Fail(NoUIForRegistered(field.modelType, field.fieldName)), compiled, lookup.cache)
        else
          Recomputed(Pass, compiled.(componentType := Some(lookup.outcome.value.componentType),
                                     valuePropertyInfo := lookup.outcome.value.propertyInfo), lookup.cache)
  }

  /** With a consistent cache, a successful recomputation renders a
      registered component with the property the lookup finds for the
      member, and the cache stays consistent whatever happens. A failure
      from the catalogue is exactly a "no match" for that member. */
  lemma PrivateStateMeaning(effective: Option<Expr>, valueType: TypeId, state: PrivateState,
                            cache: Cache, registry: Registry, getProperty: PropertyLookup)
    requires Consistent(cache, registry, getProperty)
    ensures var r := PrivateStateAfter(effective, valueType, state, cache, registry, getProperty);
      && Consistent(r.cache, registry, getProperty)
      && (r.outcome.Pass? ==>
            var field := effective.value.field.value;
            && r.state.valuePropertyInfo == getProperty(field.modelType, field.fieldName)
            && exists t :: t in registry && Registered(registry[t], r.state.componentType.value))
    ensures effective.Some? && effective.value.field.Some? ==>
      var field := effective.value.field.value;
      var key := OwnerTypeAndPropertyNameAndType(field.modelType, field.fieldName, valueType);
      var r := PrivateStateAfter(effective, valueType, state, cache, registry, getProperty);
      var noMatch := r.outcome == Fail(NoUIForRegistered(field.modelType, field.fieldName));
      noMatch <==> GetOrAdd(cache, registry, getProperty, key).outcome.None?
  {
    if effective.Some? && effective.value.field.Some? {
      var field := effective.value.field.value;
      var key := OwnerTypeAndPropertyNameAndType(field.modelType, field.fieldName, valueType);
      GetOrAddKeepsConsistency(cache, registry, getProperty, key);
      var lookup := GetOrAdd(cache, registry, getProperty, key);
      if lookup.outcome.Some? {
        var t := lookup.outcome.value.propertyType;
        assert t in registry && Registered(registry[t], lookup.outcome.value.componentType);
      }
    }
  }

  // ---------------------------------------------------------------------
  // The component

  class UIFor<TValue> {
    /** `typeof(TValue)` */
    const valueType: TypeId

    var oneWay: Option<Expr>
    var twoWay: Option<TValue>
    var twoWayExpression: Option<Expr>
    var twoWayChanged: EventCallback

    var componentType: Option<TypeId>
    var getValue: Option<Expr>
    var valuePropertyInfo: Option<PropertyInfo>

    function CurrentBindings(): Bindings<TValue>
      reads this
    {
      Bindings(oneWay, twoWay, twoWayExpression, twoWayChanged)
    }

    ghost function CurrentPrivateState(): PrivateState
      reads this
    {
      PrivateState(componentType, getValue, valuePropertyInfo)
    }

    /** A new component: every parameter and private field at its default. */
    constructor (valueType: TypeId)
      ensures this.valueType == valueType
      ensures CurrentBindings() == InitialBindings()
      ensures CurrentPrivateState() == PrivateState(None, None, None)
    {
      this.valueType := valueType;
      oneWay, twoWay, twoWayExpression, twoWayChanged := None, None, None, EventCallback(false);
      componentType, getValue, valuePropertyInfo := None, None, None;
    }

    /** `SetParametersAsync`: validates the view before anything is
        assigned, assigns the parameters, and recomputes the private state
        only when the effective expression is a different object than
        before. */
    method SetParameters(parameters: ParameterView<TValue>, catalogue: UICatalogue.Catalogue) returns (r: Outcome)
      requires catalogue.Valid()
      modifies this, catalogue`cache
      ensures catalogue.Valid()
      ensures EnsureValidInputParameters(parameters).Fail? ==>
        && r == EnsureValidInputParameters(parameters)
        && CurrentBindings() == old(CurrentBindings())
        && CurrentPrivateState() == old(CurrentPrivateState())
        && catalogue.cache == old(catalogue.cache)
      ensures EnsureValidInputParameters(parameters).Pass? ==>
        CurrentBindings() == Assign(old(CurrentBindings()), parameters)
      ensures (EnsureValidInputParameters(parameters).Pass?
               && EffectiveValueExpression(CurrentBindings()) == EffectiveValueExpression(old(CurrentBindings()))) ==>
        r == Pass && CurrentPrivateState() == old(CurrentPrivateState()) && catalogue.cache == old(catalogue.cache)
      ensures (EnsureValidInputParameters(parameters).Pass?
               && EffectiveValueExpression(CurrentBindings()) != EffectiveValueExpression(old(CurrentBindings()))) ==>
        Recomputed(r, CurrentPrivateState(), catalogue.cache)
          == PrivateStateAfter(EffectiveValueExpression(CurrentBindings()), valueType, old(CurrentPrivateState()),
                               old(catalogue.cache), catalogue.registry, catalogue.getProperty)
    {
      r := EnsureValidInputParameters(parameters);
      if r.Fail? {
        return;
      }
      var previousEffectiveValueExpression := EffectiveValueExpression(CurrentBindings());
      if parameters.oneWay.Some? {
        oneWay := parameters.oneWay.value;
      }
      if parameters.twoWay.Some? {
        twoWay := parameters.twoWay;
      }
      if parameters.twoWayExpression.Some? {
        twoWayExpression := parameters.twoWayExpression.value;
      }
      if parameters.twoWayChanged.Some? {
        twoWayChanged := parameters.twoWayChanged.value;
      }
      if EffectiveValueExpression(CurrentBindings()) != previousEffectiveValueExpression {
        r := CreatePrivateState(catalogue);
      }
    }

    /** `CreatePrivateState`, proved against PrivateStateAfter. */
    method CreatePrivateState(catalogue: UICatalogue.Catalogue) returns (r: Outcome)
      requires catalogue.Valid()
      modifies this`componentType, this`getValue, this`valuePropertyInfo, catalogue`cache
      ensures catalogue.Valid()
      ensures Recomputed(r, CurrentPrivateState(), catalogue.cache)
        == PrivateStateAfter(EffectiveValueExpression(CurrentBindings()), valueType, old(CurrentPrivateState()),
                             old(catalogue.cache), catalogue.registry, catalogue.getProperty)
    {
      var effectiveValueExpression := EffectiveValueExpression(CurrentBindings());
      if effectiveValueExpression.None? {
        return Fail(NullReference);
      }
      getValue := effectiveValueExpression;
      var fieldIdentifier := effectiveValueExpression.value.field;
      if fieldIdentifier.None? {
        return Fail(NotAFieldAccess);
      }
      var ownerType := fieldIdentifier.value.modelType;
      var propertyName := fieldIdentifier.value.fieldName;
      var found, componentTypeAndPropertyInfo, _ :=
        catalogue.TryGetComponentTypeAndPropertyInfo(Some(ownerType), Some(propertyName), Some(valueType));
      if found != Success(true) {
        return Fail(NoUIForRegistered(ownerType, propertyName));
      }
      componentType := Some(componentTypeAndPropertyInfo.value.componentType);
      valuePropertyInfo := componentTypeAndPropertyInfo.value.propertyInfo;
      r := Pass;
    }
  }
}
