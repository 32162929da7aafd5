/** ComponentTypeAndPropertyInfo.cs: the outcome of a successful resolution —
    the component type chosen, the property's metadata (possibly null) and
    the property type that was asked for. */
module ComponentInfo {
  import opened Common

  datatype ComponentTypeAndPropertyInfo =
    ComponentTypeAndPropertyInfo(componentType: TypeId, propertyInfo: Option<PropertyInfo>, propertyType: TypeId)
  {
    /** `Equals(ComponentTypeAndPropertyInfo other)`: all three fields. */
    predicate Equals(other: ComponentTypeAndPropertyInfo) {
      componentType == other.componentType
      && propertyInfo == other.propertyInfo
      && propertyType == other.propertyType
    }

    /** `Equals(object? obj)` */
    predicate EqualsObject(obj: Obj<ComponentTypeAndPropertyInfo>) {
      if obj.Boxed? then Equals(obj.value) else false
    }

    /** `GetHashCode()`: HashCode.Combine over the three fields. */
    function GetHashCode(combine: (TypeId, Option<PropertyInfo>, TypeId) -> int): int {
      combine(componentType, propertyInfo, propertyType)
    }
  }

  /** The constructor. It checks the property type first (an
      ArgumentNullException without a parameter name), then the component
      type; the property metadata may be null and is stored as given. */
  function New(componentType: Option<TypeId>, propertyInfo: Option<PropertyInfo>, propertyType: Option<TypeId>)
    : (r: Result<ComponentTypeAndPropertyInfo>)
    ensures r.Success? <==> componentType.Some? && propertyType.Some?
    ensures propertyType.None? ==> r == Failure(ArgumentNull(None))
    ensures propertyType.Some? && componentType.None? ==> r == Failure(ArgumentNull(Some("componentType")))
    ensures r.Success? ==>
      r.value.componentType == componentType.value && r.value.propertyInfo == propertyInfo
      && r.value.propertyType == propertyType.value
  {
    if propertyType.None? then Failure(ArgumentNull(None))
    else if componentType.None? then Failure(ArgumentNull(Some("componentType")))
    else Success(ComponentTypeAndPropertyInfo(componentType.value, propertyInfo, propertyType.value))
  }

  /** `operator ==` */
  predicate EqualityOperator(left: ComponentTypeAndPropertyInfo, right: ComponentTypeAndPropertyInfo) {
    left.Equals(right)
  }

  /** `operator !=` */
  predicate InequalityOperator(left: ComponentTypeAndPropertyInfo, right: ComponentTypeAndPropertyInfo) {
    !EqualityOperator(left, right)
  }

  /** Equals is structural equality over all three fields: values that
      differ only in property type, or only in metadata, are different. */
  lemma EqualsIsStructural(a: ComponentTypeAndPropertyInfo, b: ComponentTypeAndPropertyInfo)
    ensures a.Equals(b) <==> a == b
  {
  }

  /** Equals(object) is false for null and for any other runtime type, and
      agrees with Equals on a boxed value. */
  lemma EqualsObjectOnlyForComponentInfo(a: ComponentTypeAndPropertyInfo, obj: Obj<ComponentTypeAndPropertyInfo>)
    ensures !obj.Boxed? ==> !a.EqualsObject(obj)
    ensures obj.Boxed? ==> (a.EqualsObject(obj) <==> a.Equals(obj.value))
  {
  }

  /** == is Equals and != its negation. */
  lemma OperatorsAgreeWithEquals(a: ComponentTypeAndPropertyInfo, b: ComponentTypeAndPropertyInfo)
    ensures EqualityOperator(a, b) <==> a.Equals(b)
    ensures InequalityOperator(a, b) <==> !a.Equals(b)
  {
  }

  /** Equal values have equal hash codes, whatever the process's seed. */
  lemma EqualValuesHashEqually(a: ComponentTypeAndPropertyInfo, b: ComponentTypeAndPropertyInfo,
                               combine: (TypeId, Option<PropertyInfo>, TypeId) -> int)
    requires a.Equals(b)
    ensures a.GetHashCode(combine) == b.GetHashCode(combine)
  {
  }
}
