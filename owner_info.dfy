/** OwnerTypeAndPropertyInfo.cs: an owner type with an optional property
    name, compared by both. */
module OwnerInfo {
  import opened Common

  datatype OwnerTypeAndPropertyInfo = OwnerTypeAndPropertyInfo(ownerType: TypeId, propertyName: Option<string>)
  {
    /** `Equals(OwnerTypeAndPropertyInfo other)`; two null names are equal. */
    predicate Equals(other: OwnerTypeAndPropertyInfo) {
      ownerType == other.ownerType && propertyName == other.propertyName
    }

    /** `Equals(object? obj)` */
    predicate EqualsObject(obj: Obj<OwnerTypeAndPropertyInfo>) {
      if obj.Boxed? then Equals(obj.value) else false
    }

    /** `GetHashCode()`: HashCode.Combine over owner type and (nullable) name. */
    function GetHashCode(combine: (TypeId, Option<string>) -> int): int {
      combine(ownerType, propertyName)
    }
  }

  /** The one-argument constructor: rejects a null owner type and leaves the
      name null. */
  function FromOwner(ownerType: Option<TypeId>): (r: Result<OwnerTypeAndPropertyInfo>)
    ensures ownerType.None? ==> r == Failure(ArgumentNull(Some("ownerType")))
    ensures ownerType.Some? ==> r.Success? && r.value.ownerType == ownerType.value && r.value.propertyName.None?
  {
    if ownerType.None? then Failure(ArgumentNull(Some("ownerType")))
    else Success(OwnerTypeAndPropertyInfo(ownerType.value, None))
  }

  /** The two-argument constructor: chains to the one-argument one (so a null
      owner is reported first), then rejects a null name and stores it. */
  function FromOwnerAndName(ownerType: Option<TypeId>, propertyName: Option<string>): (r: Result<OwnerTypeAndPropertyInfo>)
    ensures r.Success? <==> ownerType.Some? && propertyName.Some?
    ensures ownerType.None? ==> r == Failure(ArgumentNull(Some("ownerType")))
    ensures ownerType.Some? && propertyName.None? ==> r == Failure(ArgumentNull(Some("propertyName")))
    ensures r.Success? ==> r.value.ownerType == ownerType.value && r.value.propertyName == propertyName
  {
    match FromOwner(ownerType)
    case Failure(e) => Failure(e)
    case Success(owner) =>
      if propertyName.None? then Failure(ArgumentNull(Some("propertyName")))
      else Success(owner.(propertyName := propertyName))
  }

  /** The implicit conversion from a `(Type OwnerType, string PropertyName)`
      tuple. */
  function FromTuple(value: (Option<TypeId>, Option<string>)): (r: Result<OwnerTypeAndPropertyInfo>)
    ensures r.Success? <==> value.0.Some? && value.1.Some?
    ensures r.Success? ==> r.value == OwnerTypeAndPropertyInfo(value.0.value, value.1)
  {
    FromOwnerAndName(value.0, value.1)
  }

  /** The conversion builds the same value as the two-argument constructor:
      owner and name stored, nulls rejected owner first. */
  lemma TupleConversionIsTwoArgumentConstructor(owner: TypeId, name: string, value: (Option<TypeId>, Option<string>))
    ensures FromTuple((Some(owner), Some(name))) == Success(OwnerTypeAndPropertyInfo(owner, Some(name)))
    ensures value.0.None? ==> FromTuple(value) == Failure(ArgumentNull(Some("ownerType")))
    ensures value.0.Some? && value.1.None? ==> FromTuple(value) == Failure(ArgumentNull(Some("propertyName")))
  {
  }

  /** `operator ==` */
  predicate EqualityOperator(left: OwnerTypeAndPropertyInfo, right: OwnerTypeAndPropertyInfo) {
    left.Equals(right)
  }

  /** `operator !=` */
  predicate InequalityOperator(left: OwnerTypeAndPropertyInfo, right: OwnerTypeAndPropertyInfo) {
    !EqualityOperator(left, right)
  }

  /** Equals is structural equality over both fields; in particular two
      values built by the one-argument constructor for one owner are equal. */
  lemma EqualsIsStructural(a: OwnerTypeAndPropertyInfo, b: OwnerTypeAndPropertyInfo, owner: TypeId)
    ensures a.Equals(b) <==> a == b
    ensures FromOwner(Some(owner)).value.Equals(FromOwner(Some(owner)).value)
  {
  }

  /** A value with a name never equals the owner-only value of the same owner. */
  lemma NamedDiffersFromOwnerOnly(owner: TypeId, name: string)
    ensures !FromOwnerAndName(Some(owner), Some(name)).value.Equals(FromOwner(Some(owner)).value)
  {
  }

  /** Equals(object) is false for null and for any other runtime type, and
      agrees with Equals on a boxed value. */
  lemma EqualsObjectOnlyForOwnerInfo(a: OwnerTypeAndPropertyInfo, obj: Obj<OwnerTypeAndPropertyInfo>)
    ensures !obj.Boxed? ==> !a.EqualsObject(obj)
    ensures obj.Boxed? ==> (a.EqualsObject(obj) <==> a.Equals(obj.value))
  {
  }

  /** == is Equals and != its negation. */
  lemma OperatorsAgreeWithEquals(a: OwnerTypeAndPropertyInfo, b: OwnerTypeAndPropertyInfo)
    ensures EqualityOperator(a, b) <==> a.Equals(b)
    ensures InequalityOperator(a, b) <==> !a.Equals(b)
  {
  }

  /** Equal values have equal hash codes, whatever the process's seed. */
  lemma EqualValuesHashEqually(a: OwnerTypeAndPropertyInfo, b: OwnerTypeAndPropertyInfo,
                               combine: (TypeId, Option<string>) -> int)
    requires a.Equals(b)
    ensures a.GetHashCode(combine) == b.GetHashCode(combine)
  {
  }
}
