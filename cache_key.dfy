/** OwnerTypeAndPropertyName.cs: the key of the resolution cache. It carries
    owner type, property name and property type, but its equality and hash
    use only the owner type and the property name. */
module CacheKeys {
  import opened Common

  datatype OwnerTypeAndPropertyNameAndType =
    OwnerTypeAndPropertyNameAndType(ownerType: TypeId, propertyName: string, propertyType: TypeId)
  {
    /** What Equals and GetHashCode look at: the owner type and the name. */
    function Identity(): (TypeId, string) {
      (ownerType, propertyName)
    }

    /** `Equals(OwnerTypeAndPropertyNameAndType other)` */
    predicate Equals(other: OwnerTypeAndPropertyNameAndType) {
      ownerType == other.ownerType && propertyName == other.propertyName
    }

    /** `Equals(object? obj)`: only a boxed key can be equal. */
    predicate EqualsObject(obj: Obj<OwnerTypeAndPropertyNameAndType>) {
      obj.Boxed? && Equals(obj.value)
    }

    /** `GetHashCode()`: HashCode.Combine over owner type and name. The
        combining function is seeded per process, so it is a parameter. */
    function GetHashCode(combine: (TypeId, string) -> int): int {
      combine(ownerType, propertyName)
    }
  }

  /** The constructor: it rejects a null owner type, name or property type,
      in that order, naming the parameter. */
  function New(ownerType: Option<TypeId>, propertyName: Option<string>, propertyType: Option<TypeId>)
    : (r: Result<OwnerTypeAndPropertyNameAndType>)
    ensures r.Success? <==> ownerType.Some? && propertyName.Some? && propertyType.Some?
    ensures r.Success? ==>
      r.value.ownerType == ownerType.value && r.value.propertyName == propertyName.value
      && r.value.propertyType == propertyType.value
    ensures ownerType.None? ==> r == Failure(ArgumentNull(Some("ownerType")))
    ensures ownerType.Some? && propertyName.None? ==> r == Failure(ArgumentNull(Some("propertyName")))
    ensures ownerType.Some? && propertyName.Some? && propertyType.None? ==>
      r == Failure(ArgumentNull(Some("propertyType")))
  {
    if ownerType.None? then Failure(ArgumentNull(Some("ownerType")))
    else if propertyName.None? then Failure(ArgumentNull(Some("propertyName")))
    else if propertyType.None? then Failure(ArgumentNull(Some("propertyType")))
    else Success(OwnerTypeAndPropertyNameAndType(ownerType.value, propertyName.value, propertyType.value))
  }

  /** `operator ==` */
  predicate EqualityOperator(left: OwnerTypeAndPropertyNameAndType, right: OwnerTypeAndPropertyNameAndType) {
    left.Equals(right)
  }

  /** `operator !=` */
  predicate InequalityOperator(left: OwnerTypeAndPropertyNameAndType, right: OwnerTypeAndPropertyNameAndType) {
    !EqualityOperator(left, right)
  }

  /** Equality is decided by owner type and name alone, so two keys that
      differ only in property type are equal; a dictionary keyed by these
      values behaves as one keyed by Identity(). */
  lemma EqualsIsIdentity(a: OwnerTypeAndPropertyNameAndType, b: OwnerTypeAndPropertyNameAndType, t: TypeId)
    ensures a.Equals(b) <==> a.Identity() == b.Identity()
    ensures a.Equals(a.(propertyType := t))
  {
  }

  /** Equals is an equivalence relation. */
  lemma EqualsIsEquivalence(a: OwnerTypeAndPropertyNameAndType, b: OwnerTypeAndPropertyNameAndType,
                            c: OwnerTypeAndPropertyNameAndType)
    ensures a.Equals(a)
    ensures a.Equals(b) ==> b.Equals(a)
    ensures a.Equals(b) && b.Equals(c) ==> a.Equals(c)
  {
  }

  /** Equals(object) agrees with Equals on a boxed key and is false for null
      and for any other runtime type. */
  lemma EqualsObjectOnlyForKeys(a: OwnerTypeAndPropertyNameAndType, obj: Obj<OwnerTypeAndPropertyNameAndType>)
    ensures !obj.Boxed? ==> !a.EqualsObject(obj)
    ensures obj.Boxed? ==> (a.EqualsObject(obj) <==> a.Equals(obj.value))
  {
  }

  /** The operators agree with Equals: == is Equals, != is its negation. */
  lemma OperatorsAgreeWithEquals(a: OwnerTypeAndPropertyNameAndType, b: OwnerTypeAndPropertyNameAndType)
    ensures EqualityOperator(a, b) <==> a.Equals(b)
    ensures InequalityOperator(a, b) <==> !a.Equals(b)
  {
  }

  /** Equal keys have equal hash codes, whatever the process's seed. */
  lemma EqualKeysHashEqually(a: OwnerTypeAndPropertyNameAndType, b: OwnerTypeAndPropertyNameAndType,
                             combine: (TypeId, string) -> int)
    requires a.Equals(b)
    ensures a.GetHashCode(combine) == b.GetHashCode(combine)
  {
  }
}
