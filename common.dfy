/** Shared vocabulary of the model: nullable references, exceptions, the
    runtime's 32-bit integers and the reflection identities the catalogue
    works with. */
module Common {

  /** A nullable reference: None stands for C#'s null. */
  datatype Option<+T> = None | Some(value: T) {
    /** `x ?? fallback` */
    function GetOr(fallback: T): T {
      if Some? then value else fallback
    }
  }

  /** The exceptions the modelled code throws. Message texts are not modelled;
      the data a message is built from is. */
  datatype Error =
    | ArgumentNull(paramName: Option<string>)                         // ArgumentNullException
    | AlreadyScanned(assembly: AssemblyId)                            // Scan of a scanned assembly
    | MultipleUIForImplementations(componentType: TypeId, count: nat) // more than one IUIFor<>
    | NoMatchingElement                                               // Enumerable.First found nothing
    | NoUIForRegistered(ownerType: TypeId, propertyName: string)      // CreatePrivateState found no match
    | CannotSetTwoInputs                                              // one-way and two-way, or neither
    | CannotSetTwoWayParametersIndependently                          // some but not all two-way parameters
    | NullReference                                                   // dereference of a null expression
    | NotAFieldAccess                                                 // FieldIdentifier.Create rejected the expression

  /** A computation that returns a value or throws. */
  datatype Result<+R> = Success(value: R) | Failure(error: Error)

  /** A computation that returns nothing or throws. */
  datatype Outcome = Pass | Fail(error: Error)

  /** C#'s `int`. */
  type Int32 = x: int | -0x8000_0000 <= x < 0x8000_0000

  /** `int.MinValue` */
  const IntMinValue: Int32 := -0x8000_0000

  /** A `System.Type`, compared by identity. */
  datatype TypeId = TypeId(id: nat)

  /** A `System.Reflection.Assembly`, compared by identity. */
  datatype AssemblyId = AssemblyId(id: nat)

  /** A `System.Reflection.PropertyInfo`: the type it was obtained from
      (`ReflectedType`), the declaring type, the name and the declared type
      of the property. Reflection hands out one object per reflected type and
      property, so two values are equal exactly when all four fields are: the
      same property looked up on a base type and on a derived type gives two
      different values. */
  datatype PropertyInfo = PropertyInfo(reflectedType: TypeId, declaringType: TypeId, name: string, propertyType: TypeId)

  /** An `object?` as seen by an `Equals(object?)` override on T: null, a boxed
      T, or an instance of some other runtime type. */
  datatype Obj<T> = Null | Boxed(value: T) | OtherType(runtimeType: TypeId)
}
