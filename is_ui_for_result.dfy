/** IsUIForResult.cs: the answer a component's static IsUIFor gives about one
    property — whether it can render it, and how strongly. */
module IsUIForResults {
  import opened Common

  /** The struct's two readonly fields. */
  datatype IsUIForFields = IsUIForFields(supported: bool, priority: Int32)

  /** The values a caller can obtain. The struct's constructor is private, so
      every value comes from False or from True(p): an unsupported result
      always carries priority 0. */
  type IsUIForResult = r: IsUIForFields | r.supported || r.priority == 0
    witness IsUIForFields(false, 0)

  /** `IsUIForResult.False` */
  const False: IsUIForResult := IsUIForFields(false, 0)

  /** `IsUIForResult.True(priority)`: supported, with the priority kept exactly
      as given (negative values and int.MinValue included). */
  function True(priority: Int32): (r: IsUIForResult)
    ensures r.supported && r.priority == priority
    ensures r != False
  {
    IsUIForFields(true, priority)
  }

  /** False is the unsupported result with priority 0. */
  lemma FalseIsUnsupported()
    ensures !False.supported && False.priority == 0
  {
  }

  /** Only the two factories make values: each result is False or True of its
      own priority, so "unsupported" fixes the priority to 0. */
  lemma EveryResultIsFalseOrTrue(r: IsUIForResult)
    ensures r.supported ==> r == True(r.priority)
    ensures !r.supported ==> r == False && r.priority == 0
  {
  }

  /** True is injective: two True results are equal exactly when their
      priorities are. */
  lemma TrueIsInjective(p: Int32, q: Int32)
    ensures True(p) == True(q) <==> p == q
  {
  }
}
