/**
  The two constructor-count rules: `SinglePublicConstructorValidator`, which
  returns its findings, and `OnlyOneConstructor`, which appends to the
  caller's error list. Both look only at the public constructors
  (`getConstructors()`).
 */
module ConstructorValidators {
  import opened Wrappers
  import opened Hierarchy
  import opened Failures
  import opened TestClasses

  /** `SinglePublicConstructorValidator.validateTestClass` on the class's record. */
  function SinglePublicConstructorProblems(c: ClassDecl): (r: seq<Failure>)
    ensures r == [] <==> PublicConstructorCount(c) != 0
    ensures r != [] ==> r == [NotExactlyOnePublicConstructor]
  {
    if PublicConstructorCount(c) == 0 then [NotExactlyOnePublicConstructor] else []
  }

  /** The same rule applied to a `TestClass`; a null class is refused, as
      `getJavaClass().getConstructors()` would fail on it. */
  method ValidateSinglePublicConstructor(testClass: TestClass) returns (errors: seq<Failure>)
    requires testClass.javaClass.Some? && testClass.javaClass.value < |testClass.h|
    ensures errors == SinglePublicConstructorProblems(testClass.h[testClass.javaClass.value])
  {
    if PublicConstructorCount(testClass.h[testClass.javaClass.value]) == 0 {
      return [NotExactlyOnePublicConstructor];
    }
    return [];
  }

  lemma {:induction false} PublicConstructorsAppend(cs: seq<ConstructorDecl>, k: ConstructorDecl)
    ensures PublicConstructors(cs + [k]) == PublicConstructors(cs) + (if k.isPublic then [k] else [])
  {
    assert (cs + [k])[..|cs|] == cs;
  }

  /** A non-public constructor is not counted: adding one changes no finding. */
  lemma PrivateConstructorIgnored(c: ClassDecl, k: ConstructorDecl)
    requires !k.isPublic
    ensures SinglePublicConstructorProblems(c.(constructors := c.constructors + [k]))
         == SinglePublicConstructorProblems(c)
  {
    PublicConstructorsAppend(c.constructors, k);
  }

  /** Building the test class (which refuses more than one public constructor)
      and then running the validator: the errors are empty exactly when the
      class has one public constructor. */
  method CreateAndValidate(h: Classes, klass: ClassId) returns (errors: seq<Failure>)
    requires WellFormed(h) && klass < |h|
    ensures errors == [] <==> PublicConstructorCount(h[klass]) == 1
    ensures errors != [] ==> |errors| == 1
  {
    var created := TestClass.Create(h, Some(klass));
    if created.Err? {
      return [created.error];
    }
    errors := ValidateSinglePublicConstructor(created.value);
  }

  /** `OnlyOneConstructor.validateTestClass`: appends one error iff the class
      does not have exactly one public constructor. */
  method ValidateOnlyOneConstructor(testClass: TestClass, errors: ErrorList)
    requires testClass.javaClass.Some? && testClass.javaClass.value < |testClass.h|
    modifies errors
    ensures errors.items == old(errors.items) + OnlyOneConstructorProblems(testClass.h[testClass.javaClass.value])
  {
    if PublicConstructorCount(testClass.h[testClass.javaClass.value]) != 1 {
      errors.Add(NotExactlyOnePublicConstructor);
    }
  }

  /** What `OnlyOneConstructor` appends. */
  function OnlyOneConstructorProblems(c: ClassDecl): (r: seq<Failure>)
    ensures |r| <= 1
    ensures r == [] <==> PublicConstructorCount(c) == 1
    ensures forall i :: 0 <= i < |r| ==>
      r[i].Message() == "Test class should have exactly one public constructor"
  {
    if PublicConstructorCount(c) != 1 then [NotExactlyOnePublicConstructor] else []
  }
}
