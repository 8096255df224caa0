/**
  The exceptions that the modelled code creates, as values. Each constructor
  stands for one `new Exception(...)` (or `IllegalArgumentException`,
  `NullPointerException`, `RuntimeException`, `AssertionError`) of the source,
  and `Message` renders the exact text the source puts into it.
 */
module Failures {

  datatype Failure =
    /** `TestClass` constructor: more than one public constructor. */
    | MultipleConstructors
    /** `FrameworkMethod` constructor: the underlying method is null. */
    | NullMethod
    /** `validatePublicVoid`: the method's static-ness differs from the expected one. */
    | StaticMismatch(methodName: string, shouldBeStatic: bool)
    | NotPublic(methodName: string)
    | NotVoid(methodName: string)
    /** `validatePublicVoidNoArg`: the method takes parameters. */
    | HasParameters(methodName: string)
    /** `SinglePublicConstructorValidator` and `OnlyOneConstructor`. */
    | NotExactlyOnePublicConstructor
    /** `TestClass.getOnlyConstructor`: `assertEquals(1, constructors.length)` failed. */
    | ConstructorCountAssertion(actual: nat)
    /** `FieldsValidator`: the four kinds of `@Parameter` problems. */
    | WrongParameterCount(fieldCount: nat, parameterCount: nat)
    | InvalidParameterIndex(invalidIndex: int, fieldCount: nat)
    | ParameterNeverUsed(index: nat)
    | ParameterUsedMoreThanOnce(index: nat, uses: nat)
    /** `getAnnotatedMethodValues`: a method threw; wraps the cause with the method's name. */
    | InvocationFailed(member: string, cause: string)
  {
    function Message(): string
    {
      match this
      case MultipleConstructors => "Test class can only have one constructor"
      case NullMethod => "FrameworkMethod cannot be created without an underlying method."
      case StaticMismatch(m, s) =>
        "Method " + m + "() " + (if s then "should" else "should not") + " be static"
      case NotPublic(m) => "Method " + m + "() should be public"
      case NotVoid(m) => "Method " + m + "() should be void"
      case HasParameters(m) => "Method " + m + " should have no parameters"
      case NotExactlyOnePublicConstructor => "Test class should have exactly one public constructor"
      case ConstructorCountAssertion(n) => "expected:<1> but was:<" + NatToString(n) + ">"
      case WrongParameterCount(f, p) =>
        "Wrong number of parameters and @Parameter fields. @Parameter fields counted: "
        + NatToString(f) + ", available parameters: " + NatToString(p) + "."
      case InvalidParameterIndex(i, f) =>
        "Invalid @Parameter value: " + IntToString(i) + ". @Parameter fields counted: "
        + NatToString(f) + ". Please use an index between 0 and " + IntToString(f - 1) + "."
      case ParameterNeverUsed(i) => "@Parameter(" + NatToString(i) + ") is never used."
      case ParameterUsedMoreThanOnce(i, n) =>
        "@Parameter(" + NatToString(i) + ") is used more than once (" + NatToString(n) + ")."
      case InvocationFailed(m, _) => "Exception in " + m
    }
  }

  /** Decimal rendering of integers, as Java's string concatenation does it. */
  function NatToString(n: nat): string
    decreases n
  {
    if n < 10 then ["0123456789"[n]] else NatToString(n / 10) + ["0123456789"[n % 10]]
  }

  function IntToString(i: int): string
  {
    if i < 0 then "-" + NatToString(-i) else NatToString(i)
  }

  /** A caller-owned `List<Throwable> errors` that validators append to. */
  class ErrorList {
    var items: seq<Failure>

    constructor ()
      ensures items == []
    {
      items := [];
    }

    method Add(f: Failure)
      modifies this
      ensures items == old(items) + [f]
    {
      items := items + [f];
    }

    /** Appends each of `fs` in turn. */
    method AddAll(fs: seq<Failure>)
      modifies this
      ensures items == old(items) + fs
    {
      var i := 0;
      while i < |fs|
        invariant 0 <= i <= |fs|
        invariant items == old(items) + fs[..i]
      {
        Add(fs[i]);
        assert fs[..i + 1] == fs[..i] + [fs[i]];
        i := i + 1;
      }
      assert fs[..i] == fs;
    }
  }
}
