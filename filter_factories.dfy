/**
  `FilterFactories`: a filter specification `"fqcn=args"` (or `"fqcn"`) is
  split at its first `=`, the named class is looked up, checked to be a
  `FilterFactory`, instantiated, and asked for a filter. Class lookup,
  instantiation and the factory's own `createFilter` are reflective and are
  given as functions; every lookup or instantiation failure is wrapped in a
  `FilterNotCreatedException`.
 */
module FilterFactories {
  import opened Wrappers

  /** The exceptions that cross this code. */
  datatype JavaException =
    | ClassNotFoundException(className: string)
    /** `asSubclass(FilterFactory.class)` on a class that is not a filter factory. */
    | ClassCastException(className: string)
    /** Anything `ObjectFactory.createObjectWithClass` or the factory itself throws. */
    | ReflectiveException(description: string)
    | FilterNotCreatedException(cause: JavaException)

  /** The pair `createFilterFromFilterSpec` builds: the factory name and the argument string. */
  datatype FilterSpec = FilterSpec(factoryName: string, args: string)

  function IndexOfEquals(s: string): (r: Option<nat>)
    ensures r.None? <==> '=' !in s
    ensures r.Some? ==> r.value < |s| && s[r.value] == '=' && '=' !in s[..r.value]
  {
    if s == [] then None
    else if s[0] == '=' then Some(0)
    else
      match IndexOfEquals(s[1..])
      case None => None
      case Some(i) =>
        assert s[..i + 1] == [s[0]] + s[1..][..i];
        Some(i + 1)
  }

  /** The split of `createFilterFromFilterSpec`: at the first `=` (`split("=", 2)`), or
      the whole specification with an empty argument string when it has no `=`. */
  function SplitSpec(spec: string): (r: FilterSpec)
    ensures '=' !in spec ==> r == FilterSpec(spec, "")
    ensures '=' in spec ==> '=' !in r.factoryName && r.factoryName + "=" + r.args == spec
  {
    match IndexOfEquals(spec)
    case None => FilterSpec(spec, "")
    case Some(i) =>
      assert spec == spec[..i] + "=" + spec[i + 1..];
      FilterSpec(spec[..i], spec[i + 1..])
  }

  /** The inverse direction: joining a name without `=` to any arguments splits back to them. */
  lemma SplitJoined(name: string, args: string)
    requires '=' !in name
    ensures SplitSpec(name + "=" + args) == FilterSpec(name, args)
  {
    var spec := name + "=" + args;
    assert spec[|name|] == '=';
    var r := SplitSpec(spec);
    LeadingNoEqualsEqual(r.factoryName, r.args, name, args);
  }

  /** The first `=` of `a + "=" + b` is the one after `a` when `a` has none. */
  lemma FirstEqualsAt(a: string, b: string)
    requires '=' !in a
    ensures IndexOfEquals(a + "=" + b) == Some(|a|)
  {
    var s := a + "=" + b;
    assert s[|a|] == '=';
    var i := IndexOfEquals(s).value;
    assert forall j :: 0 <= j < |a| ==> s[j] == a[j];
    assert |a| <= i;
  }

  /** Two ways of writing a string as `x + "=" + y` with no `=` in `x` are the same. */
  lemma LeadingNoEqualsEqual(a: string, b: string, x: string, y: string)
    requires '=' !in a && '=' !in x
    requires a + "=" + b == x + "=" + y
    ensures a == x && b == y
  {
    var s := a + "=" + b;
    FirstEqualsAt(a, b);
    FirstEqualsAt(x, y);
    assert a == s[..|a|] && x == s[..|x|];
    assert b == s[|a| + 1..] && y == s[|x| + 1..];
  }

  /** `createFilterFactory(Class)`: instantiation through the object factory; a failure is wrapped. */
  function CreateFilterFactoryFromClass<C, F>(factoryClass: C, construct: C -> Result<F, JavaException>)
    : (r: Result<F, JavaException>)
    ensures r.Ok? <==> construct(factoryClass).Ok?
    ensures r.Ok? ==> r.value == construct(factoryClass).value
    ensures r.Err? ==> r.error == FilterNotCreatedException(construct(factoryClass).error)
  {
    match construct(factoryClass)
    case Ok(factory) => Ok(factory)
    case Err(e) => Err(FilterNotCreatedException(e))
  }

  /** `createFilterFactory(String)`: lookup, the subtype check, then
      instantiation. The factory exists exactly when all three succeed;
      otherwise the error is a `FilterNotCreatedException` around the first
      failing step's exception, never that exception itself. */
  function CreateFilterFactory<C, F>(name: string, getClass: string -> Result<C, JavaException>,
                                     isFilterFactory: C -> bool, construct: C -> Result<F, JavaException>)
    : (r: Result<F, JavaException>)
    ensures r.Ok? <==> getClass(name).Ok? && isFilterFactory(getClass(name).value)
                       && construct(getClass(name).value).Ok?
    ensures r.Err? ==> r.error.FilterNotCreatedException?
    ensures getClass(name).Err? ==> r == Err(FilterNotCreatedException(getClass(name).error))
    ensures getClass(name).Ok? && !isFilterFactory(getClass(name).value) ==>
      r == Err(FilterNotCreatedException(ClassCastException(name)))
    ensures getClass(name).Ok? && isFilterFactory(getClass(name).value) ==>
      r == CreateFilterFactoryFromClass(getClass(name).value, construct)
  {
    match getClass(name)
    case Err(e) => Err(FilterNotCreatedException(e))
    case Ok(c) =>
      if !isFilterFactory(c) then Err(FilterNotCreatedException(ClassCastException(name)))
      else CreateFilterFactoryFromClass(c, construct)
  }

  /** `createFilter(String, FilterFactoryParams)`: the factory's `createFilter`
      runs on the arguments, and only through a factory that was built. */
  function CreateFilter<C, F, R>(name: string, args: string, getClass: string -> Result<C, JavaException>,
                                 isFilterFactory: C -> bool, construct: C -> Result<F, JavaException>,
                                 createWith: (F, string) -> Result<R, JavaException>)
    : (r: Result<R, JavaException>)
    ensures var factory := CreateFilterFactory(name, getClass, isFilterFactory, construct);
      && (factory.Ok? ==> r == createWith(factory.value, args))
      && (factory.Err? ==> r.Err? && r.error.FilterNotCreatedException?)
    ensures r.Ok? ==> && getClass(name).Ok? && isFilterFactory(getClass(name).value)
                      && construct(getClass(name).value).Ok?
                      && r == createWith(construct(getClass(name).value).value, args)
  {
    match CreateFilterFactory(name, getClass, isFilterFactory, construct)
    case Err(e) => Err(e)
    case Ok(factory) => createWith(factory, args)
  }

  /** `createFilterFromFilterSpec`: split, then `createFilter`. */
  function CreateFilterFromFilterSpec<C, F, R>(spec: string, getClass: string -> Result<C, JavaException>,
                                               isFilterFactory: C -> bool, construct: C -> Result<F, JavaException>,
                                               createWith: (F, string) -> Result<R, JavaException>)
    : (r: Result<R, JavaException>)
    ensures '=' !in spec ==> r == CreateFilter(spec, "", getClass, isFilterFactory, construct, createWith)
    ensures forall name, args :: '=' !in name && spec == name + "=" + args ==>
      r == CreateFilter(name, args, getClass, isFilterFactory, construct, createWith)
  {
    var split := SplitSpec(spec);
    forall name, args | '=' !in name && spec == name + "=" + args
      ensures split == FilterSpec(name, args)
    {
      SplitJoined(name, args);
    }
    CreateFilter(split.factoryName, split.args, getClass, isFilterFactory, construct, createWith)
  }
}
