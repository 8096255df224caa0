/**
  `TestClass`: wraps a class to be run. Construction walks the class and its
  superclasses, offering every declared method (in the order the runtime
  reports them) and every declared field (in name order) to two member
  registries; the queries then read the registries.
 */
module TestClasses {
  import opened Wrappers
  import opened Hierarchy
  import opened Failures
  import opened FrameworkMethods
  import opened MemberRegistry

  /** A `FrameworkField`: a declared field and the class declaring it. */
  datatype FrameworkField = FrameworkField(declaringClass: ClassId, decl: FieldDecl)
  {
    function Name(): string { decl.name }
  }

  /** `FrameworkField.getAnnotations`: the field's own annotations. */
  function FieldAnnotations(f: FrameworkField): seq<Annotation>
  {
    f.decl.annotations
  }

  /** `FrameworkField.isShadowedBy`: a field is shadowed by a field of the same name. */
  predicate FieldShadowedBy(f: FrameworkField, other: FrameworkField)
  {
    other.decl.name == f.decl.name
  }

  function MethodAnnotations(m: FrameworkMethod): seq<Annotation>
  {
    m.annotations
  }

  /** Field shadowing is reflexive, symmetric and transitive. */
  lemma FieldShadowingIsEquivalence()
    ensures IsEquivalence(FieldShadowedBy)
  {
  }

  /** Method shadowing is reflexive, symmetric and transitive. */
  lemma MethodShadowingIsEquivalence()
    ensures IsEquivalence(MethodShadowedBy)
  {
  }

  // ---------------------------------------------------------------------------
  // Field order
  // ---------------------------------------------------------------------------

  /** `a.compareTo(b) <= 0`: lexicographic order on characters, a prefix first. */
  predicate NameBefore(a: string, b: string)
  {
    if a == [] then true
    else if b == [] then false
    else if a[0] != b[0] then a[0] < b[0]
    else NameBefore(a[1..], b[1..])
  }

  lemma {:induction false} NameBeforeTotal(a: string, b: string)
    ensures NameBefore(a, b) || NameBefore(b, a)
  {
    if a != [] && b != [] && a[0] == b[0] {
      NameBeforeTotal(a[1..], b[1..]);
    }
  }

  lemma {:induction false} NameBeforeTransitive(a: string, b: string, c: string)
    requires NameBefore(a, b) && NameBefore(b, c)
    ensures NameBefore(a, c)
  {
    if a != [] && b != [] && c != [] && a[0] == b[0] && b[0] == c[0] {
      NameBeforeTransitive(a[1..], b[1..], c[1..]);
    }
  }

  predicate SortedByName(fields: seq<FieldDecl>)
  {
    forall i, j :: 0 <= i < j < |fields| ==> NameBefore(fields[i].name, fields[j].name)
  }

  function InsertByName(f: FieldDecl, sorted: seq<FieldDecl>): (r: seq<FieldDecl>)
    requires SortedByName(sorted)
    ensures SortedByName(r)
    ensures multiset(r) == multiset(sorted) + multiset{f}
    ensures forall j :: 0 <= j < |r| ==> r[j] == f || r[j] in sorted
  {
    if sorted == [] then [f]
    else if NameBefore(f.name, sorted[0].name) then
      BeforeAllOfSorted(f, sorted);
      [f] + sorted
    else
      var rest := InsertByName(f, sorted[1..]);
      NameBeforeTotal(f.name, sorted[0].name);
      assert sorted == [sorted[0]] + sorted[1..];
      HeadBeforeInserted(f, sorted, rest);
      [sorted[0]] + rest
  }

  /** A field named no later than the first of a sorted sequence precedes all of it. */
  lemma BeforeAllOfSorted(f: FieldDecl, sorted: seq<FieldDecl>)
    requires SortedByName(sorted) && sorted != [] && NameBefore(f.name, sorted[0].name)
    ensures SortedByName([f] + sorted)
  {
    forall j | 0 < j < |sorted| ensures NameBefore(f.name, sorted[j].name) {
      NameBeforeTransitive(f.name, sorted[0].name, sorted[j].name);
    }
  }

  /** The head of a sorted sequence precedes the tail with `f` inserted, when it precedes `f`. */
  lemma HeadBeforeInserted(f: FieldDecl, sorted: seq<FieldDecl>, rest: seq<FieldDecl>)
    requires SortedByName(sorted) && sorted != [] && NameBefore(sorted[0].name, f.name)
    requires SortedByName(rest) && forall j :: 0 <= j < |rest| ==> rest[j] == f || rest[j] in sorted[1..]
    ensures SortedByName([sorted[0]] + rest)
  {
    forall j | 0 <= j < |rest| ensures NameBefore(sorted[0].name, rest[j].name) {
      if rest[j] != f {
        var k :| 0 <= k < |sorted[1..]| && sorted[1..][k] == rest[j];
        assert sorted[k + 1] == rest[j];
      }
    }
    var r := [sorted[0]] + rest;
    forall i, j | 0 <= i < j < |r| ensures NameBefore(r[i].name, r[j].name) {
      if i > 0 {
        assert r[i] == rest[i - 1] && r[j] == rest[j - 1];
      }
    }
  }

  function SortByName(fields: seq<FieldDecl>): (r: seq<FieldDecl>)
    ensures SortedByName(r)
    ensures multiset(r) == multiset(fields)
  {
    if fields == [] then []
    else
      assert fields == fields[..|fields| - 1] + [fields[|fields| - 1]];
      InsertByName(fields[|fields| - 1], SortByName(fields[..|fields| - 1]))
  }

  /** `getSortedDeclaredFields`: the declared fields, sorted by name. */
  function SortedDeclaredFields(c: ClassDecl): (r: seq<FieldDecl>)
    ensures SortedByName(r)
    ensures multiset(r) == multiset(c.fields)
  {
    SortByName(c.fields)
  }

  // ---------------------------------------------------------------------------
  // What the walk offers to the registries
  // ---------------------------------------------------------------------------

  /** The `FrameworkMethod`s of the first `n` methods class `k` declares, in declared order. */
  function FrameworkMethodsOf(h: Classes, k: ClassId, n: nat): (r: seq<FrameworkMethod>)
    requires WellFormed(h) && k < |h| && n <= |h[k].methods|
    ensures |r| == n
    ensures forall p :: 0 <= p < n ==> r[p] == FrameworkMethodOf(h, JavaMethod(k, h[k].methods[p]))
  {
    if n == 0 then []
    else
      var rest := FrameworkMethodsOf(h, k, n - 1);
      var last := FrameworkMethodOf(h, JavaMethod(k, h[k].methods[n - 1]));
      assert forall p :: 0 <= p < n - 1 ==> (rest + [last])[p] == rest[p];
      rest + [last]
  }

  function DeclaredFrameworkMethods(h: Classes, k: ClassId): seq<FrameworkMethod>
    requires WellFormed(h) && k < |h|
  {
    FrameworkMethodsOf(h, k, |h[k].methods|)
  }

  /** The `FrameworkField`s of the first `n` fields of `fs`, declared by class `k`. */
  function FrameworkFieldsOf(k: ClassId, fs: seq<FieldDecl>, n: nat): (r: seq<FrameworkField>)
    requires n <= |fs|
    ensures |r| == n
    ensures forall p :: 0 <= p < n ==> r[p] == FrameworkField(k, fs[p])
  {
    if n == 0 then [] else FrameworkFieldsOf(k, fs, n - 1) + [FrameworkField(k, fs[n - 1])]
  }

  /** The fields class `k` declares, in name order. */
  function DeclaredFrameworkFields(h: Classes, k: ClassId): seq<FrameworkField>
    requires k < |h|
  {
    var sorted := SortedDeclaredFields(h[k]);
    FrameworkFieldsOf(k, sorted, |sorted|)
  }

  /** Every method offered to the method registry while walking the first `n` classes of `cs`. */
  function MethodStream(h: Classes, cs: seq<ClassId>, n: nat): seq<FrameworkMethod>
    requires WellFormed(h) && InHierarchy(h, cs) && n <= |cs|
  {
    if n == 0 then [] else MethodStream(h, cs, n - 1) + DeclaredFrameworkMethods(h, cs[n - 1])
  }

  /** Every field offered to the field registry while walking the first `n` classes of `cs`. */
  function FieldStream(h: Classes, cs: seq<ClassId>, n: nat): seq<FrameworkField>
    requires InHierarchy(h, cs) && n <= |cs|
  {
    if n == 0 then [] else FieldStream(h, cs, n - 1) + DeclaredFrameworkFields(h, cs[n - 1])
  }

  /** `getSuperClasses`: the class, its superclass, and so on up to the root. */
  method GetSuperClasses(h: Classes, testClass: Option<ClassId>) returns (results: seq<ClassId>)
    requires WellFormed(h) && ValidRef(h, testClass)
    ensures results == Chain(h, testClass)
  {
    results := [];
    var current := testClass;
    while current.Some?
      invariant ValidRef(h, current)
      invariant results + Chain(h, current) == Chain(h, testClass)
      decreases if current.None? then 0 else |h| - current.value
    {
      assert Chain(h, current) == [current.value] + Chain(h, h[current.value].superclass);
      assert (results + [current.value]) + Chain(h, h[current.value].superclass) == Chain(h, testClass);
      results := results + [current.value];
      current := h[current.value].superclass;
    }
  }

  // ---------------------------------------------------------------------------
  // Value collection
  // ---------------------------------------------------------------------------

  /** The positions of `s` whose element satisfies `keep`, in ascending order:
      the witness that a filtered sequence keeps origin and order. */
  function Positions<X>(s: seq<X>, keep: X -> bool): (r: seq<nat>)
    ensures forall i :: 0 <= i < |r| ==> r[i] < |s| && keep(s[r[i]])
    ensures forall i, j :: 0 <= i < j < |r| ==> r[i] < r[j]
    ensures forall p :: 0 <= p < |s| && keep(s[p]) ==> p in r
  {
    if s == [] then []
    else
      var init := s[..|s| - 1];
      assert forall i :: 0 <= i < |init| ==> init[i] == s[i];
      var rest := Positions(init, keep);
      if keep(s[|s| - 1]) then rest + [|s| - 1] else rest
  }

  /** The values that pass `isInstance`: exactly the value of each member whose
      value is an instance, in member order. */
  function InstanceValues<M, V>(members: seq<M>, get: M -> V, isInstance: V -> bool): (r: seq<V>)
    ensures var ps := Positions(members, m => isInstance(get(m)));
      && |r| == |ps|
      && forall i :: 0 <= i < |r| ==> r[i] == get(members[ps[i]])
  {
    if members == [] then []
    else
      var init := members[..|members| - 1];
      var rest := InstanceValues(init, get, isInstance);
      var v := get(members[|members| - 1]);
      assert forall i :: 0 <= i < |init| ==> members[i] == init[i];
      if isInstance(v) then rest + [v] else rest
  }

  /** The outcome of `invokeExplosively` on one method. */
  datatype Invocation<V> = Returned(value: V) | Threw(cause: string)

  /** `ms[i]` is the first method that throws. */
  predicate ThrowsFirst<V>(ms: seq<FrameworkMethod>, invoke: FrameworkMethod -> Invocation<V>, i: int)
  {
    0 <= i < |ms| && invoke(ms[i]).Threw? && forall j :: 0 <= j < i ==> invoke(ms[j]).Returned?
  }

  /** The collected method values, or the first failure wrapped with the method's name. */
  function MethodValues<V>(ms: seq<FrameworkMethod>, invoke: FrameworkMethod -> Invocation<V>,
                          isInstance: V -> bool): (r: Result<seq<V>, Failure>)
    ensures r.Ok? <==> forall i :: 0 <= i < |ms| ==> invoke(ms[i]).Returned?
    ensures r.Ok? ==> forall i :: 0 <= i < |r.value| ==> isInstance(r.value[i])
    ensures r.Err? ==> exists i :: (ThrowsFirst(ms, invoke, i)
      && r.error == InvocationFailed(ms[i].Name(), invoke(ms[i]).cause))
  {
    if ms == [] then Ok([])
    else
      var init := ms[..|ms| - 1];
      var last := ms[|ms| - 1];
      assert forall i :: 0 <= i < |init| ==> ms[i] == init[i];
      match MethodValues(init, invoke, isInstance)
      case Err(e) =>
        assert exists i :: ThrowsFirst(ms, invoke, i) && e == InvocationFailed(ms[i].Name(), invoke(ms[i]).cause) by {
          var i :| ThrowsFirst(init, invoke, i) && e == InvocationFailed(init[i].Name(), invoke(init[i]).cause);
          assert ThrowsFirst(ms, invoke, i);
        }
        Err(e)
      case Ok(values) =>
        match invoke(last)
        case Threw(cause) =>
          assert ThrowsFirst(ms, invoke, |ms| - 1);
          Err(InvocationFailed(last.Name(), cause))
        case Returned(v) => Ok(if isInstance(v) then values + [v] else values)
  }

  /** When every method returns, the result holds exactly the returned values
      that are instances, each from its method, in method order. */
  lemma {:induction false} MethodValuesSelect<V>(ms: seq<FrameworkMethod>, invoke: FrameworkMethod -> Invocation<V>,
                                                isInstance: V -> bool)
    requires forall i :: 0 <= i < |ms| ==> invoke(ms[i]).Returned?
    ensures var r := MethodValues(ms, invoke, isInstance);
      var ps := Positions(ms, m => invoke(m).Returned? && isInstance(invoke(m).value));
      && r.Ok?
      && |r.value| == |ps|
      && forall i :: 0 <= i < |r.value| ==> r.value[i] == invoke(ms[ps[i]]).value
  {
    if ms != [] {
      var init := ms[..|ms| - 1];
      assert forall i :: 0 <= i < |init| ==> ms[i] == init[i];
      MethodValuesSelect(init, invoke, isInstance);
    }
  }

  lemma {:induction false} MethodValuesErrStays<V>(ms: seq<FrameworkMethod>, invoke: FrameworkMethod -> Invocation<V>,
                                                 isInstance: V -> bool, k: nat)
    requires k <= |ms| && MethodValues(ms[..k], invoke, isInstance).Err?
    ensures MethodValues(ms, invoke, isInstance) == MethodValues(ms[..k], invoke, isInstance)
    decreases |ms| - k
  {
    if k < |ms| {
      var init := ms[..|ms| - 1];
      assert init[..k] == ms[..k];
      MethodValuesErrStays(init, invoke, isInstance, k);
    } else {
      assert ms[..k] == ms;
    }
  }

  // ---------------------------------------------------------------------------
  // The test class
  // ---------------------------------------------------------------------------

  class TestClass {
    const h: Classes
    /** `fClass`; `None` is a null class. */
    const javaClass: Option<ClassId>
    const fields: Members<FrameworkField>
    const methods: Members<FrameworkMethod>

    ghost predicate Valid()
      reads this, fields, methods
    {
      && WellFormed(h) && ValidRef(h, javaClass)
      && fields.Valid() && methods.Valid()
      && fields.annotationsOf == FieldAnnotations && fields.shadowedBy == FieldShadowedBy
      && methods.annotationsOf == MethodAnnotations && methods.shadowedBy == MethodShadowedBy
      && methods.offered == MethodStream(h, Chain(h, javaClass), |Chain(h, javaClass)|)
      && fields.offered == FieldStream(h, Chain(h, javaClass), |Chain(h, javaClass)|)
    }

    /** Everything the walk offered to the method registry. */
    ghost function OfferedMethods(): seq<FrameworkMethod>
      reads this
      requires WellFormed(h) && ValidRef(h, javaClass)
    {
      MethodStream(h, Chain(h, javaClass), |Chain(h, javaClass)|)
    }

    /** Everything the walk offered to the field registry. */
    ghost function OfferedFields(): seq<FrameworkField>
      reads this
      requires WellFormed(h) && ValidRef(h, javaClass)
    {
      FieldStream(h, Chain(h, javaClass), |Chain(h, javaClass)|)
    }

    /** `new TestClass(klass)`: refuses a non-null class with more than one public constructor. */
    static method Create(h: Classes, klass: Option<ClassId>) returns (r: Result<TestClass, Failure>)
      requires WellFormed(h) && ValidRef(h, klass)
      ensures r.Err? <==> klass.Some? && PublicConstructorCount(h[klass.value]) > 1
      ensures r.Err? ==> r.error == MultipleConstructors
      ensures r.Ok? ==> fresh(r.value) && r.value.Valid() && r.value.h == h && r.value.javaClass == klass
    {
      if klass.Some? && PublicConstructorCount(h[klass.value]) > 1 {
        return Err(MultipleConstructors);
      }
      var tc := new TestClass.Scan(h, klass);
      return Ok(tc);
    }

    /** The scan of the constructor: every class of the chain, its methods, then its sorted fields. */
    constructor Scan(h: Classes, klass: Option<ClassId>)
      requires WellFormed(h) && ValidRef(h, klass)
      ensures Valid() && this.h == h && javaClass == klass
    {
      this.h := h;
      javaClass := klass;
      var fieldRegistry := new Members<FrameworkField>(FieldAnnotations, FieldShadowedBy);
      var methodRegistry := new Members<FrameworkMethod>(MethodAnnotations, MethodShadowedBy);
      var classes := GetSuperClasses(h, klass);
      Walk(h, classes, fieldRegistry, methodRegistry);
      fields := fieldRegistry;
      methods := methodRegistry;
    }

    /** `getAnnotatedMethods()`: one method per signature, the most-derived
        annotated declaration, in walk order. */
    function GetAnnotatedMethods(): (r: seq<FrameworkMethod>)
      reads this, fields, methods
      requires Valid()
      ensures r == FirstOfEach(Annotated(OfferedMethods(), MethodAnnotations), MethodShadowedBy)
    {
      MethodShadowingIsEquivalence();
      methods.GetAnnotatedMembers()
    }

    /** `getAnnotatedMethods(annotationClass)`. */
    function GetAnnotatedMethodsWith(t: AnnotationType): (r: seq<FrameworkMethod>)
      reads this, fields, methods
      requires Valid()
      ensures r == InWalkOrder(t, FirstOfEach(Carrying(OfferedMethods(), t, MethodAnnotations), MethodShadowedBy))
    {
      MethodShadowingIsEquivalence();
      methods.GetMembersWithAnnotation(t)
    }

    /** `getAnnotatedFields()`: one field per name, the most-derived annotated one. */
    function GetAnnotatedFields(): (r: seq<FrameworkField>)
      reads this, fields, methods
      requires Valid()
      ensures r == FirstOfEach(Annotated(OfferedFields(), FieldAnnotations), FieldShadowedBy)
    {
      FieldShadowingIsEquivalence();
      fields.GetAnnotatedMembers()
    }

    /** `getAnnotatedFields(annotationClass)`. */
    function GetAnnotatedFieldsWith(t: AnnotationType): (r: seq<FrameworkField>)
      reads this, fields, methods
      requires Valid()
      ensures r == InWalkOrder(t, FirstOfEach(Carrying(OfferedFields(), t, FieldAnnotations), FieldShadowedBy))
    {
      FieldShadowingIsEquivalence();
      fields.GetMembersWithAnnotation(t)
    }

    /** `getName`: "null" for a null class. */
    function GetName(): (r: string)
      reads this
      requires WellFormed(h) && ValidRef(h, javaClass)
      ensures javaClass.None? ==> r == "null"
      ensures javaClass.Some? ==> r == h[javaClass.value].name
    {
      if javaClass.None? then "null" else h[javaClass.value].name
    }

    /** `getAnnotations`: no annotations for a null class. */
    function GetClassAnnotations(): (r: seq<Annotation>)
      reads this
      requires WellFormed(h) && ValidRef(h, javaClass)
      ensures javaClass.None? ==> r == []
      ensures javaClass.Some? ==> r == h[javaClass.value].annotations
    {
      if javaClass.None? then [] else h[javaClass.value].annotations
    }

    /** `getOnlyConstructor`: the single public constructor, or the failed assertion. */
    function GetOnlyConstructor(): (r: Result<ConstructorDecl, Failure>)
      reads this
      requires WellFormed(h) && javaClass.Some? && javaClass.value < |h|
      ensures r.Ok? <==> PublicConstructorCount(h[javaClass.value]) == 1
      ensures r.Ok? ==> r.value.isPublic && r.value in h[javaClass.value].constructors
      ensures r.Err? ==> r.error == ConstructorCountAssertion(PublicConstructorCount(h[javaClass.value]))
    {
      var constructors := PublicConstructors(h[javaClass.value].constructors);
      if |constructors| != 1 then Err(ConstructorCountAssertion(|constructors|))
      else Ok(constructors[0])
    }

    /** `getAnnotatedFieldValues`: the values of the fields annotated with `t`
        that are instances of the requested type, in registry order. */
    method GetAnnotatedFieldValues<V>(t: AnnotationType, get: FrameworkField -> V, isInstance: V -> bool)
      returns (results: seq<V>)
      requires Valid()
      ensures results == InstanceValues(GetAnnotatedFieldsWith(t), get, isInstance)
    {
      results := CollectInstanceValues(GetAnnotatedFieldsWith(t), get, isInstance);
    }

    /** `getAnnotatedMethodValues`: like the field version, but a method that
        throws ends the collection with a failure naming that method. */
    method GetAnnotatedMethodValues<V>(t: AnnotationType, invoke: FrameworkMethod -> Invocation<V>, isInstance: V -> bool)
      returns (r: Result<seq<V>, Failure>)
      requires Valid()
      ensures r == MethodValues(GetAnnotatedMethodsWith(t), invoke, isInstance)
    {
      r := CollectMethodValues(GetAnnotatedMethodsWith(t), invoke, isInstance);
    }
  }

  /** The loop of `getAnnotatedFieldValues` over the annotated fields. */
  method CollectInstanceValues<V>(annotated: seq<FrameworkField>, get: FrameworkField -> V, isInstance: V -> bool)
    returns (results: seq<V>)
    ensures results == InstanceValues(annotated, get, isInstance)
  {
    results := [];
    var i := 0;
    while i < |annotated|
      invariant 0 <= i <= |annotated|
      invariant results == InstanceValues(annotated[..i], get, isInstance)
    {
      assert annotated[..i + 1][..i] == annotated[..i];
      var fieldValue := get(annotated[i]);
      if isInstance(fieldValue) {
        results := results + [fieldValue];
      }
      i := i + 1;
    }
    assert annotated[..i] == annotated;
  }

  /** The loop of `getAnnotatedMethodValues` over the annotated methods. */
  method CollectMethodValues<V>(annotated: seq<FrameworkMethod>, invoke: FrameworkMethod -> Invocation<V>,
                                isInstance: V -> bool)
    returns (r: Result<seq<V>, Failure>)
    ensures r == MethodValues(annotated, invoke, isInstance)
  {
    var results := [];
    var i := 0;
    while i < |annotated|
      invariant 0 <= i <= |annotated|
      invariant MethodValues(annotated[..i], invoke, isInstance) == Ok(results)
    {
      assert annotated[..i + 1][..i] == annotated[..i];
      var outcome := invoke(annotated[i]);
      if outcome.Threw? {
        MethodValuesErrStays(annotated, invoke, isInstance, i + 1);
        return Err(InvocationFailed(annotated[i].Name(), outcome.cause));
      }
      if isInstance(outcome.value) {
        results := results + [outcome.value];
      }
      i := i + 1;
    }
    assert annotated[..i] == annotated;
    return Ok(results);
  }

  /** The loop of the constructor over `getSuperClasses(fClass)`. */
  method Walk(h: Classes, classes: seq<ClassId>, fieldRegistry: Members<FrameworkField>,
              methodRegistry: Members<FrameworkMethod>)
    requires WellFormed(h) && InHierarchy(h, classes)
    requires fieldRegistry.Valid() && methodRegistry.Valid()
    requires fieldRegistry.offered == [] && methodRegistry.offered == []
    modifies fieldRegistry, methodRegistry
    ensures fieldRegistry.Valid() && methodRegistry.Valid()
    ensures methodRegistry.offered == MethodStream(h, classes, |classes|)
    ensures fieldRegistry.offered == FieldStream(h, classes, |classes|)
  {
    var i := 0;
    while i < |classes|
      invariant 0 <= i <= |classes|
      invariant fieldRegistry.Valid() && methodRegistry.Valid()
      invariant methodRegistry.offered == MethodStream(h, classes, i)
      invariant fieldRegistry.offered == FieldStream(h, classes, i)
    {
      OfferDeclaredMembers(h, classes, i, fieldRegistry, methodRegistry);
      i := i + 1;
    }
  }

  /** The body of the constructor's loop for `classes[i]`: its methods, then its fields. */
  method OfferDeclaredMembers(h: Classes, classes: seq<ClassId>, i: nat, fieldRegistry: Members<FrameworkField>,
                              methodRegistry: Members<FrameworkMethod>)
    requires WellFormed(h) && InHierarchy(h, classes) && i < |classes|
    requires fieldRegistry.Valid() && methodRegistry.Valid()
    requires methodRegistry.offered == MethodStream(h, classes, i)
    requires fieldRegistry.offered == FieldStream(h, classes, i)
    modifies fieldRegistry, methodRegistry
    ensures fieldRegistry.Valid() && methodRegistry.Valid()
    ensures methodRegistry.offered == MethodStream(h, classes, i + 1)
    ensures fieldRegistry.offered == FieldStream(h, classes, i + 1)
  {
    var each := classes[i];
    OfferDeclaredMethods(h, each, methodRegistry);
    OfferDeclaredFields(h, each, fieldRegistry);
  }

  /** The inner method loop of the constructor: offers each method `each` declares. */
  method OfferDeclaredMethods(h: Classes, each: ClassId, registry: Members<FrameworkMethod>)
    requires WellFormed(h) && each < |h| && registry.Valid()
    modifies registry
    ensures registry.Valid() && registry.offered == old(registry.offered) + DeclaredFrameworkMethods(h, each)
  {
    var j := 0;
    while j < |h[each].methods|
      invariant 0 <= j <= |h[each].methods| && registry.Valid()
      invariant registry.offered == old(registry.offered) + FrameworkMethodsOf(h, each, j)
    {
      OfferDeclaredMethod(h, each, j, registry, old(registry.offered));
      j := j + 1;
    }
  }

  /** One turn of the inner method loop: wraps the `j`-th declared method and offers it. */
  method OfferDeclaredMethod(h: Classes, each: ClassId, j: nat, registry: Members<FrameworkMethod>,
                             ghost before: seq<FrameworkMethod>)
    requires WellFormed(h) && each < |h| && j < |h[each].methods| && registry.Valid()
    requires registry.offered == before + FrameworkMethodsOf(h, each, j)
    modifies registry
    ensures registry.Valid()
    ensures registry.offered == before + FrameworkMethodsOf(h, each, j + 1)
  {
    var made := NewFrameworkMethod(h, Some(JavaMethod(each, h[each].methods[j])));
    registry.AddMemberIfNotShadowed(made.value);
  }

  /** The inner field loop of the constructor: offers each field `each` declares, in name order. */
  method OfferDeclaredFields(h: Classes, each: ClassId, registry: Members<FrameworkField>)
    requires each < |h| && registry.Valid()
    modifies registry
    ensures registry.Valid() && registry.offered == old(registry.offered) + DeclaredFrameworkFields(h, each)
  {
    var sortedFields := SortedDeclaredFields(h[each]);
    var j := 0;
    while j < |sortedFields|
      invariant 0 <= j <= |sortedFields| && registry.Valid()
      invariant registry.offered == old(registry.offered) + FrameworkFieldsOf(each, sortedFields, j)
    {
      OfferDeclaredField(each, sortedFields, j, registry, old(registry.offered));
      j := j + 1;
    }
  }

  /** One turn of the inner field loop: offers the `j`-th field in name order. */
  method OfferDeclaredField(each: ClassId, sortedFields: seq<FieldDecl>, j: nat, registry: Members<FrameworkField>,
                            ghost before: seq<FrameworkField>)
    requires j < |sortedFields| && registry.Valid()
    requires registry.offered == before + FrameworkFieldsOf(each, sortedFields, j)
    modifies registry
    ensures registry.Valid()
    ensures registry.offered == before + FrameworkFieldsOf(each, sortedFields, j + 1)
  {
    registry.AddMemberIfNotShadowed(FrameworkField(each, sortedFields[j]));
  }

  // ---------------------------------------------------------------------------
  // Properties of a built test class
  // ---------------------------------------------------------------------------

  lemma {:induction false} FrameworkFieldsOfSorted(k: ClassId, fs: seq<FieldDecl>, n: nat)
    requires n <= |fs| && SortedByName(fs)
    ensures forall p :: 0 <= p < n ==> FrameworkFieldsOf(k, fs, n)[p] == FrameworkField(k, fs[p])
    ensures forall p, q :: 0 <= p < q < n ==>
      NameBefore(FrameworkFieldsOf(k, fs, n)[p].decl.name, FrameworkFieldsOf(k, fs, n)[q].decl.name)
  {
    if n > 0 {
      FrameworkFieldsOfSorted(k, fs, n - 1);
    }
  }

  /** Field `a` may come before field `b` in walk order: its declaring class is
      walked no later, and two fields of one class are in ascending name order. */
  predicate WalkThenNameOrder(a: FrameworkField, b: FrameworkField)
  {
    && a.declaringClass <= b.declaringClass
    && (a.declaringClass == b.declaringClass ==> NameBefore(a.decl.name, b.decl.name))
  }

  /** Appending the name-sorted fields of class `k` to fields of lower-numbered
      classes keeps the whole sequence in walk-then-name order. */
  lemma AppendClassFields(before: seq<FrameworkField>, declared: seq<FrameworkField>, k: ClassId)
    requires forall i :: 0 <= i < |before| ==> before[i].declaringClass < k
    requires forall i :: 0 <= i < |declared| ==> declared[i].declaringClass == k
    requires forall i, j :: 0 <= i < j < |before| ==> WalkThenNameOrder(before[i], before[j])
    requires forall i, j :: 0 <= i < j < |declared| ==> NameBefore(declared[i].decl.name, declared[j].decl.name)
    ensures forall i :: 0 <= i < |before + declared| ==> (before + declared)[i].declaringClass <= k
    ensures forall i, j :: 0 <= i < j < |before + declared| ==>
      WalkThenNameOrder((before + declared)[i], (before + declared)[j])
  {
    var s := before + declared;
    forall i, j | 0 <= i < j < |s| ensures WalkThenNameOrder(s[i], s[j]) {
      if j < |before| {
        assert s[i] == before[i] && s[j] == before[j];
      } else if i < |before| {
        assert s[i] == before[i] && s[j] == declared[j - |before|];
      } else {
        assert s[i] == declared[i - |before|] && s[j] == declared[j - |before|];
      }
    }
  }

  /** Along a strictly climbing walk, fields are offered class by class in walk
      order, each class's in name order, and every field offered comes from a
      class walked so far. */
  lemma {:induction false} FieldStreamOrder(h: Classes, cs: seq<ClassId>, n: nat)
    requires InHierarchy(h, cs) && n <= |cs|
    requires forall i, j :: 0 <= i < j < |cs| ==> cs[i] < cs[j]
    ensures n > 0 ==> forall i :: 0 <= i < |FieldStream(h, cs, n)| ==> FieldStream(h, cs, n)[i].declaringClass <= cs[n - 1]
    ensures forall i, j :: 0 <= i < j < |FieldStream(h, cs, n)| ==>
      WalkThenNameOrder(FieldStream(h, cs, n)[i], FieldStream(h, cs, n)[j])
  {
    if n > 0 {
      FieldStreamOrder(h, cs, n - 1);
      var k := cs[n - 1];
      var before := FieldStream(h, cs, n - 1);
      var sorted := SortedDeclaredFields(h[k]);
      var declared := DeclaredFrameworkFields(h, k);
      FrameworkFieldsOfSorted(k, sorted, |sorted|);
      if n - 1 > 0 {
        assert cs[n - 2] < k;
      }
      AppendClassFields(before, declared, k);
      assert FieldStream(h, cs, n) == before + declared;
    }
  }

  /** The annotated fields come out class by class in walk order (a subclass's
      before its superclass's), and one class's fields in ascending name order. */
  lemma AnnotatedFieldsSortedByName(tc: TestClass)
    requires tc.Valid()
    ensures forall i, j :: 0 <= i < j < |tc.GetAnnotatedFields()| ==>
      WalkThenNameOrder(tc.GetAnnotatedFields()[i], tc.GetAnnotatedFields()[j])
  {
    var chain := Chain(tc.h, tc.javaClass);
    ChainIncreasing(tc.h, tc.javaClass);
    FieldStreamOrder(tc.h, chain, |chain|);
    AnnotatedKeepsOrder(tc.OfferedFields(), FieldAnnotations, WalkThenNameOrder);
    FirstOfEachKeepsOrder(Annotated(tc.OfferedFields(), FieldAnnotations), FieldShadowedBy, WalkThenNameOrder);
  }

  /** A null class has the name "null", no class annotations and no annotated members. */
  lemma NullClassIsEmpty(tc: TestClass)
    requires tc.Valid() && tc.javaClass.None?
    ensures tc.GetName() == "null" && tc.GetClassAnnotations() == []
    ensures tc.GetAnnotatedMethods() == [] && tc.GetAnnotatedFields() == []
    ensures forall t :: tc.GetAnnotatedMethodsWith(t) == [] && tc.GetAnnotatedFieldsWith(t) == []
  {
    assert tc.OfferedMethods() == [] && tc.OfferedFields() == [];
    FirstOfEachEmpty(Annotated(tc.OfferedMethods(), MethodAnnotations), MethodShadowedBy);
    FirstOfEachEmpty(Annotated(tc.OfferedFields(), FieldAnnotations), FieldShadowedBy);
    forall t ensures tc.GetAnnotatedMethodsWith(t) == [] && tc.GetAnnotatedFieldsWith(t) == []
    {
      MethodShadowingIsEquivalence();
      FieldShadowingIsEquivalence();
      MembersWithAnnotationProperties(tc.OfferedMethods(), MethodAnnotations, MethodShadowedBy, t);
      MembersWithAnnotationProperties(tc.OfferedFields(), FieldAnnotations, FieldShadowedBy, t);
    }
  }
}
