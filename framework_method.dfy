/**
  `FrameworkMethod`: one method of a test class, with the annotations it
  collects from its own declaration and from same-signature declarations up
  the superclass chain, the shadowing test the registry uses, and the shape
  validators that append to a caller's error list.
 */
module FrameworkMethods {
  import opened Wrappers
  import opened Hierarchy
  import opened Failures

  /** A `java.lang.reflect.Method`: a declaration and the class declaring it. */
  datatype JavaMethod = JavaMethod(declaringClass: ClassId, decl: MethodDecl)

  datatype FrameworkMethod = FrameworkMethod(javaMethod: JavaMethod, annotations: seq<Annotation>)
  {
    function Name(): string { javaMethod.decl.name }

    function ParameterTypes(): seq<TypeName> { javaMethod.decl.parameterTypes }
  }

  // ---------------------------------------------------------------------------
  // Shadowing
  // ---------------------------------------------------------------------------

  /** Same name and element-wise equal parameter types. */
  predicate SameSignature(a: MethodDecl, b: MethodDecl)
  {
    a.name == b.name && a.parameterTypes == b.parameterTypes
  }

  /** `m.isShadowedBy(other)`, the relation the method registry is built with. */
  predicate MethodShadowedBy(m: FrameworkMethod, other: FrameworkMethod)
  {
    SameSignature(other.javaMethod.decl, m.javaMethod.decl)
  }

  /** `isShadowedBy`: compares names, then parameter counts, then each parameter type. */
  method IsShadowedBy(m: FrameworkMethod, other: FrameworkMethod) returns (shadowed: bool)
    ensures shadowed <==> MethodShadowedBy(m, other)
  {
    var mine := m.ParameterTypes();
    var theirs := other.ParameterTypes();
    if other.Name() != m.Name() {
      return false;
    }
    if |theirs| != |mine| {
      return false;
    }
    var i := 0;
    while i < |theirs|
      invariant 0 <= i <= |theirs|
      invariant theirs[..i] == mine[..i]
    {
      if theirs[i] != mine[i] {
        return false;
      }
      i := i + 1;
    }
    assert theirs == theirs[..i] && mine == mine[..i];
    return true;
  }

  // ---------------------------------------------------------------------------
  // Annotation collection up the superclass chain
  // ---------------------------------------------------------------------------

  /** `Class.getDeclaredMethod(name, parameterTypes)`: the declared method with the template's signature, if any. */
  function FindDeclaredMethod(methods: seq<MethodDecl>, template: MethodDecl): (r: Option<nat>)
    ensures r.Some? ==> r.value < |methods| && SameSignature(methods[r.value], template)
    ensures r.Some? ==> forall j :: 0 <= j < r.value ==> !SameSignature(methods[j], template)
    ensures r.None? ==> forall j :: 0 <= j < |methods| ==> !SameSignature(methods[j], template)
  {
    if methods == [] then None
    else if SameSignature(methods[0], template) then Some(0)
    else
      match FindDeclaredMethod(methods[1..], template)
      case None => None
      case Some(i) => Some(i + 1)
  }

  /** `getAnnotationForMethodTemplateInClass`: what class `c` contributes for the
      template's signature; nothing when it declares no such method or declares it private. */
  function TemplateAnnotations(h: Classes, c: ClassId, template: MethodDecl): (r: seq<Annotation>)
    requires c < |h|
    ensures r != [] ==>
      exists i :: 0 <= i < |h[c].methods| && SameSignature(h[c].methods[i], template)
        && !h[c].methods[i].isPrivate && h[c].methods[i].annotations == r
    ensures (forall i :: 0 <= i < |h[c].methods| && SameSignature(h[c].methods[i], template)
               ==> h[c].methods[i].isPrivate) ==> r == []
    ensures var found := FindDeclaredMethod(h[c].methods, template);
      found.Some? && !h[c].methods[found.value].isPrivate ==> r == h[c].methods[found.value].annotations
  {
    match FindDeclaredMethod(h[c].methods, template)
    case None => []
    case Some(i) => if h[c].methods[i].isPrivate then [] else h[c].methods[i].annotations
  }

  predicate DistinctTypes(annotations: seq<Annotation>)
  {
    forall i, j :: 0 <= i < j < |annotations| ==> annotations[i].annotationType != annotations[j].annotationType
  }

  /** `a` occurs in `annotations` with no earlier annotation of its type. */
  predicate IsFirstOfType(annotations: seq<Annotation>, a: Annotation)
  {
    exists p :: 0 <= p < |annotations| && annotations[p] == a
      && forall q :: 0 <= q < p ==> annotations[q].annotationType != a.annotationType
  }

  /** `addAnnotations`: append each additional annotation whose type is not yet present. */
  function Merged(current: seq<Annotation>, additional: seq<Annotation>): seq<Annotation>
    decreases |additional|
  {
    if additional == [] then current
    else
      var merged := Merged(current, additional[..|additional| - 1]);
      var a := additional[|additional| - 1];
      if HasAnnotationType(merged, a.annotationType) then merged else merged + [a]
  }

  lemma {:induction false} MergedExtends(current: seq<Annotation>, additional: seq<Annotation>)
    ensures |current| <= |Merged(current, additional)|
    ensures Merged(current, additional)[..|current|] == current
    decreases |additional|
  {
    if additional != [] {
      MergedExtends(current, additional[..|additional| - 1]);
    }
  }

  lemma {:induction false} MergedHasType(current: seq<Annotation>, additional: seq<Annotation>, t: AnnotationType)
    ensures HasAnnotationType(Merged(current, additional), t)
        <==> HasAnnotationType(current, t) || HasAnnotationType(additional, t)
    decreases |additional|
  {
    if additional != [] {
      var init := additional[..|additional| - 1];
      var a := additional[|additional| - 1];
      MergedHasType(current, init, t);
      var merged := Merged(current, init);
      if HasAnnotationType(additional, t) && !HasAnnotationType(init, t) {
        assert a.annotationType == t;
        if !HasAnnotationType(merged, t) {
          assert (merged + [a])[|merged|] == a;
        }
      }
      if HasAnnotationType(Merged(current, additional), t) && !HasAnnotationType(merged, t) {
        assert a.annotationType == t;
        assert additional[|additional| - 1] == a;
      }
      if HasAnnotationType(merged, t) {
        var i :| 0 <= i < |merged| && merged[i].annotationType == t;
        assert Merged(current, additional)[i] == merged[i];
      }
      if HasAnnotationType(init, t) {
        var i :| 0 <= i < |init| && init[i].annotationType == t;
        assert additional[i] == init[i];
      }
    }
  }

  lemma {:induction false} MergedDistinct(current: seq<Annotation>, additional: seq<Annotation>)
    requires DistinctTypes(current)
    ensures DistinctTypes(Merged(current, additional))
    decreases |additional|
  {
    if additional != [] {
      MergedDistinct(current, additional[..|additional| - 1]);
    }
  }

  /** Each annotation past the current ones is the first of its type among the
      additional ones, and its type was not present before. */
  lemma {:induction false} MergedOrigin(current: seq<Annotation>, additional: seq<Annotation>, i: nat)
    requires |current| <= i < |Merged(current, additional)|
    ensures IsFirstOfType(additional, Merged(current, additional)[i])
    ensures !HasAnnotationType(current, Merged(current, additional)[i].annotationType)
    decreases |additional|
  {
    var init := additional[..|additional| - 1];
    var a := additional[|additional| - 1];
    var merged := Merged(current, init);
    var x := Merged(current, additional)[i];
    if i < |merged| {
      MergedOrigin(current, init, i);
      assert x == merged[i];
      FirstOfTypePrefix(additional, |additional| - 1, x);
    } else {
      assert x == a && !HasAnnotationType(merged, a.annotationType);
      MergedHasType(current, init, a.annotationType);
      FirstOfTypeLast(additional);
    }
  }

  lemma FirstOfTypePrefix(annotations: seq<Annotation>, n: nat, a: Annotation)
    requires n <= |annotations| && IsFirstOfType(annotations[..n], a)
    ensures IsFirstOfType(annotations, a)
  {
    var prefix := annotations[..n];
    var p :| 0 <= p < |prefix| && prefix[p] == a
      && forall q :: 0 <= q < p ==> prefix[q].annotationType != a.annotationType;
    assert forall q :: 0 <= q < p ==> annotations[q] == prefix[q];
    assert annotations[p] == a;
  }

  lemma FirstOfTypeLast(annotations: seq<Annotation>)
    requires annotations != []
    requires !HasAnnotationType(annotations[..|annotations| - 1], annotations[|annotations| - 1].annotationType)
    ensures IsFirstOfType(annotations, annotations[|annotations| - 1])
  {
    var n := |annotations| - 1;
    forall q | 0 <= q < n
      ensures annotations[q].annotationType != annotations[n].annotationType
    {
      assert annotations[..n][q] == annotations[q];
    }
  }

  predicate InHierarchy(h: Classes, cs: seq<ClassId>)
  {
    forall i :: 0 <= i < |cs| ==> cs[i] < |h|
  }

  /** The annotations collected over the classes `cs`, nearest class first. */
  function CollectedOver(h: Classes, cs: seq<ClassId>, template: MethodDecl): seq<Annotation>
    requires InHierarchy(h, cs)
  {
    if cs == [] then []
    else Merged(CollectedOver(h, cs[..|cs| - 1], template), TemplateAnnotations(h, cs[|cs| - 1], template))
  }

  /** `collectAnnotationsForMethod`: walk from the declaring class to the root. */
  function CollectedAnnotations(h: Classes, m: JavaMethod): seq<Annotation>
    requires WellFormed(h) && m.declaringClass < |h|
  {
    CollectedOver(h, Chain(h, Some(m.declaringClass)), m.decl)
  }

  /** Class `cs[k]` contributes `a`, and no class nearer than `cs[k]` contributes its type. */
  predicate NearestContribution(h: Classes, cs: seq<ClassId>, template: MethodDecl, k: nat, a: Annotation)
    requires InHierarchy(h, cs) && k < |cs|
  {
    IsFirstOfType(TemplateAnnotations(h, cs[k], template), a)
    && forall j :: 0 <= j < k ==> !HasAnnotationType(TemplateAnnotations(h, cs[j], template), a.annotationType)
  }

  predicate HasNearestContribution(h: Classes, cs: seq<ClassId>, template: MethodDecl, a: Annotation)
    requires InHierarchy(h, cs)
  {
    exists k :: 0 <= k < |cs| && NearestContribution(h, cs, template, k, a)
  }

  lemma {:induction false} CollectedDistinct(h: Classes, cs: seq<ClassId>, template: MethodDecl)
    requires InHierarchy(h, cs)
    ensures DistinctTypes(CollectedOver(h, cs, template))
  {
    if cs != [] {
      CollectedDistinct(h, cs[..|cs| - 1], template);
      MergedDistinct(CollectedOver(h, cs[..|cs| - 1], template), TemplateAnnotations(h, cs[|cs| - 1], template));
    }
  }

  lemma {:induction false} CollectedAccumulates(h: Classes, cs: seq<ClassId>, template: MethodDecl, k: nat, t: AnnotationType)
    requires InHierarchy(h, cs) && k < |cs|
    requires HasAnnotationType(TemplateAnnotations(h, cs[k], template), t)
    ensures HasAnnotationType(CollectedOver(h, cs, template), t)
  {
    var init := cs[..|cs| - 1];
    MergedHasType(CollectedOver(h, init, template), TemplateAnnotations(h, cs[|cs| - 1], template), t);
    if k < |cs| - 1 {
      assert init[k] == cs[k];
      CollectedAccumulates(h, init, template, k, t);
    }
  }

  lemma {:induction false} CollectedNearestWins(h: Classes, cs: seq<ClassId>, template: MethodDecl, i: nat)
    requires InHierarchy(h, cs) && i < |CollectedOver(h, cs, template)|
    ensures exists k :: 0 <= k < |cs| && NearestContribution(h, cs, template, k, CollectedOver(h, cs, template)[i])
  {
    var init := cs[..|cs| - 1];
    var before := CollectedOver(h, init, template);
    var last := TemplateAnnotations(h, cs[|cs| - 1], template);
    var x := CollectedOver(h, cs, template)[i];
    MergedExtends(before, last);
    if i < |before| {
      assert x == before[i];
      CollectedNearestWins(h, init, template, i);
      var k :| 0 <= k < |init| && NearestContribution(h, init, template, k, x);
      NearestContributionPrefix(h, cs, template, k, x);
    } else {
      MergedOrigin(before, last, i);
      NearestFromLast(h, cs, template, x);
    }
  }

  lemma NearestContributionPrefix(h: Classes, cs: seq<ClassId>, template: MethodDecl, k: nat, a: Annotation)
    requires InHierarchy(h, cs) && k < |cs| - 1
    requires NearestContribution(h, cs[..|cs| - 1], template, k, a)
    ensures NearestContribution(h, cs, template, k, a)
  {
    var init := cs[..|cs| - 1];
    assert forall j :: 0 <= j <= k ==> init[j] == cs[j];
  }

  /** An annotation the last class adds, of a type no earlier class contributes, is its nearest contribution. */
  lemma NearestFromLast(h: Classes, cs: seq<ClassId>, template: MethodDecl, x: Annotation)
    requires InHierarchy(h, cs) && cs != []
    requires IsFirstOfType(TemplateAnnotations(h, cs[|cs| - 1], template), x)
    requires !HasAnnotationType(CollectedOver(h, cs[..|cs| - 1], template), x.annotationType)
    ensures NearestContribution(h, cs, template, |cs| - 1, x)
  {
    var init := cs[..|cs| - 1];
    forall j | 0 <= j < |cs| - 1
      ensures !HasAnnotationType(TemplateAnnotations(h, cs[j], template), x.annotationType)
    {
      if HasAnnotationType(TemplateAnnotations(h, cs[j], template), x.annotationType) {
        assert init[j] == cs[j];
        CollectedAccumulates(h, init, template, j, x.annotationType);
      }
    }
  }

  /** A type is collected iff some class of `cs` contributes it. */
  lemma CollectedHasType(h: Classes, cs: seq<ClassId>, template: MethodDecl, t: AnnotationType)
    requires InHierarchy(h, cs)
    ensures HasAnnotationType(CollectedOver(h, cs, template), t) <==>
      exists k :: 0 <= k < |cs| && HasAnnotationType(TemplateAnnotations(h, cs[k], template), t)
  {
    var collected := CollectedOver(h, cs, template);
    if HasAnnotationType(collected, t) {
      var i :| 0 <= i < |collected| && collected[i].annotationType == t;
      CollectedNearestWins(h, cs, template, i);
      var k :| 0 <= k < |cs| && NearestContribution(h, cs, template, k, collected[i]);
      var contributed := TemplateAnnotations(h, cs[k], template);
      var p :| 0 <= p < |contributed| && contributed[p] == collected[i]
        && forall q :: 0 <= q < p ==> contributed[q].annotationType != t;
      assert HasAnnotationType(contributed, t);
    }
    if exists k :: 0 <= k < |cs| && HasAnnotationType(TemplateAnnotations(h, cs[k], template), t) {
      var k :| 0 <= k < |cs| && HasAnnotationType(TemplateAnnotations(h, cs[k], template), t);
      CollectedAccumulates(h, cs, template, k, t);
    }
  }

  /** What `collectAnnotationsForMethod` promises: at most one annotation per
      type; a type is present iff some class on the chain contributes it; and
      the annotation kept for a type is the one from the nearest contributing class. */
  lemma CollectedAnnotationsSpec(h: Classes, m: JavaMethod)
    requires WellFormed(h) && m.declaringClass < |h|
    ensures DistinctTypes(CollectedAnnotations(h, m))
    ensures forall t :: HasAnnotationType(CollectedAnnotations(h, m), t) <==>
      exists k :: 0 <= k < |Chain(h, Some(m.declaringClass))|
        && HasAnnotationType(TemplateAnnotations(h, Chain(h, Some(m.declaringClass))[k], m.decl), t)
    ensures forall i :: 0 <= i < |CollectedAnnotations(h, m)| ==>
      HasNearestContribution(h, Chain(h, Some(m.declaringClass)), m.decl, CollectedAnnotations(h, m)[i])
  {
    var cs := Chain(h, Some(m.declaringClass));
    var collected := CollectedAnnotations(h, m);
    CollectedDistinct(h, cs, m.decl);
    forall t ensures HasAnnotationType(collected, t) <==>
      exists k :: 0 <= k < |cs| && HasAnnotationType(TemplateAnnotations(h, cs[k], m.decl), t)
    {
      CollectedHasType(h, cs, m.decl, t);
    }
    forall i | 0 <= i < |collected|
      ensures HasNearestContribution(h, cs, m.decl, collected[i])
    {
      CollectedNearestWins(h, cs, m.decl, i);
    }
  }

  /** `containsAnnotationWithType`. */
  method ContainsAnnotationWithType(annotations: seq<Annotation>, t: AnnotationType) returns (found: bool)
    ensures found <==> HasAnnotationType(annotations, t)
  {
    var i := 0;
    while i < |annotations|
      invariant 0 <= i <= |annotations|
      invariant forall j :: 0 <= j < i ==> annotations[j].annotationType != t
    {
      if annotations[i].annotationType == t {
        return true;
      }
      i := i + 1;
    }
    return false;
  }

  /** `addAnnotations`, on the caller's list held as a local sequence. */
  method AddAnnotations(current: seq<Annotation>, additional: seq<Annotation>) returns (updated: seq<Annotation>)
    ensures updated == Merged(current, additional)
  {
    updated := current;
    var i := 0;
    while i < |additional|
      invariant 0 <= i <= |additional|
      invariant updated == Merged(current, additional[..i])
    {
      var present := ContainsAnnotationWithType(updated, additional[i].annotationType);
      if !present {
        updated := updated + [additional[i]];
      }
      assert additional[..i + 1][..i] == additional[..i];
      i := i + 1;
    }
    assert additional[..i] == additional;
  }

  /** One step up the chain: the collection over one more class, and the class after it. */
  lemma CollectStep(h: Classes, m: JavaMethod, i: nat)
    requires WellFormed(h) && m.declaringClass < |h|
    requires i < |Chain(h, Some(m.declaringClass))|
    ensures var chain := Chain(h, Some(m.declaringClass));
      && CollectedOver(h, chain[..i + 1], m.decl)
         == Merged(CollectedOver(h, chain[..i], m.decl), TemplateAnnotations(h, chain[i], m.decl))
      && h[chain[i]].superclass == (if i + 1 < |chain| then Some(chain[i + 1]) else None)
  {
    var chain := Chain(h, Some(m.declaringClass));
    var upTo := chain[..i + 1];
    assert upTo[..|upTo| - 1] == chain[..i] && upTo[|upTo| - 1] == chain[i];
    ChainLinks(h, Some(m.declaringClass), i);
  }

  /** `collectAnnotationsForMethod`: the loop over `klass = klass.getSuperclass()`. */
  method CollectAnnotationsForMethod(h: Classes, m: JavaMethod) returns (annotations: seq<Annotation>)
    requires WellFormed(h) && m.declaringClass < |h|
    ensures annotations == CollectedAnnotations(h, m)
  {
    annotations := [];
    var klass: Option<ClassId> := Some(m.declaringClass);
    ghost var chain := Chain(h, klass);
    ghost var i := 0;
    while klass.Some?
      invariant 0 <= i <= |chain|
      invariant klass == if i < |chain| then Some(chain[i]) else None
      invariant annotations == CollectedOver(h, chain[..i], m.decl)
      decreases |chain| - i
    {
      var k := klass.value;
      annotations := AddAnnotations(annotations, TemplateAnnotations(h, k, m.decl));
      CollectStep(h, m, i);
      klass := h[k].superclass;
      i := i + 1;
    }
    assert chain[..i] == chain;
  }

  /** The `FrameworkMethod` the constructor builds for a non-null method. */
  function FrameworkMethodOf(h: Classes, m: JavaMethod): FrameworkMethod
    requires WellFormed(h) && m.declaringClass < |h|
  {
    FrameworkMethod(m, CollectedAnnotations(h, m))
  }

  /** The `FrameworkMethod` constructor: null is refused with a fixed message. */
  method NewFrameworkMethod(h: Classes, m: Option<JavaMethod>) returns (r: Result<FrameworkMethod, Failure>)
    requires WellFormed(h) && (m.Some? ==> m.value.declaringClass < |h|)
    ensures m.None? <==> r.Err?
    ensures r.Err? ==> r.error == NullMethod
    ensures r.Ok? ==> r.value.javaMethod == m.value && r.value.annotations == CollectedAnnotations(h, m.value)
  {
    if m.None? {
      return Err(NullMethod);
    }
    var annotations := CollectAnnotationsForMethod(h, m.value);
    return Ok(FrameworkMethod(m.value, annotations));
  }

  /** `getAnnotations`: a fresh array on every call. */
  method GetAnnotations(m: FrameworkMethod) returns (a: array<Annotation>)
    ensures fresh(a) && a[..] == m.annotations
  {
    a := new Annotation[|m.annotations|](i requires 0 <= i < |m.annotations| => m.annotations[i]);
  }

  // ---------------------------------------------------------------------------
  // Shape validation
  // ---------------------------------------------------------------------------

  /** Position of a problem kind in the order `validatePublicVoid` reports them. */
  function ProblemRank(f: Failure): nat
  {
    match f
    case StaticMismatch(_, _) => 0
    case NotPublic(_) => 1
    case NotVoid(_) => 2
    case _ => 3
  }

  /** The problems `validatePublicVoid` appends. */
  function PublicVoidProblems(m: FrameworkMethod, isStatic: bool): seq<Failure>
  {
    var d := m.javaMethod.decl;
    (if d.isStatic != isStatic then [StaticMismatch(d.name, isStatic)] else [])
    + (if !d.isPublic then [NotPublic(d.name)] else [])
    + (if d.returnType != Void then [NotVoid(d.name)] else [])
  }

  /** No problem exactly for a public void method of the right staticness; each
      problem is reported iff its condition holds, in the fixed order. */
  lemma PublicVoidProblemsSpec(m: FrameworkMethod, isStatic: bool)
    ensures var r := PublicVoidProblems(m, isStatic);
      && (r == [] <==> (m.javaMethod.decl.isStatic == isStatic && m.javaMethod.decl.isPublic
                        && m.javaMethod.decl.returnType == Void))
      && (StaticMismatch(m.Name(), isStatic) in r <==> m.javaMethod.decl.isStatic != isStatic)
      && (NotPublic(m.Name()) in r <==> !m.javaMethod.decl.isPublic)
      && (NotVoid(m.Name()) in r <==> m.javaMethod.decl.returnType != Void)
      && (forall i, j :: 0 <= i < j < |r| ==> ProblemRank(r[i]) < ProblemRank(r[j]))
  {
  }

  method ValidatePublicVoid(m: FrameworkMethod, isStatic: bool, errors: ErrorList)
    modifies errors
    ensures errors.items == old(errors.items) + PublicVoidProblems(m, isStatic)
  {
    var d := m.javaMethod.decl;
    ghost var staticProblems := if d.isStatic != isStatic then [StaticMismatch(d.name, isStatic)] else [];
    ghost var publicProblems := if !d.isPublic then [NotPublic(d.name)] else [];
    ghost var voidProblems := if d.returnType != Void then [NotVoid(d.name)] else [];
    if d.isStatic != isStatic {
      errors.Add(StaticMismatch(d.name, isStatic));
    }
    assert errors.items == old(errors.items) + staticProblems;
    if !d.isPublic {
      errors.Add(NotPublic(d.name));
    }
    assert errors.items == old(errors.items) + staticProblems + publicProblems;
    if d.returnType != Void {
      errors.Add(NotVoid(d.name));
    }
    assert errors.items == old(errors.items) + staticProblems + publicProblems + voidProblems;
    assert PublicVoidProblems(m, isStatic) == staticProblems + publicProblems + voidProblems;
  }

  method ValidatePublicVoidNoArg(m: FrameworkMethod, isStatic: bool, errors: ErrorList)
    modifies errors
    ensures errors.items == old(errors.items) + PublicVoidProblems(m, isStatic)
      + (if m.ParameterTypes() != [] then [HasParameters(m.Name())] else [])
  {
    ValidatePublicVoid(m, isStatic, errors);
    if |m.ParameterTypes()| != 0 {
      errors.Add(HasParameters(m.Name()));
    }
  }

  /** A `java.lang.reflect.Type`: a plain class, or anything else (a parameterized type, ...). */
  datatype JavaType = ClassType(name: TypeName) | OtherType(description: string)

  /** `producesType`: a no-argument method whose return type is assignable to the class `t`. */
  function ProducesType(m: FrameworkMethod, t: JavaType, isAssignableFrom: (TypeName, TypeName) -> bool): (b: bool)
    ensures m.ParameterTypes() != [] ==> !b
    ensures t.OtherType? ==> !b
    ensures b ==> isAssignableFrom(t.name, m.javaMethod.decl.returnType)
  {
    |m.ParameterTypes()| == 0 && t.ClassType? && isAssignableFrom(t.name, m.javaMethod.decl.returnType)
  }

  /** With a reflexive assignability test, a no-argument method produces its own return type. */
  lemma ProducesOwnReturnType(m: FrameworkMethod, isAssignableFrom: (TypeName, TypeName) -> bool)
    requires m.ParameterTypes() == []
    requires forall n :: isAssignableFrom(n, n)
    ensures ProducesType(m, ClassType(m.javaMethod.decl.returnType), isAssignableFrom)
  {
  }

  /** With a transitive assignability test, a method that produces a type also
      produces every type that type is assignable to. */
  lemma ProducesSupertype(m: FrameworkMethod, sub: TypeName, super: TypeName,
                          isAssignableFrom: (TypeName, TypeName) -> bool)
    requires forall x, y, z :: isAssignableFrom(x, y) && isAssignableFrom(y, z) ==> isAssignableFrom(x, z)
    requires ProducesType(m, ClassType(sub), isAssignableFrom) && isAssignableFrom(super, sub)
    ensures ProducesType(m, ClassType(super), isAssignableFrom)
  {
  }
}
