/**
  Plain-data stand-in for Java reflection: a class hierarchy is a sequence of
  class records, and a class is referred to by its index in that sequence.
  `None` plays the part of a null `Class<?>`.
 */
module Hierarchy {
  import opened Wrappers

  type ClassId = nat

  /** Annotation types. `Before` and `BeforeClass` get reverse ordering in the
      registry, `Parameter` drives parameter injection; every other annotation
      type is `Named`. */
  datatype AnnotationType = Before | BeforeClass | Parameter | Named(name: string)

  /** One annotation instance: its type and its payload (for `@Parameter`, the index). */
  datatype Annotation = Annotation(annotationType: AnnotationType, value: int)

  /** A type as it appears in a signature, by its fully qualified name. */
  type TypeName = string

  const Void: TypeName := "void"

  datatype MethodDecl = MethodDecl(
    name: string,
    parameterTypes: seq<TypeName>,
    returnType: TypeName,
    isPrivate: bool,
    isPublic: bool,
    isStatic: bool,
    annotations: seq<Annotation>)

  datatype FieldDecl = FieldDecl(name: string, annotations: seq<Annotation>)

  datatype ConstructorDecl = ConstructorDecl(isPublic: bool, parameterTypes: seq<TypeName>)

  /** A class record; `methods` are in the order the runtime reports them. */
  datatype ClassDecl = ClassDecl(
    name: string,
    annotations: seq<Annotation>,
    methods: seq<MethodDecl>,
    fields: seq<FieldDecl>,
    constructors: seq<ConstructorDecl>,
    superclass: Option<ClassId>)

  type Classes = seq<ClassDecl>

  /** The superclass relation is acyclic: a superclass always has a larger index. */
  predicate WellFormed(h: Classes)
  {
    forall i :: 0 <= i < |h| && h[i].superclass.Some? ==> i < h[i].superclass.value < |h|
  }

  predicate ValidRef(h: Classes, c: Option<ClassId>)
  {
    c.None? || c.value < |h|
  }

  /** The superclass chain starting at `c`: `c` itself, its superclass, ..., the root. */
  function Chain(h: Classes, c: Option<ClassId>): (r: seq<ClassId>)
    requires WellFormed(h) && ValidRef(h, c)
    ensures c.None? <==> r == []
    ensures c.Some? ==> r[0] == c.value
    ensures forall i :: 0 <= i < |r| ==> r[i] < |h|
    decreases if c.None? then 0 else |h| - c.value
  {
    match c
    case None => []
    case Some(k) => [k] + Chain(h, h[k].superclass)
  }

  /** Each entry of the chain is the superclass of the entry before it, and
      the chain ends at a class without superclass. */
  lemma {:induction false} ChainLinks(h: Classes, c: Option<ClassId>, i: nat)
    requires WellFormed(h) && ValidRef(h, c)
    requires i < |Chain(h, c)|
    ensures i + 1 < |Chain(h, c)| ==> h[Chain(h, c)[i]].superclass == Some(Chain(h, c)[i + 1])
    ensures i + 1 == |Chain(h, c)| ==> h[Chain(h, c)[i]].superclass.None?
    decreases |Chain(h, c)|
  {
    if i > 0 {
      ChainLinks(h, h[c.value].superclass, i - 1);
    }
  }

  /** The chain climbs strictly: no class occurs in it twice. */
  lemma {:induction false} ChainIncreasing(h: Classes, c: Option<ClassId>)
    requires WellFormed(h) && ValidRef(h, c)
    ensures forall i, j :: 0 <= i < j < |Chain(h, c)| ==> Chain(h, c)[i] < Chain(h, c)[j]
    decreases if c.None? then 0 else |h| - c.value
  {
    if c.Some? {
      var up := h[c.value].superclass;
      ChainIncreasing(h, up);
      var rest := Chain(h, up);
      assert Chain(h, c) == [c.value] + rest;
      assert forall j :: 0 <= j < |rest| ==> c.value < rest[j] by {
        forall j | 0 <= j < |rest| ensures c.value < rest[j] {
          if j > 0 {
            assert rest[0] < rest[j];
          }
        }
      }
    }
  }

  function PublicConstructors(cs: seq<ConstructorDecl>): (r: seq<ConstructorDecl>)
    ensures |r| <= |cs|
    ensures forall i :: 0 <= i < |r| ==> r[i].isPublic && r[i] in cs
    ensures forall k :: k in cs && k.isPublic ==> k in r
  {
    if cs == [] then []
    else
      assert cs == cs[..|cs| - 1] + [cs[|cs| - 1]];
      var rest := PublicConstructors(cs[..|cs| - 1]);
      if cs[|cs| - 1].isPublic then rest + [cs[|cs| - 1]] else rest
  }

  /** `getConstructors().length`: only public constructors are reported. */
  function PublicConstructorCount(c: ClassDecl): nat
  {
    |PublicConstructors(c.constructors)|
  }

  predicate HasAnnotationType(annotations: seq<Annotation>, t: AnnotationType)
  {
    exists i :: 0 <= i < |annotations| && annotations[i].annotationType == t
  }
}
