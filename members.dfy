/**
  `TestClass.Members<T>`: the registry of annotated members of one kind
  (methods or fields). It keeps the list of all annotated members and, per
  annotation type, the list of members carrying it. A member that an already
  registered member shadows is skipped, and `Before`/`BeforeClass` lists grow
  at the front while every other list grows at the back.

  `Registered` folds the registry's own update steps over the offered
  members; `FirstOfEach`, `Annotated` and `Carrying` give an independent
  description of the result, and `RegisteredCharacterization` proves the two agree.
 */
module MemberRegistry {
  import opened Hierarchy

  /** `ANNOTATION_TYPES_WITH_REVERSE_ORDER`. */
  const ReverseOrderTypes: set<AnnotationType> := {Before, BeforeClass}

  ghost predicate IsEquivalence<T(!new)>(shadowedBy: (T, T) -> bool)
  {
    && (forall x :: shadowedBy(x, x))
    && (forall x, y :: shadowedBy(x, y) ==> shadowedBy(y, x))
    && (forall x, y, z :: shadowedBy(x, y) && shadowedBy(y, z) ==> shadowedBy(x, z))
  }

  /** `member.isShadowedBy(list)`: some element of the list shadows the member. */
  predicate ShadowedByAny<T>(member: T, list: seq<T>, shadowedBy: (T, T) -> bool)
  {
    exists i :: 0 <= i < |list| && shadowedBy(member, list[i])
  }

  // ---------------------------------------------------------------------------
  // The registry's update steps, as functions
  // ---------------------------------------------------------------------------

  datatype Registry<T> = Registry(all: seq<T>, index: map<AnnotationType, seq<T>>)

  /** `addMember` on `fAnnotatedMembers`. */
  function AllAfter<T>(all: seq<T>, member: T, shadowedBy: (T, T) -> bool): seq<T>
  {
    if ShadowedByAny(member, all, shadowedBy) then all else all + [member]
  }

  /** `addMemberToListOfAnnotationType` on one list. */
  function Inserted<T>(list: seq<T>, member: T, t: AnnotationType, shadowedBy: (T, T) -> bool): seq<T>
  {
    if ShadowedByAny(member, list, shadowedBy) then list
    else if t in ReverseOrderTypes then [member] + list
    else list + [member]
  }

  /** `getMembersWithAnnotation`: an absent type has the empty list. */
  function ListFor<T>(index: map<AnnotationType, seq<T>>, t: AnnotationType): seq<T>
  {
    if t in index then index[t] else []
  }

  /** The loop of `addMember` over the member's annotations. */
  function IndexAfter<T>(index: map<AnnotationType, seq<T>>, member: T, annotations: seq<Annotation>,
                         shadowedBy: (T, T) -> bool): map<AnnotationType, seq<T>>
    decreases |annotations|
  {
    if annotations == [] then index
    else
      var before := IndexAfter(index, member, annotations[..|annotations| - 1], shadowedBy);
      var t := annotations[|annotations| - 1].annotationType;
      before[t := Inserted(ListFor(before, t), member, t, shadowedBy)]
  }

  /** `addMemberIfNotShadowed`: members without annotations are not registered at all. */
  function Offered<T>(r: Registry<T>, member: T, annotationsOf: T -> seq<Annotation>,
                      shadowedBy: (T, T) -> bool): Registry<T>
  {
    if annotationsOf(member) == [] then r
    else Registry(AllAfter(r.all, member, shadowedBy), IndexAfter(r.index, member, annotationsOf(member), shadowedBy))
  }

  /** The registry after the members have been offered in order. */
  function Registered<T>(members: seq<T>, annotationsOf: T -> seq<Annotation>,
                         shadowedBy: (T, T) -> bool): Registry<T>
  {
    if members == [] then Registry([], map[])
    else Offered(Registered(members[..|members| - 1], annotationsOf, shadowedBy),
                 members[|members| - 1], annotationsOf, shadowedBy)
  }

  // ---------------------------------------------------------------------------
  // Reference description
  // ---------------------------------------------------------------------------

  /** The members with at least one annotation, in order. */
  function Annotated<T>(members: seq<T>, annotationsOf: T -> seq<Annotation>): (r: seq<T>)
    ensures forall i :: 0 <= i < |r| ==> annotationsOf(r[i]) != [] && r[i] in members
    ensures |r| <= |members|
  {
    if members == [] then []
    else
      var rest := Annotated(members[..|members| - 1], annotationsOf);
      if annotationsOf(members[|members| - 1]) != [] then rest + [members[|members| - 1]] else rest
  }

  /** The members carrying an annotation of type `t`, in order. */
  function Carrying<T>(members: seq<T>, t: AnnotationType, annotationsOf: T -> seq<Annotation>): (r: seq<T>)
    ensures forall i :: 0 <= i < |r| ==> HasAnnotationType(annotationsOf(r[i]), t) && r[i] in members
    ensures |r| <= |members|
  {
    if members == [] then []
    else
      var rest := Carrying(members[..|members| - 1], t, annotationsOf);
      if HasAnnotationType(annotationsOf(members[|members| - 1]), t) then rest + [members[|members| - 1]] else rest
  }

  /** Each member that nothing earlier in `s` shadows, in order. */
  function FirstOfEach<T>(s: seq<T>, shadowedBy: (T, T) -> bool): seq<T>
  {
    if s == [] then []
    else
      var init := s[..|s| - 1];
      if ShadowedByAny(s[|s| - 1], init, shadowedBy) then FirstOfEach(init, shadowedBy)
      else FirstOfEach(init, shadowedBy) + [s[|s| - 1]]
  }

  function Reversed<T>(s: seq<T>): seq<T>
  {
    if s == [] then [] else [s[|s| - 1]] + Reversed(s[..|s| - 1])
  }

  /** Registration order for lists of type `t`: reversed for the reverse-order types. */
  function InWalkOrder<T>(t: AnnotationType, s: seq<T>): seq<T>
  {
    if t in ReverseOrderTypes then Reversed(s) else s
  }

  // ---------------------------------------------------------------------------
  // Lemmas
  // ---------------------------------------------------------------------------

  lemma {:induction false} ReversedAt<T>(s: seq<T>, k: nat)
    requires k < |s|
    ensures |Reversed(s)| == |s| && Reversed(s)[k] == s[|s| - 1 - k]
  {
    if k > 0 {
      ReversedAt(s[..|s| - 1], k - 1);
    } else {
      ReversedLength(s);
    }
  }

  lemma {:induction false} ReversedLength<T>(s: seq<T>)
    ensures |Reversed(s)| == |s|
  {
    if s != [] {
      ReversedLength(s[..|s| - 1]);
    }
  }

  lemma ShadowedByReversed<T>(x: T, s: seq<T>, shadowedBy: (T, T) -> bool)
    ensures ShadowedByAny(x, Reversed(s), shadowedBy) <==> ShadowedByAny(x, s, shadowedBy)
  {
    ReversedLength(s);
    if ShadowedByAny(x, s, shadowedBy) {
      var i :| 0 <= i < |s| && shadowedBy(x, s[i]);
      ReversedAt(s, |s| - 1 - i);
    }
    if ShadowedByAny(x, Reversed(s), shadowedBy) {
      var i :| 0 <= i < |s| && shadowedBy(x, Reversed(s)[i]);
      ReversedAt(s, i);
    }
  }

  /** Each kept member is the first in `s` of its shadowing class: with `s` in
      hierarchy-walk order, the most-derived declaration is the one kept. */
  lemma {:induction false} FirstOfEachKeepsFirst<T>(s: seq<T>, shadowedBy: (T, T) -> bool, i: nat)
    requires i < |FirstOfEach(s, shadowedBy)|
    ensures exists p :: (0 <= p < |s| && FirstOfEach(s, shadowedBy)[i] == s[p]
      && forall q :: 0 <= q < p ==> !shadowedBy(s[p], s[q]))
  {
    var init := s[..|s| - 1];
    var prefix := FirstOfEach(init, shadowedBy);
    if i < |prefix| {
      FirstOfEachKeepsFirst(init, shadowedBy, i);
      var p :| 0 <= p < |init| && prefix[i] == init[p] && forall q :: 0 <= q < p ==> !shadowedBy(init[p], init[q]);
      assert s[p] == init[p] && forall q :: 0 <= q < p ==> s[q] == init[q];
    } else {
      var p := |s| - 1;
      assert forall q :: 0 <= q < p ==> s[q] == init[q];
    }
  }

  /** No kept member shadows one kept before it. */
  lemma {:induction false} FirstOfEachNoShadowing<T>(s: seq<T>, shadowedBy: (T, T) -> bool)
    ensures forall i, j :: 0 <= i < j < |FirstOfEach(s, shadowedBy)| ==>
      !shadowedBy(FirstOfEach(s, shadowedBy)[j], FirstOfEach(s, shadowedBy)[i])
  {
    if s != [] {
      var init := s[..|s| - 1];
      var x := s[|s| - 1];
      var prefix := FirstOfEach(init, shadowedBy);
      FirstOfEachNoShadowing(init, shadowedBy);
      if !ShadowedByAny(x, init, shadowedBy) {
        forall i | 0 <= i < |prefix| ensures !shadowedBy(x, prefix[i]) {
          FirstOfEachKeepsFirst(init, shadowedBy, i);
        }
      }
    }
  }

  /** Every member of `s` is shadowed by some kept member. */
  lemma {:induction false} FirstOfEachRepresents<T(!new)>(s: seq<T>, shadowedBy: (T, T) -> bool, p: nat)
    requires IsEquivalence(shadowedBy) && p < |s|
    ensures ShadowedByAny(s[p], FirstOfEach(s, shadowedBy), shadowedBy)
  {
    var init := s[..|s| - 1];
    var x := s[|s| - 1];
    var prefix := FirstOfEach(init, shadowedBy);
    if p < |s| - 1 {
      FirstOfEachRepresents(init, shadowedBy, p);
      var i :| 0 <= i < |prefix| && shadowedBy(init[p], prefix[i]);
      assert FirstOfEach(s, shadowedBy)[i] == prefix[i];
    } else if ShadowedByAny(x, init, shadowedBy) {
      var j :| 0 <= j < |init| && shadowedBy(x, init[j]);
      FirstOfEachRepresents(init, shadowedBy, j);
      var i :| 0 <= i < |prefix| && shadowedBy(init[j], prefix[i]);
      assert shadowedBy(x, prefix[i]);
    } else {
      assert FirstOfEach(s, shadowedBy)[|prefix|] == x;
    }
  }

  /** Checking against the kept members is the same as checking against everything offered. */
  lemma ShadowedByFirstOfEach<T(!new)>(x: T, s: seq<T>, shadowedBy: (T, T) -> bool)
    requires IsEquivalence(shadowedBy)
    ensures ShadowedByAny(x, FirstOfEach(s, shadowedBy), shadowedBy) <==> ShadowedByAny(x, s, shadowedBy)
  {
    var kept := FirstOfEach(s, shadowedBy);
    if ShadowedByAny(x, kept, shadowedBy) {
      var i :| 0 <= i < |kept| && shadowedBy(x, kept[i]);
      FirstOfEachKeepsFirst(s, shadowedBy, i);
    }
    if ShadowedByAny(x, s, shadowedBy) {
      var p :| 0 <= p < |s| && shadowedBy(x, s[p]);
      FirstOfEachRepresents(s, shadowedBy, p);
    }
  }

  /** Nothing is kept only when nothing was offered. */
  lemma {:induction false} FirstOfEachEmpty<T>(s: seq<T>, shadowedBy: (T, T) -> bool)
    ensures FirstOfEach(s, shadowedBy) == [] <==> s == []
  {
    if s != [] {
      var init := s[..|s| - 1];
      FirstOfEachEmpty(init, shadowedBy);
    }
  }

  /** A relation holding between every earlier and later member of `s` still
      holds on the kept members: the kept members keep the offered order. */
  lemma {:induction false} FirstOfEachKeepsOrder<T>(s: seq<T>, shadowedBy: (T, T) -> bool, before: (T, T) -> bool)
    requires forall p, q :: 0 <= p < q < |s| ==> before(s[p], s[q])
    ensures forall i, j :: 0 <= i < j < |FirstOfEach(s, shadowedBy)| ==>
      before(FirstOfEach(s, shadowedBy)[i], FirstOfEach(s, shadowedBy)[j])
  {
    if s != [] {
      var init := s[..|s| - 1];
      var prefix := FirstOfEach(init, shadowedBy);
      FirstOfEachKeepsOrder(init, shadowedBy, before);
      forall i | 0 <= i < |prefix| ensures before(prefix[i], s[|s| - 1]) {
        FirstOfEachKeepsFirst(init, shadowedBy, i);
      }
    }
  }

  lemma {:induction false} AnnotatedKeepsOrder<T>(s: seq<T>, annotationsOf: T -> seq<Annotation>, before: (T, T) -> bool)
    requires forall p, q :: 0 <= p < q < |s| ==> before(s[p], s[q])
    ensures forall i, j :: 0 <= i < j < |Annotated(s, annotationsOf)| ==>
      before(Annotated(s, annotationsOf)[i], Annotated(s, annotationsOf)[j])
  {
    if s != [] {
      var init := s[..|s| - 1];
      AnnotatedKeepsOrder(init, annotationsOf, before);
      var rest := Annotated(init, annotationsOf);
      forall i | 0 <= i < |rest| ensures before(rest[i], s[|s| - 1]) {
        assert rest[i] in init;
        var p :| 0 <= p < |init| && rest[i] == init[p];
        assert s[p] == init[p];
      }
    }
  }

  /** No member carries `t` exactly when `Carrying` is empty. */
  lemma {:induction false} CarryingNone<T>(members: seq<T>, t: AnnotationType, annotationsOf: T -> seq<Annotation>)
    ensures Carrying(members, t, annotationsOf) == [] <==>
      forall i :: 0 <= i < |members| ==> !HasAnnotationType(annotationsOf(members[i]), t)
  {
    if members != [] {
      var init := members[..|members| - 1];
      CarryingNone(init, t, annotationsOf);
      if Carrying(members, t, annotationsOf) == [] {
        forall i | 0 <= i < |members| ensures !HasAnnotationType(annotationsOf(members[i]), t) {
          if i < |init| {
            assert members[i] == init[i];
          }
        }
      }
    }
  }

  /** Members of a reversed sequence are members of the sequence. */
  lemma ReversedMembers<T>(s: seq<T>)
    ensures |Reversed(s)| == |s|
    ensures forall k :: 0 <= k < |s| ==> Reversed(s)[k] == s[|s| - 1 - k]
  {
    ReversedLength(s);
    forall k | 0 <= k < |s| ensures Reversed(s)[k] == s[|s| - 1 - k] {
      ReversedAt(s, k);
    }
  }

  lemma {:induction false} InsertedTwice<T>(list: seq<T>, x: T, t: AnnotationType, shadowedBy: (T, T) -> bool)
    requires shadowedBy(x, x)
    ensures Inserted(Inserted(list, x, t, shadowedBy), x, t, shadowedBy) == Inserted(list, x, t, shadowedBy)
  {
    var once := Inserted(list, x, t, shadowedBy);
    if !ShadowedByAny(x, list, shadowedBy) {
      if t in ReverseOrderTypes {
        assert once[0] == x;
      } else {
        assert once[|list|] == x;
      }
    }
  }

  /** The annotation loop of `addMember`, seen from one annotation type `t`. */
  lemma {:induction false} IndexAfterFor<T(!new)>(index: map<AnnotationType, seq<T>>, x: T, annotations: seq<Annotation>,
                                             t: AnnotationType, shadowedBy: (T, T) -> bool)
    requires IsEquivalence(shadowedBy)
    ensures ListFor(IndexAfter(index, x, annotations, shadowedBy), t) ==
      if HasAnnotationType(annotations, t) then Inserted(ListFor(index, t), x, t, shadowedBy) else ListFor(index, t)
    decreases |annotations|
  {
    if annotations != [] {
      var init := annotations[..|annotations| - 1];
      var u := annotations[|annotations| - 1].annotationType;
      IndexAfterFor(index, x, init, t, shadowedBy);
      assert HasAnnotationType(annotations, t) <==> HasAnnotationType(init, t) || u == t by {
        if HasAnnotationType(init, t) {
          var i :| 0 <= i < |init| && init[i].annotationType == t;
          assert annotations[i] == init[i];
        }
        if HasAnnotationType(annotations, t) && u != t {
          var i :| 0 <= i < |annotations| && annotations[i].annotationType == t;
          assert init[i] == annotations[i];
        }
      }
      if u == t && HasAnnotationType(init, t) {
        InsertedTwice(ListFor(index, t), x, t, shadowedBy);
      }
    }
  }

  /** The reference description of what the registry holds after the members
      were offered in order: the all-members list keeps the first annotated
      member of each shadowing class; the list for type `t` keeps the first
      member of each class among those carrying `t`, reversed for `Before`
      and `BeforeClass`; a type nobody carries has the empty list. */
  lemma {:induction false} RegisteredCharacterization<T(!new)>(members: seq<T>, annotationsOf: T -> seq<Annotation>,
                                                          shadowedBy: (T, T) -> bool)
    requires IsEquivalence(shadowedBy)
    ensures Registered(members, annotationsOf, shadowedBy).all ==
      FirstOfEach(Annotated(members, annotationsOf), shadowedBy)
    ensures forall t :: (ListFor(Registered(members, annotationsOf, shadowedBy).index, t) ==
      InWalkOrder(t, FirstOfEach(Carrying(members, t, annotationsOf), shadowedBy)))
  {
    if members != [] {
      var init := members[..|members| - 1];
      var x := members[|members| - 1];
      RegisteredCharacterization(init, annotationsOf, shadowedBy);
      var before := Registered(init, annotationsOf, shadowedBy);
      if annotationsOf(x) != [] {
        var a := Annotated(init, annotationsOf);
        assert Annotated(members, annotationsOf) == a + [x];
        assert (a + [x])[..|a|] == a;
        ShadowedByFirstOfEach(x, a, shadowedBy);
      }
      forall t ensures ListFor(Registered(members, annotationsOf, shadowedBy).index, t) ==
        InWalkOrder(t, FirstOfEach(Carrying(members, t, annotationsOf), shadowedBy))
      {
        var c := Carrying(init, t, annotationsOf);
        var kept := FirstOfEach(c, shadowedBy);
        if annotationsOf(x) != [] {
          IndexAfterFor(before.index, x, annotationsOf(x), t, shadowedBy);
        }
        if HasAnnotationType(annotationsOf(x), t) {
          assert Carrying(members, t, annotationsOf) == c + [x];
          assert (c + [x])[..|c|] == c;
          ShadowedByFirstOfEach(x, c, shadowedBy);
          ShadowedByReversed(x, kept, shadowedBy);
          assert (kept + [x])[..|kept|] == kept;
        }
      }
    }
  }

  // ---------------------------------------------------------------------------
  // The registry object
  // ---------------------------------------------------------------------------

  class Members<T(!new)> {
    /** `FrameworkMember.getAnnotations` and `FrameworkMember.isShadowedBy` for this kind of member. */
    const annotationsOf: T -> seq<Annotation>
    const shadowedBy: (T, T) -> bool

    var annotatedMembers: seq<T>
    var membersWithAnnotation: map<AnnotationType, seq<T>>
    /** Every member offered so far, in order. */
    ghost var offered: seq<T>

    ghost predicate Valid()
      reads this
    {
      && Registry(annotatedMembers, membersWithAnnotation) == Registered(offered, annotationsOf, shadowedBy)
    }

    constructor (annotationsOf: T -> seq<Annotation>, shadowedBy: (T, T) -> bool)
      ensures Valid() && offered == []
      ensures this.annotationsOf == annotationsOf && this.shadowedBy == shadowedBy
    {
      this.annotationsOf := annotationsOf;
      this.shadowedBy := shadowedBy;
      annotatedMembers := [];
      membersWithAnnotation := map[];
      offered := [];
    }

    /** `addMemberIfNotShadowed`. */
    method AddMemberIfNotShadowed(member: T)
      requires Valid()
      modifies this
      ensures Valid() && offered == old(offered) + [member]
      ensures annotationsOf(member) == [] ==>
        annotatedMembers == old(annotatedMembers) && membersWithAnnotation == old(membersWithAnnotation)
    {
      if |annotationsOf(member)| != 0 {
        AddMember(member);
      }
      assert (offered + [member])[..|offered|] == offered;
      offered := offered + [member];
    }

    /** `addMember`. */
    method AddMember(member: T)
      modifies this
      ensures annotatedMembers == AllAfter(old(annotatedMembers), member, shadowedBy)
      ensures membersWithAnnotation ==
        IndexAfter(old(membersWithAnnotation), member, annotationsOf(member), shadowedBy)
      ensures offered == old(offered)
    {
      if !ShadowedByAny(member, annotatedMembers, shadowedBy) {
        annotatedMembers := annotatedMembers + [member];
      }
      var annotations := annotationsOf(member);
      var i := 0;
      while i < |annotations|
        invariant 0 <= i <= |annotations|
        invariant annotatedMembers == AllAfter(old(annotatedMembers), member, shadowedBy)
        invariant membersWithAnnotation ==
          IndexAfter(old(membersWithAnnotation), member, annotations[..i], shadowedBy)
        invariant offered == old(offered)
      {
        AddMemberToListOfAnnotationType(member, annotations[i].annotationType);
        assert annotations[..i + 1][..i] == annotations[..i];
        i := i + 1;
      }
      assert annotations[..i] == annotations;
    }

    /** `addMemberToListOfAnnotationType`. */
    method AddMemberToListOfAnnotationType(member: T, t: AnnotationType)
      modifies this
      ensures membersWithAnnotation ==
        old(membersWithAnnotation)[t := Inserted(ListFor(old(membersWithAnnotation), t), member, t, shadowedBy)]
      ensures annotatedMembers == old(annotatedMembers) && offered == old(offered)
    {
      EnsureListOfMembersForAnnotationTypeExists(t);
      var members := membersWithAnnotation[t];
      if !ShadowedByAny(member, members, shadowedBy) {
        if t in ReverseOrderTypes {
          members := [member] + members;
        } else {
          members := members + [member];
        }
        membersWithAnnotation := membersWithAnnotation[t := members];
      }
    }

    /** `ensureListOfMembersForAnnotationTypeExists`. */
    method EnsureListOfMembersForAnnotationTypeExists(t: AnnotationType)
      modifies this
      ensures membersWithAnnotation == old(membersWithAnnotation)[t := ListFor(old(membersWithAnnotation), t)]
      ensures annotatedMembers == old(annotatedMembers) && offered == old(offered)
    {
      if t !in membersWithAnnotation {
        membersWithAnnotation := membersWithAnnotation[t := []];
      }
    }

    /** `getAnnotatedMembers`: the first annotated member of each shadowing class, in offered order. */
    function GetAnnotatedMembers(): (r: seq<T>)
      reads this
      requires Valid() && IsEquivalence(shadowedBy)
      ensures r == FirstOfEach(Annotated(offered, annotationsOf), shadowedBy)
      ensures forall i :: 0 <= i < |r| ==> annotationsOf(r[i]) != [] && r[i] in offered
      ensures forall i, j :: 0 <= i < |r| && 0 <= j < |r| && i != j ==> !shadowedBy(r[i], r[j])
      ensures forall m :: m in offered && annotationsOf(m) != [] ==> ShadowedByAny(m, r, shadowedBy)
    {
      RegisteredCharacterization(offered, annotationsOf, shadowedBy);
      AnnotatedMembersProperties(offered, annotationsOf, shadowedBy);
      annotatedMembers
    }

    /** `getMembersWithAnnotation`: empty for a type nobody carries. */
    function GetMembersWithAnnotation(t: AnnotationType): (r: seq<T>)
      reads this
      requires Valid() && IsEquivalence(shadowedBy)
      ensures r == InWalkOrder(t, FirstOfEach(Carrying(offered, t, annotationsOf), shadowedBy))
      ensures r == [] <==> forall i :: 0 <= i < |offered| ==> !HasAnnotationType(annotationsOf(offered[i]), t)
      ensures forall i :: 0 <= i < |r| ==> HasAnnotationType(annotationsOf(r[i]), t) && r[i] in offered
      ensures forall i, j :: 0 <= i < |r| && 0 <= j < |r| && i != j ==> !shadowedBy(r[i], r[j])
      ensures forall m :: m in offered && HasAnnotationType(annotationsOf(m), t) ==> ShadowedByAny(m, r, shadowedBy)
    {
      RegisteredCharacterization(offered, annotationsOf, shadowedBy);
      MembersWithAnnotationProperties(offered, annotationsOf, shadowedBy, t);
      if t in membersWithAnnotation then membersWithAnnotation[t] else []
    }
  }

  /** What the all-members list holds: annotated, offered members, no two
      shadowing each other, and a representative of every annotated member offered. */
  lemma AnnotatedMembersProperties<T(!new)>(offered: seq<T>, annotationsOf: T -> seq<Annotation>,
                                            shadowedBy: (T, T) -> bool)
    requires IsEquivalence(shadowedBy)
    ensures var r := FirstOfEach(Annotated(offered, annotationsOf), shadowedBy);
      && (forall i :: 0 <= i < |r| ==> annotationsOf(r[i]) != [] && r[i] in offered)
      && (forall i, j :: 0 <= i < |r| && 0 <= j < |r| && i != j ==> !shadowedBy(r[i], r[j]))
      && (forall m :: m in offered && annotationsOf(m) != [] ==> ShadowedByAny(m, r, shadowedBy))
  {
    var annotated := Annotated(offered, annotationsOf);
    FirstOfEachNoShadowing(annotated, shadowedBy);
    FirstOfEachMembers(annotated, shadowedBy);
    forall m | m in offered && annotationsOf(m) != []
      ensures ShadowedByAny(m, FirstOfEach(annotated, shadowedBy), shadowedBy)
    {
      AnnotatedContains(offered, annotationsOf, m);
      var p :| 0 <= p < |annotated| && annotated[p] == m;
      FirstOfEachRepresents(annotated, shadowedBy, p);
    }
  }

  /** What the list for type `t` holds: members carrying `t`, all offered, no
      two shadowing each other, and a representative of every member offered
      that carries `t`; it is empty exactly when no member offered carries `t`. */
  lemma MembersWithAnnotationProperties<T(!new)>(offered: seq<T>, annotationsOf: T -> seq<Annotation>,
                                                 shadowedBy: (T, T) -> bool, t: AnnotationType)
    requires IsEquivalence(shadowedBy)
    ensures var r := InWalkOrder(t, FirstOfEach(Carrying(offered, t, annotationsOf), shadowedBy));
      && (r == [] <==> forall i :: 0 <= i < |offered| ==> !HasAnnotationType(annotationsOf(offered[i]), t))
      && (forall i :: 0 <= i < |r| ==> HasAnnotationType(annotationsOf(r[i]), t) && r[i] in offered)
      && (forall i, j :: 0 <= i < |r| && 0 <= j < |r| && i != j ==> !shadowedBy(r[i], r[j]))
      && (forall m :: m in offered && HasAnnotationType(annotationsOf(m), t) ==> ShadowedByAny(m, r, shadowedBy))
  {
    CarryingListSound(offered, annotationsOf, shadowedBy, t);
    CarryingRepresented(offered, annotationsOf, shadowedBy, t);
  }

  /** The list for `t` is empty exactly when nobody carries `t`, holds only
      offered carriers of `t`, and has no two members shadowing each other. */
  lemma CarryingListSound<T(!new)>(offered: seq<T>, annotationsOf: T -> seq<Annotation>,
                                   shadowedBy: (T, T) -> bool, t: AnnotationType)
    requires IsEquivalence(shadowedBy)
    ensures var r := InWalkOrder(t, FirstOfEach(Carrying(offered, t, annotationsOf), shadowedBy));
      && (r == [] <==> forall i :: 0 <= i < |offered| ==> !HasAnnotationType(annotationsOf(offered[i]), t))
      && (forall i :: 0 <= i < |r| ==> HasAnnotationType(annotationsOf(r[i]), t) && r[i] in offered)
      && (forall i, j :: 0 <= i < |r| && 0 <= j < |r| && i != j ==> !shadowedBy(r[i], r[j]))
  {
    var carrying := Carrying(offered, t, annotationsOf);
    var kept := FirstOfEach(carrying, shadowedBy);
    CarryingNone(offered, t, annotationsOf);
    FirstOfEachEmpty(carrying, shadowedBy);
    FirstOfEachMembers(carrying, shadowedBy);
    FirstOfEachNoShadowing(carrying, shadowedBy);
    ReversedMembers(kept);
  }

  /** Every offered member carrying `t` is shadowed by a member of the list for `t`. */
  lemma CarryingRepresented<T(!new)>(offered: seq<T>, annotationsOf: T -> seq<Annotation>,
                                     shadowedBy: (T, T) -> bool, t: AnnotationType)
    requires IsEquivalence(shadowedBy)
    ensures forall m :: m in offered && HasAnnotationType(annotationsOf(m), t) ==>
      ShadowedByAny(m, InWalkOrder(t, FirstOfEach(Carrying(offered, t, annotationsOf), shadowedBy)), shadowedBy)
  {
    var carrying := Carrying(offered, t, annotationsOf);
    var kept := FirstOfEach(carrying, shadowedBy);
    forall m | m in offered && HasAnnotationType(annotationsOf(m), t)
      ensures ShadowedByAny(m, InWalkOrder(t, kept), shadowedBy)
    {
      CarryingContains(offered, t, annotationsOf, m);
      var p :| 0 <= p < |carrying| && carrying[p] == m;
      FirstOfEachRepresents(carrying, shadowedBy, p);
      ShadowedByReversed(m, kept, shadowedBy);
    }
  }

  /** Every offered member carrying `t` is among the carriers. */
  lemma {:induction false} CarryingContains<T>(offered: seq<T>, t: AnnotationType, annotationsOf: T -> seq<Annotation>, m: T)
    requires m in offered && HasAnnotationType(annotationsOf(m), t)
    ensures m in Carrying(offered, t, annotationsOf)
  {
    var init := offered[..|offered| - 1];
    if offered[|offered| - 1] != m {
      assert offered == init + [offered[|offered| - 1]];
      CarryingContains(init, t, annotationsOf, m);
    }
  }

  lemma {:induction false} AnnotatedContains<T>(offered: seq<T>, annotationsOf: T -> seq<Annotation>, m: T)
    requires m in offered && annotationsOf(m) != []
    ensures m in Annotated(offered, annotationsOf)
  {
    var init := offered[..|offered| - 1];
    if offered[|offered| - 1] != m {
      assert offered == init + [offered[|offered| - 1]];
      AnnotatedContains(init, annotationsOf, m);
    }
  }

  /** Every kept member was offered. */
  lemma FirstOfEachMembers<T>(s: seq<T>, shadowedBy: (T, T) -> bool)
    ensures forall i :: 0 <= i < |FirstOfEach(s, shadowedBy)| ==> FirstOfEach(s, shadowedBy)[i] in s
  {
    forall i | 0 <= i < |FirstOfEach(s, shadowedBy)| ensures FirstOfEach(s, shadowedBy)[i] in s {
      FirstOfEachKeepsFirst(s, shadowedBy, i);
    }
  }
}
