/**
  The `@Parameter` part of `BlockJUnit4ClassRunnerWithParameters`: the field
  validator (`FieldsValidator`) that checks that the indices of the
  `@Parameter` fields cover `0..n-1` exactly once, the choice between field
  and constructor injection, and the test-name rule.
 */
module ParameterizedRunner {
  import opened Hierarchy
  import opened Failures
  import opened FrameworkMethods
  import opened MemberRegistry
  import opened TestClasses

  /** The payload of the first annotation of type `t`, i.e. `getAnnotation(t).value()`. */
  function AnnotationValue(annotations: seq<Annotation>, t: AnnotationType): (v: int)
    requires HasAnnotationType(annotations, t)
    ensures exists i :: (0 <= i < |annotations| && annotations[i] == Annotation(t, v)
                         && forall j :: 0 <= j < i ==> annotations[j].annotationType != t)
  {
    if annotations[0].annotationType == t then annotations[0].value
    else
      assert HasAnnotationType(annotations[1..], t) by {
        var i :| 0 <= i < |annotations| && annotations[i].annotationType == t;
        assert annotations[1..][i - 1] == annotations[i];
      }
      var v := AnnotationValue(annotations[1..], t);
      var i :| 0 <= i < |annotations[1..]| && annotations[1..][i] == Annotation(t, v)
        && forall j :: 0 <= j < i ==> annotations[1..][j].annotationType != t;
      assert annotations[i + 1] == Annotation(t, v);
      v
  }

  predicate AllParameterFields(fields: seq<FrameworkField>)
  {
    forall i :: 0 <= i < |fields| ==> HasAnnotationType(fields[i].decl.annotations, Parameter)
  }

  /** The `@Parameter` index of each field, in field order. */
  function ParameterIndices(fields: seq<FrameworkField>): (r: seq<int>)
    requires AllParameterFields(fields)
    ensures |r| == |fields|
    ensures forall i :: 0 <= i < |fields| ==> r[i] == AnnotationValue(fields[i].decl.annotations, Parameter)
  {
    if fields == [] then []
    else [AnnotationValue(fields[0].decl.annotations, Parameter)] + ParameterIndices(fields[1..])
  }

  // ---------------------------------------------------------------------------
  // What the validator reports
  // ---------------------------------------------------------------------------

  predicate InRange(index: int, n: nat)
  {
    0 <= index <= n - 1
  }

  /** The first loop's errors: one per index outside `0..n-1`, in field order. */
  function InvalidIndexProblems(indices: seq<int>, n: nat): seq<Failure>
  {
    if indices == [] then []
    else
      var last := indices[|indices| - 1];
      InvalidIndexProblems(indices[..|indices| - 1], n)
        + (if InRange(last, n) then [] else [InvalidParameterIndex(last, n)])
  }

  /** The first loop reports exactly the out-of-range indices, at most one error per field. */
  lemma {:induction false} InvalidIndexProblemsSpec(indices: seq<int>, n: nat)
    ensures var r := InvalidIndexProblems(indices, n);
      && (forall f :: f in r <==> exists i :: (0 <= i < |indices| && !InRange(indices[i], n)
                                               && f == InvalidParameterIndex(indices[i], n)))
      && |r| <= |indices|
  {
    if indices != [] {
      var init := indices[..|indices| - 1];
      InvalidIndexProblemsSpec(init, n);
      assert forall i :: 0 <= i < |init| ==> init[i] == indices[i];
    }
  }

  /** One error per field whose index is out of range, in field order: the
      k-th error names the index of the k-th such field. */
  lemma {:induction false} InvalidIndexProblemsInFieldOrder(indices: seq<int>, n: nat)
    ensures var r := InvalidIndexProblems(indices, n);
      var ps := Positions(indices, x => !InRange(x, n));
      && |r| == |ps|
      && forall k :: 0 <= k < |r| ==> r[k] == InvalidParameterIndex(indices[ps[k]], n)
  {
    if indices != [] {
      var init := indices[..|indices| - 1];
      InvalidIndexProblemsInFieldOrder(init, n);
      assert forall i :: 0 <= i < |init| ==> init[i] == indices[i];
    }
  }

  /** The second loop's error for index `k`, used `uses` times. */
  function UsageProblem(k: nat, uses: nat): seq<Failure>
  {
    if uses == 0 then [ParameterNeverUsed(k)]
    else if uses > 1 then [ParameterUsedMoreThanOnce(k, uses)]
    else []
  }

  /** The second loop's errors for the indices `0..k-1`, in ascending order. */
  function UsageProblems(indices: seq<int>, k: nat): seq<Failure>
  {
    if k == 0 then []
    else UsageProblems(indices, k - 1) + UsageProblem(k - 1, multiset(indices)[k - 1])
  }

  /** The second loop reports, for each index below `k`, what its use count calls for. */
  lemma {:induction false} UsageProblemsSpec(indices: seq<int>, k: nat)
    ensures var r := UsageProblems(indices, k);
      && (forall f :: f in r <==> exists j :: 0 <= j < k && f in UsageProblem(j, multiset(indices)[j]))
      && |r| <= k
  {
    if k > 0 {
      UsageProblemsSpec(indices, k - 1);
      var before := UsageProblems(indices, k - 1);
      var last := UsageProblem(k - 1, multiset(indices)[k - 1]);
      assert UsageProblems(indices, k) == before + last;
      assert forall f :: f in before + last <==> f in before || f in last;
    }
  }

  /** Everything `validateAnnotatedFields` reports for the given indices and parameter count. */
  function ParameterProblems(indices: seq<int>, parameterCount: nat): seq<Failure>
  {
    if |indices| != parameterCount then [WrongParameterCount(|indices|, parameterCount)]
    else InvalidIndexProblems(indices, |indices|) + UsageProblems(indices, |indices|)
  }

  /** `[0, 1, ..., n - 1]`. */
  function Range(n: nat): (r: seq<int>)
    ensures |r| == n && forall i :: 0 <= i < n ==> r[i] == i
  {
    if n == 0 then [] else Range(n - 1) + [n - 1]
  }

  lemma {:induction false} RangeCounts(n: nat, x: int)
    ensures multiset(Range(n))[x] == if 0 <= x < n then 1 else 0
  {
    if n > 0 {
      RangeCounts(n - 1, x);
      var below := Range(n - 1);
      assert Range(n) == below + [n - 1];
      assert multiset(below + [n - 1]) == multiset(below) + multiset{n - 1};
      assert multiset{n - 1}[x] == if x == n - 1 then 1 else 0;
    }
  }

  /** The indices are a permutation of `0..n-1`. */
  predicate IsIndexPermutation(indices: seq<int>, n: nat)
  {
    multiset(indices) == multiset(Range(n))
  }

  /** A count mismatch is reported alone: one error and no index checks. */
  lemma CountMismatchAlone(indices: seq<int>, parameterCount: nat)
    requires |indices| != parameterCount
    ensures |ParameterProblems(indices, parameterCount)| == 1
    ensures ParameterProblems(indices, parameterCount)[0].WrongParameterCount?
  {
  }

  /** With matching counts: an out-of-range index is reported as invalid, an
      index in range used zero times as never used, one used `u > 1` times as
      used more than once with `u`; and nothing else. */
  lemma {:induction false} MatchingCountProblems(indices: seq<int>, f: Failure)
    ensures var r := ParameterProblems(indices, |indices|);
      f in r <==>
        || (exists i :: 0 <= i < |indices| && !InRange(indices[i], |indices|)
              && f == InvalidParameterIndex(indices[i], |indices|))
        || (f.ParameterNeverUsed? && f.index < |indices| && f.index !in multiset(indices))
        || (f.ParameterUsedMoreThanOnce? && f.index < |indices| && f.uses > 1
              && f.uses == multiset(indices)[f.index])
  {
    var n := |indices|;
    var usage := UsageProblems(indices, n);
    InvalidIndexProblemsSpec(indices, n);
    UsageProblemsSpec(indices, n);
    if f in usage {
      var j :| 0 <= j < n && f in UsageProblem(j, multiset(indices)[j]);
    }
    if f.ParameterNeverUsed? && f.index < n && f.index !in multiset(indices) {
      assert f in UsageProblem(f.index, multiset(indices)[f.index]);
    }
    if f.ParameterUsedMoreThanOnce? && f.index < n && f.uses > 1 && f.uses == multiset(indices)[f.index] {
      assert f in UsageProblem(f.index, multiset(indices)[f.index]);
    }
  }

  /** The usage errors come in ascending index order. */
  lemma {:induction false} UsageProblemsAscending(indices: seq<int>, k: nat, i: nat, j: nat)
    requires i < j < |UsageProblems(indices, k)|
    ensures UsageProblemIndex(UsageProblems(indices, k)[i]) < UsageProblemIndex(UsageProblems(indices, k)[j])
  {
    var before := UsageProblems(indices, k - 1);
    var last := UsageProblem(k - 1, multiset(indices)[k - 1]);
    assert UsageProblems(indices, k) == before + last;
    UsageProblemsBelow(indices, k - 1);
    if j < |before| {
      UsageProblemsAscending(indices, k - 1, i, j);
    } else {
      assert UsageProblems(indices, k)[i] == before[i];
    }
  }

  function UsageProblemIndex(f: Failure): int
  {
    match f
    case ParameterNeverUsed(k) => k
    case ParameterUsedMoreThanOnce(k, _) => k
    case _ => -1
  }

  lemma UsageProblemsBelow(indices: seq<int>, k: nat)
    ensures forall i :: 0 <= i < |UsageProblems(indices, k)| ==>
      0 <= UsageProblemIndex(UsageProblems(indices, k)[i]) < k
  {
    forall i | 0 <= i < |UsageProblems(indices, k)|
      ensures 0 <= UsageProblemIndex(UsageProblems(indices, k)[i]) < k
    {
      var f := UsageProblems(indices, k)[i];
      UsageProblemsSpec(indices, k);
      assert f in UsageProblems(indices, k);
    }
  }

  /** The validator reports nothing exactly when the counts match and the
      indices are a permutation of `0..n-1`. */
  lemma {:induction false} NoProblemsIffPermutation(indices: seq<int>, parameterCount: nat)
    ensures ParameterProblems(indices, parameterCount) == []
        <==> |indices| == parameterCount && IsIndexPermutation(indices, parameterCount)
  {
    var n := |indices|;
    if n == parameterCount {
      if ParameterProblems(indices, n) == [] {
        NoProblemsGivesPermutation(indices);
      }
      if IsIndexPermutation(indices, n) {
        PermutationGivesNoProblems(indices);
      }
    } else {
      assert |multiset(indices)| == n && |multiset(Range(parameterCount))| == parameterCount;
    }
  }

  lemma NoProblemsGivesPermutation(indices: seq<int>)
    requires ParameterProblems(indices, |indices|) == []
    ensures IsIndexPermutation(indices, |indices|)
  {
    var n := |indices|;
    forall x ensures multiset(indices)[x] == multiset(Range(n))[x]
    {
      NoProblemsCount(indices, x);
    }
    assert multiset(indices) == multiset(Range(n));
  }

  lemma NoProblemsCount(indices: seq<int>, x: int)
    requires ParameterProblems(indices, |indices|) == []
    ensures multiset(indices)[x] == multiset(Range(|indices|))[x]
  {
    var n := |indices|;
    RangeCounts(n, x);
    if InRange(x, n) {
      if multiset(indices)[x] != 1 {
        MatchingCountProblems(indices, UsageProblem(x, multiset(indices)[x])[0]);
      }
    } else if x in multiset(indices) {
      var i :| 0 <= i < n && indices[i] == x;
      MatchingCountProblems(indices, InvalidParameterIndex(x, n));
    }
  }

  lemma PermutationGivesNoProblems(indices: seq<int>)
    requires IsIndexPermutation(indices, |indices|)
    ensures ParameterProblems(indices, |indices|) == []
  {
    var n := |indices|;
    if ParameterProblems(indices, n) != [] {
      var f := ParameterProblems(indices, n)[0];
      MatchingCountProblems(indices, f);
      if f.InvalidParameterIndex? {
        var i :| 0 <= i < n && !InRange(indices[i], n) && f == InvalidParameterIndex(indices[i], n);
        assert indices[i] in multiset(indices);
        RangeCounts(n, indices[i]);
      } else {
        RangeCounts(n, f.index);
      }
    }
  }

  // ---------------------------------------------------------------------------
  // The validator itself
  // ---------------------------------------------------------------------------

  /** `validateAnnotatedFields`: counts index uses in an array, then scans it. */
  method ValidateAnnotatedFields(fields: seq<FrameworkField>, parameterCount: nat) returns (errors: seq<Failure>)
    requires AllParameterFields(fields)
    ensures errors == ParameterProblems(ParameterIndices(fields), parameterCount)
  {
    var indices := ParameterIndices(fields);
    var list := new ErrorList();
    if |fields| != parameterCount {
      list.Add(WrongParameterCount(|fields|, parameterCount));
    } else {
      var usedIndices := new nat[|fields|](_ => 0);
      CountIndices(indices, usedIndices, list);
      ReportUsage(indices, usedIndices, list);
    }
    return list.items;
  }

  /** The first loop: counts each valid index and reports each invalid one;
      `indices` are the fields' `@Parameter` values, in field order. */
  method CountIndices(indices: seq<int>, usedIndices: array<nat>, list: ErrorList)
    requires usedIndices.Length == |indices|
    requires forall k :: 0 <= k < usedIndices.Length ==> usedIndices[k] == 0
    requires list.items == []
    modifies usedIndices, list
    ensures list.items == InvalidIndexProblems(indices, |indices|)
    ensures forall k :: 0 <= k < usedIndices.Length ==> usedIndices[k] == multiset(indices)[k]
  {
    var n := |indices|;
    var j := 0;
    while j < n
      invariant 0 <= j <= n
      invariant list.items == InvalidIndexProblems(indices[..j], n)
      invariant forall k :: 0 <= k < n ==> usedIndices[k] == Uses(indices, j, k)
    {
      var index := indices[j];
      InvalidIndexStep(indices, j, n);
      if index < 0 || index > n - 1 {
        list.Add(InvalidParameterIndex(index, n));
      } else {
        usedIndices[index] := usedIndices[index] + 1;
      }
      j := j + 1;
    }
    assert indices[..n] == indices;
    UsesCountAll(indices);
  }

  lemma UsesCountAll(indices: seq<int>)
    ensures forall k :: Uses(indices, |indices|, k) == multiset(indices)[k]
  {
    forall k ensures Uses(indices, |indices|, k) == multiset(indices)[k] {
      UsesCount(indices, |indices|, k);
      assert indices[..|indices|] == indices;
    }
  }

  /** How many of the first `j` indices equal `k`. */
  function Uses(indices: seq<int>, j: nat, k: int): nat
    requires j <= |indices|
  {
    if j == 0 then 0 else Uses(indices, j - 1, k) + (if indices[j - 1] == k then 1 else 0)
  }

  lemma {:induction false} UsesCount(indices: seq<int>, j: nat, k: int)
    requires j <= |indices|
    ensures Uses(indices, j, k) == multiset(indices[..j])[k]
  {
    if j > 0 {
      UsesCount(indices, j - 1, k);
      assert indices[..j] == indices[..j - 1] + [indices[j - 1]];
    }
  }

  /** What one more field adds to the first loop's errors. */
  lemma InvalidIndexStep(indices: seq<int>, j: nat, n: nat)
    requires j < |indices|
    ensures InvalidIndexProblems(indices[..j + 1], n) == InvalidIndexProblems(indices[..j], n)
      + (if InRange(indices[j], n) then [] else [InvalidParameterIndex(indices[j], n)])
  {
    assert indices[..j + 1][..j] == indices[..j];
  }

  /** The second loop: one error per index never used or used more than once, ascending. */
  method ReportUsage(indices: seq<int>, usedIndices: array<nat>, list: ErrorList)
    requires usedIndices.Length == |indices|
    requires forall k :: 0 <= k < usedIndices.Length ==> usedIndices[k] == multiset(indices)[k]
    modifies list
    ensures list.items == old(list.items) + UsageProblems(indices, |indices|)
  {
    var index := 0;
    while index < usedIndices.Length
      invariant 0 <= index <= usedIndices.Length
      invariant list.items == old(list.items) + UsageProblems(indices, index)
    {
      var numberOfUse := usedIndices[index];
      assert UsageProblems(indices, index + 1) == UsageProblems(indices, index) + UsageProblem(index, numberOfUse);
      if numberOfUse == 0 {
        list.Add(ParameterNeverUsed(index));
      } else if numberOfUse > 1 {
        list.Add(ParameterUsedMoreThanOnce(index, numberOfUse));
      }
      index := index + 1;
    }
  }

  /** `FieldsValidator.validateTestClass`: no errors when no field carries `@Parameter`. */
  method ValidateTestClass(testClass: TestClass, parameterCount: nat) returns (errors: seq<Failure>)
    requires testClass.Valid()
    ensures var fields := testClass.GetAnnotatedFieldsWith(Parameter);
      && AllParameterFields(fields)
      && errors == (if fields == [] then [] else ParameterProblems(ParameterIndices(fields), parameterCount))
  {
    var annotatedFields := testClass.GetAnnotatedFieldsWith(Parameter);
    ParameterFieldsCarry(testClass);
    if |annotatedFields| == 0 {
      return [];
    }
    errors := ValidateAnnotatedFields(annotatedFields, parameterCount);
  }

  lemma ParameterFieldsCarry(testClass: TestClass)
    requires testClass.Valid()
    ensures AllParameterFields(testClass.GetAnnotatedFieldsWith(Parameter))
    ensures testClass.GetAnnotatedFieldsWith(Parameter) == [] <==>
      forall i :: 0 <= i < |testClass.OfferedFields()| ==>
        !HasAnnotationType(testClass.OfferedFields()[i].decl.annotations, Parameter)
  {
    FieldShadowingIsEquivalence();
    MembersWithAnnotationProperties(testClass.OfferedFields(), FieldAnnotations, FieldShadowedBy, Parameter);
  }

  // ---------------------------------------------------------------------------
  // Injection and naming
  // ---------------------------------------------------------------------------

  datatype Injection = FieldInjection | ConstructorInjection

  /** `createTest`: field injection iff some field of the hierarchy carries `@Parameter`. */
  method CreateTestInjection(testClass: TestClass) returns (injection: Injection)
    requires testClass.Valid()
    ensures injection == FieldInjection <==>
      exists i :: 0 <= i < |testClass.OfferedFields()|
        && HasAnnotationType(testClass.OfferedFields()[i].decl.annotations, Parameter)
  {
    ParameterFieldsCarry(testClass);
    if |testClass.GetAnnotatedFieldsWith(Parameter)| != 0 {
      return FieldInjection;
    }
    return ConstructorInjection;
  }

  /** `validateConstructor`: the zero-argument-constructor check (whose
      findings are given) runs only when fields are injected. */
  method ValidateConstructor(testClass: TestClass, zeroArgProblems: seq<Failure>, errors: ErrorList)
    requires testClass.Valid()
    modifies errors
    ensures errors.items == old(errors.items)
      + (if testClass.GetAnnotatedFieldsWith(Parameter) != [] then zeroArgProblems else [])
  {
    if |testClass.GetAnnotatedFieldsWith(Parameter)| != 0 {
      errors.AddAll(zeroArgProblems);
    }
  }

  /** `testName`: the method's name followed by the runner's name. */
  function TestName(m: FrameworkMethod, runnerName: string): (r: string)
    ensures |r| == |m.Name()| + |runnerName|
    ensures r[..|m.Name()|] == m.Name() && r[|m.Name()|..] == runnerName
  {
    m.Name() + runnerName
  }
}
