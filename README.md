# JUnit test-class metadata, modelled in Dafny

This project models how JUnit 4 discovers the annotated members of a test
class and proves properties of that model. It covers:

- the member registry of `TestClass`, filled by walking from the class up to
  the root;
- the annotation collection and shadowing rules of `FrameworkMethod`;
- the `@Parameter` field validator and injection choice of
  `BlockJUnit4ClassRunnerWithParameters`;
- the filter-specification parsing of `FilterFactories`;
- the two constructor-count validators.

Reflection is replaced by plain data. A class hierarchy is a sequence of
class records (`Hierarchy.ClassDecl`), and a class is referred to by its
index. A superclass always has a larger index, so the walk up the chain
terminates. `None` stands for a null `Class<?>`. Exceptions are values of
`Failures.Failure`, and `Failure.Message` renders the text the source puts
into each one.

The source works in place, so the model does too:

- The registry `MemberRegistry.Members<T>` is a class whose list and map
  fields its methods update, as `TestClass.Members` does.
- `TestClasses.TestClass` is built by a constructor that runs the nested loops
  over classes, methods and sorted fields.
- The validators append to a caller-owned `Failures.ErrorList`.
- Each method is proved against a specification function. The properties the
  source promises are proved about those functions.

The registry has two descriptions. `Registered` folds the registry's own
update steps over the members offered. The independent description keeps, in
walk order, the first annotated member of each shadowing class
(`FirstOfEach(Annotated(...))`). Per annotation type it keeps the same among
the members carrying that type (`Carrying`), reversed for `Before` and
`BeforeClass`. `RegisteredCharacterization` proves the two agree.

Two consequences of the code are worth stating up front:

- A member shadowed by one already registered is skipped, not swapped in.
  Because the walk starts at the class itself, the most-derived declaration is
  the one kept.
- A subclass method redeclared without annotations still inherits the
  annotations of the same-signature methods above it, because
  `collectAnnotationsForMethod` merges them up the chain. So it stays
  registered, with the inherited annotations.

## Model

| member | source | states |
|---|---|---|
| Hierarchy.Chain | src/main/java/org/junit/runners/model/TestClass.java:107-115 | the superclass chain is empty exactly for a null class, starts with the class itself, and stays within the hierarchy |
| Hierarchy.ChainLinks | src/main/java/org/junit/runners/model/TestClass.java:107-115 | each chain entry after the first is the superclass of the one before, and the last entry has no superclass |
| Hierarchy.ChainIncreasing | src/main/java/org/junit/runners/model/TestClass.java:107-115 | the walk climbs strictly: no class is visited twice |
| Hierarchy.PublicConstructors | src/main/java/org/junit/runners/model/TestClass.java:139-142 | `getConstructors()` reports only public constructors of the class, and every public constructor it declares |
| FrameworkMethods.IsShadowedBy | src/main/java/org/junit/runners/model/FrameworkMethod.java:143-157 | the loop answers true iff the names are equal and the parameter-type lists have equal length and equal elements |
| TestClasses.MethodShadowingIsEquivalence | src/main/java/org/junit/runners/model/FrameworkMethod.java:143-157 | method shadowing is reflexive, symmetric and transitive |
| TestClasses.FieldShadowingIsEquivalence | src/test/java/org/junit/runners/model/TestClassTest.java:35-49 | field shadowing (same name) is reflexive, symmetric and transitive |
| FrameworkMethods.FindDeclaredMethod | src/main/java/org/junit/runners/model/FrameworkMethod.java:224-225 | stands for `getDeclaredMethod`: the first declared method, in record order, with the template's signature, or none when no declared method has it (see the Left out line on bridge methods) |
| FrameworkMethods.TemplateAnnotations | src/main/java/org/junit/runners/model/FrameworkMethod.java:221-236 | the annotations of the first declared method with the template's signature when that method is not private; none when there is no such method or every such method is private; anything returned comes from a non-private same-signature method |
| FrameworkMethods.MergedExtends | src/main/java/org/junit/runners/model/FrameworkMethod.java:238-246 | `addAnnotations` never removes or reorders the current annotations |
| FrameworkMethods.MergedHasType | src/main/java/org/junit/runners/model/FrameworkMethod.java:238-246 | after merging, a type is present iff it was present before or among the additional annotations |
| FrameworkMethods.MergedDistinct | src/main/java/org/junit/runners/model/FrameworkMethod.java:238-246 | merging keeps the list free of two annotations of one type |
| FrameworkMethods.MergedOrigin | src/main/java/org/junit/runners/model/FrameworkMethod.java:238-246 | each appended annotation is the first of its type among the additional ones, and its type was absent before |
| FrameworkMethods.ContainsAnnotationWithType | src/main/java/org/junit/runners/model/FrameworkMethod.java:248-256 | the loop answers true iff some annotation has the given type |
| FrameworkMethods.AddAnnotations | src/main/java/org/junit/runners/model/FrameworkMethod.java:238-246 | the loop computes the merge of the current and the additional annotations |
| FrameworkMethods.CollectAnnotationsForMethod | src/main/java/org/junit/runners/model/FrameworkMethod.java:211-219 | walking from the declaring class to the root, the loop yields the annotations collected over the whole chain |
| FrameworkMethods.CollectedDistinct | src/main/java/org/junit/runners/model/FrameworkMethod.java:211-219 | the collected annotations never hold two of one type |
| FrameworkMethods.CollectedAccumulates | src/main/java/org/junit/runners/model/FrameworkMethod.java:211-219 | a type contributed by any class of the chain is present in the collection |
| FrameworkMethods.CollectedNearestWins | src/main/java/org/junit/runners/model/FrameworkMethod.java:211-219 | each collected annotation comes from the nearest class that contributes its type, and it is the first annotation of that type there |
| FrameworkMethods.CollectedHasType | src/main/java/org/junit/runners/model/FrameworkMethod.java:211-219 | a type is collected iff some class of the chain contributes it |
| FrameworkMethods.CollectedAnnotationsSpec | src/main/java/org/junit/runners/model/FrameworkMethod.java:211-256 | for a method: distinct types; a type present iff contributed somewhere on the chain; each annotation from the nearest contributor |
| FrameworkMethods.NewFrameworkMethod | src/main/java/org/junit/runners/model/FrameworkMethod.java:32-39 | a null method is refused with the fixed message and nothing else is; otherwise the result holds the method and its collected annotations |
| FrameworkMethods.GetAnnotations | src/main/java/org/junit/runners/model/FrameworkMethod.java:194-196 | each call returns a freshly allocated array holding the annotations |
| FrameworkMethods.PublicVoidProblemsSpec | src/main/java/org/junit/runners/model/FrameworkMethod.java:98-109 | there is no problem iff the staticness matches and the method is public and void; each problem appears iff its condition holds, in the order static, public, void |
| FrameworkMethods.ValidatePublicVoid | src/main/java/org/junit/runners/model/FrameworkMethod.java:98-109 | the caller's error list keeps its entries and gains exactly those problems |
| FrameworkMethods.ValidatePublicVoidNoArg | src/main/java/org/junit/runners/model/FrameworkMethod.java:81-86 | the same additions, then exactly one more iff the method has parameters |
| FrameworkMethods.ProducesType | src/main/java/org/junit/runners/model/FrameworkMethod.java:182-185 | a method with parameters, or a type that is not a plain class, is never produced; a produced type is assignable from the return type |
| FrameworkMethods.ProducesOwnReturnType | src/main/java/org/junit/runners/model/FrameworkMethod.java:182-185 | with reflexive assignability, a no-argument method produces its own return type |
| FrameworkMethods.ProducesSupertype | src/main/java/org/junit/runners/model/FrameworkMethod.java:182-185 | with transitive assignability, a method producing a type also produces every type that type is assignable to |
| MemberRegistry.Annotated | src/main/java/org/junit/runners/model/TestClass.java:203-207 | only members with at least one annotation are registered, and each comes from the members offered |
| MemberRegistry.Carrying | src/main/java/org/junit/runners/model/TestClass.java:213-216 | a member is filed under a type only if it carries that type |
| MemberRegistry.FirstOfEachKeepsFirst | src/main/java/org/junit/runners/model/TestClass.java:209-212 | a kept member has no earlier member that shadows it, so the first one offered (the most-derived) is kept, not a later one |
| MemberRegistry.FirstOfEachNoShadowing | src/main/java/org/junit/runners/model/TestClass.java:209-212 | no kept member is shadowed by another kept member |
| MemberRegistry.FirstOfEachRepresents | src/main/java/org/junit/runners/model/TestClass.java:209-212 | every member offered is shadowed by some kept member |
| MemberRegistry.FirstOfEachMembers | src/main/java/org/junit/runners/model/TestClass.java:209-212 | every kept member was offered |
| MemberRegistry.FirstOfEachEmpty | src/main/java/org/junit/runners/model/TestClass.java:243-249 | nothing is kept exactly when nothing was offered |
| MemberRegistry.FirstOfEachKeepsOrder | src/main/java/org/junit/runners/model/TestClass.java:209-212 | skipping shadowed members keeps any order the offered members were in |
| MemberRegistry.AnnotatedKeepsOrder | src/main/java/org/junit/runners/model/TestClass.java:203-207 | dropping unannotated members keeps any order the offered members were in |
| MemberRegistry.CarryingNone | src/main/java/org/junit/runners/model/TestClass.java:243-249 | no member is filed under a type exactly when no offered member carries it |
| MemberRegistry.ReversedAt | src/main/java/org/junit/runners/model/TestClass.java:224-226 | inserting at index 0 puts the k-th registered member at position length-1-k |
| MemberRegistry.ReversedMembers | src/main/java/org/junit/runners/model/TestClass.java:224-226 | a `Before`/`BeforeClass` list is its walk-order list back to front, element by element |
| MemberRegistry.ShadowedByReversed | src/main/java/org/junit/runners/model/TestClass.java:223-229 | the shadowing test gives the same answer on a front-inserted list as on the same list in walk order |
| MemberRegistry.InsertedTwice | src/main/java/org/junit/runners/model/TestClass.java:219-231 | filing the same member twice under one type changes nothing the second time |
| MemberRegistry.IndexAfterFor | src/main/java/org/junit/runners/model/TestClass.java:213-216 | after the annotation loop of `addMember`, the list for a type has changed only if the member carries that type, and then by one insertion |
| MemberRegistry.RegisteredCharacterization | src/main/java/org/junit/runners/model/TestClass.java:203-250 | the registry after any offers equals the reference description: first annotated member of each shadowing class in walk order; per type, the same among carriers, reversed for `Before` and `BeforeClass` |
| MemberRegistry.AnnotatedMembersProperties | src/main/java/org/junit/runners/model/TestClass.java:209-217 | the all-members list holds only annotated offered members, no two shadowing each other, and a representative of every annotated member offered |
| MemberRegistry.MembersWithAnnotationProperties | src/main/java/org/junit/runners/model/TestClass.java:219-250 | a per-type list holds only offered members carrying the type, no two shadowing each other, and a representative of every offered member carrying it; it is empty exactly when no offered member carries it |
| MemberRegistry.AnnotatedContains | src/main/java/org/junit/runners/model/TestClass.java:203-207 | every annotated member offered passes the annotation filter |
| MemberRegistry.CarryingContains | src/main/java/org/junit/runners/model/TestClass.java:213-216 | every offered member carrying a type is filed under that type before shadowing is applied |
| MemberRegistry.CarryingRepresented | src/main/java/org/junit/runners/model/TestClass.java:219-250 | every offered member carrying a type is shadowed by some member of that type's list, whatever its order |
| MemberRegistry.Members.constructor | src/main/java/org/junit/runners/model/TestClass.java:200-201 | a new registry is empty and consistent with an empty offer history |
| MemberRegistry.Members.AddMemberIfNotShadowed | src/main/java/org/junit/runners/model/TestClass.java:203-207 | the registry stays consistent with the offers so far; an unannotated member changes neither the list nor the map |
| MemberRegistry.Members.AddMember | src/main/java/org/junit/runners/model/TestClass.java:209-217 | the all-members list and the map become their one-step updates for the member |
| MemberRegistry.Members.AddMemberToListOfAnnotationType | src/main/java/org/junit/runners/model/TestClass.java:219-231 | only the list for the given type changes: the member is prepended for `Before`/`BeforeClass`, appended otherwise, and not added if something there shadows it |
| MemberRegistry.Members.EnsureListOfMembersForAnnotationTypeExists | src/main/java/org/junit/runners/model/TestClass.java:233-237 | a missing type gets an empty list, and an existing list is untouched |
| MemberRegistry.Members.GetAnnotatedMembers | src/main/java/org/junit/runners/model/TestClass.java:239-241 | the list equals the reference description; its members are annotated and were offered; no two shadow each other; every annotated member offered is represented |
| MemberRegistry.Members.GetMembersWithAnnotation | src/main/java/org/junit/runners/model/TestClass.java:243-250 | the list equals the reference description; it is empty, not an error, exactly when no offered member carries the type; its members carry the type; no two shadow each other; every offered member carrying the type is represented |
| TestClasses.NameBeforeTotal | src/main/java/org/junit/runners/model/TestClass.java:61-65 | the field-name comparison orders any two names one way or the other |
| TestClasses.NameBeforeTransitive | src/main/java/org/junit/runners/model/TestClass.java:61-65 | the field-name comparison is transitive |
| TestClasses.InsertByName | src/main/java/org/junit/runners/model/TestClass.java:59-67 | inserting a field into a name-sorted list gives a sorted list with the same fields plus the new one |
| TestClasses.SortByName | src/main/java/org/junit/runners/model/TestClass.java:59-67 | the result is sorted by name and is a permutation of the input |
| TestClasses.SortedDeclaredFields | src/main/java/org/junit/runners/model/TestClass.java:59-67 | a class's declared fields in ascending name order, none lost or added |
| TestClasses.FrameworkMethodsOf | src/main/java/org/junit/runners/model/TestClass.java:48-50 | position p holds the declared method p, wrapped with its collected annotations |
| TestClasses.FrameworkFieldsOf | src/main/java/org/junit/runners/model/TestClass.java:53-55 | position p holds the p-th sorted field, tagged with its declaring class |
| TestClasses.GetSuperClasses | src/main/java/org/junit/runners/model/TestClass.java:107-115 | the loop returns exactly the superclass chain |
| TestClasses.Positions | src/main/java/org/junit/runners/model/TestClass.java:155-187 | the positions whose element passes the filter, strictly ascending, each passing, none missing |
| TestClasses.InstanceValues | src/main/java/org/junit/runners/model/TestClass.java:155-171 | exactly one value per member whose value is an instance, taken from that member, in member order |
| TestClasses.MethodValues | src/main/java/org/junit/runners/model/TestClass.java:173-187 | success iff no method throws, and then only instances are kept; otherwise the first throwing method's name and cause are reported as "Exception in <name>" |
| TestClasses.MethodValuesSelect | src/main/java/org/junit/runners/model/TestClass.java:173-187 | when no method throws, exactly one value per method whose result is an instance, taken from that method, in method order |
| TestClasses.MethodValuesErrStays | src/main/java/org/junit/runners/model/TestClass.java:173-187 | once a method has thrown, later methods do not change the outcome |
| TestClasses.TestClass.Create | src/main/java/org/junit/runners/model/TestClass.java:40-46 | a non-null class with more than one public constructor is refused with the fixed message; a null class or one with at most one public constructor is built |
| TestClasses.TestClass.Scan | src/main/java/org/junit/runners/model/TestClass.java:40-57 | the built object's registries hold exactly what walking the chain (methods, then name-sorted fields, class by class) offered |
| TestClasses.TestClass.GetAnnotatedMethods | src/main/java/org/junit/runners/model/TestClass.java:75-77 | the first annotated method of each signature over the walk, in walk order |
| TestClasses.TestClass.GetAnnotatedMethodsWith | src/main/java/org/junit/runners/model/TestClass.java:83-86 | the first method of each signature among those carrying the type, in walk order, reversed for `Before`/`BeforeClass` |
| TestClasses.TestClass.GetAnnotatedFields | src/main/java/org/junit/runners/model/TestClass.java:94-96 | the first annotated field of each name over the walk, in walk order |
| TestClasses.TestClass.GetAnnotatedFieldsWith | src/main/java/org/junit/runners/model/TestClass.java:102-105 | the first field of each name among those carrying the type, in walk order, reversed for `Before`/`BeforeClass` |
| TestClasses.TestClass.GetName | src/main/java/org/junit/runners/model/TestClass.java:127-132 | "null" for a null class, otherwise the class's own name |
| TestClasses.TestClass.GetClassAnnotations | src/main/java/org/junit/runners/model/TestClass.java:148-153 | no annotations for a null class, otherwise the class's own annotations |
| TestClasses.TestClass.GetOnlyConstructor | src/main/java/org/junit/runners/model/TestClass.java:139-143 | success iff exactly one public constructor, which is returned; otherwise the failed assertion with the actual count |
| TestClasses.TestClass.GetAnnotatedFieldValues | src/main/java/org/junit/runners/model/TestClass.java:155-171 | the instance values of the fields annotated with the type, in registry order |
| TestClasses.TestClass.GetAnnotatedMethodValues | src/main/java/org/junit/runners/model/TestClass.java:173-187 | the instance results of the annotated methods in registry order, or the wrapped failure of the first one that throws |
| TestClasses.CollectInstanceValues | src/main/java/org/junit/runners/model/TestClass.java:157-170 | the loop computes the instance values |
| TestClasses.CollectMethodValues | src/main/java/org/junit/runners/model/TestClass.java:175-186 | the loop computes the method values and stops at the first throw |
| TestClasses.Walk | src/main/java/org/junit/runners/model/TestClass.java:47-56 | after the loop over the chain, each registry has been offered exactly the stream of the whole walk and is consistent with it |
| TestClasses.OfferDeclaredMembers | src/main/java/org/junit/runners/model/TestClass.java:48-55 | one class adds its methods to the method stream and its sorted fields to the field stream |
| TestClasses.OfferDeclaredMethods | src/main/java/org/junit/runners/model/TestClass.java:48-50 | the registry is offered the class's declared methods in order and stays consistent |
| TestClasses.OfferDeclaredMethod | src/main/java/org/junit/runners/model/TestClass.java:49 | one declared method, wrapped with its collected annotations, is offered |
| TestClasses.OfferDeclaredFields | src/main/java/org/junit/runners/model/TestClass.java:53-55 | the registry is offered the class's fields in name order and stays consistent |
| TestClasses.OfferDeclaredField | src/main/java/org/junit/runners/model/TestClass.java:54 | one sorted field is offered |
| TestClasses.FrameworkFieldsOfSorted | src/main/java/org/junit/runners/model/TestClass.java:53-55 | the fields offered for one class are in ascending name order |
| TestClasses.FieldStreamOrder | src/main/java/org/junit/runners/model/TestClass.java:47-67 | along the walk, fields are offered class by class in walk order, and each class's in ascending name order |
| TestClasses.AnnotatedFieldsSortedByName | src/main/java/org/junit/runners/model/TestClass.java:47-67 | for any test class, the annotated fields come out grouped by declaring class in walk order (subclass first), and one class's fields in ascending name order |
| TestClasses.NullClassIsEmpty | src/main/java/org/junit/runners/model/TestClass.java:127-153 | a null class is named "null", has no annotations, and every annotated-member list is empty |
| ParameterizedRunner.AnnotationValue | src/main/java/org/junit/runners/parameterized/BlockJUnit4ClassRunnerWithParameters.java:147-148 | the value read is that of the first `@Parameter` annotation on the field |
| ParameterizedRunner.ParameterIndices | src/main/java/org/junit/runners/parameterized/BlockJUnit4ClassRunnerWithParameters.java:146-148 | one index per field, in field order |
| ParameterizedRunner.InvalidIndexProblemsSpec | src/main/java/org/junit/runners/parameterized/BlockJUnit4ClassRunnerWithParameters.java:149-157 | the first loop reports the indices below 0 or above n-1 and no other, at most one error per field |
| ParameterizedRunner.InvalidIndexProblemsInFieldOrder | src/main/java/org/junit/runners/parameterized/BlockJUnit4ClassRunnerWithParameters.java:149-157 | exactly one error per field with an out-of-range index, in field order, the k-th naming the k-th such index |
| ParameterizedRunner.UsageProblemsSpec | src/main/java/org/junit/runners/parameterized/BlockJUnit4ClassRunnerWithParameters.java:159-169 | the second loop reports, for each index below n, "never used" at 0 uses and "used more than once (k)" at k>1 uses, and nothing else |
| ParameterizedRunner.UsageProblemsAscending | src/main/java/org/junit/runners/parameterized/BlockJUnit4ClassRunnerWithParameters.java:159-169 | usage errors come in ascending index order |
| ParameterizedRunner.RangeCounts | src/main/java/org/junit/runners/parameterized/BlockJUnit4ClassRunnerWithParameters.java:159 | the index range 0..n-1 holds each index once and nothing else |
| ParameterizedRunner.CountMismatchAlone | src/main/java/org/junit/runners/parameterized/BlockJUnit4ClassRunnerWithParameters.java:138-143 | when the field count differs from the parameter count, exactly one error is reported and no index is checked |
| ParameterizedRunner.MatchingCountProblems | src/main/java/org/junit/runners/parameterized/BlockJUnit4ClassRunnerWithParameters.java:144-169 | with matching counts, an error is reported iff it is an out-of-range index, an unused index in range, or an index in range used k>1 times with that k |
| ParameterizedRunner.NoProblemsIffPermutation | src/main/java/org/junit/runners/parameterized/BlockJUnit4ClassRunnerWithParameters.java:135-172 | no error iff the counts match and the indices are a permutation of 0..n-1 |
| ParameterizedRunner.NoProblemsGivesPermutation | src/main/java/org/junit/runners/parameterized/BlockJUnit4ClassRunnerWithParameters.java:144-169 | with matching counts and no error, the indices are a permutation of 0..n-1 |
| ParameterizedRunner.PermutationGivesNoProblems | src/main/java/org/junit/runners/parameterized/BlockJUnit4ClassRunnerWithParameters.java:144-169 | indices that are a permutation of 0..n-1 give no error |
| ParameterizedRunner.ValidateAnnotatedFields | src/main/java/org/junit/runners/parameterized/BlockJUnit4ClassRunnerWithParameters.java:135-172 | the method's error list is the reference list of problems for the fields' indices |
| ParameterizedRunner.CountIndices | src/main/java/org/junit/runners/parameterized/BlockJUnit4ClassRunnerWithParameters.java:145-158 | the counting loop reports the invalid indices and leaves in each array slot the number of fields using that index |
| ParameterizedRunner.ReportUsage | src/main/java/org/junit/runners/parameterized/BlockJUnit4ClassRunnerWithParameters.java:159-169 | the scanning loop appends the usage errors in ascending index order |
| ParameterizedRunner.ValidateTestClass | src/main/java/org/junit/runners/parameterized/BlockJUnit4ClassRunnerWithParameters.java:125-133 | no errors when no field carries `@Parameter`; otherwise the validator's problems for those fields |
| ParameterizedRunner.ParameterFieldsCarry | src/main/java/org/junit/runners/parameterized/BlockJUnit4ClassRunnerWithParameters.java:108-114 | the `@Parameter` fields all carry the annotation, and there are none exactly when no field of the hierarchy carries it |
| ParameterizedRunner.CreateTestInjection | src/main/java/org/junit/runners/parameterized/BlockJUnit4ClassRunnerWithParameters.java:48-54 | field injection is used iff some field of the hierarchy carries `@Parameter` |
| ParameterizedRunner.ValidateConstructor | src/main/java/org/junit/runners/parameterized/BlockJUnit4ClassRunnerWithParameters.java:92-96 | the zero-argument-constructor findings are appended only when `@Parameter` fields exist |
| ParameterizedRunner.TestName | src/main/java/org/junit/runners/parameterized/BlockJUnit4ClassRunnerWithParameters.java:87-89 | the test name is the method name followed by the runner name |
| FilterFactories.IndexOfEquals | src/main/java/org/junit/runner/FilterFactories.java:27-28 | finds the first `=` of the specification, or reports that there is none |
| FilterFactories.SplitSpec | src/main/java/org/junit/runner/FilterFactories.java:27-31 | without `=` the name is the whole specification and the arguments are empty; with `=` the name has no `=` and name + "=" + arguments rebuilds the specification |
| FilterFactories.SplitJoined | src/main/java/org/junit/runner/FilterFactories.java:27-29 | a name without `=`, joined by `=` to any arguments (which may hold `=`), splits back into that name and those arguments |
| FilterFactories.CreateFilterFactoryFromClass | src/main/java/org/junit/runner/FilterFactories.java:77-84 | the factory is built iff instantiation succeeds; a failure comes back wrapped in `FilterNotCreatedException` |
| FilterFactories.CreateFilterFactory | src/main/java/org/junit/runner/FilterFactories.java:65-75 | the factory exists iff lookup, subtype check and instantiation all succeed; every failure is a `FilterNotCreatedException` around the failing step's exception |
| FilterFactories.CreateFilter | src/main/java/org/junit/runner/FilterFactories.java:43-48 | the factory's `createFilter` is asked only after lookup and instantiation succeed, and its answer is the result; a failed factory gives a `FilterNotCreatedException` |
| FilterFactories.CreateFilterFromFilterSpec | src/main/java/org/junit/runner/FilterFactories.java:23-34 | a specification is handled as `createFilter` on its name and arguments, with empty arguments when there is no `=` |
| ConstructorValidators.SinglePublicConstructorProblems | src/main/java/org/junit/validator/SinglePublicConstructorValidator.java:18-27 | one error exactly when the class has no public constructor, otherwise none |
| ConstructorValidators.ValidateSinglePublicConstructor | src/main/java/org/junit/validator/SinglePublicConstructorValidator.java:18-27 | the validator on a test class returns the findings for its class |
| ConstructorValidators.PrivateConstructorIgnored | src/main/java/org/junit/validator/SinglePublicConstructorValidator.java:19 | adding a non-public constructor changes no finding |
| ConstructorValidators.CreateAndValidate | src/main/java/org/junit/validator/SinglePublicConstructorValidator.java:22-25 | building the test class and then validating it yields no error exactly when the class has one public constructor |
| ConstructorValidators.OnlyOneConstructorProblems | src/main/java/org/junit/runners/validation/OnlyOneConstructor.java:9-12 | at most one error, none exactly when there is one public constructor, with the fixed message |
| ConstructorValidators.ValidateOnlyOneConstructor | src/main/java/org/junit/runners/validation/OnlyOneConstructor.java:8-13 | the caller's list keeps its entries in order and gains those findings |

## Left out

- Reflection is plain data: `getDeclaredMethods`, `getDeclaredFields`, `getConstructors`, `getSuperclass` and `getAnnotations` read the class records. The order `MethodSorter` gives is the order of each record's method sequence.
- `Arrays.sort` with the name comparator is modelled as an insertion sort by name. Fields with equal names do not occur within one class, so its stability is not modelled.
- `invokeExplosively`, `Field.get` and `valueClass.isInstance` are parameters of the value collectors. The `IllegalAccessException` branch of `getAnnotatedFieldValues` is not modelled, because the source itself treats it as unreachable.
- `getOnlyConstructor`, `SinglePublicConstructorValidator` and `OnlyOneConstructor` dereference the class without a null check. The model requires a non-null class there instead of modelling the `NullPointerException`.
- `SecurityException` from `getDeclaredMethod` is not modelled.
- `FrameworkMethods.FindDeclaredMethod` resolves two declarations with the same name and parameter types (a covariant override and its compiler-generated bridge method) by record order. `Class.getDeclaredMethod` picks the one with the most specific return type, and an arbitrary one only when none is most specific. So for such a class `TemplateAnnotations` and `CollectedAnnotations` may read the annotations of a different declaration than the source does.
- Unmodifiable views: a Dafny sequence is a value, so the getters' results cannot be changed by callers.
- `toString`, `equals`/`hashCode` of `FrameworkMethod` and `isANonStaticInnerClass` depend on JVM identity and modifier bits and are not modelled.
- `ParameterizedRunner.ValidateTestClass`: the parameter list is given by its size, the only thing the validator reads.
- `ParameterizedRunner.ValidateConstructor`: `validateZeroArgConstructor` belongs to the superclass runner, which is not part of this model. Its findings are an input.
- `ParameterizedRunner.CreateTestInjection`: only the choice between field and constructor injection is modelled. Setting the fields, `newInstance` and the type-mismatch message of `createTestUsingFieldInjection` are reflective and left out.
- `ParameterizedRunner.CountIndices` takes the fields' `@Parameter` values as a sequence read before the loop, rather than reading each annotation inside the loop.
- Runner plumbing (`classBlock`, `getRunnerAnnotations`, the constructor's super call and `createAdditionalValidators`) is not modelled.
- `FilterFactories`: `Classes.getClass`, the `asSubclass` check, `ObjectFactory.createObjectWithClass` and the factory's own `createFilter` are parameters. The `Description` argument of `createFilterFromFilterSpec` is unused by the source and is dropped. The overload of `createFilter` that takes a class is the composition of `CreateFilterFactoryFromClass` with the factory's `createFilter`.
- `validateNoTypeParametersOnArgs` delegates to `NoGenericTypeParametersValidator`, which is not part of this model.
- `ReadStartedTestRunsCommand` and `TestClassValidator` carry no logic of their own.
- `FilterFactories.CreateFilterFactory`: only exceptions are modelled. The source catches `Exception` alone, so a `java.lang.Error` from class lookup or instantiation (`ExceptionInInitializerError`, `NoClassDefFoundError`, other `LinkageError`s) escapes unwrapped. The model has no such failure, so its claim that every failure is wrapped holds only for exceptions.
- `TestClasses.NameBefore` and `TestClasses.SortByName` compare names character by character as Unicode scalar values. `String.compareTo` compares UTF-16 code units, so the two orders differ for names with characters outside the Basic Multilingual Plane.
