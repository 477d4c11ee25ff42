# NSubstitute.QuickFixes in Dafny

NSubstitute.QuickFixes is a Roslyn analyzer with a matching code fix. Together they help test authors who construct a class under test with missing constructor arguments.

- **The analyzer.** It is present in two versions, and both are modelled. It looks at the first `new T(...)` in a syntax tree. It reports warning `NSHA100` there when all of these hold:
  - overload resolution failed;
  - one of the candidates is a constructor;
  - the namespace `NSubstitute` is visible.

  The newer version adds one more guard: the first constructor candidate's parameter count must differ from the number of arguments supplied.
- **The code fix.** It rebuilds the flagged creation's whole argument list from the first constructor candidate, one parameter at a time, in declaration order:
  - An abstract parameter type (an interface or an abstract class) gets the argument `_<name>Mock`. If the enclosing class has no field of that name, the fix also inserts a private field before the enclosing method and the statement `_<name>Mock = Substitute.For<T>();` before the enclosing statement.
  - Every other parameter gets the placeholder `TODO`.

Modules, one concern each:

| file | module | models |
|---|---|---|
| `wrappers.dfy` | `Wrappers` | `Option` and `Result` |
| `linq.dfy` | `Linq` | `FirstOrDefault(predicate)` and `Any(predicate)` with full contracts |
| `syntax.dfy` | `Syntax` | syntax trees; `DescendantNodes()` in document order; the first object creation |
| `semantics.dfy` | `Semantics` | symbol information, candidate reasons, parameters, the semantic model's two queries |
| `diagnostics.dfy` | `Diagnostics` | the `NSHA100` descriptor (category Testing, Warning, enabled) |
| `diagnostic_analyzer.dfy` | `DiagnosticAnalyzer` | the older analyzer |
| `helper_analyzer.dfy` | `HelperAnalyzer` | the newer analyzer, as written and corrected, and how it relates to the older one |
| `code_fix_provider.dfy` | `CodeFix` | `GenerateMocks` (a method with the parameter loop), its specification function `GenerateMocksPlan`, `FieldExists`, and the properties of the repair |
| `analyzer_examples.dfy`, `code_fix_examples.dfy` | `AnalyzerExamples`, `CodeFixExamples` | the repository's unit-test scenarios, and the inputs on which the C# code throws |

Roslyn's answers are inputs:

- `GetSymbolInfo` is a function from nodes to a candidate reason plus candidate symbols.
- `LookupNamespacesAndTypes` is a function from a position and a name to what it finds.
- `IsAbstract` is a flag on named types.
- `ToDisplayString` gives a type's rendered name, kept as an opaque string.

The document editor is modelled by the list of edits the fix gives it, in order. Each edit is an insertion before an anchor node or a replacement of one. The anchors are the enclosing method declaration, the enclosing statement and the creation itself.

Where the C# code throws, the fix produces no document. In the model that is a `Fault` in a `Result`, not a precondition. The cases are:

- no constructor candidate: the cast `FirstOrDefault` result is null and `.Parameters` dereferences it;
- a parameter type that is not an `INamedTypeSymbol`, such as an array;
- no enclosing class;
- no enclosing method declaration;
- no enclosing statement.

The faults are checked in the order the loop meets them.

**Where the intent suggested by the tests and the code disagree, the model follows the code:**

- The test names `ShouldGenerateMocksForFuncFactories` (`NSubstitute.QuickFixes.Test/UnitTests.cs:128`) and `ShouldGenerateMocksForNewParameters` (`UnitTests.cs:156`) suggest special handling for `Func<T>` factory parameters and a repair of only the newly added parameters. `GenerateMocks` has neither:
  - a `Func<T>` is a non-abstract delegate type and gets `TODO`;
  - every parameter is visited;
  - any arguments already supplied are discarded.
- The analyzers react to any `OverloadResolutionFailure`, not only to a wrong argument count. Only the newer version compares counts.
- The unit test at `NSubstitute.QuickFixes.Test/UnitTests.cs:185-214` expects no diagnostic when the types mismatch but the counts agree. Only the newer analyzer meets that expectation (`AnalyzerExamples.MatchingCountOnlyFirstVersionReports`).

## Model

| member | source | states |
|---|---|---|
| Linq.FirstOrDefault | src/NSubstitute.QuickFixes/NSubstitute.QuickFixes/NSubstituteHelperAnalyzer.cs:34-36 | `None` exactly when no element satisfies the predicate; otherwise the element at the first satisfying index, and any first satisfying index gives that element |
| Linq.Any | NSubstitute.QuickFixes/NSubstitute.QuickFixes/CodeFixProvider.cs:100 | true exactly when some element satisfies the predicate |
| DiagnosticAnalyzer.AnalyzeSymbol | NSubstitute.QuickFixes/NSubstitute.QuickFixes/DiagnosticAnalyzer.cs:29-53 | at most one diagnostic per tree. It is reported exactly when the first object creation in document order has reason OverloadResolutionFailure, a method candidate and NSubstitute in scope. It is id NSHA100, severity Warning, located at that creation |
| HelperAnalyzer.AnalyzeSymbolAsWritten | src/NSubstitute.QuickFixes/NSubstitute.QuickFixes/NSubstituteHelperAnalyzer.cs:32-59 | throws exactly when the first creation passes the reason and candidate guards (43-49) and has no argument list (51). Otherwise it reports exactly when the first method candidate's parameter count differs from the argument count and NSubstitute is found (51-56). The diagnostic is NSHA100, Warning, at the first creation (13, 20, 58) |
| HelperAnalyzer.AnalyzeSymbol | src/NSubstitute.QuickFixes/NSubstitute.QuickFixes/NSubstituteHelperAnalyzer.cs:32-59 | the same guard chain with a missing argument list counted as zero arguments: reports exactly when the first creation passes all four guards, NSHA100, Warning, at that creation |
| HelperAnalyzer.AsWrittenAgreesUnlessItThrows | src/NSubstitute.QuickFixes/NSubstitute.QuickFixes/NSubstituteHelperAnalyzer.cs:51-52 | wherever the analyzer as written does not throw, it gives the corrected analyzer's answer |
| HelperAnalyzer.NarrowsFirstVersion | src/NSubstitute.QuickFixes/NSubstitute.QuickFixes/NSubstituteHelperAnalyzer.cs:51-52 | every diagnostic of the newer version, as written or corrected, is also the older version's diagnostic |
| HelperAnalyzer.FirstVersionReportsMore | NSubstitute.QuickFixes/NSubstitute.QuickFixes/DiagnosticAnalyzer.cs:43-52 | the older version reports and the newer one does not, exactly when the older version's guards pass and the first constructor candidate has as many parameters as the creation supplies arguments |
| AnalyzerExamples.ReportsMissingConstructorArguments | NSubstitute.QuickFixes/NSubstitute.QuickFixes.Test/UnitTests.cs:42-78 | `new MyService()` against `MyService(IMyAnotherService, string, int)` with NSubstitute referenced: both versions report NSHA100 at the creation |
| AnalyzerExamples.NoDiagnosticWhenCreationBinds | NSubstitute.QuickFixes/NSubstitute.QuickFixes.Test/UnitTests.cs:17-39 | `new MyService()` where `MyService` declares no constructor, so the creation binds (no candidate reason), without NSubstitute: neither version reports, and the newer one as written does not throw |
| AnalyzerExamples.SilentWithoutNSubstitute | src/NSubstitute.QuickFixes/NSubstitute.QuickFixes/NSubstituteHelperAnalyzer.cs:54-56 | a creation whose overload resolution fails against `MyService(IMyAnotherService, string, int)`, with NSubstitute not found: the namespace guard alone keeps both versions silent (the older version's guard is at DiagnosticAnalyzer.cs:48-50) |
| AnalyzerExamples.MatchingCountOnlyFirstVersionReports | NSubstitute.QuickFixes/NSubstitute.QuickFixes.Test/UnitTests.cs:185-214 | a type mismatch with matching counts: the newer version (as written and corrected) is silent, the older one reports |
| AnalyzerExamples.OnlyFirstCreationExamined | src/NSubstitute.QuickFixes/NSubstitute.QuickFixes/NSubstituteHelperAnalyzer.cs:34-39 | with a resolving creation first and a failing one second, neither version reports |
| AnalyzerExamples.SecondCreationAloneReported | src/NSubstitute.QuickFixes/NSubstitute.QuickFixes/NSubstituteHelperAnalyzer.cs:34-58 | the second creation of that tree, alone in a tree, is reported |
| AnalyzerExamples.MissingArgumentListThrows | src/NSubstitute.QuickFixes/NSubstitute.QuickFixes/NSubstituteHelperAnalyzer.cs:51 | `new FirstService { }` against `FirstService(ISecondService)`: the newer version as written throws; the corrected one and the older one report NSHA100 |
| CodeFix.MockFieldNameInjective | NSubstitute.QuickFixes/NSubstitute.QuickFixes/CodeFixProvider.cs:67 | different parameter names give different field names `_<name>Mock` |
| CodeFix.FieldExists | NSubstitute.QuickFixes/NSubstitute.QuickFixes/CodeFixProvider.cs:98-101 | true exactly when some field declaration of the class declares, as any of its variables, a variable of that name |
| CodeFix.FailureSticks | NSubstitute.QuickFixes/NSubstitute.QuickFixes/CodeFixProvider.cs:62-90 | once the loop faults on a parameter, the later parameters do not change the outcome |
| CodeFix.StepMeaning | NSubstitute.QuickFixes/NSubstitute.QuickFixes/CodeFixProvider.cs:64-89 | one iteration gets past a parameter exactly when its type is named and, for an abstract type, the class exists and the field exists or both anchors exist. It then yields the expected argument and the insertions of that parameter's missing field |
| CodeFix.AllInsertionsSnoc | NSubstitute.QuickFixes/NSubstitute.QuickFixes/CodeFixProvider.cs:68-78 | one more parameter appends exactly its own insertions |
| CodeFix.MockStepsMeaning | NSubstitute.QuickFixes/NSubstitute.QuickFixes/CodeFixProvider.cs:61-90 | the loop succeeds exactly when every parameter is repairable. It then yields one argument per parameter and exactly the field/assignment pairs of the missing mock fields, in order |
| CodeFix.GenerateMocksPlan | NSubstitute.QuickFixes/NSubstitute.QuickFixes/CodeFixProvider.cs:54-93 | faults with no method candidate exactly when none is a method. Otherwise, for the first method candidate, it succeeds exactly when every parameter is repairable, and the edits are the insertions for the missing mock fields followed by one replacement of the whole argument list |
| CodeFix.GenerateMocks | NSubstitute.QuickFixes/NSubstitute.QuickFixes/CodeFixProvider.cs:54-93 | the loop that appends to the argument list and to the editor's edits gives exactly `GenerateMocksPlan`, including which fault stops it |
| CodeFix.FirstUnrepairableParameterFaults | NSubstitute.QuickFixes/NSubstitute.QuickFixes/CodeFixProvider.cs:62-78 | when parameter `j` is the first one the loop cannot get past, the repair fails with exactly that parameter's fault: the failed cast, the missing class, method or statement |
| CodeFix.StepSucceeds | NSubstitute.QuickFixes/NSubstitute.QuickFixes/CodeFixProvider.cs:62-90 | one more successful iteration appends that parameter's argument and edits to the loop's |
| CodeFix.StepFaults | NSubstitute.QuickFixes/NSubstitute.QuickFixes/CodeFixProvider.cs:62-90 | an iteration that faults after successful ones gives the whole loop that fault |
| CodeFix.NewArgumentList | NSubstitute.QuickFixes/NSubstitute.QuickFixes/CodeFixProvider.cs:79-93 | a successful repair ends by replacing the creation's arguments with one per parameter, in order: `_<name>Mock` for an abstract type, `TODO` otherwise |
| CodeFix.MocksToCreateMembers | NSubstitute.QuickFixes/NSubstitute.QuickFixes/CodeFixProvider.cs:65-78 | a mock field is declared exactly for the abstract parameters whose `_<name>Mock` the class lacks, with the parameter's type |
| CodeFix.MocksToCreateBounded | NSubstitute.QuickFixes/NSubstitute.QuickFixes/CodeFixProvider.cs:65-78 | no more declared fields than abstract parameters, no more of those than parameters |
| CodeFix.InsertionsComeInPairs | NSubstitute.QuickFixes/NSubstitute.QuickFixes/CodeFixProvider.cs:70-77 | twice as many insertions as fields. The inserted fields and the `Substitute.For<T>` assignments name the same fields with the same types, in the same order |
| CodeFix.PairStep | NSubstitute.QuickFixes/NSubstitute.QuickFixes/CodeFixProvider.cs:73-77 | one field-and-assignment pair adds that field to both the field and the assignment projections |
| CodeFix.InsertionsOnlyInsert | NSubstitute.QuickFixes/NSubstitute.QuickFixes/CodeFixProvider.cs:73-77 | every insertion puts a field before the enclosing method or an assignment before the enclosing statement |
| CodeFix.NoDuplicateMockFields | NSubstitute.QuickFixes/NSubstitute.QuickFixes/CodeFixProvider.cs:67-68 | the declared fields have distinct names and none is already a field of the class |
| CodeFix.FieldExistsWithFields | NSubstitute.QuickFixes/NSubstitute.QuickFixes/CodeFixProvider.cs:98-101 | after the fields are declared, a name is a field exactly when it was one before or was just declared |
| CodeFix.SiblingRepairReusesFields | NSubstitute.QuickFixes/NSubstitute.QuickFixes/CodeFixProvider.cs:68 | a later repair in the same class declares none of the fields an earlier repair declared |
| CodeFix.RepeatedRepairDeclaresNothing | NSubstitute.QuickFixes/NSubstitute.QuickFixes/CodeFixProvider.cs:68 | repeating the repair for the same constructor declares no field |
| CodeFix.InsertedFieldsAndAssignments | NSubstitute.QuickFixes/NSubstitute.QuickFixes/CodeFixProvider.cs:68-78 | a successful repair inserts exactly the missing mock fields, as fields and as assignments, at most one per abstract parameter |
| CodeFix.EveryMockFieldDeclared | NSubstitute.QuickFixes/NSubstitute.QuickFixes/CodeFixProvider.cs:67-79 | once the declared fields are in place, every abstract parameter's argument names an existing field |
| CodeFix.RepairIsIdempotent | NSubstitute.QuickFixes/NSubstitute.QuickFixes/CodeFixProvider.cs:61-93 | repairing again once the fields are declared inserts nothing and sets the same argument list |
| CodeFix.SiblingRepairsShareFields | NSubstitute.QuickFixes/NSubstitute.QuickFixes/CodeFixProvider.cs:68-78 | two successful repairs in one class, the second after the first's fields are declared, never insert a field of the same name twice |
| CodeFix.MockStepsIgnoreSuppliedArguments | NSubstitute.QuickFixes/NSubstitute.QuickFixes/CodeFixProvider.cs:61-90 | the loop never reads the arguments already supplied |
| CodeFix.SuppliedArgumentsDiscarded | NSubstitute.QuickFixes/NSubstitute.QuickFixes/CodeFixProvider.cs:61-93 | the repair is the same whatever arguments were supplied: the list is rebuilt from the parameters and replaced whole |
| CodeFixExamples.GeneratesMockAndPlaceholders | NSubstitute.QuickFixes/NSubstitute.QuickFixes.Test/UnitTests.cs:42-81 | `new MyService()`: a field and an assignment for `_myAnotherServiceMock`, then `new MyService(_myAnotherServiceMock, TODO, TODO)` |
| CodeFixExamples.ReusesExistingField | NSubstitute.QuickFixes/NSubstitute.QuickFixes.Test/UnitTests.cs:84-125 | with `_thirdServiceMock` already declared, only `_secondServiceMock` is inserted, and both are passed |
| CodeFixExamples.RebuildsWholeArgumentList | NSubstitute.QuickFixes/NSubstitute.QuickFixes.Test/UnitTests.cs:156-183 | `new FirstService(null)`: the `null` is dropped, both mocks are inserted and passed |
| CodeFixExamples.FactoryParameterGetsPlaceholder | NSubstitute.QuickFixes/NSubstitute.QuickFixes.Test/UnitTests.cs:128-153 | a `Func<ISecondService>` parameter gets `TODO` and nothing is inserted |
| CodeFixExamples.PlanForOneAbstractParameter | NSubstitute.QuickFixes/NSubstitute.QuickFixes/CodeFixProvider.cs:65-93 | for any single abstract parameter whose field the class lacks, whatever its rendered type: one field and one assignment of that type, then the creation with the one mock argument |
| CodeFixExamples.GenericInterfaceGetsMock | NSubstitute.QuickFixes/NSubstitute.QuickFixes.Test/UnitTests.cs:216-247 | `new FirstService()` against `FirstService(ISecondService<IOne<ITwo<Dictionary<string, int>>>> secondService)`: a field and an assignment of that type for `_secondServiceMock`, then `new FirstService(_secondServiceMock)` |
| CodeFixExamples.FieldInitializerFaults | NSubstitute.QuickFixes/NSubstitute.QuickFixes/CodeFixProvider.cs:56-73 | a creation outside any method with a missing mock field: the fix faults at the field insertion |
| CodeFixExamples.ArrayParameterFaults | NSubstitute.QuickFixes/NSubstitute.QuickFixes/CodeFixProvider.cs:64 | an `int[]` parameter: the cast to a named type fails |

## Left out

- Roslyn registration is not modelled: `Initialize`, `SupportedDiagnostics`, `FixableDiagnosticIds`, `GetFixAllProvider`, `RegisterCodeFixesAsync`, and the localized title, message and description resources. These are host plumbing, not decisions.
- The way the code fix finds its creation is not modelled. It walks from the diagnostic's token up to the creation (`CodeFixProvider.cs:38`). The model starts from the creation and from what the fix reads around it (`FixContext`).
- Async code, cancellation, and applying the edits to a document are not modelled. The model states the edits and their order, not the changed text.
- `SyntaxFactory` rendering is not modelled: the exact text and trivia of the new field, assignment and argument list. Type names are the opaque strings `ToDisplayString` would produce.
- The semantic model's answers (`GetSymbolInfo`, `LookupNamespacesAndTypes`, `IsAbstract`) are inputs, not computed.
- The commented-out code at `CodeFixProvider.cs:83-87` is not modelled; it never runs.

## Findings

| source | as written | input that shows it | evidently intended | confidence | as-written member | corrected member |
|---|---|---|---|---|---|---|
| src/NSubstitute.QuickFixes/NSubstitute.QuickFixes/NSubstituteHelperAnalyzer.cs:51 | `expression.ArgumentList.Arguments.Count()` dereferences the argument list, which is null for a creation written with only an initializer | `new FirstService { }` with constructor `FirstService(ISecondService)`, NSubstitute referenced: the analyzer throws a NullReferenceException instead of reporting | a missing argument list counts as zero arguments, so NSHA100 is reported as for `new FirstService()` | medium, not executed | HelperAnalyzer.AnalyzeSymbolAsWritten, AnalyzerExamples.MissingArgumentListThrows | HelperAnalyzer.AnalyzeSymbol |
