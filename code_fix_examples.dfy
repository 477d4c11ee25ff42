/**
 * The code fix on the scenarios of the repository's unit tests, and on two inputs where the
 * C# code throws.
 */
module CodeFixExamples {
  import opened Wrappers
  import opened Syntax
  import opened Semantics
  import opened CodeFix

  /** A creation `new <typeName>(...)` that sits in a statement of the constructor of a class. */
  function InConstructor(typeName: string, supplied: seq<Argument>, ps: seq<Parameter>,
                         members: seq<MemberDeclaration>): FixContext
  {
    FixContext(typeName, Some(supplied), SymbolInfo(OverloadResolutionFailure, [MethodSymbol(ps)]),
               Some(members), true, true)
  }

  const TestConstructor := OtherMember("ConstructorDeclaration")

  const TwoServices := [
    Parameter("secondService", NamedType("ISecondService", true)),
    Parameter("thirdService", NamedType("IThirdService", true))]

  /** The mock fields the fix declares for `TwoServices`. */
  const SecondMock := MockField("_secondServiceMock", "ISecondService")
  const ThirdMock := MockField("_thirdServiceMock", "IThirdService")

  /** The plan for a single constructor candidate, once its mock fields are known. */
  lemma PlanForSingleCandidate(ctx: FixContext, ps: seq<Parameter>, ms: seq<MockField>)
    requires ctx.symbolInfo.candidateSymbols == [MethodSymbol(ps)]
    requires forall i :: 0 <= i < |ps| ==> ParameterRepairable(ps[i], ctx)
    requires MocksToCreate(ps, KnownMembers(ctx)) == ms
    ensures GenerateMocksPlan(ctx) ==
      Success(AllInsertions(ms) + [ReplaceNode(ObjectCreation, CreationWithArguments(ctx.creationTypeName, ExpectedArguments(ps)))])
  {
    assert IsFirstMethodCandidate(ctx.symbolInfo, 0);
  }

  lemma MockNames()
    ensures MockFieldName("myAnotherService") == "_myAnotherServiceMock"
    ensures MockFieldName("secondService") == "_secondServiceMock"
    ensures MockFieldName("thirdService") == "_thirdServiceMock"
  {
    MockName("myAnotherService", "_myAnotherServiceMock");
    MockName("secondService", "_secondServiceMock");
    MockName("thirdService", "_thirdServiceMock");
  }

  lemma MockName(parameterName: string, fieldName: string)
    requires fieldName == "_" + parameterName + "Mock"
    ensures MockFieldName(parameterName) == fieldName
  {
  }

  lemma MocksOfTwo(p0: Parameter, p1: Parameter, members: seq<MemberDeclaration>)
    ensures MocksToCreate([p0, p1], members) == MockFor(p0, members) + MockFor(p1, members)
  {
    assert [p0, p1][..1] == [p0];
    assert [p0][..0] == [];
    assert MocksToCreate([p0], members) == [] + MockFor(p0, members) == MockFor(p0, members);
  }

  lemma MocksOfThree(p0: Parameter, p1: Parameter, p2: Parameter, members: seq<MemberDeclaration>)
    ensures MocksToCreate([p0, p1, p2], members) == MockFor(p0, members) + MockFor(p1, members) + MockFor(p2, members)
  {
    assert [p0, p1, p2][..2] == [p0, p1];
    MocksOfTwo(p0, p1, members);
  }

  lemma InsertionsOfOne(m: MockField)
    ensures AllInsertions([m]) == InsertionsFor(m)
  {
    assert [m][..0] == [];
    assert AllInsertions([m]) == [] + InsertionsFor(m) == InsertionsFor(m);
  }

  lemma InsertionsOfTwo(m0: MockField, m1: MockField)
    ensures AllInsertions([m0, m1]) == InsertionsFor(m0) + InsertionsFor(m1)
  {
    assert [m0, m1][..1] == [m0];
    InsertionsOfOne(m0);
  }

  /** A `FirstService(ISecondService, IThirdService)` candidate inside a constructor: both arguments are mocks. */
  lemma PlanForTwoServices(ctx: FixContext, ms: seq<MockField>)
    requires ctx.symbolInfo.candidateSymbols == [MethodSymbol(TwoServices)]
    requires ctx.classMembers.Some? && ctx.inMethodDeclaration && ctx.inStatement
    requires MocksToCreate(TwoServices, KnownMembers(ctx)) == ms
    ensures GenerateMocksPlan(ctx) == Success(AllInsertions(ms) + [ReplaceNode(ObjectCreation,
      CreationWithArguments(ctx.creationTypeName, [IdentifierName(SecondMock.name), IdentifierName(ThirdMock.name)]))])
  {
    MockNames();
    assert ExpectedArguments(TwoServices) == [IdentifierName(SecondMock.name), IdentifierName(ThirdMock.name)];
    assert ParameterRepairable(TwoServices[0], ctx) && ParameterRepairable(TwoServices[1], ctx);
    PlanForSingleCandidate(ctx, TwoServices, ms);
  }

  /** `new MyService()` against `MyService(IMyAnotherService, string, int)`: one mock, two placeholders. */
  lemma GeneratesMockAndPlaceholders()
    ensures GenerateMocksPlan(InConstructor("MyService", [], [
              Parameter("myAnotherService", NamedType("IMyAnotherService", true)),
              Parameter("s", NamedType("string", false)),
              Parameter("i", NamedType("int", false))], [TestConstructor]))
            == Success([
              InsertBefore(EnclosingMethodDeclaration, PrivateField("IMyAnotherService", "_myAnotherServiceMock")),
              InsertBefore(EnclosingStatement, MockAssignment("_myAnotherServiceMock", "IMyAnotherService")),
              ReplaceNode(ObjectCreation, CreationWithArguments("MyService", [
                IdentifierName("_myAnotherServiceMock"), IdentifierName("TODO"), IdentifierName("TODO")]))])
  {
    var service := Parameter("myAnotherService", NamedType("IMyAnotherService", true));
    var s := Parameter("s", NamedType("string", false));
    var i := Parameter("i", NamedType("int", false));
    var ps := [service, s, i];
    var ctx := InConstructor("MyService", [], ps, [TestConstructor]);
    var mock := MockField("_myAnotherServiceMock", "IMyAnotherService");
    MockNames();
    assert MocksToCreate(ps, [TestConstructor]) == [mock] by {
      MocksOfThree(service, s, i, [TestConstructor]);
      assert !FieldExists(mock.name, [TestConstructor]);
    }
    var arguments := [IdentifierName(mock.name), IdentifierName(Placeholder), IdentifierName(Placeholder)];
    assert ExpectedArguments(ps) == arguments;
    assert ParameterRepairable(service, ctx) && ParameterRepairable(s, ctx) && ParameterRepairable(i, ctx);
    PlanForSingleCandidate(ctx, ps, [mock]);
    InsertionsOfOne(mock);
    var replace := ReplaceNode(ObjectCreation, CreationWithArguments("MyService", arguments));
    assert InsertionsFor(mock) + [replace] == [InsertionsFor(mock)[0], InsertionsFor(mock)[1], replace];
  }

  /** The class already declares `_thirdServiceMock`: only `_secondServiceMock` is added, both are passed. */
  lemma ReusesExistingField()
    ensures GenerateMocksPlan(InConstructor("FirstService", [], TwoServices,
              [FieldDeclaration("IThirdService", ["_thirdServiceMock"]), TestConstructor]))
            == Success([
              InsertBefore(EnclosingMethodDeclaration, PrivateField("ISecondService", "_secondServiceMock")),
              InsertBefore(EnclosingStatement, MockAssignment("_secondServiceMock", "ISecondService")),
              ReplaceNode(ObjectCreation, CreationWithArguments("FirstService", [
                IdentifierName("_secondServiceMock"), IdentifierName("_thirdServiceMock")]))])
  {
    var members := [FieldDeclaration("IThirdService", ["_thirdServiceMock"]), TestConstructor];
    var ctx := InConstructor("FirstService", [], TwoServices, members);
    MockNames();
    assert MocksToCreate(TwoServices, members) == [SecondMock] by {
      MocksOfTwo(TwoServices[0], TwoServices[1], members);
      assert FieldExists(ThirdMock.name, members) by {
        assert members[0].variables[0] == ThirdMock.name;
      }
      assert !FieldExists(SecondMock.name, members) by {
        assert members[0].variables == [ThirdMock.name];
        assert ThirdMock.name[1] != SecondMock.name[1];
      }
    }
    PlanForTwoServices(ctx, [SecondMock]);
    var arguments := [IdentifierName(SecondMock.name), IdentifierName(ThirdMock.name)];
    InsertionsOfOne(SecondMock);
    var replace := ReplaceNode(ObjectCreation, CreationWithArguments("FirstService", arguments));
    assert InsertionsFor(SecondMock) + [replace] == [InsertionsFor(SecondMock)[0], InsertionsFor(SecondMock)[1], replace];
  }

  /** `new FirstService(null)`: the supplied `null` is dropped and every parameter gets a mock. */
  lemma RebuildsWholeArgumentList()
    ensures GenerateMocksPlan(InConstructor("FirstService", [OtherExpression("null")], TwoServices, [TestConstructor]))
            == Success([
              InsertBefore(EnclosingMethodDeclaration, PrivateField("ISecondService", "_secondServiceMock")),
              InsertBefore(EnclosingStatement, MockAssignment("_secondServiceMock", "ISecondService")),
              InsertBefore(EnclosingMethodDeclaration, PrivateField("IThirdService", "_thirdServiceMock")),
              InsertBefore(EnclosingStatement, MockAssignment("_thirdServiceMock", "IThirdService")),
              ReplaceNode(ObjectCreation, CreationWithArguments("FirstService", [
                IdentifierName("_secondServiceMock"), IdentifierName("_thirdServiceMock")]))])
  {
    var ctx := InConstructor("FirstService", [OtherExpression("null")], TwoServices, [TestConstructor]);
    MockNames();
    assert MocksToCreate(TwoServices, [TestConstructor]) == [SecondMock, ThirdMock] by {
      MocksOfTwo(TwoServices[0], TwoServices[1], [TestConstructor]);
      assert !FieldExists(SecondMock.name, [TestConstructor]);
      assert !FieldExists(ThirdMock.name, [TestConstructor]);
    }
    PlanForTwoServices(ctx, [SecondMock, ThirdMock]);
    var arguments := [IdentifierName(SecondMock.name), IdentifierName(ThirdMock.name)];
    InsertionsOfTwo(SecondMock, ThirdMock);
    var replace := ReplaceNode(ObjectCreation, CreationWithArguments("FirstService", arguments));
    assert InsertionsFor(SecondMock) + InsertionsFor(ThirdMock) + [replace]
        == [InsertionsFor(SecondMock)[0], InsertionsFor(SecondMock)[1],
            InsertionsFor(ThirdMock)[0], InsertionsFor(ThirdMock)[1], replace];
  }

  /** A `Func<ISecondService>` parameter is a delegate, not abstract: it gets `TODO` and no mock. */
  lemma FactoryParameterGetsPlaceholder()
    ensures GenerateMocksPlan(InConstructor("FirstService", [], [
              Parameter("secondServiceFactory", NamedType("Func<ISecondService>", false))], [TestConstructor]))
            == Success([ReplaceNode(ObjectCreation, CreationWithArguments("FirstService", [IdentifierName("TODO")]))])
  {
    var ps := [Parameter("secondServiceFactory", NamedType("Func<ISecondService>", false))];
    var ctx := InConstructor("FirstService", [], ps, [TestConstructor]);
    assert ps[..0] == [];
    assert MocksToCreate(ps, [TestConstructor]) == [];
    PlanForSingleCandidate(ctx, ps, []);
    var replace := ReplaceNode(ObjectCreation, CreationWithArguments("FirstService", [IdentifierName("TODO")]));
    assert ExpectedArguments(ps) == [IdentifierName("TODO")];
    assert AllInsertions([]) + [replace] == [replace];
  }

  /** A single abstract parameter whose field the class lacks: one field, one assignment, one argument. */
  lemma PlanForOneAbstractParameter(typeName: string, p: Parameter)
    requires p.paramType.NamedType? && p.paramType.isAbstract
    requires !FieldExists(MockFieldName(p.name), [TestConstructor])
    ensures GenerateMocksPlan(InConstructor(typeName, [], [p], [TestConstructor]))
            == Success([
              InsertBefore(EnclosingMethodDeclaration, PrivateField(p.paramType.display, MockFieldName(p.name))),
              InsertBefore(EnclosingStatement, MockAssignment(MockFieldName(p.name), p.paramType.display)),
              ReplaceNode(ObjectCreation, CreationWithArguments(typeName, [IdentifierName(MockFieldName(p.name))]))])
  {
    var ps := [p];
    var ctx := InConstructor(typeName, [], ps, [TestConstructor]);
    var mock := MockField(MockFieldName(p.name), p.paramType.display);
    assert MocksToCreate(ps, [TestConstructor]) == [mock] by {
      assert ps[..0] == [];
      assert MocksToCreate(ps, [TestConstructor]) == [] + MockFor(p, [TestConstructor]);
    }
    var arguments := [IdentifierName(mock.name)];
    var replace := ReplaceNode(ObjectCreation, CreationWithArguments(typeName, arguments));
    assert GenerateMocksPlan(ctx) == Success(AllInsertions([mock]) + [replace]) by {
      assert ExpectedArguments(ps) == arguments;
      PlanForSingleCandidate(ctx, ps, [mock]);
    }
    assert AllInsertions([mock]) + [replace] == [InsertionsFor(mock)[0], InsertionsFor(mock)[1], replace] by {
      InsertionsOfOne(mock);
    }
  }

  /** The parameter type of the generics scenario, as rendered. */
  const NestedGenericService := "ISecondService<IOne<ITwo<Dictionary<string, int>>>>"

  /** A deeply generic interface parameter is abstract: it gets a mock field of the rendered type. */
  lemma GenericInterfaceGetsMock()
    ensures GenerateMocksPlan(InConstructor("FirstService", [], [
              Parameter("secondService", NamedType(NestedGenericService, true))], [TestConstructor]))
            == Success([
              InsertBefore(EnclosingMethodDeclaration, PrivateField(NestedGenericService, "_secondServiceMock")),
              InsertBefore(EnclosingStatement, MockAssignment("_secondServiceMock", NestedGenericService)),
              ReplaceNode(ObjectCreation, CreationWithArguments("FirstService", [IdentifierName("_secondServiceMock")]))])
  {
    MockNames();
    PlanForOneAbstractParameter("FirstService", Parameter("secondService", NamedType(NestedGenericService, true)));
  }

  /** A creation in a field initializer has no enclosing method: a missing mock field makes the fix throw. */
  lemma FieldInitializerFaults()
    ensures GenerateMocksPlan(FixContext("FirstService", Some([]), SymbolInfo(OverloadResolutionFailure, [MethodSymbol(TwoServices)]),
                                         Some([]), false, false))
            == Failure(NoEnclosingMethodDeclaration)
  {
    var ctx := FixContext("FirstService", Some([]), SymbolInfo(OverloadResolutionFailure, [MethodSymbol(TwoServices)]),
                          Some([]), false, false);
    assert IsFirstMethodCandidate(ctx.symbolInfo, 0);
    assert TwoServices[..1][..0] == [];
    assert !FieldExists(MockFieldName("secondService"), []);
    assert ParameterStep(TwoServices[0], ctx) == Failure(NoEnclosingMethodDeclaration);
    assert MockSteps(TwoServices[..1], ctx) == Failure(NoEnclosingMethodDeclaration);
    FailureSticks(TwoServices, 1, ctx);
  }

  /** An array parameter type is not a named type: the cast in the loop throws. */
  lemma ArrayParameterFaults()
    ensures GenerateMocksPlan(InConstructor("Batch", [], [Parameter("items", UnnamedType("int[]"))], [TestConstructor]))
            == Failure(ParameterTypeNotNamed("items"))
  {
    var ps := [Parameter("items", UnnamedType("int[]"))];
    var ctx := InConstructor("Batch", [], ps, [TestConstructor]);
    assert IsFirstMethodCandidate(ctx.symbolInfo, 0);
    assert ps[..0] == [];
    assert MockSteps(ps, ctx) == Failure(ParameterTypeNotNamed("items"));
  }
}
