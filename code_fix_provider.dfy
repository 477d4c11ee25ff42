/**
 * The code fix "Generate mocks as fields" (`NSubstituteHelperCodeFixProvider` in
 * NSubstitute.QuickFixes/NSubstitute.QuickFixes/CodeFixProvider.cs). For the first constructor candidate of the flagged
 * object creation it walks the parameters in declaration order: an abstract parameter type
 * (interfaces included) gets the argument `_<name>Mock`, and, unless the enclosing class already
 * declares a field of that name, a private field before the enclosing method and an assignment
 * `_<name>Mock = Substitute.For<T>();` before the enclosing statement; any other parameter gets
 * the placeholder `TODO`. The built list then replaces the creation's whole argument list.
 *
 * The document editor is modelled by the list of edits it is given, in order. Where the C# code
 * would throw (no constructor candidate, a parameter type that is not a named type, a missing
 * enclosing class, method or statement) the fix produces no document: a `Fault` here.
 */
module CodeFix {
  import opened Wrappers
  import opened Syntax
  import opened Semantics
  import Linq

  /** A member of the enclosing class; one field declaration may declare several variables. */
  datatype MemberDeclaration =
    | FieldDeclaration(typeName: string, variables: seq<string>)
    | OtherMember(kind: string)

  /** What the fix reads from the document around the flagged object creation. */
  datatype FixContext = FixContext(
    creationTypeName: string,
    suppliedArguments: Option<seq<Argument>>,
    symbolInfo: SymbolInfo,
    classMembers: Option<seq<MemberDeclaration>>,  // members of the nearest enclosing class, if any
    inMethodDeclaration: bool,  // a method, constructor or operator declaration encloses the creation
    inStatement: bool)          // a statement encloses the creation

  /** The nodes the edits are anchored to, all in the original tree. */
  datatype Anchor = EnclosingMethodDeclaration | EnclosingStatement | ObjectCreation

  datatype NewNode =
    | PrivateField(typeName: string, variable: string)                   // private T _xMock;
    | MockAssignment(field: string, substitutedType: string)             // _xMock = Substitute.For<T>();
    | CreationWithArguments(typeName: string, arguments: seq<Argument>)  // new C(arguments)

  datatype Edit = InsertBefore(anchor: Anchor, node: NewNode) | ReplaceNode(anchor: Anchor, node: NewNode)

  /** Why the fix produces no document. */
  datatype Fault =
    | NoMethodCandidate
    | ParameterTypeNotNamed(parameter: string)
    | NoEnclosingClass
    | NoEnclosingMethodDeclaration
    | NoEnclosingStatement

  /** A mock field the fix declares: its name and its type, as rendered. */
  datatype MockField = MockField(name: string, typeName: string)

  const Placeholder := "TODO"

  /** `"_" + name + "Mock"`. */
  function MockFieldName(parameterName: string): string
  {
    "_" + parameterName + "Mock"
  }

  /** Different parameters get different mock field names. */
  lemma MockFieldNameInjective(a: string, b: string)
    requires MockFieldName(a) == MockFieldName(b)
    ensures a == b
  {
    assert a == MockFieldName(a)[1..|a| + 1];
    assert b == MockFieldName(b)[1..|b| + 1];
  }

  /**
   * `FieldExists`: some field declaration among the class members declares a variable named
   * `fieldName`, whichever variable of the declaration it is.
   */
  function FieldExists(fieldName: string, members: seq<MemberDeclaration>): (r: bool)
    ensures r <==> exists i, j :: 0 <= i < |members| && members[i].FieldDeclaration?
                               && 0 <= j < |members[i].variables| && members[i].variables[j] == fieldName
  {
    Linq.Any(members, (m: MemberDeclaration) =>
      m.FieldDeclaration? && Linq.Any(m.variables, (v: string) => v == fieldName))
  }

  predicate IsAbstractParameter(p: Parameter)
  {
    p.paramType.NamedType? && p.paramType.isAbstract
  }

  /** The argument the fix supplies for a parameter. */
  function ExpectedArgument(p: Parameter): Argument
  {
    if IsAbstractParameter(p) then IdentifierName(MockFieldName(p.name)) else IdentifierName(Placeholder)
  }

  function ExpectedArguments(ps: seq<Parameter>): seq<Argument>
  {
    seq(|ps|, i requires 0 <= i < |ps| => ExpectedArgument(ps[i]))
  }

  /** The members the fix can see: none when there is no enclosing class. */
  function KnownMembers(ctx: FixContext): seq<MemberDeclaration>
  {
    if ctx.classMembers.Some? then ctx.classMembers.value else []
  }

  /** The fix gets past this parameter without throwing. */
  predicate ParameterRepairable(p: Parameter, ctx: FixContext)
  {
    && p.paramType.NamedType?
    && (IsAbstractParameter(p) ==>
          && ctx.classMembers.Some?
          && (!FieldExists(MockFieldName(p.name), ctx.classMembers.value) ==> ctx.inMethodDeclaration && ctx.inStatement))
  }

  /** The mock field declared for `p`, if the fix declares one. */
  function MockFor(p: Parameter, members: seq<MemberDeclaration>): seq<MockField>
  {
    if IsAbstractParameter(p) && !FieldExists(MockFieldName(p.name), members)
    then [MockField(MockFieldName(p.name), p.paramType.display)]
    else []
  }

  /** The mock fields the fix declares for `ps`, in parameter order. */
  function MocksToCreate(ps: seq<Parameter>, members: seq<MemberDeclaration>): seq<MockField>
  {
    if ps == [] then [] else MocksToCreate(ps[..|ps| - 1], members) + MockFor(ps[|ps| - 1], members)
  }

  /** The two insertions for one mock field: the field before the method, its assignment before the statement. */
  function InsertionsFor(m: MockField): seq<Edit>
  {
    [InsertBefore(EnclosingMethodDeclaration, PrivateField(m.typeName, m.name)),
     InsertBefore(EnclosingStatement, MockAssignment(m.name, m.typeName))]
  }

  function AllInsertions(ms: seq<MockField>): seq<Edit>
  {
    if ms == [] then [] else AllInsertions(ms[..|ms| - 1]) + InsertionsFor(ms[|ms| - 1])
  }

  /** The fields an edit list inserts, in order. */
  function FieldInsertions(edits: seq<Edit>): seq<MockField>
  {
    if edits == [] then []
    else
      var e := edits[|edits| - 1];
      FieldInsertions(edits[..|edits| - 1]) +
        (if e.InsertBefore? && e.node.PrivateField? then [MockField(e.node.variable, e.node.typeName)] else [])
  }

  /** The mock assignments an edit list inserts, as (field, substituted type), in order. */
  function StatementInsertions(edits: seq<Edit>): seq<MockField>
  {
    if edits == [] then []
    else
      var e := edits[|edits| - 1];
      StatementInsertions(edits[..|edits| - 1]) +
        (if e.InsertBefore? && e.node.MockAssignment? then [MockField(e.node.field, e.node.substitutedType)] else [])
  }

  function AbstractParameterCount(ps: seq<Parameter>): nat
  {
    if ps == [] then 0
    else AbstractParameterCount(ps[..|ps| - 1]) + (if IsAbstractParameter(ps[|ps| - 1]) then 1 else 0)
  }

  /** One turn of the parameter loop: the argument for `p` and the edits it adds, or the fault it raises. */
  function ParameterStep(p: Parameter, ctx: FixContext): Result<(Argument, seq<Edit>), Fault>
  {
    match p.paramType
    case UnnamedType(_) => Failure(ParameterTypeNotNamed(p.name))
    case NamedType(display, isAbstract) =>
      if !isAbstract then Success((IdentifierName(Placeholder), []))
      else
        var fieldName := MockFieldName(p.name);
        if ctx.classMembers.None? then Failure(NoEnclosingClass)
        else if FieldExists(fieldName, ctx.classMembers.value) then Success((IdentifierName(fieldName), []))
        else if !ctx.inMethodDeclaration then Failure(NoEnclosingMethodDeclaration)
        else if !ctx.inStatement then Failure(NoEnclosingStatement)
        else Success((IdentifierName(fieldName), InsertionsFor(MockField(fieldName, display))))
  }

  /** The parameter loop over `ps`: the arguments built and the edits given, or the first fault. */
  function MockSteps(ps: seq<Parameter>, ctx: FixContext): Result<(seq<Argument>, seq<Edit>), Fault>
  {
    if ps == [] then Success(([], []))
    else
      match MockSteps(ps[..|ps| - 1], ctx)
      case Failure(f) => Failure(f)
      case Success((arguments, edits)) =>
        match ParameterStep(ps[|ps| - 1], ctx)
        case Failure(f) => Failure(f)
        case Success((argument, added)) => Success((arguments + [argument], edits + added))
  }

  /** A fault in the first `n` parameters is the fault of the whole loop. */
  lemma {:induction false} FailureSticks(ps: seq<Parameter>, n: nat, ctx: FixContext)
    requires n <= |ps|
    requires MockSteps(ps[..n], ctx).Failure?
    ensures MockSteps(ps, ctx) == MockSteps(ps[..n], ctx)
    decreases |ps| - n
  {
    if n < |ps| {
      var longer := ps[..n + 1];
      assert longer[..|longer| - 1] == ps[..n];
      FailureSticks(ps, n + 1, ctx);
    } else {
      assert ps[..n] == ps;
    }
  }

  /** The edits one parameter contributes: the insertions for its mock field, if it needs one. */
  function MockInsertions(p: Parameter, members: seq<MemberDeclaration>): seq<Edit>
  {
    var m := MockFor(p, members);
    if m == [] then [] else InsertionsFor(m[0])
  }

  /** One loop iteration gets past `p` exactly when `p` is repairable, and then yields its expected argument. */
  lemma StepMeaning(p: Parameter, ctx: FixContext)
    ensures ParameterStep(p, ctx).Success? <==> ParameterRepairable(p, ctx)
    ensures ParameterStep(p, ctx) != Failure(NoMethodCandidate)
    ensures ParameterStep(p, ctx).Success? ==>
      ParameterStep(p, ctx).value == (ExpectedArgument(p), MockInsertions(p, KnownMembers(ctx)))
  {
  }

  /** Appending one parameter's mock fields appends their insertions. */
  lemma AllInsertionsSnoc(ms: seq<MockField>, p: Parameter, members: seq<MemberDeclaration>)
    ensures AllInsertions(ms + MockFor(p, members)) == AllInsertions(ms) + MockInsertions(p, members)
  {
    var m := MockFor(p, members);
    if m != [] {
      assert (ms + m)[..|ms + m| - 1] == ms;
    } else {
      assert ms + m == ms;
    }
  }

  /**
   * The loop succeeds exactly when every parameter is repairable; it then builds one argument
   * per parameter, `_<name>Mock` for an abstract type and `TODO` otherwise, and gives exactly the
   * field-and-assignment pairs of the mock fields the class lacks.
   */
  lemma {:induction false} MockStepsMeaning(ps: seq<Parameter>, ctx: FixContext)
    ensures MockSteps(ps, ctx).Success? <==> forall i :: 0 <= i < |ps| ==> ParameterRepairable(ps[i], ctx)
    ensures MockSteps(ps, ctx) != Failure(NoMethodCandidate)
    ensures MockSteps(ps, ctx).Success? ==>
      MockSteps(ps, ctx).value == (ExpectedArguments(ps), AllInsertions(MocksToCreate(ps, KnownMembers(ctx))))
  {
    if ps != [] {
      var init := ps[..|ps| - 1];
      var p := ps[|ps| - 1];
      MockStepsMeaning(init, ctx);
      StepMeaning(p, ctx);
      AllRepairableSnoc(ps, init, ctx);
      if MockSteps(init, ctx).Success? && ParameterStep(p, ctx).Success? {
        ExpectedArgumentsSnoc(ps);
        AllInsertionsSnoc(MocksToCreate(init, KnownMembers(ctx)), p, KnownMembers(ctx));
      }
    } else {
      assert ExpectedArguments(ps) == [];
    }
  }

  lemma AllRepairableSnoc(ps: seq<Parameter>, init: seq<Parameter>, ctx: FixContext)
    requires ps != [] && init == ps[..|ps| - 1]
    ensures (forall i :: 0 <= i < |ps| ==> ParameterRepairable(ps[i], ctx))
        <==> (forall i :: 0 <= i < |init| ==> ParameterRepairable(init[i], ctx)) && ParameterRepairable(ps[|ps| - 1], ctx)
  {
    assert forall i :: 0 <= i < |init| ==> init[i] == ps[i];
  }

  lemma ExpectedArgumentsSnoc(ps: seq<Parameter>)
    requires ps != []
    ensures ExpectedArguments(ps) == ExpectedArguments(ps[..|ps| - 1]) + [ExpectedArgument(ps[|ps| - 1])]
  {
    var init := ps[..|ps| - 1];
    assert forall i :: 0 <= i < |init| ==> ExpectedArguments(ps)[i] == ExpectedArguments(init)[i];
  }

  /** `GenerateMocks` without the editor: the edits it makes, or the fault that stops it. */
  function GenerateMocksPlan(ctx: FixContext): (r: Result<seq<Edit>, Fault>)
    ensures r == Failure(NoMethodCandidate) <==> !HasMethodCandidate(ctx.symbolInfo)
    ensures forall k :: IsFirstMethodCandidate(ctx.symbolInfo, k) ==>
      var ps := ctx.symbolInfo.candidateSymbols[k].parameters;
      && (r.Success? <==> forall i :: 0 <= i < |ps| ==> ParameterRepairable(ps[i], ctx))
      && (r.Success? ==>
            r.value == AllInsertions(MocksToCreate(ps, KnownMembers(ctx)))
                       + [ReplaceNode(ObjectCreation, CreationWithArguments(ctx.creationTypeName, ExpectedArguments(ps)))])
  {
    match Linq.FirstOrDefault(ctx.symbolInfo.candidateSymbols, IsMethodSymbol)
    case None => Failure(NoMethodCandidate)
    case Some(invokedSymbol) =>
      MockStepsMeaning(invokedSymbol.parameters, ctx);
      match MockSteps(invokedSymbol.parameters, ctx)
      case Failure(f) => Failure(f)
      case Success((arguments, edits)) =>
        Success(edits + [ReplaceNode(ObjectCreation, CreationWithArguments(ctx.creationTypeName, arguments))])
  }

  /**
   * The repair stops at the first parameter it cannot get past, with the fault of that
   * parameter: the exception the C# loop throws there.
   */
  lemma FirstUnrepairableParameterFaults(ctx: FixContext, k: nat, j: nat)
    requires IsFirstMethodCandidate(ctx.symbolInfo, k)
    requires j < |ctx.symbolInfo.candidateSymbols[k].parameters|
    requires !ParameterRepairable(ctx.symbolInfo.candidateSymbols[k].parameters[j], ctx)
    requires forall i :: 0 <= i < j ==> ParameterRepairable(ctx.symbolInfo.candidateSymbols[k].parameters[i], ctx)
    ensures ParameterStep(ctx.symbolInfo.candidateSymbols[k].parameters[j], ctx).Failure?
    ensures GenerateMocksPlan(ctx) == Failure(ParameterStep(ctx.symbolInfo.candidateSymbols[k].parameters[j], ctx).error)
  {
    var ps := ctx.symbolInfo.candidateSymbols[k].parameters;
    var prefix := ps[..j];
    var longer := ps[..j + 1];
    assert forall i :: 0 <= i < |prefix| ==> prefix[i] == ps[i];
    MockStepsMeaning(prefix, ctx);
    StepMeaning(ps[j], ctx);
    assert longer[..|longer| - 1] == prefix;
    assert MockSteps(longer, ctx) == Failure(ParameterStep(ps[j], ctx).error);
    FailureSticks(ps, j + 1, ctx);
    assert Linq.FirstOrDefault(ctx.symbolInfo.candidateSymbols, IsMethodSymbol) == Some(ctx.symbolInfo.candidateSymbols[k]);
  }

  /** One more successful iteration extends the loop's arguments and edits by that parameter's. */
  lemma StepSucceeds(ps: seq<Parameter>, i: nat, ctx: FixContext, arguments: seq<Argument>, edits: seq<Edit>,
                     argument: Argument, added: seq<Edit>)
    requires i < |ps|
    requires MockSteps(ps[..i], ctx) == Success((arguments, edits))
    requires ParameterStep(ps[i], ctx) == Success((argument, added))
    ensures MockSteps(ps[..i + 1], ctx) == Success((arguments + [argument], edits + added))
  {
    assert ps[..i + 1][..i] == ps[..i];
  }

  /** An iteration that faults after successful ones gives the whole loop that fault. */
  lemma StepFaults(ps: seq<Parameter>, i: nat, ctx: FixContext, fault: Fault)
    requires i < |ps|
    requires MockSteps(ps[..i], ctx).Success?
    requires ParameterStep(ps[i], ctx) == Failure(fault)
    ensures MockSteps(ps, ctx) == Failure(fault)
  {
    assert ps[..i + 1][..i] == ps[..i];
    FailureSticks(ps, i + 1, ctx);
  }

  /**
   * `GenerateMocks`: the parameter loop, in declaration order, appending to the argument list
   * and to the editor's edits, then one replacement of the creation's whole argument list.
   */
  method GenerateMocks(ctx: FixContext) returns (r: Result<seq<Edit>, Fault>)
    ensures r == GenerateMocksPlan(ctx)
  {
    var invokedSymbol := Linq.FirstOrDefault(ctx.symbolInfo.candidateSymbols, IsMethodSymbol);
    if invokedSymbol.None? {
      return Failure(NoMethodCandidate);
    }
    var parameters := invokedSymbol.value.parameters;
    var arguments: seq<Argument> := [];
    var edits: seq<Edit> := [];
    for i := 0 to |parameters|
      invariant MockSteps(parameters[..i], ctx) == Success((arguments, edits))
    {
      var constructorParam := parameters[i];
      ghost var argumentsBefore, editsBefore := arguments, edits;
      if constructorParam.paramType.UnnamedType? {
        StepFaults(parameters, i, ctx, ParameterTypeNotNamed(constructorParam.name));
        return Failure(ParameterTypeNotNamed(constructorParam.name));
      }
      var paramType := constructorParam.paramType;
      if paramType.isAbstract {
        var fieldName := MockFieldName(constructorParam.name);
        if ctx.classMembers.None? {
          StepFaults(parameters, i, ctx, NoEnclosingClass);
          return Failure(NoEnclosingClass);
        }
        ghost var added: seq<Edit> := [];
        if !FieldExists(fieldName, ctx.classMembers.value) {
          if !ctx.inMethodDeclaration {
            StepFaults(parameters, i, ctx, NoEnclosingMethodDeclaration);
            return Failure(NoEnclosingMethodDeclaration);
          }
          edits := edits + [InsertBefore(EnclosingMethodDeclaration, PrivateField(paramType.display, fieldName))];
          if !ctx.inStatement {
            StepFaults(parameters, i, ctx, NoEnclosingStatement);
            return Failure(NoEnclosingStatement);
          }
          edits := edits + [InsertBefore(EnclosingStatement, MockAssignment(fieldName, paramType.display))];
          added := InsertionsFor(MockField(fieldName, paramType.display));
        }
        assert edits == editsBefore + added;
        arguments := arguments + [IdentifierName(fieldName)];
        StepSucceeds(parameters, i, ctx, argumentsBefore, editsBefore, IdentifierName(fieldName), added);
      } else {
        arguments := arguments + [IdentifierName(Placeholder)];
        assert edits == editsBefore + [];
        StepSucceeds(parameters, i, ctx, argumentsBefore, editsBefore, IdentifierName(Placeholder), []);
      }
    }
    assert parameters[..|parameters|] == parameters;
    r := Success(edits + [ReplaceNode(ObjectCreation, CreationWithArguments(ctx.creationTypeName, arguments))]);
  }

  /**
   * A successful repair ends by replacing the creation's arguments with one argument per
   * parameter, in parameter order: `_<name>Mock` for an abstract type, `TODO` otherwise.
   */
  lemma NewArgumentList(ctx: FixContext, k: nat)
    requires IsFirstMethodCandidate(ctx.symbolInfo, k)
    requires GenerateMocksPlan(ctx).Success?
    ensures var edits := GenerateMocksPlan(ctx).value;
      var ps := ctx.symbolInfo.candidateSymbols[k].parameters;
      && |edits| >= 1
      && edits[|edits| - 1].ReplaceNode?
      && edits[|edits| - 1].anchor == ObjectCreation
      && edits[|edits| - 1].node.CreationWithArguments?
      && edits[|edits| - 1].node.typeName == ctx.creationTypeName
      && |edits[|edits| - 1].node.arguments| == |ps|
      && forall i :: 0 <= i < |ps| ==>
           edits[|edits| - 1].node.arguments[i]
           == (if IsAbstractParameter(ps[i]) then IdentifierName("_" + ps[i].name + "Mock") else IdentifierName("TODO"))
  {
  }

  /**
   * A mock field is declared for a parameter exactly when its type is abstract and the class
   * has no field of the computed name; the field then has the parameter's type.
   */
  lemma {:induction false} MocksToCreateMembers(ps: seq<Parameter>, members: seq<MemberDeclaration>)
    ensures forall m :: m in MocksToCreate(ps, members) <==>
      exists i :: 0 <= i < |ps| && IsAbstractParameter(ps[i]) && !FieldExists(MockFieldName(ps[i].name), members)
                 && m == MockField(MockFieldName(ps[i].name), ps[i].paramType.display)
  {
    if ps != [] {
      var init := ps[..|ps| - 1];
      MocksToCreateMembers(init, members);
      assert forall i :: 0 <= i < |init| ==> init[i] == ps[i];
    }
  }

  /** No more mock fields than abstract parameters, and no more of those than parameters. */
  lemma {:induction false} MocksToCreateBounded(ps: seq<Parameter>, members: seq<MemberDeclaration>)
    ensures |MocksToCreate(ps, members)| <= AbstractParameterCount(ps) <= |ps|
  {
    if ps != [] {
      MocksToCreateBounded(ps[..|ps| - 1], members);
    }
  }

  /**
   * The insertions come in pairs: as many fields as assignments, the same names and types in
   * the same order, each field before the enclosing method, each assignment before the statement.
   */
  lemma {:induction false} InsertionsComeInPairs(ms: seq<MockField>)
    ensures |AllInsertions(ms)| == 2 * |ms|
    ensures FieldInsertions(AllInsertions(ms)) == ms
    ensures StatementInsertions(AllInsertions(ms)) == ms
  {
    if ms != [] {
      var init := ms[..|ms| - 1];
      InsertionsComeInPairs(init);
      PairStep(AllInsertions(init), ms[|ms| - 1]);
      assert init + [ms[|ms| - 1]] == ms;
    }
  }

  /** Appending one field-and-assignment pair adds that field to both projections. */
  lemma PairStep(before: seq<Edit>, m: MockField)
    ensures FieldInsertions(before + InsertionsFor(m)) == FieldInsertions(before) + [m]
    ensures StatementInsertions(before + InsertionsFor(m)) == StatementInsertions(before) + [m]
  {
    var withField := before + [InsertionsFor(m)[0]];
    var all := before + InsertionsFor(m);
    assert all == withField + [InsertionsFor(m)[1]];
    assert all[..|all| - 1] == withField;
    assert withField[..|withField| - 1] == before;
  }

  /** Every edit before the replacement inserts a field before the method or an assignment before the statement. */
  lemma {:induction false} InsertionsOnlyInsert(ms: seq<MockField>)
    ensures forall e :: e in AllInsertions(ms) ==>
      && e.InsertBefore?
      && ((e.anchor == EnclosingMethodDeclaration && e.node.PrivateField?)
          || (e.anchor == EnclosingStatement && e.node.MockAssignment?))
  {
    if ms != [] {
      InsertionsOnlyInsert(ms[..|ms| - 1]);
    }
  }

  /** With distinct parameter names, the declared mock fields have distinct names, none already in the class. */
  lemma {:induction false} NoDuplicateMockFields(ps: seq<Parameter>, members: seq<MemberDeclaration>)
    requires forall i, j :: 0 <= i < j < |ps| ==> ps[i].name != ps[j].name
    ensures forall a, b :: 0 <= a < b < |MocksToCreate(ps, members)| ==>
              MocksToCreate(ps, members)[a].name != MocksToCreate(ps, members)[b].name
    ensures forall a :: 0 <= a < |MocksToCreate(ps, members)| ==>
              !FieldExists(MocksToCreate(ps, members)[a].name, members)
  {
    if ps != [] {
      var init := ps[..|ps| - 1];
      var p := ps[|ps| - 1];
      NoDuplicateMockFields(init, members);
      var ms := MocksToCreate(init, members);
      var all := MocksToCreate(ps, members);
      assert all == ms + MockFor(p, members);
      MocksToCreateMembers(init, members);
      forall a | 0 <= a < |ms|
        ensures ms[a].name != MockFieldName(p.name)
      {
        assert ms[a] in ms;
        var i :| 0 <= i < |init| && ms[a] == MockField(MockFieldName(init[i].name), init[i].paramType.display);
        assert init[i] == ps[i];
        if ms[a].name == MockFieldName(p.name) {
          MockFieldNameInjective(init[i].name, p.name);
        }
      }
      forall a, b | 0 <= a < b < |all|
        ensures all[a].name != all[b].name
      {
        if b < |ms| {
          assert all[a] == ms[a] && all[b] == ms[b];
        } else {
          assert all[a] == ms[a] && all[b] == MockFor(p, members)[0];
        }
      }
      forall a | 0 <= a < |all|
        ensures !FieldExists(all[a].name, members)
      {
        if a < |ms| {
          assert all[a] == ms[a];
        } else {
          assert all[a] == MockFor(p, members)[0];
        }
      }
    }
  }

  /** The class members once the given mock fields are declared, each in a declaration of its own. */
  function WithFields(members: seq<MemberDeclaration>, ms: seq<MockField>): seq<MemberDeclaration>
  {
    members + seq(|ms|, a requires 0 <= a < |ms| => FieldDeclaration(ms[a].typeName, [ms[a].name]))
  }

  /** After the insertions, a name is a field exactly when it was one before or was just declared. */
  lemma FieldExistsWithFields(name: string, members: seq<MemberDeclaration>, ms: seq<MockField>)
    ensures FieldExists(name, WithFields(members, ms)) <==>
              FieldExists(name, members) || exists a :: 0 <= a < |ms| && ms[a].name == name
  {
    var after := WithFields(members, ms);
    if exists a :: 0 <= a < |ms| && ms[a].name == name {
      var a :| 0 <= a < |ms| && ms[a].name == name;
      assert after[|members| + a].variables[0] == name;
    }
    if FieldExists(name, after) {
      var i, j :| 0 <= i < |after| && after[i].FieldDeclaration?
                  && 0 <= j < |after[i].variables| && after[i].variables[j] == name;
      if i < |members| {
        assert members[i] == after[i];
      } else {
        assert ms[i - |members|].name == name;
      }
    }
    if FieldExists(name, members) {
      var i, j :| 0 <= i < |members| && members[i].FieldDeclaration?
                  && 0 <= j < |members[i].variables| && members[i].variables[j] == name;
      assert after[i] == members[i];
    }
  }

  /**
   * A repair of a sibling creation in the same class, after this repair's fields are in place,
   * declares none of those fields again: it reuses them.
   */
  lemma SiblingRepairReusesFields(ps: seq<Parameter>, siblingPs: seq<Parameter>, members: seq<MemberDeclaration>)
    ensures forall m, m' ::
              (m in MocksToCreate(siblingPs, WithFields(members, MocksToCreate(ps, members)))
               && m' in MocksToCreate(ps, members)) ==> m.name != m'.name
  {
    var first := MocksToCreate(ps, members);
    var after := WithFields(members, first);
    MocksToCreateMembers(siblingPs, after);
    forall m, m' | m in MocksToCreate(siblingPs, after) && m' in first
      ensures m.name != m'.name
    {
      var i :| 0 <= i < |siblingPs| && IsAbstractParameter(siblingPs[i])
               && !FieldExists(MockFieldName(siblingPs[i].name), after)
               && m == MockField(MockFieldName(siblingPs[i].name), siblingPs[i].paramType.display);
      FieldExistsWithFields(m.name, members, first);
      var a :| 0 <= a < |first| && first[a] == m';
    }
  }

  /** Repeating the repair on the same constructor declares no field at all. */
  lemma RepeatedRepairDeclaresNothing(ps: seq<Parameter>, members: seq<MemberDeclaration>)
    ensures MocksToCreate(ps, WithFields(members, MocksToCreate(ps, members))) == []
  {
    var first := MocksToCreate(ps, members);
    var again := MocksToCreate(ps, WithFields(members, first));
    SiblingRepairReusesFields(ps, ps, members);
    MocksToCreateMembers(ps, members);
    MocksToCreateMembers(ps, WithFields(members, first));
    if again != [] {
      var m := again[0];
      assert m in again;
      FieldExistsWithFields(m.name, members, first);
      assert false;
    }
  }

  /**
   * What a successful repair inserts: one field and one assignment for each mock field the
   * class lacks, the same fields in the same order, at most one per abstract parameter.
   */
  lemma InsertedFieldsAndAssignments(ctx: FixContext, k: nat)
    requires IsFirstMethodCandidate(ctx.symbolInfo, k)
    requires GenerateMocksPlan(ctx).Success?
    ensures FieldInsertions(GenerateMocksPlan(ctx).value)
            == MocksToCreate(ctx.symbolInfo.candidateSymbols[k].parameters, KnownMembers(ctx))
    ensures StatementInsertions(GenerateMocksPlan(ctx).value)
            == MocksToCreate(ctx.symbolInfo.candidateSymbols[k].parameters, KnownMembers(ctx))
    ensures |FieldInsertions(GenerateMocksPlan(ctx).value)| <= AbstractParameterCount(ctx.symbolInfo.candidateSymbols[k].parameters)
  {
    var ps := ctx.symbolInfo.candidateSymbols[k].parameters;
    var ms := MocksToCreate(ps, KnownMembers(ctx));
    var edits := GenerateMocksPlan(ctx).value;
    InsertionsComeInPairs(ms);
    MocksToCreateBounded(ps, KnownMembers(ctx));
    assert edits[..|edits| - 1] == AllInsertions(ms);
  }

  /** The context of a creation in the same class once a repair's fields are declared there. */
  function WithInsertedFields(ctx: FixContext, edits: seq<Edit>): FixContext
  {
    ctx.(classMembers := Some(WithFields(KnownMembers(ctx), FieldInsertions(edits))))
  }

  /** Once the declared mock fields are in place, every abstract parameter has its field. */
  lemma EveryMockFieldDeclared(ps: seq<Parameter>, members: seq<MemberDeclaration>)
    ensures forall i :: 0 <= i < |ps| && IsAbstractParameter(ps[i]) ==>
              FieldExists(MockFieldName(ps[i].name), WithFields(members, MocksToCreate(ps, members)))
  {
    var ms := MocksToCreate(ps, members);
    MocksToCreateMembers(ps, members);
    forall i | 0 <= i < |ps| && IsAbstractParameter(ps[i])
      ensures FieldExists(MockFieldName(ps[i].name), WithFields(members, ms))
    {
      var name := MockFieldName(ps[i].name);
      FieldExistsWithFields(name, members, ms);
      if !FieldExists(name, members) {
        var m := MockField(name, ps[i].paramType.display);
        assert m in ms;
        var a :| 0 <= a < |ms| && ms[a] == m;
      }
    }
  }

  /**
   * Applying the repair again, once its fields are declared, inserts nothing: it only sets the
   * same argument list again.
   */
  lemma RepairIsIdempotent(ctx: FixContext, k: nat)
    requires IsFirstMethodCandidate(ctx.symbolInfo, k)
    requires GenerateMocksPlan(ctx).Success?
    ensures GenerateMocksPlan(WithInsertedFields(ctx, GenerateMocksPlan(ctx).value)) ==
      Success([ReplaceNode(ObjectCreation, CreationWithArguments(ctx.creationTypeName,
                                                                 ExpectedArguments(ctx.symbolInfo.candidateSymbols[k].parameters)))])
  {
    var ps := ctx.symbolInfo.candidateSymbols[k].parameters;
    var members := KnownMembers(ctx);
    var ms := MocksToCreate(ps, members);
    var again := WithInsertedFields(ctx, GenerateMocksPlan(ctx).value);
    InsertedFieldsAndAssignments(ctx, k);
    assert again.classMembers == Some(WithFields(members, ms));
    assert again.symbolInfo == ctx.symbolInfo;
    RepeatedRepairDeclaresNothing(ps, members);
    assert MocksToCreate(ps, KnownMembers(again)) == [];
    EveryMockFieldDeclared(ps, members);
    forall i | 0 <= i < |ps|
      ensures ParameterRepairable(ps[i], again)
    {
      assert ParameterRepairable(ps[i], ctx);
    }
    var replace := ReplaceNode(ObjectCreation, CreationWithArguments(ctx.creationTypeName, ExpectedArguments(ps)));
    assert IsFirstMethodCandidate(again.symbolInfo, k);
    assert GenerateMocksPlan(again).Success?;
    assert GenerateMocksPlan(again).value == AllInsertions([]) + [replace];
    assert AllInsertions([]) + [replace] == [replace];
    assert GenerateMocksPlan(again) == Success([replace]);
  }

  /**
   * Two creations in one class needing the same mock field: once the first repair's fields are
   * declared, the second repair declares none of them again, so each field is declared once.
   */
  lemma SiblingRepairsShareFields(ctx: FixContext, k: nat, sibling: FixContext, k': nat)
    requires IsFirstMethodCandidate(ctx.symbolInfo, k) && IsFirstMethodCandidate(sibling.symbolInfo, k')
    requires GenerateMocksPlan(ctx).Success? && GenerateMocksPlan(sibling).Success?
    requires sibling.classMembers == WithInsertedFields(ctx, GenerateMocksPlan(ctx).value).classMembers
    ensures forall m, m' ::
              (m in FieldInsertions(GenerateMocksPlan(sibling).value)
               && m' in FieldInsertions(GenerateMocksPlan(ctx).value)) ==> m.name != m'.name
  {
    var ps := ctx.symbolInfo.candidateSymbols[k].parameters;
    InsertedFieldsAndAssignments(ctx, k);
    InsertedFieldsAndAssignments(sibling, k');
    SiblingRepairReusesFields(ps, sibling.symbolInfo.candidateSymbols[k'].parameters, KnownMembers(ctx));
  }

  /** The parameter loop never reads the arguments already supplied. */
  lemma {:induction false} MockStepsIgnoreSuppliedArguments(ps: seq<Parameter>, ctx: FixContext, supplied: Option<seq<Argument>>)
    ensures MockSteps(ps, ctx.(suppliedArguments := supplied)) == MockSteps(ps, ctx)
  {
    if ps != [] {
      MockStepsIgnoreSuppliedArguments(ps[..|ps| - 1], ctx, supplied);
      var p := ps[|ps| - 1];
      assert ParameterStep(p, ctx.(suppliedArguments := supplied)) == ParameterStep(p, ctx);
    }
  }

  /** Arguments already supplied play no part: the argument list is rebuilt from the parameters alone. */
  lemma SuppliedArgumentsDiscarded(ctx: FixContext, supplied: Option<seq<Argument>>)
    ensures GenerateMocksPlan(ctx.(suppliedArguments := supplied)) == GenerateMocksPlan(ctx)
  {
    var invoked := Linq.FirstOrDefault(ctx.symbolInfo.candidateSymbols, IsMethodSymbol);
    if invoked.Some? {
      MockStepsIgnoreSuppliedArguments(invoked.value.parameters, ctx, supplied);
    }
  }
}
