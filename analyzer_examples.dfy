/**
 * Concrete trees run through both analyzer versions: the scenarios of the repository's unit
 * tests, the first-creation-only limitation, and the input on which the later version throws.
 */
module AnalyzerExamples {
  import opened Wrappers
  import opened Syntax
  import Linq
  import opened Semantics
  import opened Diagnostics
  import First = DiagnosticAnalyzer
  import Later = HelperAnalyzer

  /** A compilation unit whose only object creation is `new <typeName>(<arguments>)`. */
  function TreeWithCreation(kind: NodeKind, span: TextSpan): SyntaxNode
  {
    SyntaxNode(OtherNode("CompilationUnit"), TextSpan(0, 400), [
      SyntaxNode(OtherNode("ClassDeclaration"), TextSpan(100, 200), [
        SyntaxNode(kind, span, [])])])
  }

  /** A semantic model that answers `info` for every node, and finds NSubstitute iff `referenced`. */
  function ModelWith(info: SymbolInfo, referenced: bool): SemanticModel
  {
    SemanticModel(
      (n: SyntaxNode) => info,
      (position: nat, name: string) => if referenced && name == NSubstituteName then [NSubstituteName] else [])
  }

  const ServiceConstructor := MethodSymbol([
    Parameter("myAnotherService", NamedType("IMyAnotherService", true)),
    Parameter("s", NamedType("string", false)),
    Parameter("i", NamedType("int", false))])

  /** `new MyService()` against `MyService(IMyAnotherService, string, int)`: both versions warn there. */
  lemma ReportsMissingConstructorArguments()
    ensures var root := TreeWithCreation(ObjectCreationExpression("MyService", Some([])), TextSpan(250, 15));
      var model := ModelWith(SymbolInfo(OverloadResolutionFailure, [ServiceConstructor]), true);
      && Later.AnalyzeSymbol(root, model) == Some(Diagnostic(Rule, TextSpan(250, 15)))
      && First.AnalyzeSymbol(root, model) == Some(Diagnostic(Rule, TextSpan(250, 15)))
  {
  }

  /**
   * `new MyService()` where `MyService` declares no constructor: the creation binds to the
   * implicit constructor, so there is no candidate reason and neither version reports.
   */
  lemma NoDiagnosticWhenCreationBinds()
    ensures var root := TreeWithCreation(ObjectCreationExpression("MyService", Some([])), TextSpan(250, 15));
      var model := ModelWith(SymbolInfo(NoCandidateReason, []), false);
      && Later.AnalyzeSymbol(root, model) == None
      && Later.AnalyzeSymbolAsWritten(root, model) == Success(None)
      && First.AnalyzeSymbol(root, model) == None
  {
  }

  /**
   * A creation whose overload resolution fails, without a reference to NSubstitute: the
   * namespace guard alone keeps both versions silent.
   */
  lemma SilentWithoutNSubstitute()
    ensures var root := TreeWithCreation(ObjectCreationExpression("MyService", Some([])), TextSpan(250, 15));
      var model := ModelWith(SymbolInfo(OverloadResolutionFailure, [ServiceConstructor]), false);
      && Later.AnalyzeSymbol(root, model) == None
      && First.AnalyzeSymbol(root, model) == None
  {
  }

  /**
   * `new FirstService(thirdService)` against `FirstService(ISecondService)`: overload resolution
   * fails on the argument's type, not its count. Only the first version warns.
   */
  lemma MatchingCountOnlyFirstVersionReports()
    ensures var root := TreeWithCreation(
              ObjectCreationExpression("FirstService", Some([IdentifierName("thirdService")])), TextSpan(250, 30));
      var model := ModelWith(SymbolInfo(OverloadResolutionFailure, [
                     MethodSymbol([Parameter("secondService", NamedType("ISecondService", true))])]), true);
      && Later.AnalyzeSymbol(root, model) == None
      && Later.AnalyzeSymbolAsWritten(root, model) == Success(None)
      && First.AnalyzeSymbol(root, model) == Some(Diagnostic(Rule, TextSpan(250, 30)))
  {
  }

  /** `new FirstService()`, which does not resolve, placed after a creation that does. */
  const SecondCreation := SyntaxNode(ObjectCreationExpression("FirstService", Some([])), TextSpan(300, 18), [])

  const TwoCreations := SyntaxNode(OtherNode("CompilationUnit"), TextSpan(0, 400), [
    SyntaxNode(ObjectCreationExpression("MyService", Some([])), TextSpan(200, 15), []),
    SecondCreation])

  /** Overload resolution fails on `SecondCreation` only. */
  const SecondFails := SemanticModel(
    (n: SyntaxNode) => if n == SecondCreation
                       then SymbolInfo(OverloadResolutionFailure, [ServiceConstructor])
                       else SymbolInfo(NoCandidateReason, []),
    (position: nat, name: string) => [NSubstituteName])

  /** Only the first creation is examined, so nothing is reported for `TwoCreations`... */
  lemma OnlyFirstCreationExamined()
    ensures Later.AnalyzeSymbol(TwoCreations, SecondFails) == None
    ensures First.AnalyzeSymbol(TwoCreations, SecondFails) == None
  {
    var first := TwoCreations.children[0];
    assert DescendantNodes(TwoCreations) == [first] + DescendantNodes(first) + SubtreesInOrder(TwoCreations.children[1..]);
    assert Linq.IsFirstWhere(DescendantNodes(TwoCreations), IsObjectCreation, 0);
    assert FirstObjectCreation(TwoCreations) == Some(first);
    assert SecondFails.getSymbolInfo(first) == SymbolInfo(NoCandidateReason, []);
  }

  /** ...although its second creation alone would be. */
  lemma SecondCreationAloneReported()
    ensures Later.AnalyzeSymbol(TreeWithCreation(SecondCreation.kind, SecondCreation.span), SecondFails)
            == Some(Diagnostic(Rule, SecondCreation.span))
  {
  }

  /**
   * `new FirstService { }` (no argument list) against `FirstService(ISecondService)`: the later
   * version as written dereferences the missing argument list and throws, where the corrected
   * one reports NSHA100 as for `new FirstService()`.
   */
  lemma MissingArgumentListThrows()
    ensures var root := TreeWithCreation(ObjectCreationExpression("FirstService", None), TextSpan(250, 20));
      var model := ModelWith(SymbolInfo(OverloadResolutionFailure, [
                     MethodSymbol([Parameter("secondService", NamedType("ISecondService", true))])]), true);
      && Later.AnalyzeSymbolAsWritten(root, model) == Failure(Later.NullReferenceException)
      && Later.AnalyzeSymbol(root, model) == Some(Diagnostic(Rule, TextSpan(250, 20)))
      && First.AnalyzeSymbol(root, model) == Some(Diagnostic(Rule, TextSpan(250, 20)))
  {
  }
}
