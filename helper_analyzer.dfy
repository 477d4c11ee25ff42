/**
 * The later version of the analyzer (`NSubstituteHelperAnalyzer.AnalyzeSymbol` in
 * src/NSubstitute.QuickFixes/NSubstitute.QuickFixes/NSubstituteHelperAnalyzer.cs). It adds one guard to the first
 * version: no diagnostic when the first constructor candidate already has as many parameters
 * as the creation supplies arguments.
 *
 * That guard reads `expression.ArgumentList.Arguments`, and the argument list of `new T { ... }`
 * is null. `AnalyzeSymbolAsWritten` keeps the resulting exception; `AnalyzeSymbol` counts a
 * missing argument list as no arguments, which is what the guard evidently means.
 */
module HelperAnalyzer {
  import opened Wrappers
  import opened Syntax
  import opened Semantics
  import opened Diagnostics
  import Linq
  import First = DiagnosticAnalyzer

  datatype AnalyzerException = NullReferenceException

  /** The number of arguments a creation supplies; none when it has no argument list. */
  function SuppliedArgumentCount(kind: NodeKind): nat
  {
    if kind.ObjectCreationExpression? && kind.argumentList.Some? then |kind.argumentList.value| else 0
  }

  /** The first constructor candidate has a parameter count other than `argumentCount`. */
  ghost predicate ParameterCountDiffers(info: SymbolInfo, argumentCount: nat)
  {
    exists k :: IsFirstMethodCandidate(info, k) && |info.candidateSymbols[k].parameters| != argumentCount
  }

  /** The guards that come before the parameter-count guard. */
  predicate PassesCandidateGuards(info: SymbolInfo)
  {
    info.candidateReason == OverloadResolutionFailure && HasMethodCandidate(info)
  }

  /** All guards of this version, for the examined creation's symbol information and argument count. */
  ghost predicate Reportable(info: SymbolInfo, argumentCount: nat, model: SemanticModel)
  {
    PassesCandidateGuards(info) && ParameterCountDiffers(info, argumentCount) && NSubstituteFound(model)
  }

  /**
   * The analyzer as written. It throws exactly when the first creation passes the candidate
   * guards and has no argument list; otherwise it reports at most one NSHA100 warning, on the
   * first creation, exactly when that creation passes every guard.
   */
  function AnalyzeSymbolAsWritten(root: SyntaxNode, model: SemanticModel): (r: Result<Option<Diagnostic>, AnalyzerException>)
    ensures var nodes := DescendantNodes(root);
      r.Failure? <==> exists i :: Linq.IsFirstWhere(nodes, IsObjectCreation, i)
                                 && PassesCandidateGuards(model.getSymbolInfo(nodes[i]))
                                 && nodes[i].kind.argumentList.None?
    ensures var nodes := DescendantNodes(root);
      r.Success? && r.value.Some? <==>
        exists i :: Linq.IsFirstWhere(nodes, IsObjectCreation, i)
                 && nodes[i].kind.argumentList.Some?
                 && Reportable(model.getSymbolInfo(nodes[i]), |nodes[i].kind.argumentList.value|, model)
    ensures var nodes := DescendantNodes(root);
      r.Success? && r.value.Some? ==>
        && r.value.value.descriptor.id == "NSHA100"
        && r.value.value.descriptor.defaultSeverity == Warning
        && exists i :: Linq.IsFirstWhere(nodes, IsObjectCreation, i) && r.value.value.location == nodes[i].span
  {
    match FirstObjectCreation(root)
    case None => Success(None)
    case Some(expression) =>
      var info := model.getSymbolInfo(expression);
      if info.candidateReason != OverloadResolutionFailure then Success(None)
      else
        match Linq.FirstOrDefault(info.candidateSymbols, IsMethodSymbol)
        case None => Success(None)
        case Some(invokedSymbol) =>
          if expression.kind.argumentList.None? then Failure(NullReferenceException)
          else if |invokedSymbol.parameters| == |expression.kind.argumentList.value| then Success(None)
          else if !NSubstituteFound(model) then Success(None)
          else Success(Some(Diagnostic(Rule, expression.span)))
  }

  /**
   * The analyzer with the argument-count guard reading a missing argument list as no
   * arguments. At most one diagnostic per tree; it is reported exactly when the first object
   * creation passes every guard, it is NSHA100 with severity Warning, and it sits on that creation.
   */
  function AnalyzeSymbol(root: SyntaxNode, model: SemanticModel): (r: Option<Diagnostic>)
    ensures var nodes := DescendantNodes(root);
      r.Some? <==> exists i :: Linq.IsFirstWhere(nodes, IsObjectCreation, i)
                              && Reportable(model.getSymbolInfo(nodes[i]), SuppliedArgumentCount(nodes[i].kind), model)
    ensures var nodes := DescendantNodes(root);
      r.Some? ==>
        && r.value.descriptor.id == "NSHA100"
        && r.value.descriptor.defaultSeverity == Warning
        && exists i :: Linq.IsFirstWhere(nodes, IsObjectCreation, i) && r.value.location == nodes[i].span
  {
    match FirstObjectCreation(root)
    case None => None
    case Some(expression) =>
      var info := model.getSymbolInfo(expression);
      if info.candidateReason != OverloadResolutionFailure then None
      else
        match Linq.FirstOrDefault(info.candidateSymbols, IsMethodSymbol)
        case None => None
        case Some(invokedSymbol) =>
          if |invokedSymbol.parameters| == SuppliedArgumentCount(expression.kind) then None
          else if !NSubstituteFound(model) then None
          else Some(Diagnostic(Rule, expression.span))
  }

  /** Where the analyzer as written does not throw, it agrees with the corrected one. */
  lemma AsWrittenAgreesUnlessItThrows(root: SyntaxNode, model: SemanticModel)
    ensures AnalyzeSymbolAsWritten(root, model).Success? ==>
              AnalyzeSymbolAsWritten(root, model).value == AnalyzeSymbol(root, model)
  {
  }

  /** The parameter-count guard only narrows: whatever this version reports, the first version reports too. */
  lemma NarrowsFirstVersion(root: SyntaxNode, model: SemanticModel)
    ensures AnalyzeSymbol(root, model).Some? ==> First.AnalyzeSymbol(root, model) == AnalyzeSymbol(root, model)
    ensures AnalyzeSymbolAsWritten(root, model).Success? && AnalyzeSymbolAsWritten(root, model).value.Some? ==>
              First.AnalyzeSymbol(root, model) == AnalyzeSymbolAsWritten(root, model).value
  {
  }

  /**
   * The two versions disagree exactly when the examined creation passes the first version's
   * guards and its first constructor candidate has as many parameters as it has arguments.
   */
  lemma FirstVersionReportsMore(root: SyntaxNode, model: SemanticModel, expression: SyntaxNode)
    requires FirstObjectCreation(root) == Some(expression)
    ensures var info := model.getSymbolInfo(expression);
      (First.AnalyzeSymbol(root, model).Some? && AnalyzeSymbol(root, model).None?) <==>
      (First.Reportable(info, model) && !ParameterCountDiffers(info, SuppliedArgumentCount(expression.kind)))
  {
    var info := model.getSymbolInfo(expression);
    match Linq.FirstOrDefault(info.candidateSymbols, IsMethodSymbol)
    case None =>
    case Some(invokedSymbol) =>
      var k :| IsFirstMethodCandidate(info, k) && info.candidateSymbols[k] == invokedSymbol;
      assert ParameterCountDiffers(info, SuppliedArgumentCount(expression.kind))
             <==> |invokedSymbol.parameters| != SuppliedArgumentCount(expression.kind);
  }
}
