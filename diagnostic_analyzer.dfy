/**
 * The first version of the NSubstitute helper analyzer (`NSubstituteHelperAnalyzer.AnalyzeSymbol`
 * in NSubstitute.QuickFixes/NSubstitute.QuickFixes/DiagnosticAnalyzer.cs). For one syntax tree it examines only the
 * first object creation and reports NSHA100 there when overload resolution failed, some
 * candidate is a constructor and NSubstitute is visible. It has no parameter-count guard.
 */
module DiagnosticAnalyzer {
  import opened Wrappers
  import opened Syntax
  import opened Semantics
  import opened Diagnostics
  import Linq

  /** The guards of this version, for the symbol information of the examined creation. */
  predicate Reportable(info: SymbolInfo, model: SemanticModel)
  {
    info.candidateReason == OverloadResolutionFailure && HasMethodCandidate(info) && NSubstituteFound(model)
  }

  /**
   * At most one diagnostic per tree (the result is an option). It is reported exactly when the
   * first object creation in document order passes every guard, it is NSHA100 with severity
   * Warning, and it sits on that creation.
   */
  function AnalyzeSymbol(root: SyntaxNode, model: SemanticModel): (r: Option<Diagnostic>)
    ensures var nodes := DescendantNodes(root);
      r.Some? <==> exists i :: Linq.IsFirstWhere(nodes, IsObjectCreation, i)
                              && Reportable(model.getSymbolInfo(nodes[i]), model)
    ensures var nodes := DescendantNodes(root);
      r.Some? ==>
        && r.value.descriptor.id == "NSHA100"
        && r.value.descriptor.defaultSeverity == Warning
        && exists i :: Linq.IsFirstWhere(nodes, IsObjectCreation, i) && r.value.location == nodes[i].span
  {
    match FirstObjectCreation(root)
    case None => None
    case Some(expression) =>
      var info := model.getSymbolInfo(expression);
      if info.candidateReason != OverloadResolutionFailure then None
      else if Linq.FirstOrDefault(info.candidateSymbols, IsMethodSymbol).None? then None
      else if !NSubstituteFound(model) then None
      else Some(Diagnostic(Rule, expression.span))
  }
}
