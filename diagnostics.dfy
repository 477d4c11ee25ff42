/** The one diagnostic both analyzer versions report, and its fixed descriptor. */
module Diagnostics {
  import opened Syntax

  datatype DiagnosticSeverity = Hidden | Info | Warning | Error

  datatype DiagnosticDescriptor = DiagnosticDescriptor(
    id: string, category: string, defaultSeverity: DiagnosticSeverity, isEnabledByDefault: bool)

  /** A reported diagnostic: the descriptor it was created from and its location in the tree. */
  datatype Diagnostic = Diagnostic(descriptor: DiagnosticDescriptor, location: TextSpan)

  const DiagnosticId := "NSHA100"
  const Category := "Testing"

  /** The analyzer's rule: id NSHA100, category Testing, a warning, enabled by default. */
  const Rule := DiagnosticDescriptor(DiagnosticId, Category, Warning, true)
}
