/**
 * What the analyzer and the code fix ask of the compiler's semantic model, as plain data:
 * the symbol information of an object creation (candidate reason and candidate symbols),
 * the parameters of a method candidate, and the lookup of a namespace or type by name.
 */
module Semantics {
  import opened Syntax
  import Linq

  /** Why a symbol could not be bound to one definite symbol (Roslyn's `CandidateReason`). */
  datatype CandidateReason =
    | NoCandidateReason  // Roslyn's `None`: the symbol was resolved
    | NotATypeOrNamespace | NotAnEvent | NotAWithEventsMember | NotAnAttributeType
    | WrongArity | NotCreatable | NotReferencable | Inaccessible | NotAValue | NotAVariable
    | NotInvocable | StaticInstanceMismatch | OverloadResolutionFailure | LateBound
    | Ambiguous | MemberGroup

  /**
   * The type of a parameter. Named types (classes, interfaces, structs, delegates such as
   * `Func<T>`) carry `IsAbstract`, which holds for interfaces and abstract classes; every other
   * kind of type (arrays, type parameters, `dynamic`) is not an `INamedTypeSymbol`.
   * `display` is the type rendered in minimally qualified form.
   */
  datatype TypeSymbol =
    | NamedType(display: string, isAbstract: bool)
    | UnnamedType(display: string)

  datatype Parameter = Parameter(name: string, paramType: TypeSymbol)

  datatype Symbol = MethodSymbol(parameters: seq<Parameter>) | OtherSymbol(kind: string)

  datatype SymbolInfo = SymbolInfo(candidateReason: CandidateReason, candidateSymbols: seq<Symbol>)

  /**
   * The semantic model of one syntax tree: `GetSymbolInfo(node)` and
   * `LookupNamespacesAndTypes(position, name)`, the latter giving the names of what it found.
   */
  datatype SemanticModel = SemanticModel(
    getSymbolInfo: SyntaxNode -> SymbolInfo,
    lookupNamespacesAndTypes: (nat, string) -> seq<string>)

  predicate IsMethodSymbol(s: Symbol)
  {
    s.MethodSymbol?
  }

  /** The name the analyzers look up to decide whether NSubstitute is available. */
  const NSubstituteName := "NSubstitute"

  /** `LookupNamespacesAndTypes(0, name: "NSubstitute").FirstOrDefault() != null`. */
  predicate NSubstituteFound(model: SemanticModel)
  {
    |model.lookupNamespacesAndTypes(0, NSubstituteName)| > 0
  }

  /** Some candidate of the symbol information is a method (here: a constructor). */
  predicate HasMethodCandidate(info: SymbolInfo)
  {
    exists k :: 0 <= k < |info.candidateSymbols| && IsMethodSymbol(info.candidateSymbols[k])
  }

  /** The `k`-th candidate is the first method candidate. */
  predicate IsFirstMethodCandidate(info: SymbolInfo, k: int)
  {
    Linq.IsFirstWhere(info.candidateSymbols, IsMethodSymbol, k)
  }
}
