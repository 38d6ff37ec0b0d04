/** Symbols of the tree (`tree/impl/symbols.kt`) and the foreign program
    elements they may stand for.

    A "universe" symbol names a declaration of the tree being built; it is
    created without a target, which is assigned later. Object identity of a
    universe symbol is modelled by a serial number, and its target lives in
    the symbol provider's target map (see module `Provider`), so that binding
    is seen by every holder of the symbol. A "multiverse" symbol names a
    declaration outside the tree and holds its foreign element from
    construction on.
 */
module Symbols {
  import opened Results

  /** The kinds of foreign element the converter distinguishes. A type
      parameter is a `PsiClass` in IntelliJ's model; `OtherElement` is any
      element that is none of these. */
  datatype ElementKind = JavaClass | TypeParameter | KotlinClass | JavaMethod | JavaField | OtherElement

  /** A foreign (PSI) element, identified by `id`. */
  datatype Handle = Handle(id: nat, kind: ElementKind, name: string, qualifiedName: Option<string>)

  predicate IsPsiClass(h: Handle) {
    h.kind == JavaClass || h.kind == TypeParameter
  }

  /** What a universe symbol will be bound to. */
  datatype Category = ClassSymbol | MethodSymbol | FieldSymbol

  datatype Symbol =
    | Universe(category: Category, serial: nat)
    | MultiverseClass(psi: Handle)
    | MultiverseKtClass(psi: Handle)
    | MultiverseMethod(psi: Handle)
    | MultiverseField(psi: Handle)

  /** `is JKClassSymbol`, `is JKMethodSymbol`, `is JKFieldSymbol`. */
  function CategoryOf(s: Symbol): Category {
    match s
    case Universe(c, _) => c
    case MultiverseClass(_) => ClassSymbol
    case MultiverseKtClass(_) => ClassSymbol
    case MultiverseMethod(_) => MethodSymbol
    case MultiverseField(_) => FieldSymbol
  }

  /** `declaredIn`, the symbol of the enclosing declaration. */
  function DeclaredIn(s: Symbol): Result<Symbol> {
    Fail(NotImplemented)
  }

  /** `declaredIn` is `TODO()` on every variant: no read succeeds. */
  lemma DeclaredInUnimplemented(s: Symbol)
    ensures DeclaredIn(s).Fail? && DeclaredIn(s).failure == NotImplemented
  {
  }

  /** The name a multiverse symbol reports: the foreign qualified name for
      class symbols (possibly absent), the foreign simple name for method and
      field symbols. Universe symbols report their target's name (see
      `Provider.FqName`). */
  function ForeignFqName(s: Symbol): Option<string>
    requires !s.Universe?
  {
    match s
    case MultiverseClass(h) => h.qualifiedName
    case MultiverseKtClass(h) => h.qualifiedName
    case MultiverseMethod(h) => Some(h.name)
    case MultiverseField(h) => Some(h.name)
  }

  /** Class symbols may lack a name; method and field symbols never do. */
  lemma ForeignFqNameShape(s: Symbol)
    requires !s.Universe?
    ensures CategoryOf(s) != ClassSymbol ==> ForeignFqName(s) == Some(s.psi.name)
    ensures CategoryOf(s) == ClassSymbol ==> ForeignFqName(s) == s.psi.qualifiedName
  {
  }
}
