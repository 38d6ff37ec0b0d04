/** The default forwarding of the void Kotlin-declaration visitor
    (`tree/JKKtVisitorVoid.kt`).

    Each of the three Kotlin declaration kinds has two visit methods: the
    data-taking override inherited from the generic visitor, which delegates
    to the data-less form, and the data-less form, which delegates to a more
    general data-taking method. The data-taking `visitDeclaration` belongs to
    the generic void visitor and ends the chain in this model.
 */
module KtVisitorVoid {
  import opened Results

  datatype VoidKind = KtFun | KtConstructor | KtPrimaryConstructor | Declaration

  datatype VisitMethod = VisitMethod(kind: VoidKind, takesData: bool)

  const DeclarationWithData := VisitMethod(Declaration, true)

  /** The method a default implementation delegates to; `None` for the
      data-taking `visitDeclaration`, whose body lies outside this file, and
      for the data-less `visitDeclaration`, which this file does not declare. */
  function Delegate(m: VisitMethod): (r: Option<VisitMethod>)
    ensures r.None? <==> m.kind == Declaration
    ensures r.Some? ==> Distance(r.value) + 1 == Distance(m)
  {
    match m.kind
    case Declaration => None
    case KtFun =>
      if m.takesData then Some(VisitMethod(KtFun, false)) else Some(DeclarationWithData)
    case KtConstructor =>
      if m.takesData then Some(VisitMethod(KtConstructor, false)) else Some(DeclarationWithData)
    case KtPrimaryConstructor =>
      if m.takesData then Some(VisitMethod(KtPrimaryConstructor, false))
      else Some(VisitMethod(KtConstructor, true))
  }

  /** Number of delegations left before the data-taking `visitDeclaration`. */
  function Distance(m: VisitMethod): nat {
    match m.kind
    case Declaration => 0
    case KtFun => if m.takesData then 2 else 1
    case KtConstructor => if m.takesData then 2 else 1
    case KtPrimaryConstructor => if m.takesData then 4 else 3
  }

  /** The methods a call passes through when nothing is overridden. */
  function Route(m: VisitMethod): (r: seq<VisitMethod>)
    requires m.kind != Declaration || m.takesData
    decreases Distance(m)
    ensures |r| == Distance(m) + 1
    ensures r[0] == m && r[|r| - 1] == DeclarationWithData
    ensures forall i | 0 <= i < |r| - 1 :: r[i].kind != Declaration
  {
    match Delegate(m)
    case None => [m]
    case Some(next) => [m] + Route(next)
  }

  /** Each data-taking override delegates to the data-less form of the same kind. */
  lemma DataTakingDelegatesToDataLess(k: VoidKind)
    requires k != Declaration
    ensures Delegate(VisitMethod(k, true)) == Some(VisitMethod(k, false))
  {
  }

  /** `visitKtFun` and `visitKtConstructor` default to `visitDeclaration`. */
  lemma FunAndConstructorDefaults(k: VoidKind)
    requires k in {KtFun, KtConstructor}
    ensures Route(VisitMethod(k, true)) == [VisitMethod(k, true), VisitMethod(k, false), DeclarationWithData]
  {
    var r := Route(VisitMethod(k, true));
    assert r[1] == VisitMethod(k, false);
  }

  /** `visitKtPrimaryConstructor` defaults to `visitKtConstructor` and hence,
      through the data-less form, to `visitDeclaration`. */
  lemma PrimaryConstructorDefault()
    ensures Route(VisitMethod(KtPrimaryConstructor, true)) ==
      [VisitMethod(KtPrimaryConstructor, true), VisitMethod(KtPrimaryConstructor, false),
       VisitMethod(KtConstructor, true), VisitMethod(KtConstructor, false), DeclarationWithData]
  {
    var r := Route(VisitMethod(KtPrimaryConstructor, true));
    assert r[1] == VisitMethod(KtPrimaryConstructor, false);
    assert r[2] == VisitMethod(KtConstructor, true);
    assert r[3] == VisitMethod(KtConstructor, false);
  }
}
