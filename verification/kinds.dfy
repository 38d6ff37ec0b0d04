/** The node-kind hierarchy of the tree and the default forwarding of the
    transformer's visit methods.

    `tree/jk.kt` declares one interface per node kind together with the
    interfaces it extends; `tree/visitors/JKTransformer.kt` declares one visit
    method per kind whose default implementation forwards to the visit method
    of exactly one more general kind. The kinds fall into the three families
    the transformer lists one after the other: the generic kinds, whose
    default methods cast the forwarded result back to their own kind, and the
    Java- and Kotlin-specific kinds, whose default methods return it as it
    is. The two "universe" marker interfaces of `jk.kt` have no visit method
    of their own.
 */
module Kinds {
  import opened Results

  datatype GenericKind =
    | Element | Declaration | Class | Method | Field
    | Modifier | ModifierList | AccessModifier | ModalityModifier
    | Reference | MethodReference | FieldReference | ClassReference
    | Type | ClassType | Statement | Loop | Block | Identifier | NameIdentifier
    | Expression | ExpressionStatement | BinaryExpression | UnaryExpression
    | PrefixExpression | PostfixExpression | QualifiedExpression
    | MethodCallExpression | FieldAccessExpression | ArrayAccessExpression
    | ParenthesizedExpression | TypeCastExpression | ExpressionList
    | LiteralExpression | ValueArgument | StringLiteralExpression

  datatype JavaKind =
    | JavaField | JavaMethod | JavaForLoop | JavaAssignmentExpression
    | JavaPrimitiveType | JavaArrayType | JavaMethodCallExpression
    | JavaFieldAccessExpression | JavaNewExpression | JavaAccessModifier
    | JavaModifier | JavaNewEmptyArray | JavaNewArray | JavaLiteralExpression

  datatype KotlinKind =
    | KtProperty | KtFunction | KtConstructor | KtPrimaryConstructor
    | KtAssignmentStatement | KtCall | KtModifier | KtMethodCallExpression
    | KtFieldAccessExpression | KtLiteralExpression

  datatype MarkerKind = UniverseDeclaration | UniverseClass

  datatype Kind =
    | Generic(generic: GenericKind)
    | JavaSpecific(java: JavaKind)
    | KotlinSpecific(kotlin: KotlinKind)
    | Marker(marker: MarkerKind)

  /** The kind has a visit method in the transformer. */
  predicate HasVisitMethod(k: Kind) {
    !k.Marker?
  }

  /** The kind's interface is declared in `tree/jk.kt`: every generic kind
      but the four declaration kinds, and the two markers. */
  predicate DeclaredInTreeFile(k: Kind) {
    || k.Marker?
    || (k.Generic? && k.generic != Declaration && k.generic != Class && k.generic != Method && k.generic != Field)
  }

  /** The interfaces a `jk.kt` generic interface directly extends
      (`JKTreeElement`, the root of `JKElement`, is not a kind of this model). */
  function GenericSupertypes(g: GenericKind): set<GenericKind> {
    match g
    case Element => {}
    case AccessModifier => {Modifier}
    case ModalityModifier => {Modifier}
    case MethodReference => {Reference}
    case FieldReference => {Reference}
    case ClassReference => {Reference}
    case ClassType => {Type}
    case Loop => {Statement}
    case NameIdentifier => {Identifier}
    case ExpressionStatement => {Statement}
    case BinaryExpression => {Expression}
    case UnaryExpression => {Expression}
    case PrefixExpression => {UnaryExpression}
    case PostfixExpression => {UnaryExpression}
    case QualifiedExpression => {Expression}
    case MethodCallExpression => {Expression}
    case FieldAccessExpression => {Expression}
    case ArrayAccessExpression => {Expression}
    case ParenthesizedExpression => {Expression}
    case TypeCastExpression => {Expression}
    case LiteralExpression => {Expression}
    case StringLiteralExpression => {LiteralExpression}
    // Modifier, ModifierList, Reference, Type, Statement, Block, Identifier,
    // Expression, ExpressionList, ValueArgument
    case _ => {Element}
  }

  /** The interfaces a `jk.kt` interface directly extends. */
  function Supertypes(k: Kind): set<Kind>
    requires DeclaredInTreeFile(k)
  {
    match k
    case Marker(UniverseDeclaration) => {Generic(Element), Generic(Declaration)}
    case Marker(UniverseClass) => {Marker(UniverseDeclaration), Generic(Class)}
    case Generic(g) => set s | s in GenericSupertypes(g) :: Generic(s)
  }

  /** Where the default visit method of a generic kind forwards; `None` for
      the abstract `visitElement`. */
  function GenericForward(g: GenericKind): Option<GenericKind> {
    match g
    case Element => None
    case Class => Some(Declaration)
    case Method => Some(Declaration)
    case Field => Some(Declaration)
    case AccessModifier => Some(Modifier)
    case ModalityModifier => Some(Modifier)
    case MethodReference => Some(Reference)
    case FieldReference => Some(Reference)
    case ClassReference => Some(Reference)
    case ClassType => Some(Type)
    case Loop => Some(Statement)
    case NameIdentifier => Some(Identifier)
    case ExpressionStatement => Some(Statement)
    case PrefixExpression => Some(UnaryExpression)
    case PostfixExpression => Some(UnaryExpression)
    case StringLiteralExpression => Some(LiteralExpression)
    case BinaryExpression | UnaryExpression | QualifiedExpression | MethodCallExpression
       | FieldAccessExpression | ArrayAccessExpression | ParenthesizedExpression
       | TypeCastExpression | LiteralExpression => Some(Expression)
    // Declaration, Modifier, ModifierList, Reference, Type, Statement, Block,
    // Identifier, Expression, ExpressionList, ValueArgument
    case _ => Some(Element)
  }

  /** The generic kind whose visit method a Java-specific one calls. */
  function JavaParent(j: JavaKind): GenericKind {
    match j
    case JavaField => Field
    case JavaMethod => Method
    case JavaForLoop => Loop
    case JavaAssignmentExpression => Expression
    case JavaPrimitiveType => Type
    case JavaArrayType => Type
    case JavaMethodCallExpression => MethodCallExpression
    case JavaFieldAccessExpression => FieldAccessExpression
    case JavaNewExpression => Expression
    case JavaAccessModifier => AccessModifier
    case JavaModifier => Modifier
    case JavaNewEmptyArray => Expression
    case JavaNewArray => Expression
    case JavaLiteralExpression => LiteralExpression
  }

  /** The kind whose visit method a Kotlin-specific one calls: a generic one,
      except for the primary constructor, which goes to the constructor. */
  function KotlinParent(kt: KotlinKind): Kind {
    match kt
    case KtProperty => Generic(Field)
    case KtFunction => Generic(Method)
    case KtConstructor => Generic(Declaration)
    case KtPrimaryConstructor => KotlinSpecific(KtConstructor)
    case KtAssignmentStatement => Generic(Statement)
    case KtCall => Generic(MethodCallExpression)
    case KtModifier => Generic(Modifier)
    case KtMethodCallExpression => Generic(MethodCallExpression)
    case KtFieldAccessExpression => Generic(FieldAccessExpression)
    case KtLiteralExpression => Generic(LiteralExpression)
  }

  /** The more general visit method a visit method forwards to by default;
      `None` for the abstract `visitElement` and for kinds without a visit method. */
  function Forward(k: Kind): (r: Option<Kind>)
    ensures r.None? <==> !HasVisitMethod(k) || k == Generic(Element)
    ensures r.Some? ==> HasVisitMethod(r.value)
  {
    match k
    case Generic(g) => if g == Element then None else Some(Generic(GenericForward(g).value))
    case JavaSpecific(j) => Some(Generic(JavaParent(j)))
    case KotlinSpecific(kt) => Some(KotlinParent(kt))
    case Marker(_) => None
  }

  /** The visit methods for the generic kinds cast the forwarded result back
      to their own kind (`... as JKClass`); the Java- and Kotlin-specific
      ones return the general method's result as it is. */
  predicate CastsResult(k: Kind) {
    k.Generic? && k.generic != Element
  }

  /** Distance of a generic kind from `Element`. */
  function GenericDepth(g: GenericKind): nat {
    match g
    case Element => 0
    case Declaration | Modifier | ModifierList | Reference | Type | Statement
       | Block | Identifier | Expression | ExpressionList | ValueArgument => 1
    case PrefixExpression | PostfixExpression | StringLiteralExpression => 3
    case _ => 2
  }

  /** Distance from `Element` in the generalisation order; the termination
      measure of every forwarding chain. */
  function Depth(k: Kind): nat {
    match k
    case Generic(g) => GenericDepth(g)
    case JavaSpecific(j) => GenericDepth(JavaParent(j)) + 1
    case KotlinSpecific(kt) => if kt == KtPrimaryConstructor then 3 else GenericDepth(KotlinParent(kt).generic) + 1
    case Marker(UniverseDeclaration) => 2
    case Marker(UniverseClass) => 3
  }

  /** Forwarding between generic kinds goes one level up and stops exactly
      at `visitElement`. The kinds are taken by depth so that each proof
      obligation stays small. */
  lemma GenericForwardStep(g: GenericKind)
    ensures GenericForward(g).None? <==> g == Element
    ensures GenericForward(g).Some? ==> GenericDepth(GenericForward(g).value) + 1 == GenericDepth(g)
  {
    match GenericDepth(g)
    case 0 =>
    case 1 => GenericForwardFromTop(g);
    case 2 => GenericForwardFromMiddle(g);
    case _ =>
  }

  lemma GenericForwardFromTop(g: GenericKind)
    requires GenericDepth(g) == 1
    ensures GenericForward(g) == Some(Element)
  {
  }

  lemma GenericForwardFromMiddle(g: GenericKind)
    requires GenericDepth(g) == 2
    ensures GenericForward(g).Some? && GenericDepth(GenericForward(g).value) == 1
  {
  }

  /** Forwarding goes one level up, stays among kinds with a visit method,
      and stops exactly at `visitElement`. */
  lemma ForwardStep(k: Kind)
    requires HasVisitMethod(k)
    ensures Forward(k).None? <==> k == Generic(Element)
    ensures Forward(k).Some? ==> HasVisitMethod(Forward(k).value)
    ensures Forward(k).Some? ==> Depth(Forward(k).value) + 1 == Depth(k)
  {
    match k
    case Generic(g) => GenericForwardStep(g);
    case JavaSpecific(_) =>
    case KotlinSpecific(kt) =>
  }

  /** The chain of visit methods that a call of `visitK` passes through when
      nothing is overridden: `k`, its forward target, and so on. */
  function Chain(k: Kind): (c: seq<Kind>)
    requires HasVisitMethod(k)
    decreases Depth(k)
    ensures |c| == Depth(k) + 1
    ensures c[0] == k && c[|c| - 1] == Generic(Element)
    ensures forall i | 0 <= i < |c| :: HasVisitMethod(c[i]) && Depth(c[i]) + i == Depth(k)
    ensures forall i | 0 <= i < |c| - 1 :: LinkAt(c, i)
  {
    ForwardStep(k);
    if Forward(k).None? then [k]
    else
      var rest := Chain(Forward(k).value);
      ChainCons(k, rest);
      [k] + rest
  }

  /** Putting `k` in front of the chain of its forward target keeps the
      chain properties. */
  lemma ChainCons(k: Kind, rest: seq<Kind>)
    requires |rest| > 0 && Forward(k) == Some(rest[0]) && Depth(rest[0]) + 1 == Depth(k)
    requires |rest| == Depth(rest[0]) + 1 && rest[|rest| - 1] == Generic(Element)
    requires forall i | 0 <= i < |rest| :: HasVisitMethod(rest[i]) && Depth(rest[i]) + i == Depth(rest[0])
    requires forall i | 0 <= i < |rest| - 1 :: LinkAt(rest, i)
    requires HasVisitMethod(k)
    ensures var c := [k] + rest;
      && forall i | 0 <= i < |c| :: HasVisitMethod(c[i]) && Depth(c[i]) + i == Depth(k)
    ensures var c := [k] + rest; forall i | 0 <= i < |c| - 1 :: LinkAt(c, i)
  {
    var c := [k] + rest;
    forall i | 1 <= i < |c|
      ensures c[i] == rest[i - 1]
    {
    }
    forall i | 1 <= i < |c| - 1
      ensures LinkAt(c, i)
    {
      assert LinkAt(rest, i - 1);
    }
  }

  /** Position `i` of chain `c` forwards to position `i + 1`. */
  predicate LinkAt(c: seq<Kind>, i: int)
    requires 0 <= i < |c| - 1
  {
    Forward(c[i]) == Some(c[i + 1])
  }

  /** `k` generalises to `g` along the forwarding chain. */
  predicate IsA(k: Kind, g: Kind) {
    HasVisitMethod(k) && g in Chain(k)
  }

  /** Every chain ends at `visitElement` and visits no method twice. */
  lemma ChainAcyclic(k: Kind)
    requires HasVisitMethod(k)
    ensures Chain(k)[|Chain(k)| - 1] == Generic(Element)
    ensures forall i, j | 0 <= i < j < |Chain(k)| :: Chain(k)[i] != Chain(k)[j]
  {
    var c := Chain(k);
    forall i, j | 0 <= i < j < |c|
      ensures c[i] != c[j]
    {
      assert Depth(c[i]) + i == Depth(k) && Depth(c[j]) + j == Depth(k);
    }
  }

  /** The transformer's forwarding agrees with the interface hierarchy of
      `jk.kt`: each declared interface forwards to one of its own supertypes,
      and every declared supertype is less deep. */
  lemma ForwardFollowsSupertypes(k: Kind)
    requires DeclaredInTreeFile(k)
    ensures HasVisitMethod(k) && Forward(k).Some? ==> Forward(k).value in Supertypes(k)
    ensures forall s | s in Supertypes(k) :: Depth(s) < Depth(k)
  {
    if k.Generic? {
      GenericForwardIsSupertype(k.generic);
      GenericForwardStep(k.generic);
      forall s | s in Supertypes(k)
        ensures Depth(s) < Depth(k)
      {
        GenericSupertypesAbove(k.generic, s.generic);
      }
    }
  }

  lemma GenericForwardIsSupertype(g: GenericKind)
    requires g != Declaration && g != Class && g != Method && g != Field
    ensures GenericForward(g).Some? ==> GenericForward(g).value in GenericSupertypes(g)
  {
  }

  lemma GenericSupertypesAbove(g: GenericKind, s: GenericKind)
    requires s in GenericSupertypes(g)
    ensures GenericDepth(s) < GenericDepth(g)
  {
  }

  /** A chain read off index by index: the kind, then its forward targets. */
  lemma ChainOf4(k: Kind, a: Kind, b: Kind)
    requires HasVisitMethod(k) && Forward(k) == Some(a) && Forward(a) == Some(b) && Forward(b) == Some(Generic(Element))
    ensures Chain(k) == [k, a, b, Generic(Element)]
  {
    ForwardStep(k);
    ForwardStep(a);
    ForwardStep(b);
    var ch := Chain(k);
    assert |ch| == 4;
    assert LinkAt(ch, 0) && LinkAt(ch, 1) && LinkAt(ch, 2);
  }

  /** Prefix and postfix expressions forward through unary to expression. */
  lemma UnaryChains(k: Kind)
    requires k == Generic(PrefixExpression) || k == Generic(PostfixExpression)
    ensures Chain(k) == [k, Generic(UnaryExpression), Generic(Expression), Generic(Element)]
  {
    ChainOf4(k, Generic(UnaryExpression), Generic(Expression));
  }

  /** A Java field and a Kotlin property both forward through field to declaration. */
  lemma FieldChains(k: Kind)
    requires k == JavaSpecific(JavaField) || k == KotlinSpecific(KtProperty)
    ensures Chain(k) == [k, Generic(Field), Generic(Declaration), Generic(Element)]
  {
    ChainOf4(k, Generic(Field), Generic(Declaration));
  }

  /** The Kotlin primary constructor forwards through the Kotlin constructor
      to declaration. */
  lemma PrimaryConstructorChain()
    ensures Chain(KotlinSpecific(KtPrimaryConstructor)) ==
      [KotlinSpecific(KtPrimaryConstructor), KotlinSpecific(KtConstructor), Generic(Declaration), Generic(Element)]
  {
    ChainOf4(KotlinSpecific(KtPrimaryConstructor), KotlinSpecific(KtConstructor), Generic(Declaration));
  }

  /** `k` is a kind whose generalisations, below `Element`, are exactly `g`. */
  lemma ChainOf3(k: Kind, g: Kind)
    requires HasVisitMethod(k) && Forward(k) == Some(g) && Forward(g) == Some(Generic(Element))
    ensures Chain(k) == [k, g, Generic(Element)]
  {
    ForwardStep(k);
    ForwardStep(g);
    var ch := Chain(k);
    assert |ch| == 3 && LinkAt(ch, 0) && LinkAt(ch, 1);
  }

  /** A loop and an expression statement are statements (and so not
      expressions). */
  lemma StatementChains(k: Kind)
    requires k == Generic(Loop) || k == Generic(ExpressionStatement)
    ensures Chain(k) == [k, Generic(Statement), Generic(Element)]
  {
    ChainOf3(k, Generic(Statement));
  }

  /** A kind that forwards straight to `visitElement` has a chain of two. */
  lemma ChainOf2(k: Kind)
    requires HasVisitMethod(k) && Forward(k) == Some(Generic(Element))
    ensures Chain(k) == [k, Generic(Element)]
  {
    ForwardStep(k);
    var ch := Chain(k);
    assert |ch| == 2 && LinkAt(ch, 0);
  }

  /** A block forwards straight to `visitElement`: it is a plain element and
      not a statement. */
  lemma BlockChain()
    ensures Chain(Generic(Block)) == [Generic(Block), Generic(Element)]
    ensures !IsA(Generic(Block), Generic(Statement))
  {
    ChainOf2(Generic(Block));
  }

  /** Access and modality modifiers are modifiers. */
  lemma ModifierChains(k: Kind)
    requires k == Generic(AccessModifier) || k == Generic(ModalityModifier)
    ensures Chain(k) == [k, Generic(Modifier), Generic(Element)]
  {
    ChainOf3(k, Generic(Modifier));
  }

  /** Method, field and class references are references. */
  lemma ReferenceChains(k: Kind)
    requires k == Generic(MethodReference) || k == Generic(FieldReference) || k == Generic(ClassReference)
    ensures Chain(k) == [k, Generic(Reference), Generic(Element)]
  {
    ChainOf3(k, Generic(Reference));
  }

  /** The three call-expression visit methods share `visitMethodCallExpression`,
      and no other method forwards there. */
  lemma CallKindsShareMethodCall(k: Kind)
    ensures Forward(k) == Some(Generic(MethodCallExpression)) <==>
      k == JavaSpecific(JavaMethodCallExpression) || k == KotlinSpecific(KtCall) ||
      k == KotlinSpecific(KtMethodCallExpression)
  {
    if k.Generic? {
      GenericNotToMethodCall(k.generic);
    } else if k.JavaSpecific? {
      JavaToMethodCall(k.java);
    } else if k.KotlinSpecific? {
      KotlinToMethodCall(k.kotlin);
    }
  }

  lemma GenericNotToMethodCall(g: GenericKind)
    ensures GenericForward(g) != Some(MethodCallExpression)
  {
  }

  lemma JavaToMethodCall(j: JavaKind)
    ensures JavaParent(j) == MethodCallExpression <==> j == JavaMethodCallExpression
  {
  }

  lemma KotlinToMethodCall(kt: KotlinKind)
    ensures KotlinParent(kt) == Generic(MethodCallExpression) <==> kt == KtCall || kt == KtMethodCallExpression
  {
  }

  // ---------------------------------------------------------------------
  // Dispatch of a visit call

  /** Index of the visit method that handles a call of `c[0]`: the first
      one on the chain that the transformer overrides, or `visitElement`,
      which every transformer implements. */
  function FirstHandled(c: seq<Kind>, overridden: set<Kind>): (i: nat)
    requires |c| > 0
    ensures i < |c|
    ensures c[i] in overridden || i == |c| - 1
    ensures forall j | 0 <= j < i :: c[j] !in overridden
  {
    if c[0] in overridden || |c| == 1 then 0 else 1 + FirstHandled(c[1..], overridden)
  }

  /** The default method for `g` lets a node of kind `rk` through. */
  predicate PassesCast(g: Kind, rk: Kind) {
    CastsResult(g) ==> IsA(rk, g)
  }

  /** The return through the default methods `c[i - 1]`, ..., `c[0]` of a
      node of kind `rk` produced by the handler `c[i]`: every casting
      method checks that the node is of its own kind. */
  function Unwind(c: seq<Kind>, i: nat, rk: Kind): (r: Result<Kind>)
    requires i < |c|
    decreases i
    ensures r.Ok? <==> forall j | 0 <= j < i :: PassesCast(c[j], rk)
    ensures r.Ok? ==> r.value == rk
    ensures r.Fail? ==> r.failure == CastFailed
  {
    if i == 0 then Ok(rk)
    else if !PassesCast(c[i - 1], rk) then Fail(CastFailed)
    else Unwind(c, i - 1, rk)
  }

  /** A call of `visitK` on a transformer that overrides the visit methods
      `overridden`, whose handler returns a node of kind `rk`. */
  function Dispatch(k: Kind, overridden: set<Kind>, rk: Kind): (r: Result<Kind>)
    requires HasVisitMethod(k)
    ensures r.Ok? ==> r.value == rk
    ensures r.Fail? ==> r.failure == CastFailed
  {
    Unwind(Chain(k), FirstHandled(Chain(k), overridden), rk)
  }

  /** A transformer whose handler returns a node of the kind it was given,
      or of a more specific kind, passes every cast on the way back; an
      overridden method is its own handler. */
  lemma SameKindAccepted(k: Kind, overridden: set<Kind>, rk: Kind)
    requires HasVisitMethod(k) && HasVisitMethod(rk) && IsA(rk, k)
    ensures Dispatch(k, overridden, rk) == Ok(rk)
    ensures k in overridden ==> FirstHandled(Chain(k), overridden) == 0
  {
    var c := Chain(k);
    var i := FirstHandled(c, overridden);
    forall j | 0 <= j < i
      ensures PassesCast(c[j], rk)
    {
      ChainSuffix(rk, k, j);
    }
  }

  /** Whatever lies on the chain of `k` lies on the chain of every kind
      below `k`. */
  lemma {:induction false} ChainSuffix(rk: Kind, k: Kind, j: nat)
    requires HasVisitMethod(rk) && HasVisitMethod(k) && IsA(rk, k) && j < |Chain(k)|
    decreases Depth(rk)
    ensures IsA(rk, Chain(k)[j])
  {
    ForwardStep(rk);
    if rk != k {
      assert Chain(rk) == [rk] + Chain(Forward(rk).value);
      assert k in Chain(Forward(rk).value);
      ChainSuffix(Forward(rk).value, k, j);
    } else {
      assert Chain(k)[j] in Chain(rk);
    }
  }

  /** A transformer that only implements `visitElement` and answers a
      prefix expression with a plain expression fails the cast in
      `visitPrefixExpression`. */
  lemma WrongKindRejected()
    ensures Dispatch(Generic(PrefixExpression), {}, Generic(Expression)) == Fail(CastFailed)
  {
    var c := Chain(Generic(PrefixExpression));
    UnaryChains(Generic(PrefixExpression));
    var i := FirstHandled(c, {});
    assert i == 3;
    ChainOf2(Generic(Expression));
    assert !IsA(Generic(Expression), Generic(UnaryExpression));
    assert !PassesCast(c[1], Generic(Expression));
  }

  /** The provenance of a reference (universe to universe, universe to
      multiverse, multiverse to universe); there is no multiverse-to-multiverse value. */
  datatype ReferenceType = U2U | U2M | M2U
}
