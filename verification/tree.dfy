/** Node shapes of the converter's intermediate tree (`tree/impl/jk.kt`,
    `tree/impl/j.kt`, `tree/impl/k.kt`) and its types.

    Every implementation class becomes one constructor of `Node`. A class
    field declared with the `child`/`children` delegates is a child slot;
    any other field is plain data. `Slots` lists a node's child slots in
    declaration order and `WithSlots` replaces them, leaving the data
    alone; together they are what a generic tree pass sees. Nodes are
    immutable values, so a node has exactly one parent by construction and
    the parent links, `attach` and `detach` of the source have no
    counterpart here.

    The source files are snapshots of different ages. Enumerations are the
    union of the values any of them uses, and a class that one file builds
    with more fields than another declares carries the union of the fields.
 */
module Tree {
  import opened Results
  import opened Tokens
  import opened Symbols
  import Kinds

  datatype Nullability = Nullable | NotNull | Default

  /** `JKJavaPrimitiveTypeImpl`: BYTE, BOOLEAN and INT in `tree/impl/j.kt`,
      the other four as used by `tree/types.kt`. */
  datatype Primitive = BYTE | BOOLEAN | INT | CHAR | LONG | FLOAT | DOUBLE

  /** `JKLiteralExpression.LiteralType`: STRING, BOOLEAN and NULL in
      `tree/jk.kt`, the others as used by the tree builder and `tree/types.kt`. */
  datatype LiteralType = STRING | CHAR | BOOLEAN | INT | LONG | FLOAT | DOUBLE | NULL

  datatype Variance = IN | OUT

  datatype ClassKind = CLASS | ENUM | INTERFACE | ANNOTATION | COMPANION

  /** Extra modifiers of the later tree the inner-class pass works on. */
  datatype ExtraModifier = STATIC | INNER | OtherExtraModifier(extraName: string)

  datatype AccessModifierType = PUBLIC | PROTECTED | PRIVATE

  datatype JavaModifierType = ABSTRACT | FINAL | NATIVE | STATIC | STRICTFP | SYNCHRONIZED | TRANSIENT | VOLATILE

  datatype Type =
    | ClassType(classReference: Symbol, parameters: seq<Type>, nullability: Nullability)
    | UnresolvedClassType(rawName: string, parameters: seq<Type>, nullability: Nullability)
    | TypeParameterType(parameterName: string, nullability: Nullability)
    | JavaArrayType(component: Type, nullability: Nullability)
    | JavaPrimitiveType(primitive: Primitive)
    | JavaVoidType
    | NoType
    | VarianceType(variance: Variance, bound: Type)
    | StarProjectionType
    | DisjunctionType(disjunctions: seq<Type>)

  /** `JKClassTypeImpl` built without a nullability argument. */
  function PlainClassType(symbol: Symbol, parameters: seq<Type>): (t: Type)
    ensures t.ClassType? && t.nullability == Default
    ensures t.classReference == symbol && t.parameters == parameters
  {
    ClassType(symbol, parameters, Default)
  }

  datatype Node =
    // tree/impl/jk.kt
    | Class(name: Node, modifierList: Node, classKind: ClassKind, declarations: seq<Node>,
            extraModifiers: seq<ExtraModifier>)
    | NameIdentifier(value: string)
    | ModifierList(modifiers: seq<Node>)
    | ValueArgument(typeElement: Node, argumentName: string)
    | Block(statements: seq<Node>)
    | BodyStub
    | BinaryExpression(left: Node, right: Node, operator: Operator)
    | PrefixExpression(expression: Node, operator: Operator)
    | PostfixExpression(expression: Node, operator: Operator)
    | ExpressionList(expressions: seq<Node>)
    | QualifiedExpression(receiver: Node, qualifier: Qualifier, selector: Node)
    | ExpressionStatement(expression: Node)
    | DeclarationStatement(declaredStatements: seq<Node>)
    | ArrayAccessExpression(expression: Node, indexExpression: Node)
    | ParenthesizedExpression(expression: Node)
    | TypeCastExpression(expression: Node, typeElement: Node)
    | TypeElement(elementType: Type)
    | NullLiteral
    | BooleanLiteral(boolValue: bool)
    | LocalVariable(modifierList: Node, typeElement: Node, name: Node, initializer: Node)
    | StubExpression
    | BlockStatement(block: Node)
    | ThisExpression
    | SuperExpression
    | WhileStatement(condition: Node, body: Node)
    | DoWhileStatement(body: Node, condition: Node)
    | SwitchStatement(expression: Node, block: Node)
    | SwitchLabelStatement(expression: Node)
    | SwitchDefaultLabelStatement
    | BreakStatement
    | IfStatement(condition: Node, thenBranch: Node)
    | IfElseStatement(condition: Node, thenBranch: Node, elseBranch: Node)
    | IfElseExpression(condition: Node, thenBranch: Node, elseBranch: Node)
    | ClassAccessExpression(classSymbol: Symbol)
    // tree/impl/j.kt
    | JavaField(modifierList: Node, typeElement: Node, name: Node, initializer: Node)
    | JavaLiteralExpression(literal: string, literalType: LiteralType)
    | JavaAccessModifier(access: AccessModifierType)
    | JavaModifier(javaModifier: JavaModifierType)
    | JavaMethod(modifierList: Node, name: Node, valueArguments: seq<Node>, block: Node)
    | JavaMethodCallExpression(methodSymbol: Symbol, arguments: Node)
    | JavaFieldAccessExpression(fieldSymbol: Symbol)
    | JavaNewExpression(constructorSymbol: Symbol, arguments: Node)
    | JavaNewEmptyArray(dimensions: seq<Option<Node>>)
    | JavaNewArray(initializers: seq<Node>)
    | ReturnStatement(expression: Node)
    | JavaAssignmentExpression(lExpression: Node, rExpression: Node)
    // tree/impl/k.kt
    | KtProperty(modifierList: Node, typeElement: Node, name: Node, initializer: Node, getter: Node, setter: Node)
    | KtFunction(returnType: Node, name: Node, valueArguments: seq<Node>, block: Node, modifierList: Node)
    | KtCallExpression(methodSymbol: Symbol, arguments: Node)
    | KtFieldAccessExpression(fieldSymbol: Symbol)
    | KtLiteralExpression(literal: string, literalType: LiteralType)
    | KtModifier(ktModifier: string)

  // ---------------------------------------------------------------------
  // Child slots

  /** The child slots of a node, in the order the class declares them.
      Classes derived from `JKElementBase` rather than `JKBranchElementBase`
      declare none, whatever fields they hold. */
  function Slots(n: Node): (r: seq<Node>)
    ensures forall i | 0 <= i < |r| :: r[i] < n
  {
    match n
    case Class(name, modifierList, _, declarations, _) => [name, modifierList] + declarations
    case ModifierList(modifiers) => modifiers
    case ValueArgument(typeElement, _) => [typeElement]
    case Block(statements) => statements
    case BinaryExpression(left, right, _) => [right, left]
    case PrefixExpression(expression, _) => [expression]
    case PostfixExpression(expression, _) => [expression]
    case ExpressionList(expressions) => expressions
    case QualifiedExpression(receiver, _, selector) => [receiver, selector]
    case ExpressionStatement(expression) => [expression]
    case DeclarationStatement(declared) => declared
    case ArrayAccessExpression(expression, index) => [expression, index]
    case ParenthesizedExpression(expression) => [expression]
    case TypeCastExpression(_, typeElement) => [typeElement]
    case LocalVariable(modifierList, typeElement, name, initializer) => [modifierList, initializer, name, typeElement]
    case BlockStatement(block) => [block]
    case WhileStatement(condition, body) => [condition, body]
    case DoWhileStatement(body, condition) => [condition, body]
    case SwitchStatement(expression, block) => [block, expression]
    case SwitchLabelStatement(expression) => [expression]
    case IfStatement(condition, thenBranch) => [thenBranch, condition]
    case IfElseStatement(condition, thenBranch, elseBranch) => [elseBranch, thenBranch, condition]
    case IfElseExpression(condition, thenBranch, elseBranch) => [elseBranch, thenBranch, condition]
    case JavaNewExpression(_, arguments) => [arguments]
    case ReturnStatement(expression) => [expression]
    case JavaAssignmentExpression(l, r) => [l, r]
    case KtProperty(modifierList, typeElement, name, initializer, getter, setter) =>
      [modifierList, typeElement, name, initializer, getter, setter]
    case KtFunction(returnType, name, valueArguments, block, modifierList) =>
      [returnType, name] + valueArguments + [block, modifierList]
    case KtCallExpression(_, arguments) => [arguments]
    case _ => []
  }

  /** The slots of `n` are a fixed number of single slots plus, for some
      classes, one list slot of any length. */
  function FixedSlotCount(n: Node): nat {
    match n
    case Class(_, _, _, _, _) | WhileStatement(_, _) | DoWhileStatement(_, _) | SwitchStatement(_, _)
       | BinaryExpression(_, _, _) | QualifiedExpression(_, _, _) | ArrayAccessExpression(_, _)
       | IfStatement(_, _) | JavaAssignmentExpression(_, _) => 2
    case ValueArgument(_, _) | PrefixExpression(_, _) | PostfixExpression(_, _) | ExpressionStatement(_)
       | ParenthesizedExpression(_) | TypeCastExpression(_, _) | BlockStatement(_) | SwitchLabelStatement(_)
       | JavaNewExpression(_, _) | ReturnStatement(_) | KtCallExpression(_, _) => 1
    case IfElseStatement(_, _, _) | IfElseExpression(_, _, _) => 3
    case LocalVariable(_, _, _, _) | KtFunction(_, _, _, _, _) => 4
    case KtProperty(_, _, _, _, _, _) => 6
    case _ => 0
  }

  /** Without a list slot, `FixedSlotCount` counts every slot. */
  lemma FixedSlotsCounted(n: Node)
    ensures HasListSlot(n) ==> |Slots(n)| >= FixedSlotCount(n)
    ensures !HasListSlot(n) ==> |Slots(n)| == FixedSlotCount(n)
  {
  }

  predicate HasListSlot(n: Node) {
    n.Class? || n.KtFunction? || n.ModifierList? || n.Block? || n.ExpressionList? || n.DeclarationStatement?
  }

  /** `cs` has a shape `WithSlots(n, cs)` can take. */
  predicate SlotsFit(n: Node, cs: seq<Node>) {
    if HasListSlot(n) then |cs| >= FixedSlotCount(n) else |cs| == FixedSlotCount(n)
  }

  /** `n` with its child slots replaced by `cs`, in `Slots` order. */
  function WithSlots(n: Node, cs: seq<Node>): (r: Node)
    requires SlotsFit(n, cs)
  {
    match n
    case Class(_, _, kind, _, extra) => Class(cs[0], cs[1], kind, cs[2..], extra)
    case ModifierList(_) => ModifierList(cs)
    case ValueArgument(_, argumentName) => ValueArgument(cs[0], argumentName)
    case Block(_) => Block(cs)
    case BinaryExpression(_, _, operator) => BinaryExpression(cs[1], cs[0], operator)
    case PrefixExpression(_, operator) => PrefixExpression(cs[0], operator)
    case PostfixExpression(_, operator) => PostfixExpression(cs[0], operator)
    case ExpressionList(_) => ExpressionList(cs)
    case QualifiedExpression(_, qualifier, _) => QualifiedExpression(cs[0], qualifier, cs[1])
    case ExpressionStatement(_) => ExpressionStatement(cs[0])
    case DeclarationStatement(_) => DeclarationStatement(cs)
    case ArrayAccessExpression(_, _) => ArrayAccessExpression(cs[0], cs[1])
    case ParenthesizedExpression(_) => ParenthesizedExpression(cs[0])
    case TypeCastExpression(expression, _) => TypeCastExpression(expression, cs[0])
    case LocalVariable(_, _, _, _) => LocalVariable(cs[0], cs[3], cs[2], cs[1])
    case BlockStatement(_) => BlockStatement(cs[0])
    case WhileStatement(_, _) => WhileStatement(cs[0], cs[1])
    case DoWhileStatement(_, _) => DoWhileStatement(cs[1], cs[0])
    case SwitchStatement(_, _) => SwitchStatement(cs[1], cs[0])
    case SwitchLabelStatement(_) => SwitchLabelStatement(cs[0])
    case IfStatement(_, _) => IfStatement(cs[1], cs[0])
    case IfElseStatement(_, _, _) => IfElseStatement(cs[2], cs[1], cs[0])
    case IfElseExpression(_, _, _) => IfElseExpression(cs[2], cs[1], cs[0])
    case JavaNewExpression(constructorSymbol, _) => JavaNewExpression(constructorSymbol, cs[0])
    case ReturnStatement(_) => ReturnStatement(cs[0])
    case JavaAssignmentExpression(_, _) => JavaAssignmentExpression(cs[0], cs[1])
    case KtProperty(_, _, _, _, _, _) => KtProperty(cs[0], cs[1], cs[2], cs[3], cs[4], cs[5])
    case KtFunction(_, _, _, _, _) => KtFunction(cs[0], cs[1], cs[2..|cs| - 2], cs[|cs| - 2], cs[|cs| - 1])
    case KtCallExpression(methodSymbol, _) => KtCallExpression(methodSymbol, cs[0])
    case _ => n
  }

  /** Reading back the slots just written yields them. */
  lemma SlotsOfWithSlots(n: Node, cs: seq<Node>)
    requires SlotsFit(n, cs)
    ensures Slots(WithSlots(n, cs)) == cs
  {
    if HasListSlot(n) {
      ListSlotsRoundTrip(n, cs);
    } else if |cs| <= 1 {
      ShortSlotsRoundTrip(n, cs);
    } else {
      LongSlotsRoundTrip(n, cs);
    }
  }

  lemma ListSlotsRoundTrip(n: Node, cs: seq<Node>)
    requires HasListSlot(n) && SlotsFit(n, cs)
    ensures Slots(WithSlots(n, cs)) == cs
    ensures WithSlots(n, Slots(n)) == n
  {
    if n.Class? {
      assert [cs[0], cs[1]] + cs[2..] == cs;
      assert ([n.name, n.modifierList] + n.declarations)[2..] == n.declarations;
    } else if n.KtFunction? {
      assert [cs[0], cs[1]] + cs[2..|cs| - 2] + [cs[|cs| - 2], cs[|cs| - 1]] == cs;
      var s := [n.returnType, n.name] + n.valueArguments + [n.block, n.modifierList];
      assert s[2..|s| - 2] == n.valueArguments;
    }
  }

  lemma ShortSlotsRoundTrip(n: Node, cs: seq<Node>)
    requires !HasListSlot(n) && SlotsFit(n, cs) && |cs| <= 1
    ensures Slots(WithSlots(n, cs)) == cs
    ensures WithSlots(n, Slots(n)) == n
  {
  }

  lemma LongSlotsRoundTrip(n: Node, cs: seq<Node>)
    requires !HasListSlot(n) && SlotsFit(n, cs) && |cs| > 1
    ensures Slots(WithSlots(n, cs)) == cs
    ensures WithSlots(n, Slots(n)) == n
  {
  }

  /** Writing back a node's own slots changes nothing. */
  lemma WithOwnSlots(n: Node)
    ensures SlotsFit(n, Slots(n))
    ensures WithSlots(n, Slots(n)) == n
  {
    FixedSlotsCounted(n);
    if HasListSlot(n) {
      ListSlotsRoundTrip(n, Slots(n));
    } else if |Slots(n)| <= 1 {
      ShortSlotsRoundTrip(n, Slots(n));
    } else {
      LongSlotsRoundTrip(n, Slots(n));
    }
  }

  /** Only the slots change: a node whose slots were replaced is the old node
      again once the old slots are put back, and a second replacement
      overrides the first. */
  lemma WithSlotsOnlyTouchesSlots(n: Node, cs: seq<Node>, ds: seq<Node>)
    requires SlotsFit(n, cs) && SlotsFit(n, ds)
    ensures SlotsFit(WithSlots(n, cs), ds)
    ensures WithSlots(WithSlots(n, cs), ds) == WithSlots(n, ds)
    ensures WithSlots(WithSlots(n, cs), Slots(n)) == n
  {
    SlotsOfWithSlots(n, cs);
    WithOwnSlots(n);
    SameShape(n, cs, ds);
    SameShape(n, cs, Slots(n));
  }

  /** Replacing the slots twice is replacing them once with the second set. */
  lemma SameShape(n: Node, cs: seq<Node>, ds: seq<Node>)
    requires SlotsFit(n, cs) && SlotsFit(n, ds)
    ensures SlotsFit(WithSlots(n, cs), ds)
    ensures WithSlots(WithSlots(n, cs), ds) == WithSlots(n, ds)
  {
    if HasListSlot(n) {
      ListSameShape(n, cs, ds);
    } else if |cs| <= 1 {
      ShortSameShape(n, cs, ds);
    } else {
      LongSameShape(n, cs, ds);
    }
  }

  lemma ListSameShape(n: Node, cs: seq<Node>, ds: seq<Node>)
    requires HasListSlot(n) && SlotsFit(n, cs) && SlotsFit(n, ds)
    ensures SlotsFit(WithSlots(n, cs), ds)
    ensures WithSlots(WithSlots(n, cs), ds) == WithSlots(n, ds)
  {
  }

  lemma ShortSameShape(n: Node, cs: seq<Node>, ds: seq<Node>)
    requires !HasListSlot(n) && SlotsFit(n, cs) && SlotsFit(n, ds) && |cs| <= 1
    ensures SlotsFit(WithSlots(n, cs), ds)
    ensures WithSlots(WithSlots(n, cs), ds) == WithSlots(n, ds)
  {
  }

  lemma LongSameShape(n: Node, cs: seq<Node>, ds: seq<Node>)
    requires !HasListSlot(n) && SlotsFit(n, cs) && SlotsFit(n, ds) && |cs| > 1
    ensures SlotsFit(WithSlots(n, cs), ds)
    ensures WithSlots(WithSlots(n, cs), ds) == WithSlots(n, ds)
  {
  }

  /** A binary expression's slots are right and left, in that order; its
      operator is data and survives slot replacement. The same holds for a
      qualified expression's receiver and selector against its qualifier. */
  lemma BinaryAndQualifiedSlots(l: Node, r: Node, op: Operator, q: Qualifier, l2: Node, r2: Node)
    ensures Slots(BinaryExpression(l, r, op)) == [r, l]
    ensures WithSlots(BinaryExpression(l, r, op), [r2, l2]) == BinaryExpression(l2, r2, op)
    ensures Slots(QualifiedExpression(l, q, r)) == [l, r]
    ensures WithSlots(QualifiedExpression(l, q, r), [l2, r2]) == QualifiedExpression(l2, q, r2)
  {
  }

  /** In a type cast only the type element is a slot; the operand is data. */
  lemma TypeCastSlots(e: Node, t: Node, t2: Node)
    ensures Slots(TypeCastExpression(e, t)) == [t]
    ensures WithSlots(TypeCastExpression(e, t), [t2]) == TypeCastExpression(e, t2)
  {
  }

  /** The single-slot classes whose symbol is data: a Java `new` expression
      and a Kotlin call hold only their argument list as a slot, and a
      Kotlin field access is a leaf. */
  lemma SymbolHoldersSlots(s: Symbol, args: Node)
    ensures Slots(JavaNewExpression(s, args)) == [args]
    ensures Slots(KtCallExpression(s, args)) == [args]
    ensures Slots(KtFieldAccessExpression(s)) == []
  {
  }

  /** A Kotlin property has six single slots; a Kotlin function has five
      slots, the third a list. */
  lemma KotlinDeclarationSlots(n: Node)
    requires n.KtProperty? || n.KtFunction?
    ensures n.KtProperty? ==> Slots(n) == [n.modifierList, n.typeElement, n.name, n.initializer, n.getter, n.setter]
    ensures n.KtFunction? ==> Slots(n) == [n.returnType, n.name] + n.valueArguments + [n.block, n.modifierList]
  {
  }

  /** A Java field or method, although it holds nodes, declares no slots. */
  lemma JavaDeclarationsHaveNoSlots(n: Node)
    requires n.JavaField? || n.JavaMethod? || n.JavaMethodCallExpression? || n.JavaNewArray?
    ensures Slots(n) == []
  {
  }

  /** Replacing slots keeps the node's class: its kind, as `Category`
      reports it, does not change. */
  lemma WithSlotsKeepsCategory(n: Node, cs: seq<Node>)
    requires SlotsFit(n, cs)
    ensures Category(WithSlots(n, cs)) == Category(n)
  {
  }

  /** Replacing slots keeps a node's operator, if it has one. */
  lemma WithSlotsKeepsOperator(n: Node, cs: seq<Node>)
    requires SlotsFit(n, cs)
    ensures IsOperatorNode(WithSlots(n, cs)) <==> IsOperatorNode(n)
    ensures IsOperatorNode(n) ==> WithSlots(n, cs).operator == n.operator
  {
    if IsOperatorNode(n) {
      assert IsOperatorNode(WithSlots(n, cs)) && WithSlots(n, cs).operator == n.operator;
    } else {
      KeepsBinary(n, cs);
      KeepsUnary(n, cs);
    }
  }

  lemma KeepsBinary(n: Node, cs: seq<Node>)
    requires SlotsFit(n, cs)
    ensures WithSlots(n, cs).BinaryExpression? ==> n.BinaryExpression?
  {
  }

  lemma KeepsUnary(n: Node, cs: seq<Node>)
    requires SlotsFit(n, cs)
    ensures WithSlots(n, cs).PrefixExpression? ==> n.PrefixExpression?
    ensures WithSlots(n, cs).PostfixExpression? ==> n.PostfixExpression?
  {
  }

  /** Nodes carrying an operator. */
  predicate IsOperatorNode(n: Node) {
    n.BinaryExpression? || n.PrefixExpression? || n.PostfixExpression?
  }

  /** Every operator node a generic pass can reach from `n` through child
      slots carries an operator from `ops`. */
  predicate OperatorsIn(n: Node, ops: set<Operator>)
    decreases n
  {
    && (IsOperatorNode(n) ==> n.operator in ops)
    && forall i :: 0 <= i < |Slots(n)| ==> OperatorsIn(Slots(n)[i], ops)
  }

  // ---------------------------------------------------------------------
  // Slot size: the termination measure of the generic passes

  /** Number of nodes reachable through slots. */
  ghost function Size(n: Node): (r: nat)
    decreases n, 1
    ensures r >= 1
  {
    1 + SumSize(Slots(n), n)
  }

  ghost function SumSize(cs: seq<Node>, parent: Node): nat
    requires forall i | 0 <= i < |cs| :: cs[i] < parent
    decreases parent, 0, |cs|
  {
    if cs == [] then 0 else Size(cs[0]) + SumSize(cs[1..], parent)
  }

  /** Total slot size of a sequence of nodes, independent of any parent. */
  ghost function TotalSize(cs: seq<Node>): nat {
    if cs == [] then 0 else Size(cs[0]) + TotalSize(cs[1..])
  }

  lemma {:induction false} SumSizeIsTotal(cs: seq<Node>, parent: Node)
    requires forall i | 0 <= i < |cs| :: cs[i] < parent
    ensures SumSize(cs, parent) == TotalSize(cs)
    decreases |cs|
  {
    if cs != [] {
      SumSizeIsTotal(cs[1..], parent);
    }
  }

  /** The size of a node is one more than the total size of its slots. */
  lemma SizeBySlots(n: Node)
    ensures Size(n) == 1 + TotalSize(Slots(n))
  {
    SumSizeIsTotal(Slots(n), n);
  }

  /** Each slot is strictly smaller than its node. */
  lemma {:induction false} SlotSmaller(cs: seq<Node>, i: int)
    requires 0 <= i < |cs|
    ensures Size(cs[i]) <= TotalSize(cs)
    decreases |cs|
  {
    if i > 0 {
      SlotSmaller(cs[1..], i - 1);
    }
  }

  lemma SlotsSmaller(n: Node)
    ensures forall i | 0 <= i < |Slots(n)| :: Size(Slots(n)[i]) < Size(n)
  {
    SizeBySlots(n);
    forall i | 0 <= i < |Slots(n)|
      ensures Size(Slots(n)[i]) < Size(n)
    {
      SlotSmaller(Slots(n), i);
    }
  }

  lemma {:induction false} TotalSizePointwise(a: seq<Node>, b: seq<Node>)
    requires |a| == |b|
    requires forall i | 0 <= i < |a| :: Size(a[i]) == Size(b[i])
    ensures TotalSize(a) == TotalSize(b)
    decreases |a|
  {
    if a != [] {
      TotalSizePointwise(a[1..], b[1..]);
    }
  }

  /** Replacing slots by nodes of the same sizes keeps the size. */
  lemma SizeOfWithSlots(n: Node, cs: seq<Node>)
    requires SlotsFit(n, cs)
    ensures Size(WithSlots(n, cs)) == 1 + TotalSize(cs)
  {
    SizeBySlots(WithSlots(n, cs));
    SlotsOfWithSlots(n, cs);
  }

  // ---------------------------------------------------------------------
  // Children visited by `acceptChildren`

  /** What `acceptChildren` hands to the visitor: a node, or (for a Java
      method call, whose identifier is a symbol in this model) a symbol. */
  datatype Visit = VisitNode(node: Node) | VisitSymbol(symbol: Symbol)

  function VisitAll(cs: seq<Node>): (r: seq<Visit>)
    ensures |r| == |cs| && forall i | 0 <= i < |cs| :: r[i] == VisitNode(cs[i])
  {
    seq(|cs|, i requires 0 <= i < |cs| => VisitNode(cs[i]))
  }

  /** The children `acceptChildren` visits, in order. The Java classes that
      override it visit their own choice of fields (or nothing), the body
      stub visits nothing, and every other node visits its slots. */
  function AcceptChildren(n: Node): seq<Visit> {
    match n
    case JavaField(_, typeElement, name, initializer) =>
      [VisitNode(typeElement), VisitNode(name), VisitNode(initializer)]
    case JavaMethodCallExpression(methodSymbol, arguments) =>
      [VisitSymbol(methodSymbol), VisitNode(arguments)]
    case JavaFieldAccessExpression(fieldSymbol) => [VisitSymbol(fieldSymbol)]
    case JavaNewEmptyArray(_) => []
    case JavaNewArray(_) => []
    case BodyStub => []
    case _ => VisitAll(Slots(n))
  }

  /** A Java field visits type, name and initializer and skips its modifier
      list; a Java method call visits its identifier and then its arguments;
      array creations visit nothing, even when they hold nodes. */
  lemma JavaAcceptChildrenOrder(n: Node)
    ensures n.JavaField? ==>
      AcceptChildren(n) == [VisitNode(n.typeElement), VisitNode(n.name), VisitNode(n.initializer)]
    ensures n.JavaMethodCallExpression? ==> AcceptChildren(n) == [VisitSymbol(n.methodSymbol), VisitNode(n.arguments)]
    ensures n.JavaNewEmptyArray? || n.JavaNewArray? ==> AcceptChildren(n) == []
  {
  }

  // ---------------------------------------------------------------------
  // Leaf constants and the body stub

  /** The text of a literal node. */
  function LiteralText(n: Node): Option<string> {
    match n
    case NullLiteral => Some("null")
    case BooleanLiteral(v) => Some(if v then "true" else "false")
    case JavaLiteralExpression(literal, _) => Some(literal)
    case KtLiteralExpression(literal, _) => Some(literal)
    case _ => None
  }

  /** The literal type of a literal node. */
  function LiteralTypeOf(n: Node): Option<LiteralType> {
    match n
    case NullLiteral => Some(NULL)
    case BooleanLiteral(_) => Some(LiteralType.BOOLEAN)
    case JavaLiteralExpression(_, t) => Some(t)
    case KtLiteralExpression(_, t) => Some(t)
    case _ => None
  }

  /** Every literal node carries both a text and a type. */
  predicate IsLiteral(n: Node) {
    n.NullLiteral? || n.BooleanLiteral? || n.JavaLiteralExpression? || n.KtLiteralExpression?
  }

  lemma LiteralsCarryTextAndType(n: Node)
    ensures LiteralText(n).Some? <==> IsLiteral(n)
    ensures LiteralTypeOf(n).Some? <==> IsLiteral(n)
  {
  }

  /** The null literal reads "null" of type NULL; a boolean literal reads
      "true" exactly when its value is true, and has type BOOLEAN. Neither
      has slots. */
  lemma LeafLiterals(b: bool)
    ensures LiteralText(NullLiteral) == Some("null") && LiteralTypeOf(NullLiteral) == Some(NULL)
    ensures LiteralText(BooleanLiteral(b)) == Some("true") <==> b
    ensures LiteralText(BooleanLiteral(b)) == Some("false") <==> !b
    ensures LiteralTypeOf(BooleanLiteral(b)) == Some(LiteralType.BOOLEAN)
    ensures Slots(NullLiteral) == [] && Slots(BooleanLiteral(b)) == []
  {
  }

  /** The `statements` property of a block; the body stub always reads empty. */
  function Statements(n: Node): seq<Node>
    requires n.Block? || n.BodyStub?
  {
    if n.Block? then n.statements else []
  }

  /** Assigning `statements`; the body stub ignores the assignment. */
  function SetStatements(n: Node, ss: seq<Node>): (r: Node)
    requires n.Block? || n.BodyStub?
    ensures r.Block? || r.BodyStub?
  {
    if n.Block? then Block(ss) else BodyStub
  }

  /** Reading after writing returns what was written on a real block and
      nothing on the body stub; the stub has no slots and visits nothing. */
  lemma BodyStubIgnoresWrites(n: Node, ss: seq<Node>)
    requires n.Block? || n.BodyStub?
    ensures n.Block? ==> Statements(SetStatements(n, ss)) == ss
    ensures n.BodyStub? ==> SetStatements(n, ss) == BodyStub && Statements(SetStatements(n, ss)) == []
    ensures Slots(BodyStub) == [] && AcceptChildren(BodyStub) == []
  {
  }

  /** The keyword of a primitive type; `tree/impl/j.kt` names BYTE, BOOLEAN
      and INT explicitly. */
  function PrimitiveName(p: Primitive): string {
    match p
    case BYTE => "byte"
    case BOOLEAN => "boolean"
    case INT => "int"
    case CHAR => "char"
    case LONG => "long"
    case FLOAT => "float"
    case DOUBLE => "double"
  }

  /** `KEYWORD_TO_INSTANCE`: the primitive type spelt by a keyword. */
  function KeywordToPrimitive(keyword: string): (r: Option<Primitive>)
    ensures r.Some? ==> PrimitiveName(r.value) == keyword
  {
    if keyword == "byte" then Some(BYTE)
    else if keyword == "boolean" then Some(Primitive.BOOLEAN)
    else if keyword == "int" then Some(Primitive.INT)
    else if keyword == "char" then Some(Primitive.CHAR)
    else if keyword == "long" then Some(Primitive.LONG)
    else if keyword == "float" then Some(Primitive.FLOAT)
    else if keyword == "double" then Some(Primitive.DOUBLE)
    else None
  }

  /** Every primitive is found again from its keyword, so no two primitives
      share a keyword. */
  lemma KeywordRoundTrip(p: Primitive)
    ensures KeywordToPrimitive(PrimitiveName(p)) == Some(p)
  {
  }

  /** `valid` of a Java declaration: constantly true. */
  function Valid(n: Node): Option<bool> {
    if n.JavaField? || n.JavaMethod? then Some(true) else None
  }

  /** `returnType` of a method node: a Kotlin function returns its return
      type element; reading it on a Java method fails. */
  function ReturnType(n: Node): (r: Result<Node>)
    requires n.JavaMethod? || n.KtFunction?
    ensures n.JavaMethod? <==> r == Fail(NotImplemented)
    ensures r.Ok? ==> r.value in Slots(n)
  {
    if n.JavaMethod? then Fail(NotImplemented) else Ok(n.returnType)
  }

  /** The simple name of a named declaration node, when its name slot holds
      an identifier. */
  function DeclarationName(n: Node): Option<string> {
    match n
    case Class(name, _, _, _, _) => if name.NameIdentifier? then Some(name.value) else None
    case JavaField(_, _, name, _) => if name.NameIdentifier? then Some(name.value) else None
    case JavaMethod(_, name, _, _) => if name.NameIdentifier? then Some(name.value) else None
    case KtProperty(_, _, name, _, _, _) => if name.NameIdentifier? then Some(name.value) else None
    case KtFunction(_, name, _, _, _) => if name.NameIdentifier? then Some(name.value) else None
    case _ => None
  }

  // ---------------------------------------------------------------------
  // The kind of a node

  /** The most specific kind of `Kinds.Kind` a node's class implements.
      Statement and declaration classes whose own interfaces are not part
      of `tree/jk.kt` map to the general kind they implement. */
  function Category(n: Node): (k: Kinds.Kind)
    ensures Kinds.HasVisitMethod(k)
  {
    match n
    case Class(_, _, _, _, _) => Kinds.Generic(Kinds.Class)
    case NameIdentifier(_) => Kinds.Generic(Kinds.NameIdentifier)
    case ModifierList(_) => Kinds.Generic(Kinds.ModifierList)
    case ValueArgument(_, _) => Kinds.Generic(Kinds.ValueArgument)
    case Block(_) => Kinds.Generic(Kinds.Block)
    case BodyStub => Kinds.Generic(Kinds.Block)
    case BinaryExpression(_, _, _) => Kinds.Generic(Kinds.BinaryExpression)
    case PrefixExpression(_, _) => Kinds.Generic(Kinds.PrefixExpression)
    case PostfixExpression(_, _) => Kinds.Generic(Kinds.PostfixExpression)
    case ExpressionList(_) => Kinds.Generic(Kinds.ExpressionList)
    case QualifiedExpression(_, _, _) => Kinds.Generic(Kinds.QualifiedExpression)
    case ExpressionStatement(_) => Kinds.Generic(Kinds.ExpressionStatement)
    case DeclarationStatement(_) => Kinds.Generic(Kinds.Statement)
    case ArrayAccessExpression(_, _) => Kinds.Generic(Kinds.ArrayAccessExpression)
    case ParenthesizedExpression(_) => Kinds.Generic(Kinds.ParenthesizedExpression)
    case TypeCastExpression(_, _) => Kinds.Generic(Kinds.TypeCastExpression)
    case TypeElement(_) => Kinds.Generic(Kinds.Element)
    case NullLiteral => Kinds.Generic(Kinds.LiteralExpression)
    case BooleanLiteral(_) => Kinds.Generic(Kinds.LiteralExpression)
    case LocalVariable(_, _, _, _) => Kinds.Generic(Kinds.Declaration)
    case StubExpression => Kinds.Generic(Kinds.Expression)
    case BlockStatement(_) => Kinds.Generic(Kinds.Statement)
    case ThisExpression => Kinds.Generic(Kinds.Expression)
    case SuperExpression => Kinds.Generic(Kinds.Expression)
    case WhileStatement(_, _) => Kinds.Generic(Kinds.Loop)
    case DoWhileStatement(_, _) => Kinds.Generic(Kinds.Loop)
    case SwitchStatement(_, _) => Kinds.Generic(Kinds.Statement)
    case SwitchLabelStatement(_) => Kinds.Generic(Kinds.Statement)
    case SwitchDefaultLabelStatement => Kinds.Generic(Kinds.Statement)
    case BreakStatement => Kinds.Generic(Kinds.Statement)
    case IfStatement(_, _) => Kinds.Generic(Kinds.Statement)
    case IfElseStatement(_, _, _) => Kinds.Generic(Kinds.Statement)
    case IfElseExpression(_, _, _) => Kinds.Generic(Kinds.Expression)
    case ClassAccessExpression(_) => Kinds.Generic(Kinds.Expression)
    case JavaField(_, _, _, _) => Kinds.JavaSpecific(Kinds.JavaField)
    case JavaLiteralExpression(_, _) => Kinds.JavaSpecific(Kinds.JavaLiteralExpression)
    case JavaAccessModifier(_) => Kinds.JavaSpecific(Kinds.JavaAccessModifier)
    case JavaModifier(_) => Kinds.JavaSpecific(Kinds.JavaModifier)
    case JavaMethod(_, _, _, _) => Kinds.JavaSpecific(Kinds.JavaMethod)
    case JavaMethodCallExpression(_, _) => Kinds.JavaSpecific(Kinds.JavaMethodCallExpression)
    case JavaFieldAccessExpression(_) => Kinds.JavaSpecific(Kinds.JavaFieldAccessExpression)
    case JavaNewExpression(_, _) => Kinds.JavaSpecific(Kinds.JavaNewExpression)
    case JavaNewEmptyArray(_) => Kinds.JavaSpecific(Kinds.JavaNewEmptyArray)
    case JavaNewArray(_) => Kinds.JavaSpecific(Kinds.JavaNewArray)
    case ReturnStatement(_) => Kinds.Generic(Kinds.Statement)
    case JavaAssignmentExpression(_, _) => Kinds.JavaSpecific(Kinds.JavaAssignmentExpression)
    case KtProperty(_, _, _, _, _, _) => Kinds.KotlinSpecific(Kinds.KtProperty)
    case KtFunction(_, _, _, _, _) => Kinds.KotlinSpecific(Kinds.KtFunction)
    case KtCallExpression(_, _) => Kinds.KotlinSpecific(Kinds.KtMethodCallExpression)
    case KtFieldAccessExpression(_) => Kinds.KotlinSpecific(Kinds.KtFieldAccessExpression)
    case KtLiteralExpression(_, _) => Kinds.KotlinSpecific(Kinds.KtLiteralExpression)
    case KtModifier(_) => Kinds.KotlinSpecific(Kinds.KtModifier)
  }
}
