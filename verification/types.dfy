/** Type helpers of `tree/types.kt` that need no analyser: nullability
    update, the literal-type/primitive-type conversions, the boxed-class
    mapping, the number-type test, and the structural cases of an
    expression's type.
 */
module TypeOps {
  import opened Results
  import opened Tokens
  import opened Symbols
  import opened Tree

  // ---------------------------------------------------------------------
  // Nullability

  /** The nullability a type stores; `None` for the types that store none. */
  function NullabilityOf(t: Type): Option<Nullability> {
    match t
    case ClassType(_, _, n) => Some(n)
    case UnresolvedClassType(_, _, n) => Some(n)
    case TypeParameterType(_, n) => Some(n)
    case JavaArrayType(_, n) => Some(n)
    case _ => None
  }

  /** The types `updateNullability` returns unchanged whatever it is asked. */
  predicate NullabilityFree(t: Type) {
    t.JavaPrimitiveType? || t.JavaVoidType? || t.NoType?
  }

  /** `updateNullability`: the same type with nullability `n`. Types that
      store no nullability come back unchanged if they are primitive, void
      or no-type, and reach `TODO()` otherwise. */
  function UpdateNullability(t: Type, n: Nullability): (r: Result<Type>)
    ensures r.Ok? <==> NullabilityOf(t).Some? || NullabilityFree(t)
    ensures r.Fail? ==> r.failure == NotImplemented
    ensures r.Ok? && NullabilityOf(t).Some? ==> NullabilityOf(r.value) == Some(n)
    ensures r.Ok? && NullabilityFree(t) ==> r.value == t
  {
    if NullabilityOf(t) == Some(n) then Ok(t)
    else match t
      case TypeParameterType(name, _) => Ok(TypeParameterType(name, n))
      case ClassType(reference, parameters, _) => Ok(ClassType(reference, parameters, n))
      case UnresolvedClassType(name, parameters, _) => Ok(UnresolvedClassType(name, parameters, n))
      case NoType => Ok(t)
      case JavaVoidType => Ok(t)
      case JavaPrimitiveType(_) => Ok(t)
      case JavaArrayType(component, _) => Ok(JavaArrayType(component, n))
      case _ => Fail(NotImplemented)
  }

  /** The update changes the nullability and nothing else: restoring the
      old nullability gives back the original type, and asking for the
      nullability a type already has returns it unchanged. */
  lemma UpdateNullabilityRoundTrip(t: Type, n: Nullability)
    requires NullabilityOf(t).Some?
    ensures UpdateNullability(t, NullabilityOf(t).value) == Ok(t)
    ensures UpdateNullability(UpdateNullability(t, n).value, NullabilityOf(t).value) == Ok(t)
  {
  }

  /** The fields kept by the update, constructor by constructor. */
  lemma UpdateNullabilityKeepsFields(t: Type, n: Nullability)
    requires UpdateNullability(t, n).Ok?
    ensures t.ClassType? ==> UpdateNullability(t, n).value == ClassType(t.classReference, t.parameters, n)
    ensures t.UnresolvedClassType? ==> UpdateNullability(t, n).value == UnresolvedClassType(t.rawName, t.parameters, n)
    ensures t.TypeParameterType? ==> UpdateNullability(t, n).value == TypeParameterType(t.parameterName, n)
    ensures t.JavaArrayType? ==> UpdateNullability(t, n).value == JavaArrayType(t.component, n)
  {
  }

  /** Updating twice to the same nullability is updating once. */
  lemma UpdateNullabilityIdempotent(t: Type, n: Nullability)
    requires UpdateNullability(t, n).Ok?
    ensures UpdateNullability(UpdateNullability(t, n).value, n) == UpdateNullability(t, n)
  {
  }

  // ---------------------------------------------------------------------
  // Literal types and primitive types

  /** `LiteralType.toPrimitiveType`. */
  function LiteralToPrimitive(l: LiteralType): (r: Option<Primitive>)
    ensures r.None? <==> l == STRING || l == NULL
  {
    match l
    case CHAR => Some(Primitive.CHAR)
    case BOOLEAN => Some(Primitive.BOOLEAN)
    case INT => Some(Primitive.INT)
    case LONG => Some(Primitive.LONG)
    case FLOAT => Some(Primitive.FLOAT)
    case DOUBLE => Some(Primitive.DOUBLE)
    case STRING => None
    case NULL => None
  }

  /** `JKJavaPrimitiveType.toLiteralType`; its `when` lists CHAR twice and
      has no arm for BYTE. */
  function PrimitiveToLiteral(p: Primitive): (r: Option<LiteralType>)
    ensures r.None? <==> p == BYTE
    ensures r.Some? ==> LiteralToPrimitive(r.value) == Some(p)
  {
    match p
    case CHAR => Some(LiteralType.CHAR)
    case BOOLEAN => Some(LiteralType.BOOLEAN)
    case INT => Some(LiteralType.INT)
    case LONG => Some(LiteralType.LONG)
    case DOUBLE => Some(LiteralType.DOUBLE)
    case FLOAT => Some(LiteralType.FLOAT)
    case BYTE => None
  }

  /** STRING and NULL have no primitive; BYTE has no literal type. */
  lemma ConversionDomains(l: LiteralType, p: Primitive)
    ensures LiteralToPrimitive(l).None? <==> l == STRING || l == NULL
    ensures PrimitiveToLiteral(p).None? <==> p == BYTE
  {
  }

  /** The two conversions are inverse wherever they are defined. */
  lemma LiteralPrimitiveRoundTrip(l: LiteralType, p: Primitive)
    ensures LiteralToPrimitive(l).Some? ==> PrimitiveToLiteral(LiteralToPrimitive(l).value) == Some(l)
    ensures PrimitiveToLiteral(p).Some? ==> LiteralToPrimitive(PrimitiveToLiteral(p).value) == Some(p)
  {
  }

  /** The simple name of the `java.lang` class boxing a primitive. */
  function BoxName(p: Primitive): string {
    match p
    case CHAR => "Character"
    case BOOLEAN => "Boolean"
    case INT => "Integer"
    case LONG => "Long"
    case FLOAT => "Float"
    case DOUBLE => "Double"
    case BYTE => "Byte"
  }

  /** `JKClassType.toPrimitiveType`, given the `fqName` of the class reference. */
  function BoxedToPrimitive(fqName: Option<string>): (r: Option<Primitive>)
    ensures r.Some? ==> fqName == Some("java.lang." + BoxName(r.value))
  {
    assert "java.lang." + BoxName(Primitive.CHAR) == "java.lang.Character";
    assert "java.lang." + BoxName(Primitive.BOOLEAN) == "java.lang.Boolean";
    assert "java.lang." + BoxName(Primitive.INT) == "java.lang.Integer";
    assert "java.lang." + BoxName(Primitive.LONG) == "java.lang.Long";
    assert "java.lang." + BoxName(Primitive.FLOAT) == "java.lang.Float";
    assert "java.lang." + BoxName(Primitive.DOUBLE) == "java.lang.Double";
    assert "java.lang." + BoxName(BYTE) == "java.lang.Byte";
    if fqName == Some("java.lang.Character") then Some(Primitive.CHAR)
    else if fqName == Some("java.lang.Boolean") then Some(Primitive.BOOLEAN)
    else if fqName == Some("java.lang.Integer") then Some(Primitive.INT)
    else if fqName == Some("java.lang.Long") then Some(Primitive.LONG)
    else if fqName == Some("java.lang.Float") then Some(Primitive.FLOAT)
    else if fqName == Some("java.lang.Double") then Some(Primitive.DOUBLE)
    else if fqName == Some("java.lang.Byte") then Some(BYTE)
    else None
  }

  /** A class name maps to a primitive exactly when it is `java.lang.`
      followed by that primitive's box name; everything else, an absent
      name included, maps to nothing. */
  lemma BoxedToPrimitiveExact(fqName: Option<string>, p: Primitive)
    ensures BoxedToPrimitive(fqName) == Some(p) <==> fqName == Some("java.lang." + BoxName(p))
  {
    assert "java.lang." + BoxName(Primitive.CHAR) == "java.lang.Character";
    assert "java.lang." + BoxName(Primitive.BOOLEAN) == "java.lang.Boolean";
    assert "java.lang." + BoxName(Primitive.INT) == "java.lang.Integer";
    assert "java.lang." + BoxName(Primitive.LONG) == "java.lang.Long";
    assert "java.lang." + BoxName(Primitive.FLOAT) == "java.lang.Float";
    assert "java.lang." + BoxName(Primitive.DOUBLE) == "java.lang.Double";
    assert "java.lang." + BoxName(BYTE) == "java.lang.Byte";
  }

  /** `isNumberType`. */
  function IsNumberType(p: Primitive): (r: bool)
    ensures r ==> PrimitiveToLiteral(p).Some? && LiteralToPrimitive(PrimitiveToLiteral(p).value) == Some(p)
    ensures r ==> p != BYTE && p != Primitive.CHAR && p != Primitive.BOOLEAN
  {
    p == Primitive.INT || p == Primitive.LONG || p == Primitive.FLOAT || p == Primitive.DOUBLE
  }

  /** The number types are the primitives with a numeric literal type;
      BYTE, having no literal type, is not one, nor are CHAR and BOOLEAN. */
  lemma NumberTypesHaveNumericLiterals(p: Primitive)
    ensures IsNumberType(p) <==>
      PrimitiveToLiteral(p).Some? && PrimitiveToLiteral(p).value in {LiteralType.INT, LiteralType.LONG, LiteralType.FLOAT, LiteralType.DOUBLE}
  {
  }

  // ---------------------------------------------------------------------
  // The type of an expression

  /** The analyser-backed lookups `JKExpression.type` relies on. */
  datatype TypeOracle = TypeOracle(
    literalType: LiteralType -> Type,       // `LiteralType.toJkType`
    operatorType: KtToken -> Option<Type>,  // the operator method's return type, Boolean for `compareTo`
    symbolType: Symbol -> Option<Type>,     // `returnType` of a method symbol, `fieldType` of a field symbol
    constructedClass: Symbol -> Symbol)     // the class a `new` expression instantiates

  predicate IsOperatorExpression(e: Node) {
    e.BinaryExpression? || e.PrefixExpression? || e.PostfixExpression?
  }

  /** `JKExpression.type`: `Ok(None)` is Kotlin's `null`. Only the
      structural cases are computed; the rest ask the oracle. */
  function ExpressionType(e: Node, oracle: TypeOracle): (r: Result<Option<Type>>)
    ensures IsLiteral(e) ==> r.Ok? && r.value.Some?
    ensures IsOperatorExpression(e) ==> (r.Fail? <==> e.operator.JavaOperator?)
    ensures r.Fail? ==> r.failure in {Unsupported, CastFailed, NotImplemented}
  {
    if IsLiteral(e) then
      Ok(Some(oracle.literalType(LiteralTypeOf(e).value)))
    else if IsOperatorExpression(e) then
      if e.operator.JavaOperator? then Fail(Unsupported)
      else Ok(oracle.operatorType(e.operator.ktToken))
    else match e
      case JavaMethodCallExpression(s, _) => Ok(oracle.symbolType(s))
      case KtCallExpression(s, _) => Ok(oracle.symbolType(s))
      case JavaFieldAccessExpression(s) => Ok(oracle.symbolType(s))
      case KtFieldAccessExpression(s) => Ok(oracle.symbolType(s))
      case QualifiedExpression(_, _, selector) => ExpressionType(selector, oracle)
      case ClassAccessExpression(_) => Ok(None)
      case JavaNewExpression(s, _) => Ok(Some(PlainClassType(oracle.constructedClass(s), [])))
      case ParenthesizedExpression(inner) => ExpressionType(inner, oracle)
      case TypeCastExpression(_, typeElement) =>
        if typeElement.TypeElement? then Ok(Some(typeElement.elementType)) else Fail(CastFailed)
      case ThisExpression => Ok(None)
      case SuperExpression => Ok(None)
      case _ => Fail(NotImplemented)
  }

  /** An operator expression has a type only once its operator is a Kotlin
      operator; a Java operator is an error. */
  lemma OperatorExpressionType(e: Node, oracle: TypeOracle)
    requires IsOperatorExpression(e)
    ensures ExpressionType(e, oracle).Fail? <==> e.operator.JavaOperator?
    ensures e.operator.KotlinOperator? ==> ExpressionType(e, oracle) == Ok(oracle.operatorType(e.operator.ktToken))
  {
  }

  /** A qualified expression has its selector's type, whatever the receiver. */
  lemma QualifiedHasSelectorType(receiver: Node, q: Qualifier, selector: Node, oracle: TypeOracle)
    ensures ExpressionType(QualifiedExpression(receiver, q, selector), oracle) == ExpressionType(selector, oracle)
  {
  }

  /** `e` wrapped in `depth` pairs of parentheses. */
  function Parenthesize(e: Node, depth: nat): (r: Node)
    ensures depth > 0 ==> r.ParenthesizedExpression?
  {
    if depth == 0 then e else ParenthesizedExpression(Parenthesize(e, depth - 1))
  }

  /** Parentheses, however deeply nested, do not change an expression's type. */
  lemma {:induction false} ParenthesesKeepType(e: Node, depth: nat, oracle: TypeOracle)
    ensures ExpressionType(Parenthesize(e, depth), oracle) == ExpressionType(e, oracle)
  {
    if depth > 0 {
      ParenthesesKeepType(e, depth - 1, oracle);
    }
  }

  /** A type cast has the type held by its type element. */
  lemma TypeCastHasCastType(operand: Node, t: Type, oracle: TypeOracle)
    ensures ExpressionType(TypeCastExpression(operand, TypeElement(t)), oracle) == Ok(Some(t))
  {
  }
}
