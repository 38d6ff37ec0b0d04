/** Operator and qualifier tokens of the two languages, and the operator
    tables of `tree/impl/k.kt`.

    The token sets are external (IntelliJ's `JavaTokenType` and the Kotlin
    lexer's `KtTokens`); only the tokens that the converter's code names, plus
    a few stand-ins for the rest, are enumerated here.
 */
module Tokens {
  import opened Results

  /** Java lexer tokens that can stand between operands. */
  datatype JavaToken =
    | JavaPlus | JavaMinus | JavaDiv | JavaAndAnd | JavaOrOr
    | JavaAsterisk | JavaPerc | JavaExcl | JavaPlusPlus | JavaMinusMinus | JavaEq

  /** Kotlin lexer tokens: the operation tokens named by the converter, some
      other operation tokens, and two tokens outside `KtTokens.OPERATIONS`. */
  datatype KtToken =
    | KtPlus | KtMinus | KtDiv | KtAndAnd | KtOrOr
    | KtMul | KtPerc | KtExcl | KtPlusPlus | KtMinusMinus | KtEq
    | KtLBrace | KtIdentifier

  /** Membership in `KtTokens.OPERATIONS`. */
  predicate IsOperation(t: KtToken) {
    t != KtLBrace && t != KtIdentifier
  }

  /** A tree operator: a Java operator still waiting for conversion, or a
      Kotlin operator holding its lexer token. */
  datatype Operator = JavaOperator(javaToken: JavaToken) | KotlinOperator(ktToken: KtToken)

  /** Qualifiers between receiver and selector: Java's `.` and Kotlin's `.`
      and `?.` (`tree/impl/j.kt`, `tree/impl/k.kt`). */
  datatype Qualifier = JavaDot | KtDot | KtSafe

  /** The Java operator objects of `tree/impl/j.kt`. */
  const JavaOperators: set<Operator> := {JavaOperator(JavaPlus), JavaOperator(JavaMinus)}

  /** `JKKtOperatorImpl.tokenToOperator`: one operator per Kotlin operation token. */
  function TokenToOperator(t: KtToken): (r: Option<Operator>)
    ensures r.Some? <==> IsOperation(t)
    ensures r.Some? ==> r.value.KotlinOperator? && r.value.ktToken == t
  {
    if IsOperation(t) then Some(KotlinOperator(t)) else None
  }

  /** `JKKtOperatorImpl.javaToKotlinOperator`, keyed by Java token. */
  function JavaToKotlinToken(t: JavaToken): Option<KtToken> {
    match t
    case JavaDiv => Some(KtDiv)
    case JavaMinus => Some(KtMinus)
    case JavaAndAnd => Some(KtAndAnd)
    case JavaOrOr => Some(KtOrOr)
    case JavaPlus => Some(KtPlus)
    case _ => None
  }

  /** The same table on operators: a Java operator to a Kotlin operator. */
  function JavaToKotlinOperator(op: Operator): (r: Option<Operator>)
    ensures r.Some? ==> op.JavaOperator? && r.value.KotlinOperator?
    ensures r.Some? ==> KtSpelling(r.value.ktToken) == JavaSpelling(op.javaToken)
  {
    match op
    case KotlinOperator(_) => None
    case JavaOperator(t) =>
      match JavaToKotlinToken(t)
      case None => None
      case Some(k) => TokenToOperator(k)
  }

  /** Spelling of a Java token, used to state "same-named". */
  function JavaSpelling(t: JavaToken): string {
    match t
    case JavaPlus => "PLUS"
    case JavaMinus => "MINUS"
    case JavaDiv => "DIV"
    case JavaAndAnd => "ANDAND"
    case JavaOrOr => "OROR"
    case JavaAsterisk => "ASTERISK"
    case JavaPerc => "PERC"
    case JavaExcl => "EXCL"
    case JavaPlusPlus => "PLUSPLUS"
    case JavaMinusMinus => "MINUSMINUS"
    case JavaEq => "EQ"
  }

  /** Spelling of a Kotlin token. */
  function KtSpelling(t: KtToken): string {
    match t
    case KtPlus => "PLUS"
    case KtMinus => "MINUS"
    case KtDiv => "DIV"
    case KtAndAnd => "ANDAND"
    case KtOrOr => "OROR"
    case KtMul => "MUL"
    case KtPerc => "PERC"
    case KtExcl => "EXCL"
    case KtPlusPlus => "PLUSPLUS"
    case KtMinusMinus => "MINUSMINUS"
    case KtEq => "EQ"
    case KtLBrace => "LBRACE"
    case KtIdentifier => "IDENTIFIER"
  }

  /** `javaToKotlinOperator` maps exactly the five Java operators DIV, MINUS,
      ANDAND, OROR and PLUS, each to the Kotlin operator whose token has the
      same name; every other operator, Kotlin ones included, is absent. */
  lemma JavaToKotlinSameName(op: Operator)
    ensures JavaToKotlinOperator(op).Some? <==>
      op.JavaOperator? && op.javaToken in {JavaDiv, JavaMinus, JavaAndAnd, JavaOrOr, JavaPlus}
    ensures JavaToKotlinOperator(op).Some? ==>
      JavaToKotlinOperator(op).value.KotlinOperator? &&
      KtSpelling(JavaToKotlinOperator(op).value.ktToken) == JavaSpelling(op.javaToken)
  {
  }

  /** No two Java operators share a Kotlin image. */
  lemma JavaToKotlinInjective(a: Operator, b: Operator)
    requires JavaToKotlinOperator(a).Some? && JavaToKotlinOperator(a) == JavaToKotlinOperator(b)
    ensures a == b
  {
  }

  /** The Java operator objects the tree builder can produce are both in the table. */
  lemma JavaOperatorsConvertible(op: Operator)
    requires op in JavaOperators
    ensures JavaToKotlinOperator(op).Some?
  {
  }
}
