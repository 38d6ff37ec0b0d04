/** `ExpressionTreeMapper` of `JavaToJKTreeBuilder.kt`: foreign expressions
    and types to tree nodes, threading the symbol provider.

    Exceptions become failures: `TODO()` is `NotImplemented`, `error(...)`
    and the thrown "not supported" exceptions are `Unsupported`, a failing
    `as` cast is `CastFailed`, `!!` and a dereference of `null` are
    `NullValue`, and the endless recursion of the array-initializer case is
    `Diverges`.
 */
module ExpressionMapper {
  import opened Results
  import opened Tokens
  import opened Symbols
  import opened Tree
  import opened JavaAst
  import opened Provider
  import TypeConversion

  // ---------------------------------------------------------------------
  // Literals and operators

  /** The literal type recorded for a numeric or quoted literal. */
  function SourceLiteralType(k: LiteralKind): LiteralType {
    match k
    case NullKeyword => NULL
    case TrueKeyword => LiteralType.BOOLEAN
    case FalseKeyword => LiteralType.BOOLEAN
    case StringLiteral => STRING
    case CharacterLiteral => LiteralType.CHAR
    case IntegerLiteral => LiteralType.INT
    case LongLiteral => LiteralType.LONG
    case FloatLiteral => LiteralType.FLOAT
    case DoubleLiteral => LiteralType.DOUBLE
    case OtherLiteral => NULL
  }

  predicate IsQuoted(k: LiteralKind) {
    k == StringLiteral || k == CharacterLiteral
  }

  predicate IsKeyword(k: LiteralKind) {
    k == NullKeyword || k == TrueKeyword || k == FalseKeyword
  }

  /** `PsiLiteralExpression.toJK()`. */
  function LiteralToJK(l: Literal): (r: Result<Node>)
    ensures r.Ok? <==> l.kind != OtherLiteral && (IsQuoted(l.kind) ==> l.innerText.Some?)
    ensures r.Fail? ==> r.failure == (if l.kind == OtherLiteral then Unsupported else NullValue)
    ensures r.Ok? ==> IsLiteral(r.value) && LiteralTypeOf(r.value) == Some(SourceLiteralType(l.kind))
    ensures r.Ok? && IsQuoted(l.kind) ==> LiteralText(r.value) == l.innerText
    ensures r.Ok? && !IsQuoted(l.kind) && !IsKeyword(l.kind) ==> LiteralText(r.value) == Some(l.text)
  {
    match l.kind
    case NullKeyword => Ok(NullLiteral)
    case TrueKeyword => Ok(BooleanLiteral(true))
    case FalseKeyword => Ok(BooleanLiteral(false))
    case StringLiteral =>
      var inner :- Results.NotNull(l.innerText);
      Ok(JavaLiteralExpression(inner, STRING))
    case CharacterLiteral =>
      var inner :- Results.NotNull(l.innerText);
      Ok(JavaLiteralExpression(inner, LiteralType.CHAR))
    case IntegerLiteral => Ok(JavaLiteralExpression(l.text, LiteralType.INT))
    case LongLiteral => Ok(JavaLiteralExpression(l.text, LiteralType.LONG))
    case FloatLiteral => Ok(JavaLiteralExpression(l.text, LiteralType.FLOAT))
    case DoubleLiteral => Ok(JavaLiteralExpression(l.text, LiteralType.DOUBLE))
    case OtherLiteral => Fail(Unsupported)
  }

  /** The spelling the Java lexer gives a keyword literal. */
  function KeywordSpelling(k: LiteralKind): string
    requires IsKeyword(k)
  {
    if k == NullKeyword then "null" else if k == TrueKeyword then "true" else "false"
  }

  /** A literal as the Java lexer produces it: keywords spelt as such, and
      quoted literals whose text is their inner text between quotes. */
  predicate WellLexed(l: Literal) {
    && (IsKeyword(l.kind) ==> l.text == KeywordSpelling(l.kind))
    && (l.kind == StringLiteral ==> l.innerText.Some? && l.text == "\"" + l.innerText.value + "\"")
    && (l.kind == CharacterLiteral ==> l.innerText.Some? && l.text == "'" + l.innerText.value + "'")
  }

  /** On a well-lexed literal the mapping succeeds (unless the kind is
      unknown) and loses only the quotes: the source text is the node's
      text, put back between its quotes for string and character literals. */
  lemma LiteralKeepsText(l: Literal)
    requires WellLexed(l) && l.kind != OtherLiteral
    ensures LiteralToJK(l).Ok?
    ensures var t := LiteralText(LiteralToJK(l).value).value;
      l.text == (if l.kind == StringLiteral then "\"" + t + "\""
                 else if l.kind == CharacterLiteral then "'" + t + "'"
                 else t)
  {
  }

  /** `PsiJavaToken.toJK()`: PLUS and MINUS only. */
  function OperatorToJK(t: JavaToken): (r: Result<Operator>)
    ensures r.Ok? <==> t == JavaPlus || t == JavaMinus
    ensures r.Ok? ==> r.value in JavaOperators && r.value.javaToken == t
    ensures r.Fail? ==> r.failure == Unsupported
  {
    match t
    case JavaPlus => Ok(JavaOperator(JavaPlus))
    case JavaMinus => Ok(JavaOperator(JavaMinus))
    case _ => Fail(Unsupported)
  }

  /** Every operator the builder produces is one the operator pass can
      turn into a Kotlin operator. */
  lemma BuiltOperatorsConvert(t: JavaToken)
    requires OperatorToJK(t).Ok?
    ensures JavaToKotlinOperator(OperatorToJK(t).value).Some?
  {
    JavaOperatorsConvertible(OperatorToJK(t).value);
  }

  // ---------------------------------------------------------------------
  // Array dimensions of `new T[..][..]`

  /** The number of `[` tokens. */
  function BracketCount(cs: seq<NewChild>): nat {
    if |cs| == 0 then 0 else (if cs[0] == LBracket then 1 else 0) + BracketCount(cs[1..])
  }

  /** The sibling walk over the children of a `new` expression: after each
      `[` comes either `]` (an unsized dimension) or the size, which must
      be a literal; a `[` with nothing after it dereferences `null`. */
  function Dimensions(cs: seq<NewChild>): (r: Result<seq<Option<Literal>>>)
    ensures r.Ok? ==> |r.value| == BracketCount(cs)
    decreases |cs|
  {
    if |cs| == 0 then Ok([])
    else if cs[0] != LBracket then Dimensions(cs[1..])
    else if |cs| == 1 then Fail(NullValue)
    else if cs[1] == RBracket || cs[1].DimensionLiteral? then
      assert BracketCount(cs) == 1 + BracketCount(cs[2..]) by {
        assert cs[1..][1..] == cs[2..];
      }
      var rest :- Dimensions(cs[2..]);
      Ok([if cs[1].DimensionLiteral? then Some(cs[1].literal) else None] + rest)
    else Fail(CastFailed)
  }

  /** `Ok(prefix + rest)` for a success, the failure unchanged otherwise. */
  function Prepend(prefix: seq<Option<Literal>>, r: Result<seq<Option<Literal>>>): Result<seq<Option<Literal>>> {
    match r
    case Ok(rest) => Ok(prefix + rest)
    case Fail(f) => Fail(f)
  }

  lemma PrependAssoc(a: seq<Option<Literal>>, b: seq<Option<Literal>>, r: Result<seq<Option<Literal>>>)
    ensures Prepend(a, Prepend(b, r)) == Prepend(a + b, r)
    ensures Prepend([], r) == r
  {
    if r.Ok? {
      assert a + (b + r.value) == (a + b) + r.value;
      assert [] + r.value == r.value;
    }
  }

  /** The scanning loop of `PsiNewExpression.toJK()`. */
  method ScanDimensions(cs: seq<NewChild>) returns (r: Result<seq<Option<Literal>>>)
    ensures r == Dimensions(cs)
  {
    var dimensions: seq<Option<Literal>> := [];
    var child := 0;
    PrependAssoc([], [], Dimensions(cs));
    while child < |cs|
      invariant 0 <= child <= |cs|
      invariant Dimensions(cs) == Prepend(dimensions, Dimensions(cs[child..]))
      decreases |cs| - child
    {
      ghost var here := cs[child..];
      assert here[0] == cs[child];
      if cs[child] == LBracket {
        child := child + 1;
        if child == |cs| {
          return Fail(NullValue);
        }
        assert here[1] == cs[child] && here[2..] == cs[child + 1..];
        if cs[child] == RBracket {
          PrependAssoc(dimensions, [None], Dimensions(cs[child + 1..]));
          dimensions := dimensions + [None];
        } else if cs[child].DimensionLiteral? {
          PrependAssoc(dimensions, [Some(cs[child].literal)], Dimensions(cs[child + 1..]));
          dimensions := dimensions + [Some(cs[child].literal)];
        } else {
          return Fail(CastFailed);
        }
      } else {
        assert here[1..] == cs[child + 1..];
      }
      child := child + 1;
    }
    assert cs[child..] == [];
    assert dimensions + [] == dimensions;
    return Ok(dimensions);
  }

  /** The children of a well-formed `new` expression with the given
      dimensions: `[` size `]` for a sized one, `[` `]` for an unsized one. */
  function RenderDimensions(dims: seq<Option<Literal>>): seq<NewChild> {
    if |dims| == 0 then []
    else
      (match dims[0]
       case Some(l) => [LBracket, DimensionLiteral(l), RBracket]
       case None => [LBracket, RBracket])
      + RenderDimensions(dims[1..])
  }

  /** Children before the first `[` (the `new` keyword, the type) are
      skipped. */
  lemma {:induction false} SkipPrefix(prefix: seq<NewChild>, cs: seq<NewChild>)
    requires LBracket !in prefix
    ensures Dimensions(prefix + cs) == Dimensions(cs)
    decreases |prefix|
  {
    if |prefix| > 0 {
      assert (prefix + cs)[0] == prefix[0] && prefix[0] in prefix;
      assert (prefix + cs)[1..] == prefix[1..] + cs;
      SkipPrefix(prefix[1..], cs);
    } else {
      assert prefix + cs == cs;
    }
  }

  /** The scan reads the first rendered dimension and then goes on with
      the rest. */
  lemma RenderedDimensionStep(dims: seq<Option<Literal>>)
    requires |dims| > 0
    ensures Dimensions(RenderDimensions(dims)) == Prepend([dims[0]], Dimensions(RenderDimensions(dims[1..])))
  {
    var rest := RenderDimensions(dims[1..]);
    match dims[0]
    case Some(l) =>
      assert RenderDimensions(dims) == [LBracket, DimensionLiteral(l), RBracket] + rest;
      SizedDimensionStep(l, rest);
    case None =>
      assert RenderDimensions(dims) == [LBracket, RBracket] + rest;
      UnsizedDimensionStep(rest);
  }

  lemma SizedDimensionStep(l: Literal, rest: seq<NewChild>)
    ensures Dimensions([LBracket, DimensionLiteral(l), RBracket] + rest) == Prepend([Some(l)], Dimensions(rest))
  {
    var cs := [LBracket, DimensionLiteral(l), RBracket] + rest;
    assert cs[2..] == [RBracket] + rest;
    SkipPrefix([RBracket], rest);
    ScanFirstDimension(cs);
  }

  lemma UnsizedDimensionStep(rest: seq<NewChild>)
    ensures Dimensions([LBracket, RBracket] + rest) == Prepend([None], Dimensions(rest))
  {
    var cs := [LBracket, RBracket] + rest;
    assert cs[2..] == rest;
    ScanFirstDimension(cs);
  }

  /** A `[` followed by `]` or a literal size gives one dimension, then the
      scan of what follows. */
  lemma ScanFirstDimension(cs: seq<NewChild>)
    requires |cs| > 1 && cs[0] == LBracket && (cs[1] == RBracket || cs[1].DimensionLiteral?)
    ensures Dimensions(cs) == Prepend([if cs[1].DimensionLiteral? then Some(cs[1].literal) else None], Dimensions(cs[2..]))
  {
  }

  /** The scan recovers exactly the dimensions a well-formed `new`
      expression was written with: one entry per `[`, `None` exactly where
      `]` follows immediately, the size literal otherwise. */
  lemma {:induction false} DimensionsRoundTrip(prefix: seq<NewChild>, dims: seq<Option<Literal>>)
    requires LBracket !in prefix
    ensures Dimensions(prefix + RenderDimensions(dims)) == Ok(dims)
    decreases |dims|
  {
    SkipPrefix(prefix, RenderDimensions(dims));
    if |dims| > 0 {
      var rest := RenderDimensions(dims[1..]);
      DimensionsRoundTrip([], dims[1..]);
      assert [] + rest == rest;
      RenderedDimensionStep(dims);
      assert dims == [dims[0]] + dims[1..];
    }
  }

  /** A size that is not a literal fails the cast. */
  lemma NonLiteralSize(prefix: seq<NewChild>, rest: seq<NewChild>)
    requires LBracket !in prefix
    ensures Dimensions(prefix + [LBracket, DimensionExpression] + rest) == Fail(CastFailed)
  {
    assert prefix + [LBracket, DimensionExpression] + rest == prefix + ([LBracket, DimensionExpression] + rest);
    SkipPrefix(prefix, [LBracket, DimensionExpression] + rest);
  }

  /** `dimensions.map { it?.toJK() }`. */
  function DimensionsToJK(dims: seq<Option<Literal>>): (r: Result<seq<Option<Node>>>)
    ensures r.Ok? ==> |r.value| == |dims|
    ensures r.Ok? ==> forall i :: 0 <= i < |dims| ==> (r.value[i].None? <==> dims[i].None?)
  {
    if |dims| == 0 then Ok([])
    else
      var first :- match dims[0] case None => Ok(None) case Some(l) => (var n :- LiteralToJK(l); Ok(Some(n)));
      var rest :- DimensionsToJK(dims[1..]);
      assert forall i :: 1 <= i < |dims| ==> dims[i] == dims[1..][i - 1];
      Ok([first] + rest)
  }

  // ---------------------------------------------------------------------
  // Types

  /** The builder's own `PsiType.toJK()`: class, array and primitive types
      only. A class type asks the provider for its target's symbol before
      converting its parameters; an unresolved target, or a symbol that is
      not a class symbol, hits `!!`. */
  function TypeToJK(p: State, t: PsiType): (r: Result<(State, Type)>)
    decreases t, 1
    ensures r.Ok? ==> Extends(p, r.value.0)
  {
    match t
    case ClassPsiType(target, _, parameters) =>
      var h :- Results.NotNull(target);
      var provided :- ProvideSymbol(p, h);
      var (q, symbol) := provided;
      if CategoryOf(symbol) != ClassSymbol then Fail(NullValue)
      else
        var converted :- TypesToJK(q, parameters);
        Ok((converted.0, PlainClassType(symbol, converted.1)))
    case ArrayPsiType(component) =>
      var converted :- TypeToJK(p, component);
      Ok((converted.0, JavaArrayType(converted.1, Default)))
    case PrimitivePsiType(text) =>
      (match KeywordToPrimitive(text)
       case Some(primitive) => Ok((p, JavaPrimitiveType(primitive)))
       case None => Fail(Unsupported))
    case _ => Fail(Unsupported)
  }

  function TypesToJK(p: State, ts: seq<PsiType>): (r: Result<(State, seq<Type>)>)
    decreases ts, 0
    ensures r.Ok? ==> Extends(p, r.value.0) && |r.value.1| == |ts|
  {
    if |ts| == 0 then Ok((p, []))
    else
      var first :- TypeToJK(p, ts[0]);
      var rest :- TypesToJK(first.0, ts[1..]);
      Ok((rest.0, [first.1] + rest.1))
  }

  /** The types on which the builder's conversion and that of `tree/types.kt`
      are meant to coincide: class types with a resolved target that is not
      a type parameter, arrays of them, and primitives. */
  predicate PlainType(t: PsiType)
    decreases t
  {
    match t
    case ClassPsiType(target, _, parameters) =>
      target.Some? && target.value.kind != TypeParameter
      && forall i :: 0 <= i < |parameters| ==> PlainType(parameters[i])
    case ArrayPsiType(component) => PlainType(component)
    case PrimitivePsiType(_) => true
    case _ => false
  }

  /** On plain types that `tree/types.kt` converts, the builder's conversion
      gives the same type with the default nullability, and leaves the
      provider in the same state, although it asks for the symbols in a
      different order. */
  lemma {:induction false} TypeToJKAgrees(p: State, t: PsiType)
    requires PlainType(t) && TypeConversion.Convertible(p, t)
    ensures TypeToJK(p, t) == TypeConversion.ToJK(p, t, Default)
    decreases t, 1
  {
    match t
    case ClassPsiType(target, rawText, parameters) =>
      var h := target.value;
      var q := ProvideSymbol(p, h).value.0;
      var p1 := TypeConversion.ToJKAll(p, parameters, Default).value.0;
      TypeConversion.ResolvableStable(p, p1, h);
      ProvideSymbolStable(p, p1, h);
      TypeConversion.ConvertibleAllStable(p, q, parameters);
      TypesToJKAgrees(q, parameters);
      TypeConversion.ToJKAllStable(p, q, parameters, Default);
      var q1 := TypeConversion.ToJKAll(q, parameters, Default).value.0;
      var p2 := ProvideSymbol(p1, h).value.0;
      assert q1.symbols.Keys == p2.symbols.Keys;
      ExtendsDeterminedByKeys(p, q1, p2);
    case ArrayPsiType(component) =>
      TypeToJKAgrees(p, component);
    case PrimitivePsiType(_) =>
  }

  lemma {:induction false} TypesToJKAgrees(p: State, ts: seq<PsiType>)
    requires forall i :: 0 <= i < |ts| ==> PlainType(ts[i]) && TypeConversion.Convertible(p, ts[i])
    ensures TypesToJK(p, ts) == TypeConversion.ToJKAll(p, ts, Default)
    decreases ts, 0
  {
    if |ts| > 0 {
      TypeToJKAgrees(p, ts[0]);
      var q := TypeToJK(p, ts[0]).value.0;
      TypeConversion.ConvertibleAllStable(p, q, ts[1..]);
      assert forall i :: 0 <= i < |ts[1..]| ==> ts[1..][i] == ts[i + 1];
      TypesToJKAgrees(q, ts[1..]);
    }
  }

  /** Outside `PlainType` the two conversions part ways. An unresolved
      class type makes the builder fail on `!!`, while `tree/types.kt`
      builds an unresolved class type from the raw text. */
  lemma UnresolvedTypeDisagrees(p: State, raw: string, parameters: seq<PsiType>)
    requires forall i :: 0 <= i < |parameters| ==> TypeConversion.Convertible(p, parameters[i])
    ensures TypeToJK(p, ClassPsiType(None, raw, parameters)) == Fail(NullValue)
    ensures var r := TypeConversion.ToJK(p, ClassPsiType(None, raw, parameters), Default);
      r.Ok? && r.value.1.UnresolvedClassType? && r.value.1.rawName == raw
  {
    TypeConversion.UnresolvedAndParameterShapes(p, raw, Handle(0, TypeParameter, raw, None), parameters, Default);
  }

  /** A type parameter the provider has not seen: the provider treats it as
      a class and the builder builds a class type over a multiverse class
      symbol, while `tree/types.kt` builds a type-parameter type. */
  lemma TypeParameterDisagrees(p: State, h: Handle, raw: string)
    requires h.kind == TypeParameter && h !in p.symbols
    ensures var r := TypeToJK(p, ClassPsiType(Some(h), raw, []));
      r.Ok? && r.value.1.ClassType? && r.value.1.classReference == MultiverseClass(h)
    ensures TypeConversion.ToJK(p, ClassPsiType(Some(h), raw, []), Default) == Ok((p, TypeParameterType(h.name, Default)))
  {
    TypeConversion.UnresolvedAndParameterShapes(p, raw, h, [], Default);
  }

  // ---------------------------------------------------------------------
  // Expressions

  /** `PsiExpression.toJK()`. Every operator the result carries is one the
      builder produced, PLUS or MINUS, reachable or not. */
  function ExprToJK(p: State, e: Expr): (r: Result<(State, Node)>)
    decreases e, 1
    ensures r.Ok? ==> Extends(p, r.value.0)
  {
    match e
    case BinaryExpr(lOperand, rOperand, sign) =>
      var left :- ExprToJK(p, lOperand);
      var right :- RequiredToJK(left.0, rOperand);
      var operator :- OperatorToJK(sign);
      Ok((right.0, BinaryExpression(left.1, right.1, operator)))
    case PrefixExpr(operand, sign) =>
      var built :- RequiredToJK(p, operand);
      var operator :- OperatorToJK(sign);
      Ok((built.0, PrefixExpression(built.1, operator)))
    case PostfixExpr(operand, sign) =>
      var built :- ExprToJK(p, operand);
      var operator :- OperatorToJK(sign);
      Ok((built.0, PostfixExpression(built.1, operator)))
    case LiteralExpr(literal) =>
      var node :- LiteralToJK(literal);
      Ok((p, node))
    case MethodCallExpr(_, _, _, _) => CallToJK(p, e)
    case ReferenceExpr(_, _, _) => ReferenceToJK(p, e)
    case NewExpr(_, _, _, _) => NewToJK(p, e)
    case ArrayAccessExpr(arrayExpression, indexExpression) =>
      var base :- ExprToJK(p, arrayExpression);
      var index :- RequiredToJK(base.0, indexExpression);
      Ok((index.0, ArrayAccessExpression(base.1, index.1)))
    case TypeCastExpr(castOperand, castType) =>
      var operand :- RequiredToJK(p, castOperand);
      if castType.None? then Fail(NotImplemented)
      else
        var t :- TypeToJK(operand.0, castType.value);
        Ok((t.0, TypeCastExpression(operand.1, TypeElement(t.1))))
    case ParenthesizedExpr(inner) =>
      var built :- RequiredToJK(p, inner);
      Ok((built.0, ParenthesizedExpression(built.1)))
    case AssignmentExpr(lExpression, rExpression) =>
      var l :- ExprToJK(p, lExpression);
      var r :- RequiredToJK(l.0, rExpression);
      Ok((r.0, JavaAssignmentExpression(l.1, r.1)))
    case OtherExpr => Fail(Unsupported)
  }

  /** Method calls: the resolved method is wrapped in a multiverse symbol;
      with a dot the call becomes the selector of a qualified expression. */
  function CallToJK(p: State, e: Expr): (r: Result<(State, Node)>)
    requires e.MethodCallExpr?
    decreases e, 0
    ensures r.Ok? ==> Extends(p, r.value.0)
  {
    var MethodCallExpr(calledMethod, hasDot, qualifier, arguments) := e;
    // `resolve() as PsiMethod`: absent or not a method, the cast fails
    if calledMethod.None? || calledMethod.value.kind != ElementKind.JavaMethod then Fail(CastFailed)
    else
      var args :- ExprsToJK(p, arguments);
      var call := JavaMethodCallExpression(MultiverseMethod(calledMethod.value), ExpressionList(args.1));
      if hasDot then
        var receiver :- QualifierToJK(args.0, qualifier);
        Ok((receiver.0, QualifiedExpression(receiver.1, JavaDot, call)))
      else Ok((args.0, call))
  }

  /** Field references: anything but a resolved field becomes a null
      literal; a qualifier that is not a class name becomes the receiver. */
  function ReferenceToJK(p: State, e: Expr): (r: Result<(State, Node)>)
    requires e.ReferenceExpr?
    decreases e, 0
    ensures r.Ok? ==> Extends(p, r.value.0)
  {
    var ReferenceExpr(resolved, hasDot, qualifier) := e;
    if resolved.None? || resolved.value.kind != ElementKind.JavaField then Ok((p, NullLiteral))
    else
      var access := JavaFieldAccessExpression(MultiverseField(resolved.value));
      if hasDot && !QualifiedByClass(qualifier) then
        var receiver :- QualifierToJK(p, qualifier);
        Ok((receiver.0, QualifiedExpression(receiver.1, JavaDot, access)))
      else Ok((p, access))
  }

  /** `new` expressions: an array creation (with or without initializer)
      when the children hold a `[`, a constructor call otherwise. */
  function NewToJK(p: State, e: Expr): (r: Result<(State, Node)>)
    requires e.NewExpr?
    decreases e, 0
    ensures r.Ok? ==> Extends(p, r.value.0)
  {
    var NewExpr(children, arrayInitializer, constructorTarget, argumentList) := e;
    if LBracket in children then
      if arrayInitializer.Some? then
        // each initializer is mapped by converting the `new` expression
        // itself again, which never returns once there is one
        if |arrayInitializer.value| == 0 then Ok((p, JavaNewArray([]))) else Fail(Diverges)
      else
        var dimensions :- Dimensions(children);
        var nodes :- DimensionsToJK(dimensions);
        Ok((p, JavaNewEmptyArray(nodes)))
    else
      var h :- Results.NotNull(constructorTarget);
      var provided :- ProvideSymbol(p, h);
      if CategoryOf(provided.1) != MethodSymbol then Fail(CastFailed)
      else
        // `argumentList.toJK()` on a nullable list: absent means empty
        var args :- if argumentList.None? then Ok((provided.0, [])) else ExprsToJK(provided.0, argumentList.value.expressions);
        Ok((args.0, JavaNewExpression(provided.1, ExpressionList(args.1))))
  }

  /** `x?.toJK() ?: TODO()`. */
  function RequiredToJK(p: State, e: Option<Expr>): (r: Result<(State, Node)>)
    decreases e
    ensures r.Ok? ==> Extends(p, r.value.0)
    ensures e.None? ==> r == Fail(NotImplemented)
  {
    match e
    case None => Fail(NotImplemented)
    case Some(x) => ExprToJK(p, x)
  }

  /** `(qualifier as PsiExpression).toJK()`. */
  function QualifierToJK(p: State, q: QualifierSite): (r: Result<(State, Node)>)
    decreases q
    ensures r.Ok? ==> Extends(p, r.value.0)
    ensures !q.ExpressionQualifier? ==> r == Fail(CastFailed)
  {
    match q
    case ExpressionQualifier(x) => ExprToJK(p, x)
    case _ => Fail(CastFailed)
  }

  /** The expressions of a list, left to right. */
  function ExprsToJK(p: State, es: seq<Expr>): (r: Result<(State, seq<Node>)>)
    decreases es
    ensures r.Ok? ==> Extends(p, r.value.0) && |r.value.1| == |es|
  {
    if |es| == 0 then Ok((p, []))
    else
      var first :- ExprToJK(p, es[0]);
      var rest :- ExprsToJK(first.0, es[1..]);
      Ok((rest.0, [first.1] + rest.1))
  }

  // ---------------------------------------------------------------------
  // What the built expressions are made of

  /** The builder only ever produces the operators PLUS and MINUS, so every
      operator node a pass can reach in a built expression is one the
      operator conversion knows how to translate. */
  lemma {:induction false} ExprOperators(p: State, e: Expr)
    requires ExprToJK(p, e).Ok?
    ensures OperatorsIn(ExprToJK(p, e).value.1, JavaOperators)
    decreases e, 1
  {
    if e.BinaryExpr? || e.PrefixExpr? || e.PostfixExpr? {
      OperatorNodeOperators(p, e);
    } else if e.MethodCallExpr? {
      CallOperators(p, e);
    } else if e.ReferenceExpr? {
      ReferenceOperators(p, e);
    } else if e.NewExpr? && LBracket in e.children {
      assert ExprToJK(p, e) == NewToJK(p, e);
      NewArrayOperators(p, e);
    } else if e.NewExpr? {
      assert ExprToJK(p, e) == NewToJK(p, e);
      ConstructorOperators(p, e);
    } else if e.ArrayAccessExpr? || e.AssignmentExpr? {
      PairOperators(p, e);
    } else if !e.OtherExpr? {
      WrapperOperators(p, e);
    }
  }

  lemma {:induction false} OperatorNodeOperators(p: State, e: Expr)
    requires e.BinaryExpr? || e.PrefixExpr? || e.PostfixExpr?
    requires ExprToJK(p, e).Ok?
    ensures OperatorsIn(ExprToJK(p, e).value.1, JavaOperators)
    decreases e, 0
  {
    match e
    case BinaryExpr(lOperand, rOperand, _) =>
      ExprOperators(p, lOperand);
      RequiredOperators(ExprToJK(p, lOperand).value.0, rOperand);
    case PrefixExpr(operand, _) => RequiredOperators(p, operand);
    case PostfixExpr(operand, _) => ExprOperators(p, operand);
  }

  lemma {:induction false} CallOperators(p: State, e: Expr)
    requires e.MethodCallExpr? && ExprToJK(p, e).Ok?
    ensures OperatorsIn(ExprToJK(p, e).value.1, JavaOperators)
    decreases e, 0
  {
    assert ExprToJK(p, e) == CallToJK(p, e);
    var args := ExprsToJK(p, e.arguments).value;
    var call := JavaMethodCallExpression(MultiverseMethod(e.calledMethod.value), ExpressionList(args.1));
    assert OperatorsIn(call, JavaOperators) by {
      assert Slots(call) == [];
    }
    if e.hasDot {
      QualifierOperators(args.0, e.qualifier);
      var receiver := QualifierToJK(args.0, e.qualifier).value;
      assert CallToJK(p, e).value.1 == QualifiedExpression(receiver.1, JavaDot, call);
    }
  }

  lemma {:induction false} ReferenceOperators(p: State, e: Expr)
    requires e.ReferenceExpr? && ExprToJK(p, e).Ok?
    ensures OperatorsIn(ExprToJK(p, e).value.1, JavaOperators)
    decreases e, 0
  {
    assert ExprToJK(p, e) == ReferenceToJK(p, e);
    var r := ReferenceToJK(p, e).value.1;
    if r.QualifiedExpression? {
      QualifierOperators(p, e.qualifier);
      var receiver := QualifierToJK(p, e.qualifier).value;
      assert r == QualifiedExpression(receiver.1, JavaDot, r.selector);
      assert Slots(r.selector) == [];
    } else {
      assert Slots(r) == [];
    }
  }

  lemma NewArrayOperators(p: State, e: Expr)
    requires e.NewExpr? && LBracket in e.children && NewToJK(p, e).Ok?
    ensures OperatorsIn(NewToJK(p, e).value.1, JavaOperators)
  {
    var r := NewToJK(p, e).value.1;
    assert r.JavaNewArray? || r.JavaNewEmptyArray?;
    assert Slots(r) == [];
  }

  lemma {:induction false} ConstructorOperators(p: State, e: Expr)
    requires e.NewExpr? && LBracket !in e.children && NewToJK(p, e).Ok?
    ensures OperatorsIn(NewToJK(p, e).value.1, JavaOperators)
    decreases e, 0
  {
    var r := NewToJK(p, e).value.1;
    var provided := ProvideSymbol(p, e.constructorTarget.value).value;
    var args: seq<Node> := [];
    if e.argumentList.Some? {
      ExprsOperators(provided.0, e.argumentList.value.expressions);
      args := ExprsToJK(provided.0, e.argumentList.value.expressions).value.1;
    }
    assert r == JavaNewExpression(provided.1, ExpressionList(args));
    assert OperatorsIn(ExpressionList(args), JavaOperators);
  }

  lemma {:induction false} WrapperOperators(p: State, e: Expr)
    requires e.LiteralExpr? || e.TypeCastExpr? || e.ParenthesizedExpr?
    requires ExprToJK(p, e).Ok?
    ensures OperatorsIn(ExprToJK(p, e).value.1, JavaOperators)
    decreases e, 0
  {
    match e
    case LiteralExpr(_) =>
    case TypeCastExpr(castOperand, _) =>
      var t := ExprToJK(p, e).value.1;
      assert Slots(t) == [t.typeElement];
    case ParenthesizedExpr(inner) => RequiredOperators(p, inner);
  }

  lemma {:induction false} PairOperators(p: State, e: Expr)
    requires e.ArrayAccessExpr? || e.AssignmentExpr?
    requires ExprToJK(p, e).Ok?
    ensures OperatorsIn(ExprToJK(p, e).value.1, JavaOperators)
    decreases e, 0
  {
    match e
    case ArrayAccessExpr(arrayExpression, indexExpression) =>
      ExprOperators(p, arrayExpression);
      RequiredOperators(ExprToJK(p, arrayExpression).value.0, indexExpression);
    case AssignmentExpr(lExpression, rExpression) =>
      ExprOperators(p, lExpression);
      RequiredOperators(ExprToJK(p, lExpression).value.0, rExpression);
  }

  lemma {:induction false} RequiredOperators(p: State, e: Option<Expr>)
    requires RequiredToJK(p, e).Ok?
    ensures OperatorsIn(RequiredToJK(p, e).value.1, JavaOperators)
    decreases e
  {
    ExprOperators(p, e.value);
  }

  lemma {:induction false} QualifierOperators(p: State, q: QualifierSite)
    requires QualifierToJK(p, q).Ok?
    ensures OperatorsIn(QualifierToJK(p, q).value.1, JavaOperators)
    decreases q
  {
    ExprOperators(p, q.expr);
  }

  lemma {:induction false} ExprsOperators(p: State, es: seq<Expr>)
    requires ExprsToJK(p, es).Ok?
    ensures forall i :: 0 <= i < |es| ==> OperatorsIn(ExprsToJK(p, es).value.1[i], JavaOperators)
    decreases es
  {
    if |es| > 0 {
      ExprOperators(p, es[0]);
      ExprsOperators(ExprToJK(p, es[0]).value.0, es[1..]);
    }
  }

  // ---------------------------------------------------------------------
  // Which expressions consult the symbol provider

  /** Expressions whose conversion never asks the provider for a symbol:
      no constructor call and no type cast anywhere inside. Method calls and
      field references are among them: the builder wraps the resolved
      element in a fresh multiverse symbol of its own. */
  predicate ProviderFree(e: Expr)
    decreases e
  {
    match e
    case BinaryExpr(l, r, _) => ProviderFree(l) && (r.Some? ==> ProviderFree(r.value))
    case PrefixExpr(operand, _) => operand.Some? ==> ProviderFree(operand.value)
    case PostfixExpr(operand, _) => ProviderFree(operand)
    case LiteralExpr(_) => true
    case MethodCallExpr(_, _, qualifier, arguments) =>
      (qualifier.ExpressionQualifier? ==> ProviderFree(qualifier.expr))
      && forall i :: 0 <= i < |arguments| ==> ProviderFree(arguments[i])
    case ReferenceExpr(_, _, qualifier) => qualifier.ExpressionQualifier? ==> ProviderFree(qualifier.expr)
    case NewExpr(children, _, _, _) => LBracket in children
    case ArrayAccessExpr(a, index) => ProviderFree(a) && (index.Some? ==> ProviderFree(index.value))
    case TypeCastExpr(_, _) => false
    case ParenthesizedExpr(inner) => inner.Some? ==> ProviderFree(inner.value)
    case AssignmentExpr(l, r) => ProviderFree(l) && (r.Some? ==> ProviderFree(r.value))
    case OtherExpr => true
  }

  /** `r` with its provider state replaced by `q`. */
  function InState<T>(r: Result<(State, T)>, q: State): Result<(State, T)> {
    if r.Ok? then Ok((q, r.value.1)) else r
  }

  /** A provider-free expression converts the same way in every provider
      state, failures included, and leaves the state as it found it. */
  lemma {:induction false} ProviderFreeIgnoresState(p: State, q: State, e: Expr)
    requires ProviderFree(e)
    ensures ExprToJK(q, e) == InState(ExprToJK(p, e), q)
    decreases e, 1
  {
    if e.BinaryExpr? || e.PrefixExpr? || e.PostfixExpr? || e.ArrayAccessExpr? || e.AssignmentExpr? {
      OperandsIgnoreState(p, q, e);
    } else if e.MethodCallExpr? || e.ReferenceExpr? {
      AccessIgnoresState(p, q, e);
    } else if e.ParenthesizedExpr? {
      RequiredIgnoresState(p, q, e.inner);
    }
  }

  lemma {:induction false} OperandsIgnoreState(p: State, q: State, e: Expr)
    requires e.BinaryExpr? || e.PrefixExpr? || e.PostfixExpr? || e.ArrayAccessExpr? || e.AssignmentExpr?
    requires ProviderFree(e)
    ensures ExprToJK(q, e) == InState(ExprToJK(p, e), q)
    decreases e, 0
  {
    match e
    case BinaryExpr(l, r, _) =>
      ProviderFreeIgnoresState(p, q, l);
      ProviderFreeIgnoresState(p, p, l);
      RequiredIgnoresState(p, q, r);
      RequiredIgnoresState(p, p, r);
    case PrefixExpr(operand, _) =>
      RequiredIgnoresState(p, q, operand);
    case PostfixExpr(operand, _) =>
      ProviderFreeIgnoresState(p, q, operand);
    case ArrayAccessExpr(a, index) =>
      ProviderFreeIgnoresState(p, q, a);
      ProviderFreeIgnoresState(p, p, a);
      RequiredIgnoresState(p, q, index);
      RequiredIgnoresState(p, p, index);
    case AssignmentExpr(l, r) =>
      ProviderFreeIgnoresState(p, q, l);
      ProviderFreeIgnoresState(p, p, l);
      RequiredIgnoresState(p, q, r);
      RequiredIgnoresState(p, p, r);
  }

  lemma {:induction false} AccessIgnoresState(p: State, q: State, e: Expr)
    requires e.MethodCallExpr? || e.ReferenceExpr?
    requires ProviderFree(e)
    ensures ExprToJK(q, e) == InState(ExprToJK(p, e), q)
    decreases e, 0
  {
    match e
    case MethodCallExpr(_, _, qualifier, arguments) =>
      ExprsIgnoreState(p, q, arguments);
      ExprsIgnoreState(p, p, arguments);
      QualifierIgnoresState(p, q, qualifier);
      QualifierIgnoresState(p, p, qualifier);
    case ReferenceExpr(_, _, qualifier) =>
      QualifierIgnoresState(p, q, qualifier);
  }

  lemma {:induction false} RequiredIgnoresState(p: State, q: State, e: Option<Expr>)
    requires e.Some? ==> ProviderFree(e.value)
    ensures RequiredToJK(q, e) == InState(RequiredToJK(p, e), q)
    decreases e
  {
    if e.Some? {
      ProviderFreeIgnoresState(p, q, e.value);
    }
  }

  lemma {:induction false} QualifierIgnoresState(p: State, q: State, site: QualifierSite)
    requires site.ExpressionQualifier? ==> ProviderFree(site.expr)
    ensures QualifierToJK(q, site) == InState(QualifierToJK(p, site), q)
    decreases site
  {
    if site.ExpressionQualifier? {
      ProviderFreeIgnoresState(p, q, site.expr);
    }
  }

  lemma {:induction false} ExprsIgnoreState(p: State, q: State, es: seq<Expr>)
    requires forall i :: 0 <= i < |es| ==> ProviderFree(es[i])
    ensures ExprsToJK(q, es) == InState(ExprsToJK(p, es), q)
    decreases es
  {
    if |es| > 0 {
      ProviderFreeIgnoresState(p, q, es[0]);
      ProviderFreeIgnoresState(p, p, es[0]);
      ExprsIgnoreState(p, q, es[1..]);
      ExprsIgnoreState(p, p, es[1..]);
    }
  }

  // ---------------------------------------------------------------------
  // Shapes of particular conversions

  /** A method call converts only when it resolves to a method, and the
      call node then names a multiverse symbol made on the spot: a method
      of the tree being converted, whose universe symbol the provider
      holds, is referred to as a foreign element. */
  lemma MethodCallBypassesProvider(p: State, e: Expr, later: State)
    requires e.MethodCallExpr? && ExprToJK(p, e).Ok?
    ensures e.calledMethod.Some? && e.calledMethod.value.kind == ElementKind.JavaMethod
    ensures var n := ExprToJK(p, e).value.1;
      && (e.hasDot ==> n.QualifiedExpression? && n.qualifier == JavaDot)
      && var call := if e.hasDot then n.selector else n;
      && call.JavaMethodCallExpression?
      && call.methodSymbol == MultiverseMethod(e.calledMethod.value)
      && Target(later, call.methodSymbol) == Ok(ForeignTarget(e.calledMethod.value))
      && (e.calledMethod.value in p.symbols && p.symbols[e.calledMethod.value].Universe? ==>
            call.methodSymbol != p.symbols[e.calledMethod.value])
  {
    assert ExprToJK(p, e) == CallToJK(p, e);
  }

  /** A reference becomes a field access exactly when it resolves to a
      field, and `null` otherwise; the access is qualified exactly when the
      source has a dot whose qualifier is not a class name. */
  lemma ReferenceShape(p: State, e: Expr)
    requires e.ReferenceExpr?
    ensures e.resolved.None? || e.resolved.value.kind != ElementKind.JavaField ==>
      ExprToJK(p, e) == Ok((p, NullLiteral))
    ensures e.resolved.Some? && e.resolved.value.kind == ElementKind.JavaField ==>
      var access := JavaFieldAccessExpression(MultiverseField(e.resolved.value));
      if e.hasDot && !QualifiedByClass(e.qualifier) then
        && (ExprToJK(p, e).Ok? <==> QualifierToJK(p, e.qualifier).Ok?)
        && (ExprToJK(p, e).Ok? ==>
              ExprToJK(p, e).value.1 == QualifiedExpression(QualifierToJK(p, e.qualifier).value.1, JavaDot, access))
      else ExprToJK(p, e) == Ok((p, access))
  {
  }

  /** Unlike a method call, a constructor call goes through the provider:
      a universe method symbol registered for the constructor is the one the
      `new` node carries. */
  lemma ConstructorUsesProvider(p: State, e: Expr)
    requires e.NewExpr? && LBracket !in e.children && ExprToJK(p, e).Ok?
    ensures e.constructorTarget.Some?
    ensures var h := e.constructorTarget.value;
      var n := ExprToJK(p, e).value.1;
      && n.JavaNewExpression?
      && CategoryOf(n.constructorSymbol) == MethodSymbol
      && (h in p.symbols ==> n.constructorSymbol == p.symbols[h])
      && (h !in p.symbols ==> n.constructorSymbol == MultiverseMethod(h))
  {
  }

  /** `new T[] { ... }`: an empty initializer list gives an empty array
      node, a non-empty one makes the conversion call itself forever. */
  lemma NewArrayInitializer(p: State, e: Expr)
    requires e.NewExpr? && LBracket in e.children && e.arrayInitializer.Some?
    ensures |e.arrayInitializer.value| == 0 ==> ExprToJK(p, e) == Ok((p, JavaNewArray([])))
    ensures |e.arrayInitializer.value| > 0 ==> ExprToJK(p, e) == Fail(Diverges)
  {
  }

  /** `new T[3][]`: without an initializer, the node lists the dimensions
      the expression was written with, a size for each sized one. */
  lemma NewEmptyArrayDimensions(p: State, prefix: seq<NewChild>, dims: seq<Option<Literal>>,
                                constructorTarget: Option<Handle>, argumentList: Option<ArgumentList>)
    requires LBracket !in prefix && |dims| > 0
    ensures var e := NewExpr(prefix + RenderDimensions(dims), None, constructorTarget, argumentList);
      && (ExprToJK(p, e).Ok? <==> DimensionsToJK(dims).Ok?)
      && (ExprToJK(p, e).Ok? ==> ExprToJK(p, e).value == (p, JavaNewEmptyArray(DimensionsToJK(dims).value)))
  {
    DimensionsRoundTrip(prefix, dims);
    var cs := prefix + RenderDimensions(dims);
    assert LBracket in cs by {
      assert RenderDimensions(dims)[0] == LBracket;
      assert cs[|prefix|] == LBracket;
    }
  }
}
