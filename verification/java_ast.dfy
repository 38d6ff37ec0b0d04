/** An abstract Java syntax tree standing in for IntelliJ's PSI.

    Only what the tree builder and the symbol pre-pass read is kept: the
    kind of each element, the optional parts the builder tests for null,
    and, already resolved, the element each reference points to (`resolve()`
    becomes a stored `Option<Handle>`). Sibling walking over the children of
    a `new` expression is a sequence of `NewChild` tokens.
 */
module JavaAst {
  import opened Results
  import opened Tokens
  import opened Symbols

  /** `literalElementType` of a literal. */
  datatype LiteralKind =
    | NullKeyword | TrueKeyword | FalseKeyword
    | StringLiteral | CharacterLiteral | IntegerLiteral | LongLiteral | FloatLiteral | DoubleLiteral
    | OtherLiteral

  /** A literal: its full text, and the text between its quotes (`innerText`,
      absent when it cannot be computed). */
  datatype Literal = Literal(kind: LiteralKind, text: string, innerText: Option<string>)

  /** A child of a `new` expression, as the sibling walk sees it. */
  datatype NewChild =
    | LBracket
    | RBracket
    | DimensionLiteral(literal: Literal)   // a literal size, as in `new int[3]`
    | DimensionExpression                  // a size that is not a literal, as in `new int[n]`
    | OtherChild                           // keyword, type, whitespace, comment, argument list

  datatype PsiType =
    | ClassPsiType(target: Option<Handle>, rawText: string, parameters: seq<PsiType>)
    | ArrayPsiType(component: PsiType)
    | PrimitivePsiType(presentableText: string)
    | DisjunctionPsiType(disjunctions: seq<PsiType>)
    | WildcardPsiType(bound: WildcardBound)
    | OtherPsiType

  datatype WildcardBound = ExtendsBound(extendsBound: PsiType) | SuperBound(superBound: PsiType) | Unbounded

  /** What stands before the `.` of a reference or method call. */
  datatype QualifierSite =
    | NoQualifier                         // no qualifier element at all
    | ExpressionQualifier(expr: Expr)     // an expression
    | OtherQualifier                      // a qualifier element that is not an expression

  datatype Expr =
    | BinaryExpr(lOperand: Expr, rOperand: Option<Expr>, operationSign: JavaToken)
    | PrefixExpr(operand: Option<Expr>, operationSign: JavaToken)
    | PostfixExpr(postfixOperand: Expr, operationSign: JavaToken)
    | LiteralExpr(literal: Literal)
    | MethodCallExpr(calledMethod: Option<Handle>, hasDot: bool, qualifier: QualifierSite, arguments: seq<Expr>)
    | ReferenceExpr(resolved: Option<Handle>, hasDot: bool, qualifier: QualifierSite)
    | NewExpr(children: seq<NewChild>, arrayInitializer: Option<seq<Expr>>,
              constructorTarget: Option<Handle>, argumentList: Option<ArgumentList>)
    | ArrayAccessExpr(arrayExpression: Expr, indexExpression: Option<Expr>)
    | TypeCastExpr(castOperand: Option<Expr>, castType: Option<PsiType>)
    | ParenthesizedExpr(inner: Option<Expr>)
    | AssignmentExpr(lExpression: Expr, rExpression: Option<Expr>)
    | OtherExpr                           // conditional, instanceof, this, lambda, ...

  /** A `PsiExpressionList`, the parenthesised arguments of a call. */
  datatype ArgumentList = ArgumentList(expressions: seq<Expr>)

  datatype Statement =
    | ExpressionStmt(expression: Expr)
    | ReturnStmt(returnValue: Option<Expr>)
    | LocalClassStmt(localClass: Element)  // a class declared inside a method body
    | OtherStmt

  datatype CodeBlock = CodeBlock(statements: seq<Statement>)

  datatype Parameter = Parameter(typeElement: Option<PsiType>, parameterName: Option<string>)

  /** Declarations and files; `modifiers` holds the modifiers written
      explicitly, or `None` when there is no modifier list. */
  datatype Element =
    | ClassElement(handle: Handle, isAnnotationType: bool, isEnum: bool, isInterface: bool,
                   modifiers: Option<set<string>>, className: Option<string>, children: seq<Element>)
    | FieldElement(handle: Handle, modifiers: Option<set<string>>, fieldType: Option<PsiType>,
                   fieldName: string, initializer: Option<Expr>)
    | MethodElement(handle: Handle, modifiers: Option<set<string>>, returnType: Option<PsiType>,
                    methodName: string, parameters: seq<Parameter>, body: Option<CodeBlock>)
    | FileElement(fileChildren: seq<Element>)
    | OtherElement                          // package statement, imports, whitespace, ...

  /** A reference whose qualifier resolves to a class (`Outer.FIELD`). */
  predicate QualifiedByClass(q: QualifierSite) {
    q.ExpressionQualifier? && q.expr.ReferenceExpr? && q.expr.resolved.Some? && IsPsiClass(q.expr.resolved.value)
  }
}
