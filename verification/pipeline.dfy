/** How the tree builder and the operator pass fit together: an expression
    the builder produces holds only the Java operators the pass knows, and
    after the pass it holds none that is still Java, wherever the pass
    reaches.
 */
module Pipeline {
  import opened Tokens
  import opened Tree
  import opened Provider
  import opened JavaAst
  import ExpressionMapper
  import OperatorConversion
  import TypeOps

  /** A built expression, once through the operator pass, holds only the
      Kotlin PLUS and MINUS operators where the pass reaches, nothing there
      is left to convert, and if it is itself an operator expression its
      type can be asked for. */
  lemma BuiltExpressionBecomesKotlin(p: State, e: Expr, oracle: TypeOps.TypeOracle)
    requires ExpressionMapper.ExprToJK(p, e).Ok?
    ensures var n := OperatorConversion.Apply(ExpressionMapper.ExprToJK(p, e).value.1);
      && OperatorsIn(n, {KotlinOperator(KtPlus), KotlinOperator(KtMinus)})
      && OperatorConversion.Converted(n)
      && (IsOperatorNode(n) ==> TypeOps.ExpressionType(n, oracle).Ok?)
  {
    var built := ExpressionMapper.ExprToJK(p, e).value.1;
    var n := OperatorConversion.Apply(built);
    ExpressionMapper.ExprOperators(p, e);
    OperatorConversion.BuilderOutputBecomesKotlin(built);
    OperatorConversion.ApplyConverts(built);
    if IsOperatorNode(n) {
      TypeOps.OperatorExpressionType(n, oracle);
    }
  }
}
