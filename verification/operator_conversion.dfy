/** `OperatorExpressionConversion`: the pass that replaces the Java operators
    of binary, prefix and postfix expressions by Kotlin operators.

    The pass is a recursive transformer: `Apply` is `applyToElement`, and
    `Recurse` is the inherited `recurse`, which applies `Apply` to every
    child slot of a node and splices the results back. Detaching an operand
    from its old parent before reusing it is implicit in a value model.
 */
module OperatorConversion {
  import opened Results
  import opened Tokens
  import opened Tree

  /** The Kotlin token for the operator of `n`, when `n` is an operator
      expression holding a Java operator whose token has one. */
  function TokenOf(n: Node): (r: Option<KtToken>)
    ensures r.Some? <==> IsOperatorNode(n) && JavaToKotlinOperator(n.operator).Some?
    ensures r.Some? ==> JavaToKotlinOperator(n.operator) == Some(KotlinOperator(r.value))
  {
    if IsOperatorNode(n) && n.operator.JavaOperator? then JavaToKotlinToken(n.operator.javaToken) else None
  }

  /** A node the pass rewrites at its root. */
  predicate Convertible(n: Node) {
    TokenOf(n).Some?
  }

  /** The size of an operator expression is one more than that of its operands. */
  lemma OperandSizes(n: Node)
    requires IsOperatorNode(n)
    ensures n.BinaryExpression? ==> Size(n) == 1 + Size(n.left) + Size(n.right)
    ensures !n.BinaryExpression? ==> Size(n) == 1 + Size(n.expression)
  {
    SizeBySlots(n);
    if n.BinaryExpression? {
      assert Slots(n) == [n.right, n.left];
      assert TotalSize([n.left]) == Size(n.left) + TotalSize([]) by {
        assert [n.left][1..] == [];
      }
      assert TotalSize([n.right, n.left]) == Size(n.right) + TotalSize([n.left]) by {
        assert [n.right, n.left][1..] == [n.left];
      }
    } else {
      assert Slots(n) == [n.expression];
      assert TotalSize([n.expression]) == Size(n.expression) + TotalSize([]) by {
        assert [n.expression][1..] == [];
      }
    }
  }

  /** `applyToElement`. */
  function Apply(n: Node): (r: Node)
    decreases Size(n), 1
    ensures Size(r) == Size(n)
  {
    match TokenOf(n)
    case None => Recurse(n)
    case Some(t) =>
      OperandSizes(n);
      match n
      case BinaryExpression(left, right, _) =>
        var l := Apply(left);
        var rr := Apply(right);
        OperandSizes(BinaryExpression(l, rr, KotlinOperator(t)));
        Recurse(BinaryExpression(l, rr, KotlinOperator(t)))
      case PrefixExpression(expression, _) =>
        var operand := Apply(expression);
        OperandSizes(PrefixExpression(operand, KotlinOperator(t)));
        Recurse(PrefixExpression(operand, KotlinOperator(t)))
      case PostfixExpression(expression, _) =>
        var operand := Apply(expression);
        OperandSizes(PostfixExpression(operand, KotlinOperator(t)));
        Recurse(PostfixExpression(operand, KotlinOperator(t)))
      case _ => Recurse(n)
  }

  /** `recurse`: every child slot replaced by its converted self. */
  function Recurse(n: Node): (r: Node)
    decreases Size(n), 0
    ensures Size(r) == Size(n)
  {
    SizeBySlots(n);
    WithOwnSlots(n);
    var cs := ApplyAll(Slots(n));
    SizeOfWithSlots(n, cs);
    WithSlots(n, cs)
  }

  /** `Apply` on each node of a slot sequence. */
  function ApplyAll(cs: seq<Node>): (r: seq<Node>)
    decreases TotalSize(cs), 2
    ensures |r| == |cs| && TotalSize(r) == TotalSize(cs)
  {
    if cs == [] then [] else [Apply(cs[0])] + ApplyAll(cs[1..])
  }

  /** `ApplyAll` converts each node on its own. */
  lemma {:induction false} ApplyAllEach(cs: seq<Node>)
    ensures forall i | 0 <= i < |cs| :: ApplyAll(cs)[i] == Apply(cs[i])
  {
    if cs != [] {
      ApplyAllEach(cs[1..]);
      assert forall i | 1 <= i < |cs| :: ApplyAll(cs)[i] == ApplyAll(cs[1..])[i - 1];
    }
  }

  // ---------------------------------------------------------------------
  // Shape of one step

  /** A node whose operator the pass does not convert, or that carries no
      operator, is handed to `recurse` as it is: its own operator, if any,
      and every datum outside its slots survive, and each slot is converted. */
  lemma UnconvertedGoesToRecurse(n: Node)
    requires !Convertible(n)
    ensures Apply(n) == Recurse(n)
    ensures SlotsFit(n, Slots(Apply(n))) && WithSlots(n, Slots(Apply(n))) == Apply(n)
    ensures |Slots(Apply(n))| == |Slots(n)|
    ensures forall i | 0 <= i < |Slots(n)| :: Slots(Apply(n))[i] == Apply(Slots(n)[i])
    ensures IsOperatorNode(n) ==> IsOperatorNode(Apply(n)) && Apply(n).operator == n.operator
  {
    WithOwnSlots(n);
    var cs := ApplyAll(Slots(n));
    ApplyAllEach(Slots(n));
    SlotsOfWithSlots(n, cs);
    SameShape(n, cs, cs);
    WithSlotsKeepsOperator(n, cs);
  }

  /** A node with a convertible operator is rebuilt as the same kind of
      expression, with the Kotlin operator of the same name and its operands
      converted and kept in their places. `recurse` then converts the
      operands a second time, which changes nothing (see `ApplyIdempotent`). */
  lemma ConvertedOperatorShape(n: Node)
    requires Convertible(n)
    ensures var k := JavaToKotlinOperator(n.operator).value;
      && (n.BinaryExpression? ==> Apply(n) == BinaryExpression(Apply(n.left), Apply(n.right), k))
      && (n.PrefixExpression? ==> Apply(n) == PrefixExpression(Apply(n.expression), k))
      && (n.PostfixExpression? ==> Apply(n) == PostfixExpression(Apply(n.expression), k))
  {
    var k := JavaToKotlinOperator(n.operator).value;
    if n.BinaryExpression? {
      var m := BinaryExpression(Apply(n.left), Apply(n.right), k);
      assert Apply(n) == Recurse(m);
      assert Slots(m) == [Apply(n.right), Apply(n.left)];
      ApplyIdempotent(n.left);
      ApplyIdempotent(n.right);
      assert ApplyAll(Slots(m)) == Slots(m);
      WithOwnSlots(m);
    } else {
      var m := if n.PrefixExpression? then PrefixExpression(Apply(n.expression), k)
               else PostfixExpression(Apply(n.expression), k);
      assert Apply(n) == Recurse(m);
      assert Slots(m) == [Apply(n.expression)];
      ApplyIdempotent(n.expression);
      assert ApplyAll(Slots(m)) == Slots(m);
      WithOwnSlots(m);
    }
  }

  /** A type cast's operand is plain data, not a slot: the pass converts
      only the type element and leaves the operand's operators as they are. */
  lemma TypeCastOperandUntouched(operand: Node, typeElement: Node)
    ensures Apply(TypeCastExpression(operand, typeElement)) == TypeCastExpression(operand, Apply(typeElement))
  {
    var n := TypeCastExpression(operand, typeElement);
    UnconvertedGoesToRecurse(n);
    TypeCastSlots(operand, typeElement, Apply(typeElement));
  }

  /** A node without slots, such as a Java method call, a Java field or
      method declaration or a new array, comes back unchanged, whatever
      operators it holds in its data. */
  lemma SlotlessUntouched(n: Node)
    requires Slots(n) == []
    ensures Apply(n) == n
  {
    UnconvertedGoesToRecurse(n);
    WithOwnSlots(n);
  }

  // ---------------------------------------------------------------------
  // The pass as a whole

  /** No operator the pass would convert is reachable through slots. */
  predicate Converted(n: Node)
    decreases n
  {
    && !Convertible(n)
    && forall i :: 0 <= i < |Slots(n)| ==> Converted(Slots(n)[i])
  }

  /** After the pass no convertible operator is left anywhere it can reach. */
  lemma {:induction false} ApplyConverts(n: Node)
    decreases Size(n), 1
    ensures Converted(Apply(n))
  {
    match TokenOf(n)
    case None =>
      RecurseConverts(n);
    case Some(t) =>
      OperandSizes(n);
      var m := if n.BinaryExpression? then BinaryExpression(Apply(n.left), Apply(n.right), KotlinOperator(t))
               else if n.PrefixExpression? then PrefixExpression(Apply(n.expression), KotlinOperator(t))
               else PostfixExpression(Apply(n.expression), KotlinOperator(t));
      assert Apply(n) == Recurse(m);
      OperandSizes(m);
      RecurseConverts(m);
  }

  lemma {:induction false} RecurseConverts(n: Node)
    requires !Convertible(n)
    decreases Size(n), 0
    ensures Converted(Recurse(n))
  {
    SizeBySlots(n);
    WithOwnSlots(n);
    var cs := ApplyAll(Slots(n));
    SlotsOfWithSlots(n, cs);
    ApplyAllConverts(Slots(n));
    WithSlotsKeepsOperator(n, cs);
    var m := WithSlots(n, cs);
    assert Recurse(n) == m;
    assert !Convertible(m);
  }

  lemma {:induction false} ApplyAllConverts(cs: seq<Node>)
    decreases TotalSize(cs), 2
    ensures forall i | 0 <= i < |cs| :: Converted(ApplyAll(cs)[i])
  {
    if cs != [] {
      ApplyConverts(cs[0]);
      ApplyAllConverts(cs[1..]);
      assert forall i | 1 <= i < |cs| :: ApplyAll(cs)[i] == ApplyAll(cs[1..])[i - 1];
    }
  }

  /** A tree with nothing left to convert is a fixed point of the pass. */
  lemma {:induction false} ConvertedIsFixed(n: Node)
    requires Converted(n)
    decreases n, 1
    ensures Apply(n) == n
  {
    assert Apply(n) == Recurse(n);
    WithOwnSlots(n);
    ConvertedSlotsFixed(Slots(n), n);
  }

  lemma {:induction false} ConvertedSlotsFixed(cs: seq<Node>, parent: Node)
    requires forall i | 0 <= i < |cs| :: cs[i] < parent && Converted(cs[i])
    decreases parent, 0, |cs|
    ensures ApplyAll(cs) == cs
  {
    if cs != [] {
      ConvertedIsFixed(cs[0]);
      ConvertedSlotsFixed(cs[1..], parent);
    }
  }

  /** Running the pass twice is running it once. */
  lemma ApplyIdempotent(n: Node)
    ensures Apply(Apply(n)) == Apply(n)
  {
    ApplyConverts(n);
    ConvertedIsFixed(Apply(n));
  }

  /** The operator `op` becomes under the pass. */
  function ConvertOperator(op: Operator): Operator {
    match JavaToKotlinOperator(op)
    case Some(k) => k
    case None => op
  }

  /** The operators a tree holds after the pass, given those it held before. */
  function Image(ops: set<Operator>): set<Operator> {
    set op | op in ops :: ConvertOperator(op)
  }

  /** The pass changes operators only through the conversion table: if every
      reachable operator was in `ops`, every reachable operator afterwards is
      the image of one in `ops`. */
  lemma {:induction false} ApplyMapsOperators(n: Node, ops: set<Operator>)
    requires OperatorsIn(n, ops)
    decreases Size(n), 1
    ensures OperatorsIn(Apply(n), Image(ops))
  {
    match TokenOf(n)
    case None =>
      assert IsOperatorNode(n) ==> ConvertOperator(n.operator) == n.operator;
      RecurseMapsOperators(n, ops);
    case Some(t) =>
      OperandSizes(n);
      assert KotlinOperator(t) == ConvertOperator(n.operator);
      if n.BinaryExpression? {
        assert Slots(n) == [n.right, n.left];
        assert OperatorsIn(Slots(n)[0], ops) && OperatorsIn(Slots(n)[1], ops);
        ApplyMapsOperators(n.left, ops);
        ApplyMapsOperators(n.right, ops);
        ConvertedOperatorShape(n);
        var m := Apply(n);
        assert Slots(m) == [m.right, m.left];
      } else {
        assert Slots(n) == [n.expression];
        assert OperatorsIn(Slots(n)[0], ops);
        ApplyMapsOperators(n.expression, ops);
        ConvertedOperatorShape(n);
        var m := Apply(n);
        assert Slots(m) == [m.expression];
      }
  }

  lemma {:induction false} RecurseMapsOperators(n: Node, ops: set<Operator>)
    requires OperatorsIn(n, ops) && !Convertible(n)
    requires IsOperatorNode(n) ==> n.operator in Image(ops)
    decreases Size(n), 0
    ensures OperatorsIn(Recurse(n), Image(ops))
  {
    SizeBySlots(n);
    WithOwnSlots(n);
    var cs := ApplyAll(Slots(n));
    SlotsOfWithSlots(n, cs);
    ApplyAllMapsOperators(Slots(n), ops);
    WithSlotsKeepsOperator(n, cs);
    var m := WithSlots(n, cs);
    assert Recurse(n) == m;
    assert IsOperatorNode(m) ==> m.operator in Image(ops);
    assert forall i | 0 <= i < |Slots(m)| :: OperatorsIn(Slots(m)[i], Image(ops));
  }

  lemma {:induction false} ApplyAllMapsOperators(cs: seq<Node>, ops: set<Operator>)
    requires forall i | 0 <= i < |cs| :: OperatorsIn(cs[i], ops)
    decreases TotalSize(cs), 2
    ensures forall i | 0 <= i < |cs| :: OperatorsIn(ApplyAll(cs)[i], Image(ops))
  {
    if cs != [] {
      ApplyMapsOperators(cs[0], ops);
      ApplyAllMapsOperators(cs[1..], ops);
      assert forall i | 1 <= i < |cs| :: ApplyAll(cs)[i] == ApplyAll(cs[1..])[i - 1];
    }
  }

  /** The Java operators the tree builder produces, PLUS and MINUS, become
      the Kotlin PLUS and MINUS. */
  lemma BuilderOperatorsImage()
    ensures Image(JavaOperators) == {KotlinOperator(KtPlus), KotlinOperator(KtMinus)}
  {
    assert ConvertOperator(JavaOperator(JavaPlus)) == KotlinOperator(KtPlus);
    assert ConvertOperator(JavaOperator(JavaMinus)) == KotlinOperator(KtMinus);
  }

  /** After the pass, a tree whose operators were all PLUS or MINUS Java
      operators holds only the Kotlin PLUS and MINUS operators where the
      pass reaches. */
  lemma BuilderOutputBecomesKotlin(n: Node)
    requires OperatorsIn(n, JavaOperators)
    ensures OperatorsIn(Apply(n), {KotlinOperator(KtPlus), KotlinOperator(KtMinus)})
  {
    ApplyMapsOperators(n, JavaOperators);
    BuilderOperatorsImage();
  }
}
