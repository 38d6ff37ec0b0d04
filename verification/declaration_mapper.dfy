/** The declaration mapper and element visitor of the tree builder
    (`JavaToJKTreeBuilder.kt`): classes, fields, methods, parameters,
    code blocks and statements, and `buildTree`.

    Each declaration is built from its parts in source order and then, once
    complete, handed to the symbol provider: when the provider returns a
    universe symbol of the declaration's category, that symbol's target is
    set to the node just built.
 */
module DeclarationMapper {
  import opened Results
  import opened Symbols
  import opened Tree
  import opened JavaAst
  import opened Provider
  import ModifierMapper
  import ExpressionMapper
  import Kinds

  /** The class kind, by priority: annotation, enum, interface, class. */
  function ClassKindOf(isAnnotationType: bool, isEnum: bool, isInterface: bool): (k: ClassKind)
    ensures k != COMPANION
    ensures k == ANNOTATION <==> isAnnotationType
    ensures k == ENUM <==> !isAnnotationType && isEnum
    ensures k == INTERFACE <==> !isAnnotationType && !isEnum && isInterface
    ensures k == CLASS <==> !isAnnotationType && !isEnum && !isInterface
  {
    if isAnnotationType then ANNOTATION
    else if isEnum then ENUM
    else if isInterface then INTERFACE
    else CLASS
  }

  /** The symbol category a declaration element binds. */
  function DeclarationCategory(e: Element): Category
    requires e.ClassElement? || e.FieldElement? || e.MethodElement?
  {
    if e.ClassElement? then ClassSymbol else if e.FieldElement? then FieldSymbol else MethodSymbol
  }

  /** The name a declaration element declares. */
  function ElementName(e: Element): Option<string>
    requires e.ClassElement? || e.FieldElement? || e.MethodElement?
  {
    if e.ClassElement? then e.className else if e.FieldElement? then Some(e.fieldName) else Some(e.methodName)
  }

  /** The universe symbol the provider holds for `h` with category `c`, if any:
      the symbol a finished declaration will be the target of. */
  predicate HoldsUniverse(p: State, h: Handle, c: Category) {
    h in p.symbols && p.symbols[h].Universe? && p.symbols[h].category == c
  }

  /** Asks the provider for the declaration's symbol and, if it is a
      universe symbol of category `c`, makes `node` its target. */
  function Publish(p: State, h: Handle, c: Category, node: Node): (r: Result<State>)
    ensures r.Ok? <==> ProvideSymbol(p, h).Ok?
    ensures r.Ok? ==> Grows(p, r.value)
    ensures r.Ok? && Provider.Valid(p) ==> Provider.Valid(r.value)
    ensures r.Ok? && HoldsUniverse(p, h, c) ==> Target(r.value, p.symbols[h]) == Ok(TreeTarget(node))
    ensures r.Ok? ==> h in r.value.symbols
    ensures r.Ok? && h !in p.symbols ==> Target(r.value, r.value.symbols[h]) == Ok(ForeignTarget(h))
  {
    var provided :- ProvideSymbol(p, h);
    PublishValid(p, h, c, node);
    Ok(Bind(provided.0, provided.1, c, node))
  }

  lemma PublishValid(p: State, h: Handle, c: Category, node: Node)
    requires ProvideSymbol(p, h).Ok?
    ensures Provider.Valid(p) ==> Provider.Valid(Bind(ProvideSymbol(p, h).value.0, ProvideSymbol(p, h).value.1, c, node))
  {
    if Provider.Valid(p) {
      ProvideSymbolValid(p, h);
      BindValid(ProvideSymbol(p, h).value.0, h, c, node);
    }
  }

  /** Expression and type conversion only add multiverse entries, which
      keeps the provider's invariants. */
  lemma ExtensionKeepsValid(p: State, q: State)
    requires Extends(p, q)
    ensures Grows(p, q)
    ensures Provider.Valid(p) ==> Provider.Valid(q)
  {
    if Provider.Valid(p) {
      ExtendsValid(p, q);
    }
  }

  /** A universe symbol held before growing is still held, unchanged. */
  lemma GrowsKeepsHeld(p: State, q: State, h: Handle, c: Category)
    requires Grows(p, q) && HoldsUniverse(p, h, c)
    ensures HoldsUniverse(q, h, c) && q.symbols[h] == p.symbols[h]
  {
  }

  // ---------------------------------------------------------------------
  // Statements, parameters, blocks

  /** `PsiStatement.toJK()`: an expression statement or a `return` with a
      value; every other statement reaches `TODO`. */
  function StatementToJK(p: State, s: Statement): (r: Result<(State, Node)>)
    ensures r.Ok? ==> Grows(p, r.value.0) && (Provider.Valid(p) ==> Provider.Valid(r.value.0))
    ensures r.Ok? ==> (s.ExpressionStmt? && r.value.1.ExpressionStatement?) || (s.ReturnStmt? && r.value.1.ReturnStatement?)
    ensures !s.ExpressionStmt? && !s.ReturnStmt? ==> r == Fail(NotImplemented)
  {
    match s
    case ExpressionStmt(x) =>
      var built :- ExpressionMapper.ExprToJK(p, x);
      ExtensionKeepsValid(p, built.0);
      Ok((built.0, ExpressionStatement(built.1)))
    case ReturnStmt(v) =>
      var built :- ExpressionMapper.RequiredToJK(p, v);
      ExtensionKeepsValid(p, built.0);
      Ok((built.0, ReturnStatement(built.1)))
    case _ => Fail(NotImplemented)
  }

  /** `PsiCodeBlock.toJK()`: the statements in order. */
  function StatementsToJK(p: State, ss: seq<Statement>): (r: Result<(State, seq<Node>)>)
    decreases |ss|
    ensures r.Ok? ==> Grows(p, r.value.0) && (Provider.Valid(p) ==> Provider.Valid(r.value.0))
    ensures r.Ok? ==> |r.value.1| == |ss|
    ensures r.Ok? ==> forall i :: 0 <= i < |ss| ==>
      (ss[i].ExpressionStmt? && r.value.1[i].ExpressionStatement?) || (ss[i].ReturnStmt? && r.value.1[i].ReturnStatement?)
  {
    if |ss| == 0 then Ok((p, []))
    else
      var first :- StatementToJK(p, ss[0]);
      var rest :- StatementsToJK(first.0, ss[1..]);
      Ok((rest.0, [first.1] + rest.1))
  }

  /** `PsiTypeElement.toJK()` on an optional type element: an absent one
      reaches `TODO`. */
  function TypeElementToJK(p: State, t: Option<PsiType>): (r: Result<(State, Node)>)
    ensures r.Ok? ==> Grows(p, r.value.0) && (Provider.Valid(p) ==> Provider.Valid(r.value.0))
    ensures r.Ok? ==> r.value.1.TypeElement?
    ensures t.None? ==> r == Fail(NotImplemented)
  {
    if t.None? then Fail(NotImplemented)
    else
      var converted :- ExpressionMapper.TypeToJK(p, t.value);
      ExtensionKeepsValid(p, converted.0);
      Ok((converted.0, TypeElement(converted.1)))
  }

  /** `PsiParameter.toJK()`: the type element is required, then the name. */
  function ParameterToJK(p: State, param: Parameter): (r: Result<(State, Node)>)
    ensures r.Ok? ==> Grows(p, r.value.0) && (Provider.Valid(p) ==> Provider.Valid(r.value.0))
    ensures r.Ok? ==>
      param.parameterName.Some? && r.value.1.ValueArgument? && r.value.1.argumentName == param.parameterName.value
    ensures param.typeElement.None? ==> r == Fail(NotImplemented)
  {
    var t :- TypeElementToJK(p, param.typeElement);
    var name :- Results.NotNull(param.parameterName);
    Ok((t.0, ValueArgument(t.1, name)))
  }

  function ParametersToJK(p: State, ps: seq<Parameter>): (r: Result<(State, seq<Node>)>)
    decreases |ps|
    ensures r.Ok? ==> Grows(p, r.value.0) && (Provider.Valid(p) ==> Provider.Valid(r.value.0))
    ensures r.Ok? ==> |r.value.1| == |ps|
    ensures r.Ok? ==> forall i :: 0 <= i < |ps| ==>
      ps[i].parameterName.Some? && r.value.1[i].ValueArgument? && r.value.1[i].argumentName == ps[i].parameterName.value
  {
    if |ps| == 0 then Ok((p, []))
    else
      var first :- ParameterToJK(p, ps[0]);
      var rest :- ParametersToJK(first.0, ps[1..]);
      Ok((rest.0, [first.1] + rest.1))
  }

  // ---------------------------------------------------------------------
  // Fields and methods

  /** `PsiField.toJK()`: modifiers, the required type element, the name and
      the required initializer; then the field's symbol is pointed at the
      node. A field without an initializer fails. */
  function FieldToJK(p: State, e: Element): (r: Result<(State, Node)>)
    requires e.FieldElement?
    ensures r.Ok? ==> Grows(p, r.value.0) && (Provider.Valid(p) ==> Provider.Valid(r.value.0))
    ensures r.Ok? ==> r.value.1.JavaField? && DeclarationName(r.value.1) == Some(e.fieldName)
    ensures r.Ok? ==> e.handle in r.value.0.symbols
    ensures r.Ok? && HoldsUniverse(p, e.handle, FieldSymbol) ==>
      Target(r.value.0, p.symbols[e.handle]) == Ok(TreeTarget(r.value.1))
    ensures e.initializer.None? ==> r.Fail?
    ensures r.Ok? && e.handle !in p.symbols ==>
      Target(r.value.0, r.value.0.symbols[e.handle]) == Ok(ForeignTarget(e.handle))
  {
    var built :- FieldNodeToJK(p, e);
    Published(p, built.0, e.handle, FieldSymbol, built.1)
  }

  /** The field node, built from its parts in source order. */
  function FieldNodeToJK(p: State, e: Element): (r: Result<(State, Node)>)
    requires e.FieldElement?
    ensures r.Ok? ==> Grows(p, r.value.0) && (Provider.Valid(p) ==> Provider.Valid(r.value.0))
    ensures r.Ok? ==> r.value.1.JavaField? && DeclarationName(r.value.1) == Some(e.fieldName)
    ensures e.initializer.None? ==> r.Fail?
  {
    var ml :- ModifierMapper.ModifierListToJK(e.modifiers);
    var t :- TypeElementToJK(p, e.fieldType);
    var init :- ExpressionMapper.RequiredToJK(t.0, e.initializer);
    ExtensionKeepsValid(t.0, init.0);
    GrowsChain(p, t.0, init.0);
    Ok((init.0, Node.JavaField(ml, t.1, NameIdentifier(e.fieldName), init.1)))
  }

  /** A declaration built from state `p` into state `built`, then published. */
  function Published(p: State, built: State, h: Handle, c: Category, node: Node): (r: Result<(State, Node)>)
    requires Grows(p, built) && (Provider.Valid(p) ==> Provider.Valid(built))
    ensures r.Ok? ==> Grows(p, r.value.0) && (Provider.Valid(p) ==> Provider.Valid(r.value.0))
    ensures r.Ok? ==> r.value.1 == node && h in r.value.0.symbols
    ensures r.Ok? && HoldsUniverse(p, h, c) ==> Target(r.value.0, p.symbols[h]) == Ok(TreeTarget(node))
    ensures r.Ok? && h !in p.symbols ==> Target(r.value.0, r.value.0.symbols[h]) == Ok(ForeignTarget(h))
  {
    var q :- Publish(built, h, c, node);
    GrowsChain(p, built, q);
    if HoldsUniverse(p, h, c) then
      GrowsKeepsHeld(p, built, h, c);
      Ok((q, node))
    else if h !in p.symbols && h in built.symbols then
      NewMultiverseCategory(h);
      MultiverseTargetFixed(built, built.symbols[h], built.symbols[h], c, node);
      Ok((q, node))
    else Ok((q, node))
  }

  /** `PsiMethod.toJK()`: modifiers, the required return type element
      (built, then not kept), the name, the parameters and the required
      body; then the method's symbol is pointed at the node. */
  function MethodToJK(p: State, e: Element): (r: Result<(State, Node)>)
    requires e.MethodElement?
    ensures r.Ok? ==> Grows(p, r.value.0) && (Provider.Valid(p) ==> Provider.Valid(r.value.0))
    ensures r.Ok? ==> r.value.1.JavaMethod? && DeclarationName(r.value.1) == Some(e.methodName)
    ensures r.Ok? ==> |r.value.1.valueArguments| == |e.parameters| && r.value.1.block.Block?
    ensures r.Ok? ==> e.body.Some? && |r.value.1.block.statements| == |e.body.value.statements|
    ensures r.Ok? ==> e.handle in r.value.0.symbols
    ensures r.Ok? && HoldsUniverse(p, e.handle, MethodSymbol) ==>
      Target(r.value.0, p.symbols[e.handle]) == Ok(TreeTarget(r.value.1))
    ensures r.Ok? && e.handle !in p.symbols ==>
      Target(r.value.0, r.value.0.symbols[e.handle]) == Ok(ForeignTarget(e.handle))
  {
    var built :- MethodNodeToJK(p, e);
    Published(p, built.0, e.handle, MethodSymbol, built.1)
  }

  /** The method node, built from its parts in source order. */
  function MethodNodeToJK(p: State, e: Element): (r: Result<(State, Node)>)
    requires e.MethodElement?
    ensures r.Ok? ==> Grows(p, r.value.0) && (Provider.Valid(p) ==> Provider.Valid(r.value.0))
    ensures r.Ok? ==> r.value.1.JavaMethod? && DeclarationName(r.value.1) == Some(e.methodName)
    ensures r.Ok? ==> |r.value.1.valueArguments| == |e.parameters| && r.value.1.block.Block?
    ensures r.Ok? ==> e.body.Some? && |r.value.1.block.statements| == |e.body.value.statements|
  {
    var ml :- ModifierMapper.ModifierListToJK(e.modifiers);
    var returnType :- TypeElementToJK(p, e.returnType);
    var params :- ParametersToJK(returnType.0, e.parameters);
    if e.body.None? then Fail(NotImplemented)
    else
      var body :- StatementsToJK(params.0, e.body.value.statements);
      GrowsChain(p, returnType.0, params.0);
      GrowsChain(p, params.0, body.0);
      Ok((body.0, Node.JavaMethod(ml, NameIdentifier(e.methodName), params.1, Block(body.1))))
  }


  // ---------------------------------------------------------------------
  // Classes and the element visitor

  /** A node the element visitor can produce. */
  predicate IsDeclarationNode(n: Node) {
    n.Class? || n.JavaField? || n.JavaMethod?
  }

  /** `PsiClass.toJK()`: modifiers, the required name, the kind, then the
      members, each child visited with a fresh visitor and the non-null
      results kept in order; finally the class's symbol is pointed at the
      finished node. */
  function ClassToJK(p: State, e: Element): (r: Result<(State, Node)>)
    requires e.ClassElement?
    decreases e, 1
    ensures r.Ok? ==> Grows(p, r.value.0) && (Provider.Valid(p) ==> Provider.Valid(r.value.0))
    ensures r.Ok? ==> e.className.Some? && r.value.1.Class? && r.value.1.name == NameIdentifier(e.className.value)
    ensures r.Ok? ==> r.value.1.classKind == ClassKindOf(e.isAnnotationType, e.isEnum, e.isInterface)
    ensures r.Ok? ==> r.value.1.extraModifiers == [] && |r.value.1.declarations| <= |e.children|
    ensures r.Ok? ==> forall i :: 0 <= i < |r.value.1.declarations| ==> IsDeclarationNode(r.value.1.declarations[i])
    ensures r.Ok? ==> e.handle in r.value.0.symbols
    ensures r.Ok? && HoldsUniverse(p, e.handle, ClassSymbol) ==>
      Target(r.value.0, p.symbols[e.handle]) == Ok(TreeTarget(r.value.1))
    ensures r.Ok? && e.handle !in p.symbols ==>
      Target(r.value.0, r.value.0.symbols[e.handle]) == Ok(ForeignTarget(e.handle))
  {
    var ml :- ModifierMapper.ModifierListToJK(e.modifiers);
    var name :- Results.NotNull(e.className);
    var members :- MembersToJK(p, e.children);
    var node := Class(NameIdentifier(name), ml, ClassKindOf(e.isAnnotationType, e.isEnum, e.isInterface), members.1, []);
    Published(p, members.0, e.handle, ClassSymbol, node)
  }

  /** `children.mapNotNull { ... resultElement as? JKDeclaration }`. */
  function MembersToJK(p: State, es: seq<Element>): (r: Result<(State, seq<Node>)>)
    decreases es, 0
    ensures r.Ok? ==> Grows(p, r.value.0) && (Provider.Valid(p) ==> Provider.Valid(r.value.0))
    ensures r.Ok? ==> |r.value.1| <= |es|
    ensures r.Ok? ==> forall i :: 0 <= i < |r.value.1| ==> IsDeclarationNode(r.value.1[i])
  {
    if |es| == 0 then Ok((p, []))
    else
      var first :- ElementToJK(p, es[0]);
      var rest :- MembersToJK(first.0, es[1..]);
      Ok((rest.0, (if first.1.Some? then [first.1.value] else []) + rest.1))
  }

  /** The element visitor: `resultElement` after visiting `e`. A class,
      field or method gives its node; a file gives the last node its
      children give, the visitor being shared by them; anything else gives
      nothing. */
  function ElementToJK(p: State, e: Element): (r: Result<(State, Option<Node>)>)
    decreases e, 2
    ensures r.Ok? ==> Grows(p, r.value.0) && (Provider.Valid(p) ==> Provider.Valid(r.value.0))
    ensures r.Ok? && r.value.1.Some? ==> IsDeclarationNode(r.value.1.value)
    ensures r.Ok? && (e.ClassElement? || e.FieldElement? || e.MethodElement?) ==> r.value.1.Some?
    ensures e.OtherElement? ==> r == Ok((p, None))
    ensures r.Ok? && (e.ClassElement? || e.FieldElement? || e.MethodElement?) ==>
      r.value.1.Some? && DeclarationName(r.value.1.value) == ElementName(e)
    ensures (r.Ok? && (e.ClassElement? || e.FieldElement? || e.MethodElement?)
             && HoldsUniverse(p, e.handle, DeclarationCategory(e))) ==>
      Target(r.value.0, p.symbols[e.handle]) == Ok(TreeTarget(r.value.1.value))
  {
    match e
    case ClassElement(_, _, _, _, _, _, _) =>
      var built :- ClassToJK(p, e);
      Ok((built.0, Some(built.1)))
    case FieldElement(_, _, _, _, _) =>
      var built :- FieldToJK(p, e);
      Ok((built.0, Some(built.1)))
    case MethodElement(_, _, _, _, _, _) =>
      var built :- MethodToJK(p, e);
      Ok((built.0, Some(built.1)))
    case FileElement(children) => FileChildrenToJK(p, children, None)
    case OtherElement => Ok((p, None))
  }

  /** `acceptChildren` with one visitor: a child that produces nothing
      leaves the previous result in place. */
  function FileChildrenToJK(p: State, es: seq<Element>, last: Option<Node>): (r: Result<(State, Option<Node>)>)
    decreases es, 0
    requires last.Some? ==> IsDeclarationNode(last.value)
    ensures r.Ok? ==> Grows(p, r.value.0) && (Provider.Valid(p) ==> Provider.Valid(r.value.0))
    ensures r.Ok? && r.value.1.Some? ==> IsDeclarationNode(r.value.1.value)
    ensures r.Ok? && last.Some? ==> r.value.1.Some?
  {
    if |es| == 0 then Ok((p, last))
    else
      var first :- ElementToJK(p, es[0]);
      FileChildrenToJK(first.0, es[1..], if first.1.Some? then first.1 else last)
  }

  /** `buildTree`. */
  function BuildTree(p: State, e: Element): (r: Result<(State, Option<Node>)>)
    ensures r.Ok? ==> Grows(p, r.value.0) && (Provider.Valid(p) ==> Provider.Valid(r.value.0))
    ensures r.Ok? && r.value.1.Some? ==> IsDeclarationNode(r.value.1.value)
  {
    ElementToJK(p, e)
  }

  /** One more child under the shared visitor: a child that produces a
      node replaces the result so far; one that produces nothing keeps it. */
  function FileStep(acc: Result<(State, Option<Node>)>, x: Element): Result<(State, Option<Node>)> {
    var prev :- acc;
    var got :- ElementToJK(prev.0, x);
    Ok((got.0, if got.1.Some? then got.1 else prev.1))
  }

  /** Visiting the children of a file one more child at a time: the result
      for `es + [x]` is the result for `es` followed by one `FileStep`. */
  lemma {:induction false} FileChildrenAppend(p: State, es: seq<Element>, x: Element, last: Option<Node>)
    requires last.Some? ==> IsDeclarationNode(last.value)
    decreases |es|
    ensures FileChildrenToJK(p, es + [x], last) == FileStep(FileChildrenToJK(p, es, last), x)
  {
    if |es| == 0 {
      assert es + [x] == [x];
    } else {
      assert (es + [x])[0] == es[0];
      assert (es + [x])[1..] == es[1..] + [x];
      var first := ElementToJK(p, es[0]);
      if first.Ok? {
        var next := if first.value.1.Some? then first.value.1 else last;
        FileChildrenAppend(first.value.0, es[1..], x, next);
      }
    }
  }

  /** A file's result is the node of its last child that produced one: a
      class, field or method appended last becomes the result, and a child
      that produces nothing leaves the result as it was. */
  lemma BuildFileLastWins(p: State, cs: seq<Element>, x: Element)
    requires BuildTree(p, FileElement(cs)).Ok?
    ensures var before := BuildTree(p, FileElement(cs)).value;
      var after := BuildTree(p, FileElement(cs + [x]));
      && (x.OtherElement? ==> after == Ok(before))
      && ((x.ClassElement? || x.FieldElement? || x.MethodElement?) && after.Ok? ==>
            ElementToJK(before.0, x).Ok?
            && after.value.1 == ElementToJK(before.0, x).value.1
            && after.value.1.Some? && DeclarationName(after.value.1.value) == ElementName(x))
  {
    FileChildrenAppend(p, cs, x, None);
  }

  // ---------------------------------------------------------------------
  // The two passes together

  /** After `preBuildTree` has reached a declaration, and registered it
      last with its own category, building it makes the declaration's
      universe symbol point at the node built for it. */
  lemma PreBuildThenBuildBinds(p: State, files: seq<Element>, q: State, e: Element)
    requires e.ClassElement? || e.FieldElement? || e.MethodElement?
    requires var rs := RegistrationsOf(files);
      e.handle in Registered(rs) && rs[LastRegistration(rs, e.handle)].1 == DeclarationCategory(e)
    requires q == PreBuildTree(p, files) && ElementToJK(q, e).Ok?
    ensures HoldsUniverse(q, e.handle, DeclarationCategory(e))
    ensures var r := ElementToJK(q, e).value;
      r.1.Some? && e.handle in q.symbols && Target(r.0, q.symbols[e.handle]) == Ok(TreeTarget(r.1.value))
  {
    assert HoldsUniverse(q, e.handle, DeclarationCategory(e)) by {
      PreBuildHolds(p, files, e.handle, DeclarationCategory(e));
    }
    BuildBinds(q, e);
  }

  lemma BuildBinds(q: State, e: Element)
    requires e.ClassElement? || e.FieldElement? || e.MethodElement?
    requires HoldsUniverse(q, e.handle, DeclarationCategory(e)) && ElementToJK(q, e).Ok?
    ensures var r := ElementToJK(q, e).value;
      r.1.Some? && Target(r.0, q.symbols[e.handle]) == Ok(TreeTarget(r.1.value))
  {
  }

  /** A handle registered last with category `c` holds a universe symbol
      of category `c` after the pre-pass. */
  lemma PreBuildHolds(p: State, files: seq<Element>, h: Handle, c: Category)
    requires var rs := RegistrationsOf(files);
      h in Registered(rs) && rs[LastRegistration(rs, h)].1 == c
    ensures HoldsUniverse(PreBuildTree(p, files), h, c)
  {
    VisitAllRegisters(p, files);
    RegisterAllSymbols(p, RegistrationsOf(files));
  }

  /** Without the pre-pass, a declaration's symbol is a multiverse symbol
      made by the builder itself, and the node built is the target of no
      symbol the provider holds for it. */
  lemma BuildWithoutPreBuild(p: State, e: Element)
    requires e.ClassElement? || e.FieldElement? || e.MethodElement?
    requires e.handle !in p.symbols && ElementToJK(p, e).Ok?
    ensures var q := ElementToJK(p, e).value.0;
      e.handle in q.symbols && Target(q, q.symbols[e.handle]) == Ok(ForeignTarget(e.handle))
  {
    if e.ClassElement? {
      assert ElementToJK(p, e).value.0 == ClassToJK(p, e).value.0;
    } else if e.FieldElement? {
      assert ElementToJK(p, e).value.0 == FieldToJK(p, e).value.0;
    } else {
      assert ElementToJK(p, e).value.0 == MethodToJK(p, e).value.0;
    }
  }

  // ---------------------------------------------------------------------
  // Member order

  /** The names of a sequence of nodes. */
  function NodeNames(ns: seq<Node>): seq<Option<string>> {
    if |ns| == 0 then [] else [DeclarationName(ns[0])] + NodeNames(ns[1..])
  }

  /** The names of the declarations among a class's children, in source
      order. */
  function DeclaredNames(es: seq<Element>): seq<Option<string>> {
    if |es| == 0 then []
    else if MemberCategory(es[0]).Some? then [ElementName(es[0])] + DeclaredNames(es[1..])
    else DeclaredNames(es[1..])
  }

  /** A class's member list holds exactly its class, field and method
      children, in source order, each under its own name. */
  lemma {:induction false} MembersInSourceOrder(p: State, es: seq<Element>)
    requires forall i :: 0 <= i < |es| ==> !es[i].FileElement?
    requires MembersToJK(p, es).Ok?
    ensures NodeNames(MembersToJK(p, es).value.1) == DeclaredNames(es)
    decreases |es|
  {
    if |es| > 0 {
      var first := ElementToJK(p, es[0]).value;
      MembersInSourceOrder(first.0, es[1..]);
      var rest := MembersToJK(first.0, es[1..]).value.1;
      if first.1.Some? {
        assert NodeNames([first.1.value] + rest) == [DeclarationName(first.1.value)] + NodeNames(rest) by {
          assert ([first.1.value] + rest)[1..] == rest;
        }
      } else {
        assert [] + rest == rest;
      }
    }
  }
}
