/** The symbol provider of `JKSymbolProvider.kt` and the targets of the
    symbols of `tree/impl/symbols.kt`.

    The provider's mutable map becomes a value threaded through the
    operations. Universe symbols are told apart by a serial number drawn from
    `nextSerial`, standing for the identity of a freshly allocated symbol
    object; the `lateinit` target of each universe symbol lives in `targets`,
    keyed by serial, so that assigning it is seen by every holder of the
    symbol.
 */
module Provider {
  import opened Results
  import opened Symbols
  import opened Tree
  import opened JavaAst

  datatype State = State(symbols: map<Handle, Symbol>, nextSerial: nat, targets: map<nat, Node>)

  /** A provider as constructed: no symbols, no targets. */
  const Initial: State := State(map[], 0, map[])

  /** The invariants every operation keeps: serials already handed out are
      below `nextSerial` and belong to one handle each, only handed-out
      serials have targets, and a multiverse symbol wraps its own key. */
  predicate Valid(p: State) {
    && (forall h :: h in p.symbols && p.symbols[h].Universe? ==> p.symbols[h].serial < p.nextSerial)
    && (forall s :: s in p.targets ==> s < p.nextSerial)
    && (forall h1, h2 ::
          (h1 in p.symbols && h2 in p.symbols && p.symbols[h1].Universe? && p.symbols[h2].Universe?
           && p.symbols[h1].serial == p.symbols[h2].serial) ==> h1 == h2)
    && (forall h :: h in p.symbols && !p.symbols[h].Universe? ==> p.symbols[h].psi == h)
  }

  /** `q` keeps every entry of `p`: the map only grows. */
  predicate Keeps(p: State, q: State) {
    forall h :: h in p.symbols ==> h in q.symbols && q.symbols[h] == p.symbols[h]
  }

  /** `q` differs from `p` at most by new map entries, each the multiverse
      symbol `provideSymbol` creates for its key. */
  predicate Extends(p: State, q: State) {
    && Keeps(p, q)
    && (forall h :: h in q.symbols && h !in p.symbols ==> NewMultiverse(h) == Ok(q.symbols[h]))
    && q.nextSerial == p.nextSerial && q.targets == p.targets
  }

  /** The category of a newly created multiverse symbol is the one its
      element's kind calls for. */
  lemma NewMultiverseCategory(h: Handle)
    requires NewMultiverse(h).Ok?
    ensures Some(CategoryOf(NewMultiverse(h).value)) == KindCategory(h.kind)
    ensures !NewMultiverse(h).value.Universe? && NewMultiverse(h).value.psi == h
  {
  }

  /** Adding multiverse entries keeps the invariants. */
  lemma ExtendsValid(p: State, q: State)
    requires Valid(p) && Extends(p, q)
    ensures Valid(q)
  {
    forall h | h in q.symbols && h !in p.symbols
      ensures !q.symbols[h].Universe? && q.symbols[h].psi == h
    {
      NewMultiverseCategory(h);
    }
  }

  /** `q` differs from `p` by new multiverse entries, as in `Extends`, and
      possibly by assigned targets. */
  predicate Grows(p: State, q: State) {
    && Keeps(p, q)
    && (forall h :: h in q.symbols && h !in p.symbols ==> NewMultiverse(h) == Ok(q.symbols[h]))
    && q.nextSerial == p.nextSerial
  }

  /** Growing twice is growing. */
  lemma GrowsChain(p: State, q: State, r: State)
    requires Grows(p, q) && Grows(q, r)
    ensures Grows(p, r)
  {
  }

  /** Two extensions of the same state with the same keys are the same
      state: which entries get added does not depend on the order in which
      they are asked for. */
  lemma ExtendsDeterminedByKeys(p: State, q1: State, q2: State)
    requires Extends(p, q1) && Extends(p, q2) && q1.symbols.Keys == q2.symbols.Keys
    ensures q1 == q2
  {
    assert q1.symbols == q2.symbols by {
      forall h | h in q1.symbols
        ensures q1.symbols[h] == q2.symbols[h]
      {
        if h !in p.symbols {
          assert NewMultiverse(h) == Ok(q1.symbols[h]) == Ok(q2.symbols[h]);
        }
      }
    }
  }

  /** The symbol `provideSymbol` returns for a handle is the same in every
      extension of a state: adding multiverse entries for other handles, or
      for this one, does not change it. */
  lemma ProvideSymbolStable(p: State, q: State, h: Handle)
    requires Extends(p, q) && ProvideSymbol(p, h).Ok?
    ensures ProvideSymbol(q, h).Ok? && ProvideSymbol(q, h).value.1 == ProvideSymbol(p, h).value.1
  {
  }

  /** Extensions of a common state are extensions of each other as soon as
      their keys are included: the entries they add agree. */
  lemma ExtendsJoin(p: State, p1: State, q: State, q1: State)
    requires Extends(p, p1) && Extends(p, q) && Extends(q, q1)
    requires p1.symbols.Keys <= q1.symbols.Keys
    ensures Extends(p1, q1)
  {
  }

  lemma InitialValid()
    ensures Valid(Initial)
  {
  }

  // ---------------------------------------------------------------------
  // provideSymbol

  /** The symbol category a foreign element of the given kind stands for. */
  function KindCategory(k: ElementKind): Option<Category> {
    match k
    case JavaClass => Some(ClassSymbol)
    case TypeParameter => Some(ClassSymbol)
    case KotlinClass => Some(ClassSymbol)
    case JavaMethod => Some(MethodSymbol)
    case JavaField => Some(FieldSymbol)
    case OtherElement => None
  }

  /** The multiverse symbol `provideSymbol` creates for an element not yet in
      the map; `TODO()` for an element of any other kind. */
  function NewMultiverse(h: Handle): Result<Symbol> {
    match h.kind
    case JavaClass => Ok(MultiverseClass(h))
    case TypeParameter => Ok(MultiverseClass(h))
    case KotlinClass => Ok(MultiverseKtClass(h))
    case JavaMethod => Ok(MultiverseMethod(h))
    case JavaField => Ok(MultiverseField(h))
    case OtherElement => Fail(NotImplemented)
  }

  /** `provideSymbol`: `getOrPut` on the symbol map. */
  function ProvideSymbol(p: State, h: Handle): (r: Result<(State, Symbol)>)
    ensures h in p.symbols ==> r == Ok((p, p.symbols[h]))
    ensures h !in p.symbols ==> (r.Ok? <==> KindCategory(h.kind).Some?)
    ensures r.Fail? ==> r.failure == NotImplemented
    ensures r.Ok? ==> Extends(p, r.value.0) && r.value.0.symbols.Keys == p.symbols.Keys + {h}
    ensures r.Ok? ==> h in r.value.0.symbols && r.value.0.symbols[h] == r.value.1
    ensures r.Ok? && h !in p.symbols ==>
      && !r.value.1.Universe?
      && r.value.1.psi == h
      && Some(CategoryOf(r.value.1)) == KindCategory(h.kind)
      && (r.value.1.MultiverseKtClass? <==> h.kind == KotlinClass)
  {
    if h in p.symbols then Ok((p, p.symbols[h]))
    else
      var s :- NewMultiverse(h);
      Ok((p.(symbols := p.symbols[h := s]), s))
  }

  /** Repeated calls yield the same symbol and leave the map as it is. */
  lemma ProvideSymbolMemoised(p: State, h: Handle)
    requires ProvideSymbol(p, h).Ok?
    ensures ProvideSymbol(ProvideSymbol(p, h).value.0, h) == ProvideSymbol(p, h)
  {
  }

  /** `provideSymbol` keeps the provider's invariants. */
  lemma ProvideSymbolValid(p: State, h: Handle)
    requires Valid(p) && ProvideSymbol(p, h).Ok?
    ensures Valid(ProvideSymbol(p, h).value.0)
  {
  }

  // ---------------------------------------------------------------------
  // preBuildTree

  /** `symbols[psi] = JKUniverse...Symbol()`: a fresh, unbound universe
      symbol replaces whatever the map held for `h`. */
  function Register(p: State, h: Handle, c: Category): (r: State)
    ensures r.symbols.Keys == p.symbols.Keys + {h}
    ensures r.symbols[h] == Universe(c, p.nextSerial)
    ensures forall k :: k in p.symbols && k != h ==> r.symbols[k] == p.symbols[k]
    ensures r.nextSerial == p.nextSerial + 1 && r.targets == p.targets
  {
    State(p.symbols[h := Universe(c, p.nextSerial)], p.nextSerial + 1, p.targets)
  }

  /** A registration: the element reached and the category of the symbol
      registered for it. */
  type Registration = (Handle, Category)

  /** The handles of a sequence of registrations. */
  function Registered(rs: seq<Registration>): (r: set<Handle>)
    ensures forall i | 0 <= i < |rs| :: rs[i].0 in r
  {
    if |rs| == 0 then {} else Registered(rs[..|rs| - 1]) + {rs[|rs| - 1].0}
  }

  /** The last position at which `h` is registered, -1 if none. */
  function LastRegistration(rs: seq<Registration>, h: Handle): (i: int)
    ensures -1 <= i < |rs|
    ensures i == -1 <==> h !in Registered(rs)
    ensures i >= 0 ==> rs[i].0 == h
    ensures forall j :: i < j < |rs| ==> rs[j].0 != h
  {
    if |rs| == 0 then -1
    else if rs[|rs| - 1].0 == h then |rs| - 1
    else LastRegistration(rs[..|rs| - 1], h)
  }

  /** The registrations in order. Each one hands out the next serial, so
      the symbol of a registered handle is the one of its last registration,
      and every other entry is left alone. */
  function RegisterAll(p: State, rs: seq<Registration>): (r: State)
    ensures r.symbols.Keys == p.symbols.Keys + Registered(rs)
    ensures r.nextSerial == p.nextSerial + |rs| && r.targets == p.targets
  {
    if |rs| == 0 then p
    else
      var front := rs[..|rs| - 1];
      LastOfFront(rs);
      Register(RegisterAll(p, front), rs[|rs| - 1].0, rs[|rs| - 1].1)
  }

  /** Entries the registrations do not name are left alone. */
  lemma {:induction false} RegisterAllKeeps(p: State, rs: seq<Registration>)
    decreases |rs|
    ensures forall h :: h in p.symbols && h !in Registered(rs) ==> RegisterAll(p, rs).symbols[h] == p.symbols[h]
  {
    if |rs| > 0 {
      var front := rs[..|rs| - 1];
      RegisterAllKeeps(p, front);
      LastOfFront(rs);
    }
  }

  /** After the registrations, the symbol of a registered handle is the
      universe symbol of its last registration. */
  lemma RegisterAllSymbols(p: State, rs: seq<Registration>)
    ensures forall h :: h in Registered(rs) ==>
      RegisterAll(p, rs).symbols[h] == Universe(rs[LastRegistration(rs, h)].1, p.nextSerial + LastRegistration(rs, h))
  {
    forall h | h in Registered(rs)
      ensures RegisterAll(p, rs).symbols[h] == Universe(rs[LastRegistration(rs, h)].1, p.nextSerial + LastRegistration(rs, h))
    {
      RegisterAllSymbolAt(p, rs, h);
    }
  }

  lemma {:induction false} RegisterAllSymbolAt(p: State, rs: seq<Registration>, h: Handle)
    requires h in Registered(rs)
    decreases |rs|
    ensures RegisterAll(p, rs).symbols[h] == Universe(rs[LastRegistration(rs, h)].1, p.nextSerial + LastRegistration(rs, h))
  {
    var front := rs[..|rs| - 1];
    LastStep(rs, h);
    if h != rs[|rs| - 1].0 {
      RegisterAllSymbolAt(p, front, h);
      RegisterAllStep(p, rs, h);
    } else {
      RegisterAllStep(p, rs, h);
    }
  }

  /** The last registration decides its own handle and leaves the others
      as the earlier ones left them. */
  lemma RegisterAllStep(p: State, rs: seq<Registration>, h: Handle)
    requires |rs| > 0
    ensures var r := RegisterAll(p, rs);
      h == rs[|rs| - 1].0 ==> h in r.symbols && r.symbols[h] == Universe(rs[|rs| - 1].1, p.nextSerial + |rs| - 1)
    ensures var r := RegisterAll(p, rs); var q := RegisterAll(p, rs[..|rs| - 1]);
      h != rs[|rs| - 1].0 && h in q.symbols ==> h in r.symbols && r.symbols[h] == q.symbols[h]
  {
    var last := rs[|rs| - 1];
    assert RegisterAll(p, rs) == Register(RegisterAll(p, rs[..|rs| - 1]), last.0, last.1);
  }

  /** `LastOfFront` for one handle. */
  lemma LastStep(rs: seq<Registration>, h: Handle)
    requires |rs| > 0
    ensures h in Registered(rs) <==> h in Registered(rs[..|rs| - 1]) || h == rs[|rs| - 1].0
    ensures h == rs[|rs| - 1].0 ==> LastRegistration(rs, h) == |rs| - 1
    ensures h != rs[|rs| - 1].0 ==> LastRegistration(rs, h) == LastRegistration(rs[..|rs| - 1], h)
  {
  }

  /** Dropping the last registration changes the last position of no
      other handle. */
  lemma LastOfFront(rs: seq<Registration>)
    requires |rs| > 0
    ensures Registered(rs) == Registered(rs[..|rs| - 1]) + {rs[|rs| - 1].0}
    ensures LastRegistration(rs, rs[|rs| - 1].0) == |rs| - 1
    ensures forall h :: h != rs[|rs| - 1].0 ==> LastRegistration(rs, h) == LastRegistration(rs[..|rs| - 1], h)
  {
  }

  /** Registering `a` and then `b` is registering `a + b`. */
  lemma {:induction false} RegisterAllAppend(p: State, a: seq<Registration>, b: seq<Registration>)
    ensures RegisterAll(p, a + b) == RegisterAll(RegisterAll(p, a), b)
    decreases |b|
  {
    if |b| == 0 {
      assert a + b == a;
    } else {
      var b' := b[..|b| - 1];
      assert (a + b)[..|a + b| - 1] == a + b';
      RegisterAllAppend(p, a, b');
    }
  }

  /** Registration keeps the provider's invariants. */
  lemma {:induction false} RegisterAllValid(p: State, rs: seq<Registration>)
    requires Valid(p)
    ensures Valid(RegisterAll(p, rs))
    decreases |rs|
  {
    if |rs| > 0 {
      RegisterAllValid(p, rs[..|rs| - 1]);
      RegisterAllSymbols(p, rs[..|rs| - 1]);
      RegisterAllKeeps(p, rs[..|rs| - 1]);
    }
  }

  /** The visitor of `preBuildTree`. A class registers itself and then
      visits its children; a field or a method registers itself and is not
      entered; a file visits its children; any other element is ignored. */
  function Visit(p: State, e: Element): (r: State)
    decreases e
    ensures r.targets == p.targets && p.symbols.Keys <= r.symbols.Keys
    ensures r.nextSerial == p.nextSerial + |Registrations(e)|
  {
    match e
    case ClassElement(h, _, _, _, _, _, children) => VisitAll(Register(p, h, ClassSymbol), children)
    case FieldElement(h, _, _, _, _) => Register(p, h, FieldSymbol)
    case MethodElement(h, _, _, _, _, _) => Register(p, h, MethodSymbol)
    case FileElement(children) => VisitAll(p, children)
    case OtherElement => p
  }

  /** `acceptChildren` with the visitor: each element in order. */
  function VisitAll(p: State, es: seq<Element>): (r: State)
    decreases es
    ensures r.targets == p.targets && p.symbols.Keys <= r.symbols.Keys
    ensures r.nextSerial == p.nextSerial + |RegistrationsOf(es)|
  {
    if |es| == 0 then p else VisitAll(Visit(p, es[0]), es[1..])
  }

  /** `preBuildTree(files)`. */
  function PreBuildTree(p: State, files: seq<Element>): (r: State)
    ensures r.targets == p.targets && p.symbols.Keys <= r.symbols.Keys
    ensures r.nextSerial == p.nextSerial + |RegistrationsOf(files)|
  {
    VisitAll(p, files)
  }

  /** What the visitor registers, as a list: the element itself if it is a
      class, field or method, then, for a class or file, what its children
      register. */
  function Registrations(e: Element): seq<Registration>
    decreases e
  {
    match e
    case ClassElement(h, _, _, _, _, _, children) => [(h, ClassSymbol)] + RegistrationsOf(children)
    case FieldElement(h, _, _, _, _) => [(h, FieldSymbol)]
    case MethodElement(h, _, _, _, _, _) => [(h, MethodSymbol)]
    case FileElement(children) => RegistrationsOf(children)
    case OtherElement => []
  }

  function RegistrationsOf(es: seq<Element>): seq<Registration>
    decreases es
  {
    if |es| == 0 then [] else Registrations(es[0]) + RegistrationsOf(es[1..])
  }

  lemma RegisterOne(p: State, r: Registration)
    ensures RegisterAll(p, [r]) == Register(p, r.0, r.1)
  {
    assert [r][..0] == [];
  }

  /** The visitor performs exactly the registrations listed by
      `Registrations`, in that order. */
  lemma {:induction false} VisitRegisters(p: State, e: Element)
    ensures Visit(p, e) == RegisterAll(p, Registrations(e))
    decreases e
  {
    match e
    case ClassElement(h, _, _, _, _, _, children) =>
      VisitAllRegisters(Register(p, h, ClassSymbol), children);
      RegisterOne(p, (h, ClassSymbol));
      RegisterAllAppend(p, [(h, ClassSymbol)], RegistrationsOf(children));
    case FieldElement(h, _, _, _, _) => RegisterOne(p, (h, FieldSymbol));
    case MethodElement(h, _, _, _, _, _) => RegisterOne(p, (h, MethodSymbol));
    case FileElement(children) => VisitAllRegisters(p, children);
    case OtherElement =>
  }

  lemma {:induction false} VisitAllRegisters(p: State, es: seq<Element>)
    ensures VisitAll(p, es) == RegisterAll(p, RegistrationsOf(es))
    decreases es
  {
    if |es| > 0 {
      VisitRegisters(p, es[0]);
      VisitAllRegisters(Visit(p, es[0]), es[1..]);
      RegisterAllAppend(p, Registrations(es[0]), RegistrationsOf(es[1..]));
    }
  }

  /** A child of an element is registered whenever the element is visited. */
  lemma {:induction false} RegistrationsOfContains(es: seq<Element>, i: int, r: Registration)
    requires 0 <= i < |es| && r in Registrations(es[i])
    ensures r in RegistrationsOf(es)
    decreases es
  {
    if i > 0 {
      RegistrationsOfContains(es[1..], i - 1, r);
    }
  }

  /** The registration category of a member element. */
  function MemberCategory(e: Element): Option<Category> {
    match e
    case ClassElement(_, _, _, _, _, _, _) => Some(ClassSymbol)
    case FieldElement(_, _, _, _, _) => Some(FieldSymbol)
    case MethodElement(_, _, _, _, _, _) => Some(MethodSymbol)
    case _ => None
  }

  /** Every class, field and method child of a class is registered, so
      nested classes are registered at any depth. */
  lemma MembersRegistered(e: Element, i: int)
    requires e.ClassElement? && 0 <= i < |e.children| && MemberCategory(e.children[i]).Some?
    ensures (e.children[i].handle, MemberCategory(e.children[i]).value) in Registrations(e)
  {
    var c := e.children[i];
    var r := (c.handle, MemberCategory(c).value);
    assert Registrations(c)[0] == r;
    RegistrationsOfContains(e.children, i, r);
  }

  /** A method is registered alone: nothing in its body is, so a class
      declared in a method body gets no universe symbol from it. */
  lemma MethodBodyNotEntered(e: Element)
    requires e.MethodElement?
    ensures Registered(Registrations(e)) == {e.handle}
  {
    var rs := Registrations(e);
    assert |rs| == 1 && rs[0].0 == e.handle;
  }

  /** After `preBuildTree`, every declaration it reached is mapped to an
      unbound universe symbol of the matching category, and
      `provideSymbol` returns that symbol rather than a multiverse one. */
  lemma PreBuildThenProvide(p: State, files: seq<Element>, h: Handle)
    requires Valid(p)
    requires h in Registered(RegistrationsOf(files))
    ensures var q := PreBuildTree(p, files);
      && ProvideSymbol(q, h).Ok?
      && ProvideSymbol(q, h).value.0 == q
      && ProvideSymbol(q, h).value.1.Universe?
      && Target(q, ProvideSymbol(q, h).value.1) == Fail(Uninitialized)
  {
    var rs := RegistrationsOf(files);
    VisitAllRegisters(p, files);
    RegisterAllSymbols(p, rs);
    var q := RegisterAll(p, rs);
    assert q.symbols[h].serial >= p.nextSerial;
  }

  /** Entries the pre-pass does not reach are kept as they were. */
  lemma PreBuildKeepsOthers(p: State, files: seq<Element>, h: Handle)
    requires h in p.symbols && h !in Registered(RegistrationsOf(files))
    ensures h in PreBuildTree(p, files).symbols
    ensures PreBuildTree(p, files).symbols[h] == p.symbols[h]
  {
    VisitAllRegisters(p, files);
    RegisterAllKeeps(p, RegistrationsOf(files));
  }

  /** A class declared only inside a method body: the pre-pass leaves it
      out, so `provideSymbol` gives it a multiverse symbol. */
  lemma LocalClassIsMultiverse(c: Handle, m: Handle, local: Handle)
    requires c.kind == JavaClass && m.kind == ElementKind.JavaMethod && local.kind == JavaClass
    requires local != c && local != m
    ensures var localClass := ClassElement(local, false, false, false, None, Some("Local"), []);
      var runMethod := MethodElement(m, None, None, "run", [], Some(CodeBlock([LocalClassStmt(localClass)])));
      var file := FileElement([ClassElement(c, false, false, false, None, Some("Outer"), [runMethod])]);
      var q := PreBuildTree(Initial, [file]);
      && local !in q.symbols
      && ProvideSymbol(q, local) == Ok((q.(symbols := q.symbols[local := MultiverseClass(local)]), MultiverseClass(local)))
  {
    var localClass := ClassElement(local, false, false, false, None, Some("Local"), []);
    var runMethod := MethodElement(m, None, None, "run", [], Some(CodeBlock([LocalClassStmt(localClass)])));
    var outer := ClassElement(c, false, false, false, None, Some("Outer"), [runMethod]);
    var file := FileElement([outer]);
    assert RegistrationsOf([runMethod]) == [(m, MethodSymbol)];
    assert Registrations(outer) == [(c, ClassSymbol), (m, MethodSymbol)];
    assert RegistrationsOf([outer]) == Registrations(outer) + RegistrationsOf([]);
    assert Registrations(file) == [(c, ClassSymbol), (m, MethodSymbol)];
    assert RegistrationsOf([file]) == Registrations(file) + RegistrationsOf([]);
    assert RegistrationsOf([file]) == [(c, ClassSymbol), (m, MethodSymbol)];
    VisitAllRegisters(Initial, [file]);
    assert local !in Registered([(c, ClassSymbol), (m, MethodSymbol)]);
  }

  // ---------------------------------------------------------------------
  // Targets

  /** What a symbol stands for: a declaration of the tree, or a foreign element. */
  datatype Referent = TreeTarget(node: Node) | ForeignTarget(psi: Handle)

  /** `target`: a universe symbol's `lateinit` target, which fails if read
      before it is assigned; a multiverse symbol's constructor argument. */
  function Target(p: State, s: Symbol): (r: Result<Referent>)
    ensures r.Fail? <==> s.Universe? && s.serial !in p.targets
    ensures r.Fail? ==> r.failure == Uninitialized
    ensures r.Ok? ==> (r.value.ForeignTarget? <==> !s.Universe?)
  {
    match s
    case Universe(_, serial) => if serial in p.targets then Ok(TreeTarget(p.targets[serial])) else Fail(Uninitialized)
    case _ => Ok(ForeignTarget(s.psi))
  }

  /** `(symbol as? JKUniverse...Symbol)?.target = node`: assignment happens
      only when the symbol is a universe symbol of the given category. */
  function Bind(p: State, s: Symbol, c: Category, node: Node): (r: State)
    ensures r.symbols == p.symbols && r.nextSerial == p.nextSerial
  {
    if s.Universe? && s.category == c then p.(targets := p.targets[s.serial := node]) else p
  }

  /** After binding, reading the target gives the bound node. */
  lemma BindThenTarget(p: State, s: Symbol, node: Node)
    requires s.Universe?
    ensures Target(Bind(p, s, s.category, node), s) == Ok(TreeTarget(node))
  {
  }

  /** A multiverse symbol's target never changes, whatever is bound. */
  lemma MultiverseTargetFixed(p: State, s: Symbol, t: Symbol, c: Category, node: Node)
    requires !s.Universe?
    ensures Target(Bind(p, t, c, node), s) == Target(p, s) == Ok(ForeignTarget(s.psi))
  {
  }

  /** Nothing stops a universe target from being assigned again: the last
      assignment wins. */
  lemma UniverseRebind(p: State, s: Symbol, n1: Node, n2: Node)
    requires s.Universe?
    ensures Target(Bind(Bind(p, s, s.category, n1), s, s.category, n2), s) == Ok(TreeTarget(n2))
  {
  }

  /** Binding the symbol of one handle leaves the target of every other
      handle's symbol as it was. */
  lemma BindIsolated(p: State, h1: Handle, h2: Handle, c: Category, node: Node)
    requires Valid(p) && h1 in p.symbols && h2 in p.symbols && h1 != h2
    ensures Target(Bind(p, p.symbols[h1], c, node), p.symbols[h2]) == Target(p, p.symbols[h2])
  {
  }

  /** Binding keeps the invariants when the symbol was handed out by `p`. */
  lemma BindValid(p: State, h: Handle, c: Category, node: Node)
    requires Valid(p) && h in p.symbols
    ensures Valid(Bind(p, p.symbols[h], c, node))
  {
  }

  /** `fqName`: a universe symbol reports the simple name of its target
      (failing while unbound), a multiverse symbol the foreign name. */
  function FqName(p: State, s: Symbol): (r: Result<Option<string>>)
    ensures s.Universe? ==> (r.Ok? <==> Target(p, s).Ok? && DeclarationName(Target(p, s).value.node).Some?)
    ensures s.Universe? && r.Ok? ==> r.value == DeclarationName(Target(p, s).value.node)
    ensures !s.Universe? ==> r == Ok(ForeignFqName(s))
  {
    if s.Universe? then
      var t :- Target(p, s);
      match DeclarationName(t.node)
      case Some(name) => Ok(Some(name))
      case None => Fail(CastFailed)
    else Ok(ForeignFqName(s))
  }

  /** A bound universe symbol reports the name held by its declaration's
      name identifier, not a qualified name. */
  lemma BoundUniverseName(p: State, s: Symbol, node: Node)
    requires s.Universe? && DeclarationName(node).Some?
    ensures FqName(Bind(p, s, s.category, node), s) == Ok(DeclarationName(node))
  {
  }

  /** The one-argument constructor `JKUniverseFieldSymbol(target)`: a new
      field symbol, bound at once and not entered in the map. */
  function BoundFieldSymbol(p: State, field: Node): (r: (State, Symbol))
    ensures r.1.Universe? && r.1.category == FieldSymbol
    ensures r.0.symbols == p.symbols
    ensures Target(r.0, r.1) == Ok(TreeTarget(field))
    ensures Valid(p) ==> Valid(r.0) && r.1.serial !in p.targets
  {
    var s := Universe(FieldSymbol, p.nextSerial);
    (State(p.symbols, p.nextSerial + 1, p.targets[p.nextSerial := field]), s)
  }
}
