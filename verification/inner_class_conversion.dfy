/** `InnerClassConversion`: the pass that turns Java's nested-class
    convention (nested classes are inner unless `static`) into Kotlin's
    (nested classes are static unless `inner`), by editing the extra
    modifiers of each nested class.

    `Apply` is `applyToElement`, `Armed` is `applyArmed` and `RecurseArmed`
    is `recurseArmed`; `applyRecursive` applies a function to every child
    slot of a node and splices the results back. Of the enclosing class
    only its kind is read, so that is what is passed down. Whether a class
    is local (`isLocalClass`) is decided outside this model and is a
    parameter.
 */
module InnerClassConversion {
  import opened Tree

  /** The position of the first `x` in `s`. */
  function FirstIndex(s: seq<ExtraModifier>, x: ExtraModifier): (i: nat)
    requires x in s
    ensures i < |s| && s[i] == x && x !in s[..i]
  {
    if s[0] == x then 0
    else
      var j := FirstIndex(s[1..], x);
      assert s[..j + 1] == [s[0]] + s[1..][..j];
      j + 1
  }

  /** `s` without its first occurrence of `x`, as Kotlin's `List.minus`. */
  function RemoveFirst(s: seq<ExtraModifier>, x: ExtraModifier): (r: seq<ExtraModifier>)
    requires x in s
    ensures multiset(r) + multiset{x} == multiset(s)
    ensures r == s[..FirstIndex(s, x)] + s[FirstIndex(s, x) + 1..]
  {
    var i := FirstIndex(s, x);
    assert s == s[..i] + [s[i]] + s[i + 1..];
    s[..i] + s[i + 1..]
  }

  /** A nested class of kind `kind` inside a class of kind `outerKind`
      becomes `inner`, unless it was `static`. */
  predicate GainsInner(kind: ClassKind, outerKind: ClassKind) {
    kind != INTERFACE && outerKind != INTERFACE && kind != ENUM
  }

  /** The edit made to the extra modifiers of a nested class: a `static`
      marker is removed (the first, if there are several) and nothing is
      added; otherwise `inner` is appended when `GainsInner` holds, without
      looking for an existing one. */
  function Retag(extras: seq<ExtraModifier>, kind: ClassKind, outerKind: ClassKind): (r: seq<ExtraModifier>)
    ensures ExtraModifier.STATIC in extras ==> multiset(r) + multiset{ExtraModifier.STATIC} == multiset(extras)
    ensures ExtraModifier.STATIC !in extras && GainsInner(kind, outerKind) ==> r == extras + [INNER]
    ensures ExtraModifier.STATIC !in extras && !GainsInner(kind, outerKind) ==> r == extras
  {
    if ExtraModifier.STATIC in extras then RemoveFirst(extras, ExtraModifier.STATIC)
    else if GainsInner(kind, outerKind) then extras + [INNER]
    else extras
  }

  /** A nested class ends up `inner` exactly when it was, or when it was not
      `static` and `GainsInner` holds; it keeps every other marker. */
  lemma RetagInner(extras: seq<ExtraModifier>, kind: ClassKind, outerKind: ClassKind)
    ensures INNER in Retag(extras, kind, outerKind) <==>
      INNER in extras || (ExtraModifier.STATIC !in extras && GainsInner(kind, outerKind))
    ensures forall m | m != ExtraModifier.STATIC && m != INNER ::
      multiset(Retag(extras, kind, outerKind))[m] == multiset(extras)[m]
  {
    var r := Retag(extras, kind, outerKind);
    if ExtraModifier.STATIC in extras {
      assert multiset(r)[INNER] == multiset(extras)[INNER];
    } else if GainsInner(kind, outerKind) {
      assert multiset(r) == multiset(extras) + multiset{INNER};
    }
  }

  /** Adding `inner` does not check for one already there: a class that
      gained it gains it again on a second run. */
  lemma RetagTwiceAddsTwice(extras: seq<ExtraModifier>, kind: ClassKind, outerKind: ClassKind)
    requires ExtraModifier.STATIC !in extras && GainsInner(kind, outerKind)
    ensures Retag(Retag(extras, kind, outerKind), kind, outerKind) == extras + [INNER, INNER]
  {
    assert ExtraModifier.STATIC !in extras + [INNER];
  }

  /** Whether `applyArmed` edits class `n`: a class that is neither a
      companion object nor local. */
  predicate Edited(n: Node, isLocal: Node -> bool) {
    n.Class? && n.classKind != COMPANION && !isLocal(n)
  }

  /** A class with new extra modifiers has the same slots and size. */
  lemma RetaggedSlots(n: Node, extras: seq<ExtraModifier>)
    requires n.Class?
    ensures Slots(n.(extraModifiers := extras)) == Slots(n)
    ensures Size(n.(extraModifiers := extras)) == Size(n)
  {
    SizeBySlots(n);
    SizeBySlots(n.(extraModifiers := extras));
  }

  /** `applyArmed`, with `outerKind` the kind of the enclosing class. */
  function Armed(n: Node, outerKind: ClassKind, isLocal: Node -> bool): (r: Node)
    decreases Size(n), 1
    ensures Size(r) == Size(n)
  {
    if !Edited(n, isLocal) then RecurseArmed(n, outerKind, isLocal)
    else
      var m := n.(extraModifiers := Retag(n.extraModifiers, n.classKind, outerKind));
      RetaggedSlots(n, m.extraModifiers);
      RecurseArmed(m, m.classKind, isLocal)
  }

  /** `recurseArmed`: every child slot through `applyArmed`. */
  function RecurseArmed(n: Node, outerKind: ClassKind, isLocal: Node -> bool): (r: Node)
    decreases Size(n), 0
    ensures Size(r) == Size(n)
  {
    SizeBySlots(n);
    WithOwnSlots(n);
    var cs := ArmedAll(Slots(n), outerKind, isLocal);
    SizeOfWithSlots(n, cs);
    WithSlots(n, cs)
  }

  function ArmedAll(cs: seq<Node>, outerKind: ClassKind, isLocal: Node -> bool): (r: seq<Node>)
    decreases TotalSize(cs), 2
    ensures |r| == |cs| && TotalSize(r) == TotalSize(cs)
  {
    if cs == [] then [] else [Armed(cs[0], outerKind, isLocal)] + ArmedAll(cs[1..], outerKind, isLocal)
  }

  /** `applyToElement`: outside any class the pass only recurses; the first
      class reached is left as it is and becomes the enclosing class of its
      descendants. */
  function Apply(n: Node, isLocal: Node -> bool): (r: Node)
    decreases n, 1
    ensures Size(r) == Size(n)
  {
    if n.Class? then RecurseArmed(n, n.classKind, isLocal)
    else
      SizeBySlots(n);
      WithOwnSlots(n);
      var cs := ApplyAll(Slots(n), n, isLocal);
      SizeOfWithSlots(n, cs);
      WithSlots(n, cs)
  }

  function ApplyAll(cs: seq<Node>, parent: Node, isLocal: Node -> bool): (r: seq<Node>)
    requires forall i | 0 <= i < |cs| :: cs[i] < parent
    decreases parent, 0, |cs|
    ensures |r| == |cs| && TotalSize(r) == TotalSize(cs)
  {
    if cs == [] then [] else [Apply(cs[0], isLocal)] + ApplyAll(cs[1..], parent, isLocal)
  }

  // ---------------------------------------------------------------------
  // One step

  lemma {:induction false} ArmedAllEach(cs: seq<Node>, outerKind: ClassKind, isLocal: Node -> bool)
    ensures forall i | 0 <= i < |cs| :: ArmedAll(cs, outerKind, isLocal)[i] == Armed(cs[i], outerKind, isLocal)
  {
    if cs != [] {
      ArmedAllEach(cs[1..], outerKind, isLocal);
      var rest := ArmedAll(cs[1..], outerKind, isLocal);
      assert ArmedAll(cs, outerKind, isLocal) == [Armed(cs[0], outerKind, isLocal)] + rest;
      assert forall i | 1 <= i < |cs| :: ArmedAll(cs, outerKind, isLocal)[i] == rest[i - 1];
    }
  }

  lemma {:induction false} ApplyAllEach(cs: seq<Node>, parent: Node, isLocal: Node -> bool)
    requires forall i | 0 <= i < |cs| :: cs[i] < parent
    decreases |cs|
    ensures forall i | 0 <= i < |cs| :: ApplyAll(cs, parent, isLocal)[i] == Apply(cs[i], isLocal)
  {
    if cs != [] {
      ApplyAllEach(cs[1..], parent, isLocal);
      var rest := ApplyAll(cs[1..], parent, isLocal);
      assert ApplyAll(cs, parent, isLocal) == [Apply(cs[0], isLocal)] + rest;
      assert forall i | 1 <= i < |cs| :: ApplyAll(cs, parent, isLocal)[i] == rest[i - 1];
    }
  }

  /** `recurseArmed` keeps the node itself and sends each slot through
      `applyArmed` with the given enclosing kind. */
  lemma RecurseArmedShape(n: Node, outerKind: ClassKind, isLocal: Node -> bool)
    ensures var r := RecurseArmed(n, outerKind, isLocal);
      && |Slots(r)| == |Slots(n)|
      && (forall i | 0 <= i < |Slots(n)| :: Slots(r)[i] == Armed(Slots(n)[i], outerKind, isLocal))
      && SlotsFit(n, Slots(r)) && WithSlots(n, Slots(r)) == r
      && (n.Class? ==> r.Class? && r.classKind == n.classKind && r.extraModifiers == n.extraModifiers)
  {
    WithOwnSlots(n);
    var cs := ArmedAll(Slots(n), outerKind, isLocal);
    ArmedAllEach(Slots(n), outerKind, isLocal);
    SlotsOfWithSlots(n, cs);
    SameShape(n, cs, cs);
  }

  /** What `applyArmed` does to one node. A companion object, a local class
      and any node that is not a class keep their extra modifiers, and their
      descendants keep the current enclosing class. Any other class gets its
      extra modifiers edited by `Retag` and becomes the enclosing class of
      its descendants. The class kind never changes. */
  lemma ArmedShape(n: Node, outerKind: ClassKind, isLocal: Node -> bool)
    ensures var r := Armed(n, outerKind, isLocal);
      && |Slots(r)| == |Slots(n)|
      && (!Edited(n, isLocal) ==>
            forall i | 0 <= i < |Slots(n)| :: Slots(r)[i] == Armed(Slots(n)[i], outerKind, isLocal))
      && (Edited(n, isLocal) ==>
            forall i | 0 <= i < |Slots(n)| :: Slots(r)[i] == Armed(Slots(n)[i], n.classKind, isLocal))
      && (n.Class? ==> r.Class? && r.classKind == n.classKind)
      && (n.Class? && !Edited(n, isLocal) ==> r.extraModifiers == n.extraModifiers)
      && (Edited(n, isLocal) ==> r.extraModifiers == Retag(n.extraModifiers, n.classKind, outerKind))
  {
    if Edited(n, isLocal) {
      var m := n.(extraModifiers := Retag(n.extraModifiers, n.classKind, outerKind));
      RetaggedSlots(n, m.extraModifiers);
      RecurseArmedShape(m, m.classKind, isLocal);
    } else {
      RecurseArmedShape(n, outerKind, isLocal);
    }
  }

  /** What `applyToElement` does to one node: a class is not edited itself
      and its descendants have it as enclosing class; any other node is only
      recursed into, its slots going through `applyToElement` again. */
  lemma ApplyShape(n: Node, isLocal: Node -> bool)
    ensures var r := Apply(n, isLocal);
      && |Slots(r)| == |Slots(n)|
      && (n.Class? ==> r.Class? && r.classKind == n.classKind && r.extraModifiers == n.extraModifiers)
      && (n.Class? ==> forall i | 0 <= i < |Slots(n)| :: Slots(r)[i] == Armed(Slots(n)[i], n.classKind, isLocal))
      && (!n.Class? ==> forall i | 0 <= i < |Slots(n)| :: Slots(r)[i] == Apply(Slots(n)[i], isLocal))
      && (!n.Class? ==> SlotsFit(n, Slots(r)) && WithSlots(n, Slots(r)) == r)
  {
    if n.Class? {
      RecurseArmedShape(n, n.classKind, isLocal);
    } else {
      WithOwnSlots(n);
      var cs := ApplyAll(Slots(n), n, isLocal);
      ApplyAllEach(Slots(n), n, isLocal);
      SlotsOfWithSlots(n, cs);
      SameShape(n, cs, cs);
    }
  }

  // ---------------------------------------------------------------------
  // Nothing but extra modifiers changes

  /** `n` with the extra modifiers of a class cleared. */
  function Clear(n: Node): (r: Node)
    ensures Slots(r) == Slots(n) && SlotsFit(r, Slots(n))
    ensures HasListSlot(r) == HasListSlot(n) && FixedSlotCount(r) == FixedSlotCount(n)
  {
    WithOwnSlots(n);
    if n.Class? then n.(extraModifiers := []) else n
  }

  /** The tree with the extra modifiers of every class reachable through
      slots cleared: what the pass must leave unchanged. */
  function Strip(n: Node): Node
    decreases n, 1
  {
    WithSlots(Clear(n), StripAll(Slots(n), n))
  }

  function StripAll(cs: seq<Node>, parent: Node): (r: seq<Node>)
    requires forall i | 0 <= i < |cs| :: cs[i] < parent
    decreases parent, 0, |cs|
    ensures |r| == |cs|
  {
    if cs == [] then [] else [Strip(cs[0])] + StripAll(cs[1..], parent)
  }

  /** `StripAll` depends on the nodes only, not on the parent they came from. */
  lemma {:induction false} StripAllEach(cs: seq<Node>, parent: Node)
    requires forall i | 0 <= i < |cs| :: cs[i] < parent
    decreases |cs|
    ensures forall i | 0 <= i < |cs| :: StripAll(cs, parent)[i] == Strip(cs[i])
  {
    if cs != [] {
      assert forall i | 0 <= i < |cs[1..]| :: cs[1..][i] == cs[i + 1];
      var rest := StripAll(cs[1..], parent);
      assert StripAll(cs, parent) == [Strip(cs[0])] + rest;
      StripAllEach(cs[1..], parent);
      forall i | 1 <= i < |cs|
        ensures StripAll(cs, parent)[i] == Strip(cs[i])
      {
        assert rest[i - 1] == Strip(cs[1..][i - 1]);
      }
    }
  }

  /** Stripping a node whose slots were replaced by `cs` strips `cs`. */
  lemma StripWithSlots(n: Node, cs: seq<Node>, ds: seq<Node>)
    requires SlotsFit(n, cs) && |ds| == |cs|
    requires forall i | 0 <= i < |cs| :: ds[i] == Strip(cs[i])
    ensures Strip(WithSlots(n, cs)) == WithSlots(Clear(n), ds)
  {
    var m := WithSlots(n, cs);
    SlotsOfWithSlots(n, cs);
    StripAllEach(Slots(m), m);
    var ss := StripAll(Slots(m), m);
    assert ss == ds;
    ClearWithSlots(n, cs);
    SameShape(Clear(n), cs, ds);
  }

  /** Clearing commutes with replacing slots. */
  lemma ClearWithSlots(n: Node, cs: seq<Node>)
    requires SlotsFit(n, cs)
    ensures SlotsFit(Clear(n), cs)
    ensures Clear(WithSlots(n, cs)) == WithSlots(Clear(n), cs)
  {
    if n.Class? {
      assert WithSlots(n, cs).Class?;
    }
  }

  /** `applyArmed` edits extra modifiers only. */
  lemma {:induction false} ArmedOnlyRetags(n: Node, outerKind: ClassKind, isLocal: Node -> bool)
    decreases Size(n), 1
    ensures Strip(Armed(n, outerKind, isLocal)) == Strip(n)
  {
    var k := if Edited(n, isLocal) then n.classKind else outerKind;
    var m := if Edited(n, isLocal) then n.(extraModifiers := Retag(n.extraModifiers, n.classKind, outerKind)) else n;
    if Edited(n, isLocal) {
      RetaggedSlots(n, m.extraModifiers);
    }
    assert Armed(n, outerKind, isLocal) == RecurseArmed(m, k, isLocal);
    assert Clear(m) == Clear(n);
    SizeBySlots(n);
    WithOwnSlots(n);
    ArmedAllOnlyRetag(Slots(n), k, isLocal);
    var cs := ArmedAll(Slots(n), k, isLocal);
    StripAllEach(Slots(n), n);
    StripWithSlots(m, cs, StripAll(Slots(n), n));
  }

  lemma {:induction false} ArmedAllOnlyRetag(cs: seq<Node>, outerKind: ClassKind, isLocal: Node -> bool)
    decreases TotalSize(cs), 2
    ensures forall i | 0 <= i < |cs| :: Strip(ArmedAll(cs, outerKind, isLocal)[i]) == Strip(cs[i])
  {
    if cs != [] {
      ArmedOnlyRetags(cs[0], outerKind, isLocal);
      ArmedAllOnlyRetag(cs[1..], outerKind, isLocal);
      var rest := ArmedAll(cs[1..], outerKind, isLocal);
      assert ArmedAll(cs, outerKind, isLocal) == [Armed(cs[0], outerKind, isLocal)] + rest;
      assert forall i | 1 <= i < |cs| :: ArmedAll(cs, outerKind, isLocal)[i] == rest[i - 1];
    }
  }

  /** The whole pass edits extra modifiers only: apart from them, the tree
      comes back unchanged. */
  lemma {:induction false} ApplyOnlyRetags(n: Node, isLocal: Node -> bool)
    decreases n
    ensures Strip(Apply(n, isLocal)) == Strip(n)
  {
    if n.Class? {
      ClassOnlyRetagged(n, isLocal);
    } else {
      WithOwnSlots(n);
      StripAllEach(Slots(n), n);
      var cs := ApplyAll(Slots(n), n, isLocal);
      assert Apply(n, isLocal) == WithSlots(n, cs);
      ApplyAllEach(Slots(n), n, isLocal);
      forall i | 0 <= i < |Slots(n)|
        ensures Strip(cs[i]) == Strip(Slots(n)[i])
      {
        ApplyOnlyRetags(Slots(n)[i], isLocal);
      }
      StripWithSlots(n, cs, StripAll(Slots(n), n));
    }
  }

  lemma ClassOnlyRetagged(n: Node, isLocal: Node -> bool)
    requires n.Class?
    ensures Strip(Apply(n, isLocal)) == Strip(n)
  {
    WithOwnSlots(n);
    StripAllEach(Slots(n), n);
    var cs := ArmedAll(Slots(n), n.classKind, isLocal);
    assert Apply(n, isLocal) == WithSlots(n, cs);
    ArmedAllOnlyRetag(Slots(n), n.classKind, isLocal);
    StripWithSlots(n, cs, StripAll(Slots(n), n));
  }

  // ---------------------------------------------------------------------
  // Not idempotent

  function Outer(): Node {
    Class(NameIdentifier("A"), ModifierList([]), CLASS, [Nested()], [])
  }

  function Nested(): Node {
    Class(NameIdentifier("B"), ModifierList([]), CLASS, [], [])
  }

  /** A class `B` nested in a class `A`, neither local: one run marks `B`
      `inner`, and a second run marks it `inner` twice. */
  lemma SecondRunAddsInnerAgain()
    ensures Apply(Outer(), n => false).declarations[0].extraModifiers == [INNER]
    ensures Apply(Apply(Outer(), n => false), n => false).declarations[0].extraModifiers == [INNER, INNER]
    ensures Apply(Apply(Outer(), n => false), n => false) != Apply(Outer(), n => false)
  {
    var isLocal: Node -> bool := n => false;
    var once := Apply(Outer(), isLocal);
    ApplyShape(Outer(), isLocal);
    assert Slots(Outer())[2] == Nested();
    ArmedShape(Nested(), CLASS, isLocal);
    assert once.declarations[0] == Slots(once)[2];
    assert Retag([], CLASS, CLASS) == [INNER];
    var twice := Apply(once, isLocal);
    ApplyShape(once, isLocal);
    ArmedShape(Slots(once)[2], CLASS, isLocal);
    assert twice.declarations[0] == Slots(twice)[2];
    RetagTwiceAddsTwice([], CLASS, CLASS);
  }
}
