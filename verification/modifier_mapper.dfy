/** `ModifierMapper` of `JavaToJKTreeBuilder.kt`: a foreign modifier list
    to a tree modifier list.

    The names are taken in the order of IntelliJ's `PsiModifier.MODIFIERS`,
    which is not part of this model; `Modifiers` below is that order. Names
    written in the source but absent from it are never asked for, and so
    are dropped.
 */
module ModifierMapper {
  import opened Results
  import opened Tree

  const Modifiers: seq<string> :=
    ["public", "protected", "private", "static", "abstract", "final", "native",
     "synchronized", "strictfp", "transient", "volatile", "default", "open", "transitive"]

  /** The names `modifierToJK` maps: three access modifiers, eight others. */
  const AccessNames: set<string> := {"public", "private", "protected"}
  const JavaModifierNames: set<string> :=
    {"abstract", "final", "native", "static", "strictfp", "synchronized", "transient", "volatile"}

  function AccessName(a: AccessModifierType): string {
    match a case PUBLIC => "public" case PRIVATE => "private" case PROTECTED => "protected"
  }

  function JavaModifierName(m: JavaModifierType): string {
    match m
    case ABSTRACT => "abstract" case FINAL => "final" case NATIVE => "native"
    case STATIC => "static" case STRICTFP => "strictfp" case SYNCHRONIZED => "synchronized"
    case TRANSIENT => "transient" case VOLATILE => "volatile"
  }

  /** The name a modifier node stands for. */
  function ModifierName(n: Node): Option<string> {
    match n
    case JavaAccessModifier(a) => Some(AccessName(a))
    case JavaModifier(m) => Some(JavaModifierName(m))
    case _ => None
  }

  /** The access modifier spelled `name`, if any. */
  function AccessOf(name: string): (r: Option<AccessModifierType>)
    ensures r.Some? <==> name in AccessNames
    ensures r.Some? ==> AccessName(r.value) == name
  {
    if name == "public" then Some(PUBLIC)
    else if name == "private" then Some(PRIVATE)
    else if name == "protected" then Some(PROTECTED)
    else None
  }

  /** The other Java modifier spelled `name`, if any. */
  function JavaModifierOf(name: string): (r: Option<JavaModifierType>)
    ensures r.Some? <==> name in JavaModifierNames
    ensures r.Some? ==> JavaModifierName(r.value) == name
  {
    if name == "abstract" then Some(ABSTRACT)
    else if name == "final" then Some(FINAL)
    else if name == "native" then Some(NATIVE)
    else if name == "static" then Some(JavaModifierType.STATIC)
    else if name == "strictfp" then Some(STRICTFP)
    else if name == "synchronized" then Some(SYNCHRONIZED)
    else if name == "transient" then Some(TRANSIENT)
    else if name == "volatile" then Some(VOLATILE)
    else None
  }

  /** `modifierToJK`: the node for one modifier name; `TODO()` for any name
      it does not know. */
  function ModifierToJK(name: string): (r: Result<Node>)
    ensures r.Ok? <==> name in AccessNames || name in JavaModifierNames
    ensures r.Fail? ==> r.failure == NotImplemented
    ensures r.Ok? ==> ModifierName(r.value) == Some(name)
    ensures r.Ok? ==> (r.value.JavaAccessModifier? <==> name in AccessNames)
    ensures r.Ok? ==> (r.value.JavaModifier? <==> name in JavaModifierNames)
  {
    AccessNamesApart(name);
    if AccessOf(name).Some? then Ok(JavaAccessModifier(AccessOf(name).value))
    else if JavaModifierOf(name).Some? then Ok(JavaModifier(JavaModifierOf(name).value))
    else Fail(NotImplemented)
  }

  /** No name is both an access modifier and another modifier. */
  lemma AccessNamesApart(name: string)
    ensures !(name in AccessNames && name in JavaModifierNames)
  {
  }

  /** Distinct modifier nodes have distinct names. */
  lemma ModifierNameInjective(a: Node, b: Node)
    requires ModifierName(a).Some? && ModifierName(a) == ModifierName(b)
    ensures a == b
  {
  }

  /** `MODIFIERS.filter { hasExplicitModifier(it) }`, as the positions in
      `order` from `from` on whose name is among the explicit ones. */
  function ExplicitPositions(order: seq<string>, explicit: set<string>, from: nat): (r: seq<nat>)
    requires from <= |order|
    ensures forall i :: 0 <= i < |r| ==> from <= r[i] < |order| && order[r[i]] in explicit
    ensures forall i, j :: 0 <= i < j < |r| ==> r[i] < r[j]
    ensures forall k :: from <= k < |order| && order[k] in explicit ==> k in r
    decreases |order| - from
  {
    if from == |order| then []
    else if order[from] in explicit then [from] + ExplicitPositions(order, explicit, from + 1)
    else ExplicitPositions(order, explicit, from + 1)
  }

  /** `.map { modifierToJK(it) }`, stopping at the first failure. */
  function MapModifiers(names: seq<string>): (r: Result<seq<Node>>)
    ensures r.Ok? <==> forall i :: 0 <= i < |names| ==> ModifierToJK(names[i]).Ok?
    ensures r.Ok? ==> |r.value| == |names| && forall i :: 0 <= i < |names| ==> ModifierName(r.value[i]) == Some(names[i])
  {
    if |names| == 0 then Ok([])
    else
      var first :- ModifierToJK(names[0]);
      var rest :- MapModifiers(names[1..]);
      assert forall i :: 1 <= i < |names| ==> names[i] == names[1..][i - 1];
      Ok([first] + rest)
  }

  /** The explicit names, in `MODIFIERS` order. */
  function ExplicitNames(explicit: set<string>): seq<string> {
    var positions := ExplicitPositions(Modifiers, explicit, 0);
    seq(|positions|, i requires 0 <= i < |positions| => Modifiers[positions[i]])
  }

  /** `PsiModifierList?.toJK()`. */
  function ModifierListToJK(list: Option<set<string>>): (r: Result<Node>)
    ensures r.Ok? ==> r.value.ModifierList?
  {
    match list
    case None => Ok(ModifierList([]))
    case Some(explicit) =>
      var modifiers :- MapModifiers(ExplicitNames(explicit));
      Ok(ModifierList(modifiers))
  }

  /** The position of a modifier name in `MODIFIERS`. */
  function Rank(name: string): int {
    if name in Modifiers then IndexOf(Modifiers, name) else -1
  }

  function IndexOf(s: seq<string>, x: string): (i: nat)
    requires x in s
    ensures i < |s| && s[i] == x
    ensures forall j :: 0 <= j < i ==> s[j] != x
  {
    if s[0] == x then 0 else 1 + IndexOf(s[1..], x)
  }

  lemma ModifiersDistinct()
    ensures forall i, j :: 0 <= i < j < |Modifiers| ==> Modifiers[i] != Modifiers[j]
  {
  }

  /** A name's rank is its position in `MODIFIERS`. */
  lemma RankIsPosition(k: int)
    requires 0 <= k < |Modifiers|
    ensures Rank(Modifiers[k]) == k
  {
    ModifiersDistinct();
    var i := IndexOf(Modifiers, Modifiers[k]);
    assert Rank(Modifiers[k]) == i;
  }

  /** The filtered names: exactly the explicit `MODIFIERS` names, in
      strictly increasing rank. */
  lemma ExplicitNamesFacts(explicit: set<string>)
    ensures forall x :: x in ExplicitNames(explicit) <==> x in Modifiers && x in explicit
    ensures forall i, j :: 0 <= i < j < |ExplicitNames(explicit)| ==>
      Rank(ExplicitNames(explicit)[i]) < Rank(ExplicitNames(explicit)[j])
  {
    var positions := ExplicitPositions(Modifiers, explicit, 0);
    var names := ExplicitNames(explicit);
    forall x | x in Modifiers && x in explicit
      ensures x in names
    {
      var k := IndexOf(Modifiers, x);
      assert k in positions;
      var i :| 0 <= i < |positions| && positions[i] == k;
      assert names[i] == x;
    }
    forall i, j | 0 <= i < j < |names|
      ensures Rank(names[i]) < Rank(names[j])
    {
      RankIsPosition(positions[i]);
      RankIsPosition(positions[j]);
    }
  }

  /** A missing modifier list gives an empty list. */
  lemma MissingModifierList()
    ensures ModifierListToJK(None) == Ok(ModifierList([]))
  {
  }

  /** A present list succeeds exactly when none of its explicit names is a
      `MODIFIERS` name the mapper does not know (`default`, `open`,
      `transitive`). */
  lemma ModifierListSucceeds(explicit: set<string>)
    ensures ModifierListToJK(Some(explicit)).Ok? <==>
      forall x :: x in Modifiers && x in explicit ==> x in AccessNames || x in JavaModifierNames
  {
    var names := ExplicitNames(explicit);
    ExplicitNamesFacts(explicit);
    assert ModifierListToJK(Some(explicit)).Ok? <==> MapModifiers(names).Ok?;
    AllNamesKnown(names, explicit);
  }

  /** Every name of `names` maps exactly when every explicit `MODIFIERS`
      name is a known one, when `names` holds exactly those. */
  lemma AllNamesKnown(names: seq<string>, explicit: set<string>)
    requires forall x :: x in names <==> x in Modifiers && x in explicit
    ensures (forall i :: 0 <= i < |names| ==> ModifierToJK(names[i]).Ok?) <==>
      forall x :: x in Modifiers && x in explicit ==> x in AccessNames || x in JavaModifierNames
  {
    if forall i :: 0 <= i < |names| ==> ModifierToJK(names[i]).Ok? {
      forall x | x in Modifiers && x in explicit
        ensures x in AccessNames || x in JavaModifierNames
      {
        var i :| 0 <= i < |names| && names[i] == x;
        assert ModifierToJK(names[i]).Ok?;
      }
    } else {
      var i :| 0 <= i < |names| && ModifierToJK(names[i]).Fail?;
      assert names[i] in names;
    }
  }

  /** A list that maps holds one node per explicit name found in
      `MODIFIERS`, no node for any other name, and the nodes come in
      `MODIFIERS` order. */
  lemma ModifierListContents(explicit: set<string>)
    requires ModifierListToJK(Some(explicit)).Ok?
    ensures var ms := ModifierListToJK(Some(explicit)).value.modifiers;
      && (forall x :: x in Modifiers && x in explicit ==> exists i :: 0 <= i < |ms| && ModifierName(ms[i]) == Some(x))
      && (forall i :: 0 <= i < |ms| ==> ModifierName(ms[i]).Some? && ModifierName(ms[i]).value in explicit)
      && (forall i, j :: 0 <= i < j < |ms| ==> Rank(ModifierName(ms[i]).value) < Rank(ModifierName(ms[j]).value))
  {
    var names := ExplicitNames(explicit);
    ExplicitNamesFacts(explicit);
    var ms := MapModifiers(names).value;
    assert ModifierListToJK(Some(explicit)).value.modifiers == ms;
    NodesFollowNames(names, ms, explicit);
  }

  /** Nodes named one by one after `names` inherit what is known of the names. */
  lemma NodesFollowNames(names: seq<string>, ms: seq<Node>, explicit: set<string>)
    requires |ms| == |names| && forall i :: 0 <= i < |names| ==> ModifierName(ms[i]) == Some(names[i])
    requires forall x :: x in names <==> x in Modifiers && x in explicit
    requires forall i, j :: 0 <= i < j < |names| ==> Rank(names[i]) < Rank(names[j])
    ensures forall x :: x in Modifiers && x in explicit ==> exists i :: 0 <= i < |ms| && ModifierName(ms[i]) == Some(x)
    ensures forall i :: 0 <= i < |ms| ==> ModifierName(ms[i]).Some? && ModifierName(ms[i]).value in explicit
    ensures forall i, j :: 0 <= i < j < |ms| ==> Rank(ModifierName(ms[i]).value) < Rank(ModifierName(ms[j]).value)
  {
    forall x | x in Modifiers && x in explicit
      ensures exists i :: 0 <= i < |ms| && ModifierName(ms[i]) == Some(x)
    {
      var i :| 0 <= i < |names| && names[i] == x;
      assert ModifierName(ms[i]) == Some(x);
    }
    forall i | 0 <= i < |ms|
      ensures ModifierName(ms[i]).Some? && ModifierName(ms[i]).value in explicit
    {
      assert names[i] in names;
    }
  }
}
