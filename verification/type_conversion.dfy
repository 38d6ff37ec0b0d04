/** `PsiType.toJK` of `tree/types.kt`: foreign types to tree types.

    `provideDirectSymbol`, which this function calls, is not part of this
    model; it is taken to behave as `provideSymbol`. The nullability passed
    in is given to class, unresolved and array types and to the parameters
    of class types; disjunction members and wildcard bounds are converted
    with the default nullability, as the source calls them without one.
 */
module TypeConversion {
  import opened Results
  import opened Symbols
  import opened Tree
  import opened JavaAst
  import opened Provider

  /** `provideDirectSymbol(h) as JKClassSymbol` succeeds on `h` in state `p`. */
  predicate ClassResolvable(p: State, h: Handle) {
    if h in p.symbols then CategoryOf(p.symbols[h]) == ClassSymbol
    else KindCategory(h.kind) == Some(ClassSymbol)
  }

  /** The foreign types `toJK` converts without an error. */
  predicate Convertible(p: State, t: PsiType)
    decreases t
  {
    match t
    case ClassPsiType(target, _, parameters) =>
      && (forall i :: 0 <= i < |parameters| ==> Convertible(p, parameters[i]))
      && (target.Some? && target.value.kind != TypeParameter ==> ClassResolvable(p, target.value))
    case ArrayPsiType(component) => Convertible(p, component)
    case PrimitivePsiType(text) => KeywordToPrimitive(text).Some?
    case DisjunctionPsiType(ds) => forall i :: 0 <= i < |ds| ==> Convertible(p, ds[i])
    case WildcardPsiType(bound) =>
      (match bound
       case ExtendsBound(b) => Convertible(p, b)
       case SuperBound(b) => Convertible(p, b)
       case Unbounded => true)
    case OtherPsiType => false
  }

  /** The resolved class targets `toJK` asks the provider for. */
  function ClassTargets(t: PsiType): set<Handle>
    decreases t
  {
    match t
    case ClassPsiType(target, _, parameters) =>
      (if target.Some? && target.value.kind != TypeParameter then {target.value} else {})
      + ClassTargetsAll(parameters)
    case ArrayPsiType(component) => ClassTargets(component)
    case PrimitivePsiType(_) => {}
    case DisjunctionPsiType(ds) => ClassTargetsAll(ds)
    case WildcardPsiType(bound) =>
      (match bound
       case ExtendsBound(b) => ClassTargets(b)
       case SuperBound(b) => ClassTargets(b)
       case Unbounded => {})
    case OtherPsiType => {}
  }

  function ClassTargetsAll(ts: seq<PsiType>): set<Handle>
    decreases ts
  {
    if |ts| == 0 then {} else ClassTargets(ts[0]) + ClassTargetsAll(ts[1..])
  }

  lemma ResolvableStable(p: State, q: State, h: Handle)
    requires Extends(p, q)
    ensures ClassResolvable(p, h) == ClassResolvable(q, h)
  {
    if h in q.symbols && h !in p.symbols {
      NewMultiverseCategory(h);
    }
  }

  /** Whether a type converts does not change as multiverse entries are added. */
  lemma {:induction false} ConvertibleStable(p: State, q: State, t: PsiType)
    requires Extends(p, q)
    ensures Convertible(p, t) == Convertible(q, t)
    decreases t
  {
    match t
    case ClassPsiType(target, _, parameters) =>
      forall i | 0 <= i < |parameters| ensures Convertible(p, parameters[i]) == Convertible(q, parameters[i]) {
        ConvertibleStable(p, q, parameters[i]);
      }
      if target.Some? { ResolvableStable(p, q, target.value); }
    case ArrayPsiType(component) => ConvertibleStable(p, q, component);
    case PrimitivePsiType(_) =>
    case DisjunctionPsiType(ds) =>
      forall i | 0 <= i < |ds| ensures Convertible(p, ds[i]) == Convertible(q, ds[i]) {
        ConvertibleStable(p, q, ds[i]);
      }
    case WildcardPsiType(bound) =>
      if bound.ExtendsBound? {
        ConvertibleStable(p, q, bound.extendsBound);
      } else if bound.SuperBound? {
        ConvertibleStable(p, q, bound.superBound);
      }
    case OtherPsiType =>
  }

  lemma ConvertibleAllStable(p: State, q: State, ts: seq<PsiType>)
    requires Extends(p, q)
    ensures (forall i :: 0 <= i < |ts| ==> Convertible(p, ts[i])) == (forall i :: 0 <= i < |ts| ==> Convertible(q, ts[i]))
  {
    forall i | 0 <= i < |ts| ensures Convertible(p, ts[i]) == Convertible(q, ts[i]) {
      ConvertibleStable(p, q, ts[i]);
    }
  }

  /** `PsiType.toJK(symbolProvider, nullability)`. */
  function ToJK(p: State, t: PsiType, n: Nullability): (r: Result<(State, Type)>)
    decreases t, 1
    ensures r.Ok? <==> Convertible(p, t)
    ensures r.Ok? ==> Extends(p, r.value.0) && r.value.0.symbols.Keys == p.symbols.Keys + ClassTargets(t)
  {
    match t
    case ClassPsiType(_, _, _) => ClassTypeToJK(p, t, n)
    case ArrayPsiType(component) =>
      var converted :- ToJK(p, component, n);
      Ok((converted.0, JavaArrayType(converted.1, n)))
    case PrimitivePsiType(text) =>
      (match KeywordToPrimitive(text)
       case Some(primitive) => Ok((p, JavaPrimitiveType(primitive)))
       case None => Fail(Unsupported))
    case DisjunctionPsiType(ds) =>
      var converted :- ToJKAll(p, ds, Default);
      Ok((converted.0, DisjunctionType(converted.1)))
    case WildcardPsiType(bound) =>
      (match bound
       case ExtendsBound(b) =>
         var converted :- ToJK(p, b, Default);
         Ok((converted.0, VarianceType(OUT, converted.1)))
       case SuperBound(b) =>
         var converted :- ToJK(p, b, Default);
         Ok((converted.0, VarianceType(IN, converted.1)))
       case Unbounded => Ok((p, StarProjectionType)))
    case OtherPsiType => Fail(Unsupported)
  }

  /** Class types: the parameters first, then the class symbol, unless
      the type is unresolved or names a type parameter. */
  function ClassTypeToJK(p: State, t: PsiType, n: Nullability): (r: Result<(State, Type)>)
    requires t.ClassPsiType?
    decreases t, 0
    ensures r.Ok? <==> Convertible(p, t)
    ensures r.Ok? ==> Extends(p, r.value.0) && r.value.0.symbols.Keys == p.symbols.Keys + ClassTargets(t)
  {
    var ClassPsiType(target, rawText, parameters) := t;
    var converted :- ToJKAll(p, parameters, n);
    var (q, ps) := converted;
    ConvertibleAllStable(p, q, parameters);
    if target.None? then Ok((q, UnresolvedClassType(rawText, ps, n)))
    else if target.value.kind == TypeParameter then Ok((q, TypeParameterType(target.value.name, Default)))
    else
      ResolvableStable(p, q, target.value);
      var provided :- ProvideSymbol(q, target.value);
      var (q', symbol) := provided;
      if CategoryOf(symbol) != ClassSymbol then Fail(CastFailed)
      else Ok((q', ClassType(symbol, ps, n)))
  }

  /** `map { it.toJK(...) }`, left to right, threading the provider. */
  function ToJKAll(p: State, ts: seq<PsiType>, n: Nullability): (r: Result<(State, seq<Type>)>)
    decreases ts, 0
    ensures r.Ok? <==> forall i :: 0 <= i < |ts| ==> Convertible(p, ts[i])
    ensures r.Ok? ==> Extends(p, r.value.0) && r.value.0.symbols.Keys == p.symbols.Keys + ClassTargetsAll(ts)
    ensures r.Ok? ==> |r.value.1| == |ts|
  {
    if |ts| == 0 then Ok((p, []))
    else
      var first :- ToJK(p, ts[0], n);
      ConvertibleAllStable(p, first.0, ts[1..]);
      var rest :- ToJKAll(first.0, ts[1..], n);
      assert forall i :: 1 <= i < |ts| ==> ts[i] == ts[1..][i - 1];
      Ok((rest.0, [first.1] + rest.1))
  }

  /** Wildcards: `extends` gives OUT of the converted bound, `super` gives
      IN of it, and no bound gives a star projection. */
  lemma WildcardShapes(p: State, b: PsiType, n: Nullability)
    requires Convertible(p, b)
    ensures ToJK(p, WildcardPsiType(ExtendsBound(b)), n) == Ok((ToJK(p, b, Default).value.0, VarianceType(OUT, ToJK(p, b, Default).value.1)))
    ensures ToJK(p, WildcardPsiType(SuperBound(b)), n) == Ok((ToJK(p, b, Default).value.0, VarianceType(IN, ToJK(p, b, Default).value.1)))
    ensures ToJK(p, WildcardPsiType(Unbounded), n) == Ok((p, StarProjectionType))
  {
  }

  /** An unresolved class type keeps its raw text and a type parameter its
      name; neither asks the provider for a symbol. */
  lemma UnresolvedAndParameterShapes(p: State, raw: string, h: Handle, parameters: seq<PsiType>, n: Nullability)
    requires h.kind == TypeParameter
    requires forall i :: 0 <= i < |parameters| ==> Convertible(p, parameters[i])
    ensures var r := ToJK(p, ClassPsiType(None, raw, parameters), n);
      r.Ok? && r.value.1 == UnresolvedClassType(raw, ToJKAll(p, parameters, n).value.1, n)
    ensures var r := ToJK(p, ClassPsiType(Some(h), raw, parameters), n);
      r.Ok? && r.value.1 == TypeParameterType(h.name, Default)
  {
  }

  /** The type produced does not depend on which multiverse entries the
      provider already holds. */
  lemma {:induction false} ToJKStable(p: State, q: State, t: PsiType, n: Nullability)
    requires Extends(p, q) && Convertible(p, t)
    ensures Convertible(q, t)
    ensures ToJK(p, t, n).value.1 == ToJK(q, t, n).value.1
    decreases t, 1
  {
    ConvertibleStable(p, q, t);
    match t
    case ClassPsiType(_, _, _) => ClassTypeStable(p, q, t, n);
    case ArrayPsiType(component) => ToJKStable(p, q, component, n);
    case PrimitivePsiType(_) =>
    case DisjunctionPsiType(ds) => ToJKAllStable(p, q, ds, Default);
    case WildcardPsiType(bound) =>
      if bound.ExtendsBound? {
        ToJKStable(p, q, bound.extendsBound, Default);
      } else if bound.SuperBound? {
        ToJKStable(p, q, bound.superBound, Default);
      }
    case OtherPsiType =>
  }

  lemma {:induction false} ClassTypeStable(p: State, q: State, t: PsiType, n: Nullability)
    requires t.ClassPsiType? && Extends(p, q) && Convertible(p, t) && Convertible(q, t)
    ensures ToJK(p, t, n).value.1 == ToJK(q, t, n).value.1
    decreases t, 0
  {
    var ClassPsiType(target, _, parameters) := t;
    assert ToJK(p, t, n) == ClassTypeToJK(p, t, n) && ToJK(q, t, n) == ClassTypeToJK(q, t, n);
    ToJKAllStable(p, q, parameters, n);
    if target.Some? && target.value.kind != TypeParameter {
      var p1 := ToJKAll(p, parameters, n).value.0;
      var q1 := ToJKAll(q, parameters, n).value.0;
      ResolvableStable(p, p1, target.value);
      ProvideSymbolStable(p, p1, target.value);
      ProvideSymbolStable(p, q, target.value);
      ProvideSymbolStable(q, q1, target.value);
    }
  }

  lemma {:induction false} ToJKAllStable(p: State, q: State, ts: seq<PsiType>, n: Nullability)
    requires Extends(p, q) && forall i :: 0 <= i < |ts| ==> Convertible(p, ts[i])
    ensures ToJKAll(q, ts, n).Ok?
    ensures ToJKAll(p, ts, n).value.1 == ToJKAll(q, ts, n).value.1
    decreases ts, 0
  {
    ConvertibleAllStable(p, q, ts);
    if |ts| > 0 {
      ToJKStable(p, q, ts[0], n);
      var p1 := ToJK(p, ts[0], n).value.0;
      var q1 := ToJK(q, ts[0], n).value.0;
      ExtendsJoin(p, p1, q, q1);
      assert forall i :: 0 <= i < |ts[1..]| ==> ts[1..][i] == ts[i + 1];
      ConvertibleAllStable(p, p1, ts[1..]);
      ToJKAllStable(p1, q1, ts[1..], n);
    }
  }
}
