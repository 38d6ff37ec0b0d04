# The JK tree of the new Java-to-Kotlin converter, in Dafny

This project models the core of the new Java-to-Kotlin converter ("j2k").
The converter turns a Java syntax tree into an intermediate tree, the JK
tree. It hands out symbols for the declarations it meets and then rewrites
the tree in conversion passes until it can be printed as Kotlin. The model
covers the following parts:

- **the node kinds** (`Kinds`): every interface of the JK tree, the
  default forwarding of `JKTransformer`'s visit methods (each forwards to
  the visit method one interface more general, ending at `visitElement`),
  and the cast each forward performs. The void Kotlin visitor's delegation
  is in `KtVisitorVoid`.
- **the node shapes** (`Tree`): one `Node` datatype with a constructor per
  concrete JK class. Each node has its child slots (the properties declared
  `by child` / `by children`, in declaration order) and its plain data
  (operators, symbols, names, literal text). `Slots` reads the children;
  `WithSlots` writes them back; the usual lens laws hold.
- **operators and tokens** (`Tokens`): the Java operator objects `PLUS`
  and `MINUS`, the Kotlin `tokenToOperator` table and the five-entry
  `javaToKotlinOperator` table.
- **symbols and the provider** (`Symbols`, `Provider`): universe symbols
  (declared in the converted files, target bound later) and multiverse
  symbols (declared elsewhere, target fixed). The provider's memoised
  `provideSymbol`, the `preBuildTree` pre-pass, and the binding of a
  universe symbol's `lateinit` target are modelled in a state.
- **the type helpers** (`TypeOps`, `TypeConversion`): `updateNullability`,
  the literal/primitive/boxed conversions, `JKExpression.type`, and
  `PsiType.toJK`.
- **the tree builder** (`JavaAst`, `ModifierMapper`, `ExpressionMapper`,
  `DeclarationMapper`): an abstract Java syntax tree stands in for the
  IntelliJ PSI. Over it, the builder's expression, modifier and declaration
  mappers are modelled case by case, with every `?: TODO()`, `!!`, cast
  and `error(...)` turned into a `Results.Failure`.
- **the passes** (`OperatorConversion`, `InnerClassConversion`):
  - `OperatorExpressionConversion` rewrites Java operators into Kotlin
    operators.
  - `InnerClassConversion` removes `static` from nested classes, or adds
    `inner` to them.
  - `Pipeline` composes the builder with the operator pass.

Each failure of the source is one `Failure` value:

| Failure | Source construct |
|---|---|
| `NotImplemented` | `TODO()` |
| `Unsupported` | `error` or `throw` |
| `CastFailed` | a failing `as` |
| `NullValue` | a failing `!!` |
| `Uninitialized` | reading an unset `lateinit` |
| `Diverges` | a recursion that does not end |

Object identity is modelled as follows:

- A universe symbol carries a serial number, and its target lives in the
  provider state under that serial. Binding a symbol is therefore seen by
  every holder of it.
- Multiverse symbols compare by the foreign element they wrap.

The source files are snapshots taken at different moments, so some
enumerations disagree between files. The model takes the union of each:

- `LiteralType` has eight values.
- `JKJavaPrimitiveTypeImpl` has seven instances (boolean, char, byte, int,
  long, float, double).
- The Java operator tokens are the five that `javaToKotlinOperator` names.
  Only `PLUS` and `MINUS` exist as operator objects.
- `JKMultiverseKtClassSymbol` exists, while the provider's `KtClassOrObject`
  case is a foreign Kotlin class handle.
- Variance, star-projection and disjunction types are taken to carry no
  nullability. So `updateNullability` (types.kt lines 154-165) reaches
  its `TODO` on them without first comparing nullabilities. No caller in
  these files passes such a type.
- `JKReferenceType` has exactly the three values `U2U`, `U2M` and `M2U`.
  It is the `ReferenceType` datatype of `Kinds`. No reference from a
  multiverse symbol to a multiverse symbol exists.

## Model

| member | source | states |
|---|---|---|
| Kinds.GenericForwardStep | j2k/newSrc/org/jetbrains/kotlin/j2k/tree/visitors/JKTransformer.kt:6-41 | Among the generic visit methods, only `visitElement` has no default. Every other one forwards to a method exactly one level more general. |
| Kinds.ForwardStep | j2k/newSrc/org/jetbrains/kotlin/j2k/tree/visitors/JKTransformer.kt:6-65 | The same holds for every visit method, Java- and Kotlin-specific ones included. The forward target is itself a visit method. |
| Kinds.Chain | j2k/newSrc/org/jetbrains/kotlin/j2k/tree/visitors/JKTransformer.kt:6-65 | The default chain from any visit method has length depth + 1 and ends at `visitElement`. Each step is the default forward of the step before. |
| Kinds.ChainAcyclic | j2k/newSrc/org/jetbrains/kotlin/j2k/tree/visitors/JKTransformer.kt:6-65 | The default chain from any visit method ends at `visitElement` and never visits the same method twice. |
| Kinds.ForwardFollowsSupertypes | j2k/newSrc/org/jetbrains/kotlin/j2k/tree/jk.kt:22-157 | For every kind declared in the interface file, the default forward goes to one of the interfaces the kind extends. Every supertype is strictly more general. |
| Kinds.GenericForwardIsSupertype | j2k/newSrc/org/jetbrains/kotlin/j2k/tree/visitors/JKTransformer.kt:7-41 | Apart from the declaration interfaces, the forward of a generic kind goes to one of its declared supertypes. |
| Kinds.GenericSupertypesAbove | j2k/newSrc/org/jetbrains/kotlin/j2k/tree/jk.kt:28-157 | A generic kind's declared supertypes are strictly more general than it. |
| Kinds.UnaryChains | j2k/newSrc/org/jetbrains/kotlin/j2k/tree/visitors/JKTransformer.kt:26-31 | Prefix and postfix expressions fall back to the unary-expression method, then to the expression method, then to `visitElement`. |
| Kinds.FieldChains | j2k/newSrc/org/jetbrains/kotlin/j2k/tree/visitors/JKTransformer.kt:7-56 | A Java field and a Kotlin property both fall back to the field method, then the declaration method, then `visitElement`. |
| Kinds.PrimaryConstructorChain | j2k/newSrc/org/jetbrains/kotlin/j2k/tree/visitors/JKTransformer.kt:57-59 | A primary constructor falls back to the Kotlin constructor method, then the declaration method, then `visitElement`. |
| Kinds.StatementChains | j2k/newSrc/org/jetbrains/kotlin/j2k/tree/visitors/JKTransformer.kt:21-27 | Loops and expression statements fall back to the statement method and then to `visitElement`. |
| Kinds.BlockChain | j2k/newSrc/org/jetbrains/kotlin/j2k/tree/visitors/JKTransformer.kt:21-23 | A block is not a statement. It falls back directly to `visitElement`. |
| Kinds.ModifierChains | j2k/newSrc/org/jetbrains/kotlin/j2k/tree/visitors/JKTransformer.kt:11-14 | Access and modality modifiers fall back to the modifier method and then to `visitElement`. |
| Kinds.ReferenceChains | j2k/newSrc/org/jetbrains/kotlin/j2k/tree/visitors/JKTransformer.kt:15-18 | Method, field and class references fall back to the reference method and then to `visitElement`. |
| Kinds.CallKindsShareMethodCall | j2k/newSrc/org/jetbrains/kotlin/j2k/tree/visitors/JKTransformer.kt:33-63 | Exactly three kinds forward to the method-call method: the Java method call, the Kotlin call and the Kotlin method call. |
| Kinds.GenericNotToMethodCall | j2k/newSrc/org/jetbrains/kotlin/j2k/tree/visitors/JKTransformer.kt:7-41 | No generic kind forwards to the method-call method. |
| Kinds.JavaToMethodCall | j2k/newSrc/org/jetbrains/kotlin/j2k/tree/visitors/JKTransformer.kt:42-55 | Among the Java-specific kinds, only the Java method call has the method call as its parent. |
| Kinds.KotlinToMethodCall | j2k/newSrc/org/jetbrains/kotlin/j2k/tree/visitors/JKTransformer.kt:56-65 | Among the Kotlin-specific kinds, only the Kotlin call and the Kotlin method call have the method call as their parent. |
| Kinds.FirstHandled | j2k/newSrc/org/jetbrains/kotlin/j2k/tree/visitors/JKTransformer.kt:6-65 | A visit is answered by the first overridden method along the default chain, or by `visitElement` when none is overridden. No earlier method on the chain is overridden. |
| Kinds.Unwind | j2k/newSrc/org/jetbrains/kotlin/j2k/tree/visitors/JKTransformer.kt:7-65 | Falling back through the defaults succeeds exactly when every cast on the way accepts the node's real kind. It then yields that kind; otherwise it fails with a failed cast. |
| Kinds.SameKindAccepted | j2k/newSrc/org/jetbrains/kotlin/j2k/tree/visitors/JKTransformer.kt:7-65 | Visiting a node with a method for its own kind, or for any kind it is a subkind of, never fails a cast. If that method is overridden, it is the one that answers. |
| Kinds.WrongKindRejected | j2k/newSrc/org/jetbrains/kotlin/j2k/tree/visitors/JKTransformer.kt:26-30 | Calling the prefix-expression method on a node that is only an expression fails in the cast. |
| Kinds.Forward | j2k/newSrc/org/jetbrains/kotlin/j2k/tree/visitors/JKTransformer.kt:6-65 | A visit method forwards exactly when its kind has a visit method of its own and is not `JKElement`. The method it forwards to also exists. |
| Kinds.Dispatch | j2k/newSrc/org/jetbrains/kotlin/j2k/tree/visitors/JKTransformer.kt:7-65 | A call through the default chain returns the handler's own node kind, or fails with a failed `as` cast; it never yields any other kind. |
| KtVisitorVoid.Route | j2k/newSrc/org/jetbrains/kotlin/j2k/tree/JKKtVisitorVoid.kt:3-10 | In the void Kotlin visitor, every data-taking Kotlin visit method reaches the data-taking declaration method by delegation. The route has length distance + 1 and passes through no other declaration method. |
| KtVisitorVoid.DataTakingDelegatesToDataLess | j2k/newSrc/org/jetbrains/kotlin/j2k/tree/JKKtVisitorVoid.kt:4-9 | Each data-taking Kotlin method delegates to its data-less overload of the same kind. |
| KtVisitorVoid.FunAndConstructorDefaults | j2k/newSrc/org/jetbrains/kotlin/j2k/tree/JKKtVisitorVoid.kt:4-7 | Kotlin functions and constructors go data-taking, then data-less, then to the declaration method. |
| KtVisitorVoid.PrimaryConstructorDefault | j2k/newSrc/org/jetbrains/kotlin/j2k/tree/JKKtVisitorVoid.kt:6-9 | A primary constructor goes through both constructor overloads before it reaches the declaration method. |
| KtVisitorVoid.Delegate | j2k/newSrc/org/jetbrains/kotlin/j2k/tree/JKKtVisitorVoid.kt:3-10 | Every default method except `visitDeclaration` delegates. Each delegation brings the call one step closer to the data-taking `visitDeclaration`. |
| Tokens.TokenToOperator | j2k/newSrc/org/jetbrains/kotlin/j2k/tree/impl/k.kt:85-89 | `tokenToOperator` has an entry exactly for the operation tokens. Each entry is the Kotlin operator wrapping that same token. |
| Tokens.JavaToKotlinSameName | j2k/newSrc/org/jetbrains/kotlin/j2k/tree/impl/k.kt:91-100 | `javaToKotlinOperator` is defined exactly on the Java operators for `/`, `-`, `&&`, `\|\|` and `+`. Each maps to the Kotlin operator of the same spelling. |
| Tokens.JavaToKotlinInjective | j2k/newSrc/org/jetbrains/kotlin/j2k/tree/impl/k.kt:91-100 | No two Java operators map to the same Kotlin operator. |
| Tokens.JavaToKotlinOperator | j2k/newSrc/org/jetbrains/kotlin/j2k/tree/impl/k.kt:91-100 | Only Java operators are mapped, and only to Kotlin operators. The Kotlin token is spelt the same as the Java token. |
| Tokens.JavaOperatorsConvertible | j2k/newSrc/org/jetbrains/kotlin/j2k/tree/impl/j.kt:70-73 | Both Java operator objects, `PLUS` and `MINUS`, have a Kotlin counterpart. |
| Symbols.DeclaredInUnimplemented | j2k/newSrc/org/jetbrains/kotlin/j2k/tree/impl/symbols.kt:33-90 | Asking any symbol for `declaredIn` is a `TODO`. |
| Symbols.ForeignFqNameShape | j2k/newSrc/org/jetbrains/kotlin/j2k/tree/impl/symbols.kt:41-90 | A multiverse method or field symbol's name is the foreign element's name and is always present. A multiverse class symbol's name is the class's qualified name and may be missing. |
| Tree.PlainClassType | j2k/newSrc/org/jetbrains/kotlin/j2k/tree/impl/jk.kt:141-145 | A class type built without a nullability has default nullability and keeps its symbol and parameters. |
| Tree.SlotsOfWithSlots | j2k/newSrc/org/jetbrains/kotlin/j2k/tree/impl/jk.kt:26-273 | Writing children into a node and reading them back gives the written children. |
| Tree.Slots | j2k/newSrc/org/jetbrains/kotlin/j2k/tree/impl/jk.kt:26-273 | Every child slot of a node is strictly smaller than the node. |
| Tree.WithSlotsKeepsCategory | j2k/newSrc/org/jetbrains/kotlin/j2k/tree/impl/jk.kt:26-273 | Writing children never changes the kind of a node. |
| Tree.WithOwnSlots | j2k/newSrc/org/jetbrains/kotlin/j2k/tree/impl/jk.kt:26-273 | Writing back a node's own children leaves it unchanged. |
| Tree.WithSlotsOnlyTouchesSlots | j2k/newSrc/org/jetbrains/kotlin/j2k/tree/impl/jk.kt:26-273 | A write replaces only the children. A second write overrides the first, and writing the old children restores the node. |
| Tree.SameShape | j2k/newSrc/org/jetbrains/kotlin/j2k/tree/impl/jk.kt:26-273 | Two writes of children in a row equal the second write alone. |
| Tree.BinaryAndQualifiedSlots | j2k/newSrc/org/jetbrains/kotlin/j2k/tree/impl/jk.kt:62-101 | A binary expression's children are `[right, left]`, the order its child properties are declared in. A qualified expression's children are `[receiver, selector]`. The operator and the qualifier are data, not children. |
| Tree.TypeCastSlots | j2k/newSrc/org/jetbrains/kotlin/j2k/tree/impl/jk.kt:131-135 | A type cast's only child is its type element. Its operand is plain data. |
| Tree.SymbolHoldersSlots | j2k/newSrc/org/jetbrains/kotlin/j2k/tree/impl/j.kt:98-105 | A `new` expression and a Kotlin call have their argument list as their only child. A Kotlin field access has no children; its symbol is data. |
| Tree.KotlinDeclarationSlots | j2k/newSrc/org/jetbrains/kotlin/j2k/tree/impl/k.kt:25-57 | A Kotlin property's children are its six properties in declaration order. A Kotlin function's children are its return type, name, each argument, its block and its modifiers. |
| Tree.JavaDeclarationsHaveNoSlots | j2k/newSrc/org/jetbrains/kotlin/j2k/tree/impl/j.kt:22-121 | Java fields, Java methods, Java method calls and Java array literals declare no child properties. |
| Tree.WithSlotsKeepsOperator | j2k/newSrc/org/jetbrains/kotlin/j2k/tree/impl/jk.kt:62-84 | Writing children never changes whether a node is an operator expression, nor which operator it holds. |
| Tree.JavaAcceptChildrenOrder | j2k/newSrc/org/jetbrains/kotlin/j2k/tree/impl/j.kt:22-113 | A Java field visits its type, name and initializer in that order. A Java method call visits its symbol, then its arguments. The array expressions visit nothing. |
| Tree.LiteralsCarryTextAndType | j2k/newSrc/org/jetbrains/kotlin/j2k/tree/jk.kt:141-157 | A node has literal text, and a literal type, exactly when it is a literal. |
| Tree.LeafLiterals | j2k/newSrc/org/jetbrains/kotlin/j2k/tree/impl/jk.kt:154-166 | `null` has text `null` and type `NULL`. A boolean literal's text is `true` or `false` according to its value, and its type is `BOOLEAN`. Neither has children. |
| Tree.BodyStubIgnoresWrites | j2k/newSrc/org/jetbrains/kotlin/j2k/tree/impl/jk.kt:182-199 | Setting a block's statements sets them. The body stub ignores the write and always has no statements and no children. |
| Tree.KeywordToPrimitive | j2k/newSrc/org/jetbrains/kotlin/j2k/tree/impl/j.kt:123-133 | A keyword that names a primitive maps to the primitive with that name. |
| Tree.KeywordRoundTrip | j2k/newSrc/org/jetbrains/kotlin/j2k/tree/impl/j.kt:123-133 | Every primitive is found by its own keyword. |
| Tree.ReturnType | j2k/newSrc/org/jetbrains/kotlin/j2k/tree/impl/j.kt:55-68 | Asking a Java method for its return type is a `TODO`. A Kotlin function's return type is one of its children. |
| TypeOps.UpdateNullability | j2k/newSrc/org/jetbrains/kotlin/j2k/tree/types.kt:154-165 | Nullability can be updated exactly on types that carry one or are nullability-free; anything else is a `TODO`. On types that carry one, the result has the new nullability. Nullability-free types come back unchanged. |
| TypeOps.UpdateNullabilityRoundTrip | j2k/newSrc/org/jetbrains/kotlin/j2k/tree/types.kt:154-165 | Setting the nullability a type already has is the identity. Setting a new one and then restoring the old one gives the original type back. |
| TypeOps.UpdateNullabilityKeepsFields | j2k/newSrc/org/jetbrains/kotlin/j2k/tree/types.kt:156-163 | Updating nullability keeps the symbol, name, parameters or component of the type. |
| TypeOps.UpdateNullabilityIdempotent | j2k/newSrc/org/jetbrains/kotlin/j2k/tree/types.kt:154-165 | Updating twice to the same nullability is the same as updating once. |
| TypeOps.ConversionDomains | j2k/newSrc/org/jetbrains/kotlin/j2k/tree/types.kt:179-201 | Literal types without a primitive are exactly `STRING` and `NULL`. The primitive without a literal type is exactly `byte`. |
| TypeOps.LiteralPrimitiveRoundTrip | j2k/newSrc/org/jetbrains/kotlin/j2k/tree/types.kt:179-201 | Where defined, the literal-to-primitive and primitive-to-literal conversions are mutually inverse. |
| TypeOps.BoxedToPrimitiveExact | j2k/newSrc/org/jetbrains/kotlin/j2k/tree/types.kt:203-213 | A class type unboxes to a primitive exactly when its name is `java.lang.` followed by that primitive's box name. |
| TypeOps.NumberTypesHaveNumericLiterals | j2k/newSrc/org/jetbrains/kotlin/j2k/tree/types.kt:215-219 | A primitive is a number type exactly when its literal type is `INT`, `LONG`, `FLOAT` or `DOUBLE`. |
| TypeOps.LiteralToPrimitive | j2k/newSrc/org/jetbrains/kotlin/j2k/tree/types.kt:179-189 | Every literal type except `STRING` and `NULL` has a primitive type. |
| TypeOps.PrimitiveToLiteral | j2k/newSrc/org/jetbrains/kotlin/j2k/tree/types.kt:191-201 | Every primitive type except `byte` has a literal type. Mapping that literal type back gives the primitive again. |
| TypeOps.BoxedToPrimitive | j2k/newSrc/org/jetbrains/kotlin/j2k/tree/types.kt:203-213 | A class type maps to a primitive only when its name is `java.lang.` followed by that primitive's box class. |
| TypeOps.IsNumberType | j2k/newSrc/org/jetbrains/kotlin/j2k/tree/types.kt:215-219 | A number type is neither `byte`, `char` nor `boolean`. It has a literal type that maps back to it. |
| TypeOps.ExpressionType | j2k/newSrc/org/jetbrains/kotlin/j2k/tree/types.kt:28-52 | A literal always has a type. An operator expression fails exactly when its operator is still a Java operator. Every failure is a `TODO`, a failed cast or an `error` call. |
| TypeOps.OperatorExpressionType | j2k/newSrc/org/jetbrains/kotlin/j2k/tree/types.kt:31-39 | An operator expression's type fails exactly while its operator is still Java. Once converted, the type is the Kotlin operator's return type. |
| TypeOps.QualifiedHasSelectorType | j2k/newSrc/org/jetbrains/kotlin/j2k/tree/types.kt:42 | A qualified expression has its selector's type. |
| TypeOps.ParenthesesKeepType | j2k/newSrc/org/jetbrains/kotlin/j2k/tree/types.kt:47 | Any number of parentheses leave an expression's type unchanged. |
| TypeOps.TypeCastHasCastType | j2k/newSrc/org/jetbrains/kotlin/j2k/tree/types.kt:48 | A type cast has the type it casts to, whatever the operand. |
| Provider.InitialValid | j2k/newSrc/org/jetbrains/kotlin/j2k/JKSymbolProvider.kt:13-15 | The empty provider satisfies the provider invariant. |
| Provider.ProvideSymbol | j2k/newSrc/org/jetbrains/kotlin/j2k/JKSymbolProvider.kt:21-31 | A known element returns its stored symbol and leaves the provider unchanged. For an unknown class, Kotlin class, method or field, a multiverse symbol of the matching category is created and stored. Any other element is a `TODO`. |
| Provider.ProvideSymbolMemoised | j2k/newSrc/org/jetbrains/kotlin/j2k/JKSymbolProvider.kt:21-22 | Asking twice for the same element gives the same symbol and state as asking once. |
| Provider.ProvideSymbolValid | j2k/newSrc/org/jetbrains/kotlin/j2k/JKSymbolProvider.kt:21-31 | Providing a symbol preserves the provider invariant. |
| Provider.NewMultiverseCategory | j2k/newSrc/org/jetbrains/kotlin/j2k/JKSymbolProvider.kt:23-28 | A freshly created symbol wraps the element it was made for and has the category matching the element's kind. |
| Provider.ExtendsValid | j2k/newSrc/org/jetbrains/kotlin/j2k/JKSymbolProvider.kt:21-31 | Any extension of the symbol table by providing symbols preserves the provider invariant. |
| Provider.ExtendsDeterminedByKeys | j2k/newSrc/org/jetbrains/kotlin/j2k/JKSymbolProvider.kt:21-31 | Two extensions of the same provider with the same elements are identical, so the order in which symbols are provided does not matter. |
| Provider.ProvideSymbolStable | j2k/newSrc/org/jetbrains/kotlin/j2k/JKSymbolProvider.kt:21-31 | Once an element has a symbol, every later state returns the same symbol for it. |
| Provider.Register | j2k/newSrc/org/jetbrains/kotlin/j2k/JKSymbolProvider.kt:34-44 | Registering a declaration stores a fresh, unbound universe symbol of its category. It replaces any earlier symbol of that element and leaves all other elements alone. |
| Provider.RegisterAll | j2k/newSrc/org/jetbrains/kotlin/j2k/JKSymbolProvider.kt:33-49 | Registering a sequence adds exactly the registered elements and uses one fresh serial per registration. |
| Provider.RegisterAllKeeps | j2k/newSrc/org/jetbrains/kotlin/j2k/JKSymbolProvider.kt:33-49 | Elements that are not registered keep their symbols. |
| Provider.RegisterAllSymbols | j2k/newSrc/org/jetbrains/kotlin/j2k/JKSymbolProvider.kt:33-49 | Every registered element ends with the universe symbol of its last registration. |
| Provider.RegisterAllAppend | j2k/newSrc/org/jetbrains/kotlin/j2k/JKSymbolProvider.kt:17-19 | Registering two sequences in turn is the same as registering them concatenated, so files can be pre-built one after another. |
| Provider.RegisterAllValid | j2k/newSrc/org/jetbrains/kotlin/j2k/JKSymbolProvider.kt:33-49 | Registration preserves the provider invariant. |
| Provider.VisitRegisters | j2k/newSrc/org/jetbrains/kotlin/j2k/JKSymbolProvider.kt:33-49 | The pre-pass visitor over one element performs exactly that element's registrations: a class, then its members in order. |
| Provider.VisitAllRegisters | j2k/newSrc/org/jetbrains/kotlin/j2k/JKSymbolProvider.kt:17-19 | The pre-pass over a list of files performs the files' registrations in order. |
| Provider.MembersRegistered | j2k/newSrc/org/jetbrains/kotlin/j2k/JKSymbolProvider.kt:34-37 | Each field, method and nested class among a class's children is registered along with the class. |
| Provider.MethodBodyNotEntered | j2k/newSrc/org/jetbrains/kotlin/j2k/JKSymbolProvider.kt:43-45 | The pre-pass registers a method but does not enter its body. |
| Provider.PreBuildThenProvide | j2k/newSrc/org/jetbrains/kotlin/j2k/JKSymbolProvider.kt:17-45 | After the pre-pass, every declaration it registered is provided with its universe symbol, without changing the state. That symbol's target is unset until the builder binds it. |
| Provider.PreBuildKeepsOthers | j2k/newSrc/org/jetbrains/kotlin/j2k/JKSymbolProvider.kt:17-49 | The pre-pass leaves the symbols of elements it does not register untouched. |
| Provider.PreBuildTree | j2k/newSrc/org/jetbrains/kotlin/j2k/JKSymbolProvider.kt:17-19 | The pre-pass binds no target and removes no symbol. It uses one serial per registration its files make. |
| Provider.Visit | j2k/newSrc/org/jetbrains/kotlin/j2k/JKSymbolProvider.kt:33-49 | Visiting one element binds no target and removes no symbol. It uses one serial per registration the element makes. |
| Provider.VisitAll | j2k/newSrc/org/jetbrains/kotlin/j2k/JKSymbolProvider.kt:17-19 | Visiting a list of elements binds no target and removes no symbol. It uses one serial per registration the list makes. |
| Provider.LocalClassIsMultiverse | j2k/newSrc/org/jetbrains/kotlin/j2k/JKSymbolProvider.kt:21-49 | A class declared inside a method body is missed by the pre-pass. Asking for it later creates a multiverse class symbol. |
| Provider.Target | j2k/newSrc/org/jetbrains/kotlin/j2k/tree/impl/symbols.kt:33-90 | Reading a target fails with an uninitialised `lateinit` exactly for a universe symbol that was never bound. A multiverse symbol's target is its foreign element. |
| Provider.Bind | j2k/newSrc/org/jetbrains/kotlin/j2k/JavaToJKTreeBuilder.kt:227 | Binding a target leaves the symbol table untouched. |
| Provider.BindThenTarget | j2k/newSrc/org/jetbrains/kotlin/j2k/tree/impl/symbols.kt:33-34 | After binding, a universe symbol's target is the bound node. |
| Provider.MultiverseTargetFixed | j2k/newSrc/org/jetbrains/kotlin/j2k/tree/impl/symbols.kt:41-46 | Binding any symbol never changes a multiverse symbol's target. |
| Provider.UniverseRebind | j2k/newSrc/org/jetbrains/kotlin/j2k/tree/impl/symbols.kt:33-34 | Binding a universe symbol again replaces its target, as writing a `lateinit var` again does. |
| Provider.BindIsolated | j2k/newSrc/org/jetbrains/kotlin/j2k/tree/impl/symbols.kt:33-34 | In a valid provider, binding one element's symbol does not change the target of another element's symbol. |
| Provider.FqName | j2k/newSrc/org/jetbrains/kotlin/j2k/tree/impl/symbols.kt:37-90 | A universe symbol's name is its bound declaration's name and fails while it is unbound. A multiverse symbol's name comes from the foreign element. |
| Provider.BoundUniverseName | j2k/newSrc/org/jetbrains/kotlin/j2k/tree/impl/symbols.kt:37-38 | Once bound to a named declaration, a universe symbol has that declaration's name. |
| Provider.BoundFieldSymbol | j2k/newSrc/org/jetbrains/kotlin/j2k/tree/impl/symbols.kt:72-75 | A field symbol created from a field node is a universe field symbol that is already bound to that node. |
| TypeConversion.ToJK | j2k/newSrc/org/jetbrains/kotlin/j2k/tree/types.kt:63-103 | A Java type converts exactly when it is one of the handled type forms. For class types, each class it names must have, or be able to get, a class symbol. The provider gains exactly the classes the type names. |
| TypeConversion.ClassTypeToJK | j2k/newSrc/org/jetbrains/kotlin/j2k/tree/types.kt:65-81 | A class type succeeds under the same condition and adds its resolved classes to the provider. |
| TypeConversion.ToJKAll | j2k/newSrc/org/jetbrains/kotlin/j2k/tree/types.kt:67 | Type parameters convert exactly when each of them does, and each of them yields one type. |
| TypeConversion.WildcardShapes | j2k/newSrc/org/jetbrains/kotlin/j2k/tree/types.kt:87-100 | `? extends B` becomes an `out` projection of B, and `? super B` becomes an `in` projection of B. Both use default nullability. A bare `?` is a star projection that leaves the provider alone. |
| TypeConversion.UnresolvedAndParameterShapes | j2k/newSrc/org/jetbrains/kotlin/j2k/tree/types.kt:68-72 | An unresolved class type keeps its raw text, converted parameters and nullability. A type parameter keeps only its name and always has default nullability. |
| TypeConversion.ToJKStable | j2k/newSrc/org/jetbrains/kotlin/j2k/tree/types.kt:63-103 | A type that converts in some provider converts to the same type in every later provider. |
| ModifierMapper.ModifierToJK | j2k/newSrc/org/jetbrains/kotlin/j2k/JavaToJKTreeBuilder.kt:285-300 | A modifier name converts exactly when it is an access modifier or one of the eight Java modifiers. Anything else is a `TODO`. The result is an access node exactly for access names and has the same name. |
| ModifierMapper.ModifierNameInjective | j2k/newSrc/org/jetbrains/kotlin/j2k/JavaToJKTreeBuilder.kt:285-300 | Two modifier nodes with the same name are equal. |
| ModifierMapper.ExplicitPositions | j2k/newSrc/org/jetbrains/kotlin/j2k/JavaToJKTreeBuilder.kt:282 | Filtering the modifier table yields, in ascending order, exactly the positions of the explicitly written modifiers. |
| ModifierMapper.MapModifiers | j2k/newSrc/org/jetbrains/kotlin/j2k/JavaToJKTreeBuilder.kt:282 | Mapping succeeds exactly when every name converts. Each node has the name at its position. |
| ModifierMapper.ModifierListToJK | j2k/newSrc/org/jetbrains/kotlin/j2k/JavaToJKTreeBuilder.kt:280-283 | A modifier list always converts to a modifier-list node. Its contents are stated by the lemmas below. |
| ModifierMapper.ExplicitNamesFacts | j2k/newSrc/org/jetbrains/kotlin/j2k/JavaToJKTreeBuilder.kt:282 | The filtered names are exactly the explicit modifiers the table knows, in table order. |
| ModifierMapper.MissingModifierList | j2k/newSrc/org/jetbrains/kotlin/j2k/JavaToJKTreeBuilder.kt:281 | A missing modifier list becomes an empty one. |
| ModifierMapper.ModifierListSucceeds | j2k/newSrc/org/jetbrains/kotlin/j2k/JavaToJKTreeBuilder.kt:280-300 | A modifier list converts exactly when every explicit modifier known to the table is an access modifier or a Java modifier. |
| ModifierMapper.ModifierListContents | j2k/newSrc/org/jetbrains/kotlin/j2k/JavaToJKTreeBuilder.kt:280-300 | A converted list holds a node for every explicit known modifier and nothing else, ordered as the modifier table orders them. |
| ExpressionMapper.LiteralToJK | j2k/newSrc/org/jetbrains/kotlin/j2k/JavaToJKTreeBuilder.kt:90-105 | A literal converts unless its kind is unknown, which is an error, or its quoted inner text is missing, which fails on `!!`. String and character literals keep their inner text and numbers keep their full text. The literal type follows the token. |
| ExpressionMapper.LiteralKeepsText | j2k/newSrc/org/jetbrains/kotlin/j2k/JavaToJKTreeBuilder.kt:93-104 | For a well-formed literal, the source text is recovered from the converted one by adding back the quotes for strings and characters. |
| ExpressionMapper.OperatorToJK | j2k/newSrc/org/jetbrains/kotlin/j2k/JavaToJKTreeBuilder.kt:107-111 | Exactly the `+` and `-` tokens convert, each to the Java operator with that token. Any other token is an error. |
| ExpressionMapper.BuiltOperatorsConvert | j2k/newSrc/org/jetbrains/kotlin/j2k/JavaToJKTreeBuilder.kt:107-111 | Every operator the builder can produce has a Kotlin counterpart in `javaToKotlinOperator`. |
| ExpressionMapper.Dimensions | j2k/newSrc/org/jetbrains/kotlin/j2k/JavaToJKTreeBuilder.kt:155-167 | A successful dimension scan yields one entry per `[` in the children. |
| ExpressionMapper.ScanDimensions | j2k/newSrc/org/jetbrains/kotlin/j2k/JavaToJKTreeBuilder.kt:155-167 | The sibling-walking loop yields the same dimensions, or the same failure, as the recursive definition. |
| ExpressionMapper.DimensionsRoundTrip | j2k/newSrc/org/jetbrains/kotlin/j2k/JavaToJKTreeBuilder.kt:155-167 | Scanning the brackets written for any list of dimensions, with or without literal sizes, gives back that list. |
| ExpressionMapper.NonLiteralSize | j2k/newSrc/org/jetbrains/kotlin/j2k/JavaToJKTreeBuilder.kt:163 | A dimension whose size is not a literal, such as `new int[n]`, fails in the cast. |
| ExpressionMapper.DimensionsToJK | j2k/newSrc/org/jetbrains/kotlin/j2k/JavaToJKTreeBuilder.kt:168 | Converted dimensions correspond one to one, with an empty dimension exactly where the source has one. |
| ExpressionMapper.TypeToJK | j2k/newSrc/org/jetbrains/kotlin/j2k/JavaToJKTreeBuilder.kt:199-210 | The builder's own type conversion only ever extends the provider. |
| ExpressionMapper.TypesToJK | j2k/newSrc/org/jetbrains/kotlin/j2k/JavaToJKTreeBuilder.kt:203 | Converting type parameters extends the provider and yields one type per parameter. |
| ExpressionMapper.TypeToJKAgrees | j2k/newSrc/org/jetbrains/kotlin/j2k/JavaToJKTreeBuilder.kt:199-210 | The builder's private conversion agrees with the shared `PsiType.toJK` at default nullability wherever the shared one succeeds on these types: class types whose target resolves to a class that is not a type parameter, with parameters of the same kind, arrays of such types, and primitives. |
| ExpressionMapper.UnresolvedTypeDisagrees | j2k/newSrc/org/jetbrains/kotlin/j2k/JavaToJKTreeBuilder.kt:201-202 | On an unresolved class type the builder fails on `!!`, while the shared conversion builds an unresolved class type from the raw text. |
| ExpressionMapper.TypeParameterDisagrees | j2k/newSrc/org/jetbrains/kotlin/j2k/JavaToJKTreeBuilder.kt:201-202 | On a type parameter the provider has not seen, the builder builds a class type over a multiverse class symbol, while the shared conversion builds a type-parameter type. |
| ExpressionMapper.ExprToJK | j2k/newSrc/org/jetbrains/kotlin/j2k/JavaToJKTreeBuilder.kt:41-80 | Building an expression only ever extends the provider. Contents are stated by the lemmas below. |
| ExpressionMapper.CallToJK | j2k/newSrc/org/jetbrains/kotlin/j2k/JavaToJKTreeBuilder.kt:121-131 | Building a method call only extends the provider. |
| ExpressionMapper.ReferenceToJK | j2k/newSrc/org/jetbrains/kotlin/j2k/JavaToJKTreeBuilder.kt:133-146 | Building a reference only extends the provider. |
| ExpressionMapper.NewToJK | j2k/newSrc/org/jetbrains/kotlin/j2k/JavaToJKTreeBuilder.kt:148-175 | Building a `new` expression only extends the provider. |
| ExpressionMapper.RequiredToJK | j2k/newSrc/org/jetbrains/kotlin/j2k/JavaToJKTreeBuilder.kt:114 | A missing required operand is a `TODO`. |
| ExpressionMapper.QualifierToJK | j2k/newSrc/org/jetbrains/kotlin/j2k/JavaToJKTreeBuilder.kt:127 | A qualifier that is not an expression fails in the cast. |
| ExpressionMapper.ExprsToJK | j2k/newSrc/org/jetbrains/kotlin/j2k/JavaToJKTreeBuilder.kt:189-191 | An argument list converts to one expression per argument. |
| ExpressionMapper.ExprOperators | j2k/newSrc/org/jetbrains/kotlin/j2k/JavaToJKTreeBuilder.kt:41-111 | Every operator in a built expression is the Java `PLUS` or `MINUS`. |
| ExpressionMapper.ProviderFreeIgnoresState | j2k/newSrc/org/jetbrains/kotlin/j2k/JavaToJKTreeBuilder.kt:121-146 | An expression that needs no symbol from the provider builds the same node in every provider state. |
| ExpressionMapper.MethodCallBypassesProvider | j2k/newSrc/org/jetbrains/kotlin/j2k/JavaToJKTreeBuilder.kt:121-131 | A method call builds a multiverse method symbol directly, even for a method declared in the converted files. It is qualified by `.` exactly when the call is. |
| ExpressionMapper.ReferenceShape | j2k/newSrc/org/jetbrains/kotlin/j2k/JavaToJKTreeBuilder.kt:133-146 | A reference that does not resolve to a field becomes a `null` literal. A field reference becomes a field access through a multiverse field symbol. It is qualified only when written with a dot whose qualifier is not a class. |
| ExpressionMapper.ConstructorUsesProvider | j2k/newSrc/org/jetbrains/kotlin/j2k/JavaToJKTreeBuilder.kt:171-174 | A constructor call does go through the provider. It uses the pre-registered symbol when there is one, and a multiverse method symbol otherwise. |
| ExpressionMapper.NewArrayInitializer | j2k/newSrc/org/jetbrains/kotlin/j2k/JavaToJKTreeBuilder.kt:151-153 | An empty array initializer builds an empty array literal. A non-empty one maps the `new` expression itself again and never finishes. |
| ExpressionMapper.NewEmptyArrayDimensions | j2k/newSrc/org/jetbrains/kotlin/j2k/JavaToJKTreeBuilder.kt:150-169 | `new T[..][..]` without an initializer builds an empty array with exactly the scanned dimensions. |
| DeclarationMapper.ClassKindOf | j2k/newSrc/org/jetbrains/kotlin/j2k/JavaToJKTreeBuilder.kt:216-221 | The class kind follows the priority annotation, enum, interface, class. An annotation type is an annotation whatever else it is. An enum that is not an annotation type is an enum, even if it is also an interface. An interface is an interface only when it is neither. A class with none of the three flags is a plain class. It is never companion. |
| DeclarationMapper.Publish | j2k/newSrc/org/jetbrains/kotlin/j2k/JavaToJKTreeBuilder.kt:227 | Publishing a declaration succeeds exactly when its element can be provided a symbol. A pre-registered universe symbol then targets the new node. An element unknown until then gets a multiverse symbol that keeps its foreign target. |
| DeclarationMapper.StatementToJK | j2k/newSrc/org/jetbrains/kotlin/j2k/JavaToJKTreeBuilder.kt:268-276 | Expression and return statements convert to their JK counterparts. Every other statement is a `TODO`. |
| DeclarationMapper.StatementsToJK | j2k/newSrc/org/jetbrains/kotlin/j2k/JavaToJKTreeBuilder.kt:264-266 | A code block converts statement by statement, in order. |
| DeclarationMapper.TypeElementToJK | j2k/newSrc/org/jetbrains/kotlin/j2k/JavaToJKTreeBuilder.kt:193-197 | A missing type element is a `TODO`. A present one becomes a type-element node. |
| DeclarationMapper.ParameterToJK | j2k/newSrc/org/jetbrains/kotlin/j2k/JavaToJKTreeBuilder.kt:260-262 | A parameter becomes a value argument with the parameter's name. A missing type is a `TODO`. A missing name fails. |
| DeclarationMapper.ParametersToJK | j2k/newSrc/org/jetbrains/kotlin/j2k/JavaToJKTreeBuilder.kt:247 | Parameters convert one to one, in order and with their names. |
| DeclarationMapper.FieldToJK | j2k/newSrc/org/jetbrains/kotlin/j2k/JavaToJKTreeBuilder.kt:231-240 | A field becomes a Java field with its name, and its element ends up with a symbol. A pre-registered field symbol is bound to the new node. A missing initializer is a `TODO`. |
| DeclarationMapper.MethodToJK | j2k/newSrc/org/jetbrains/kotlin/j2k/JavaToJKTreeBuilder.kt:242-252 | A method becomes a Java method with its name, one value argument per parameter, and a block with one statement per source statement. Its pre-registered symbol is bound to the new node. |
| DeclarationMapper.ClassToJK | j2k/newSrc/org/jetbrains/kotlin/j2k/JavaToJKTreeBuilder.kt:215-229 | A class becomes a class node with its name, the kind derived from its flags, no extra modifiers, and only declarations among its members. A missing name fails. |
| DeclarationMapper.MembersToJK | j2k/newSrc/org/jetbrains/kotlin/j2k/JavaToJKTreeBuilder.kt:224-226 | A class's members yield at most one declaration each, and only declarations. |
| DeclarationMapper.MembersInSourceOrder | j2k/newSrc/org/jetbrains/kotlin/j2k/JavaToJKTreeBuilder.kt:224-226 | The declarations of a class appear in source order, with non-declarations dropped. |
| DeclarationMapper.ElementToJK | j2k/newSrc/org/jetbrains/kotlin/j2k/JavaToJKTreeBuilder.kt:303-322 | A class, field or method element yields a declaration with its own name. Other elements yield nothing and leave the provider alone. |
| DeclarationMapper.FileChildrenToJK | j2k/newSrc/org/jetbrains/kotlin/j2k/JavaToJKTreeBuilder.kt:319-321 | Visiting a file's children keeps the provider valid and yields a declaration or nothing. Once a declaration has been produced, some declaration stays the result. |
| DeclarationMapper.FileChildrenAppend | j2k/newSrc/org/jetbrains/kotlin/j2k/JavaToJKTreeBuilder.kt:319-321 | Visiting one more child either replaces the result with the node that child produces or keeps the result if it produces none. A failure stays a failure. |
| DeclarationMapper.BuildFileLastWins | j2k/newSrc/org/jetbrains/kotlin/j2k/JavaToJKTreeBuilder.kt:319-330 | A file's result is its last declaration. A class, field or method added last becomes the result. An element that produces nothing leaves the result unchanged. |
| DeclarationMapper.BuildTree | j2k/newSrc/org/jetbrains/kotlin/j2k/JavaToJKTreeBuilder.kt:325-330 | Building a tree preserves the provider invariant and yields a declaration or nothing. |
| DeclarationMapper.PreBuildHolds | j2k/newSrc/org/jetbrains/kotlin/j2k/JKSymbolProvider.kt:33-45 | After the pre-pass, an element holds the universe symbol of the category it was last registered with. |
| DeclarationMapper.PreBuildThenBuildBinds | j2k/newSrc/org/jetbrains/kotlin/j2k/JavaToJKTreeBuilder.kt:223-251 | When the pre-pass has run on the files first, building a class, field or method binds its universe symbol to the node built for it. |
| DeclarationMapper.BuildWithoutPreBuild | j2k/newSrc/org/jetbrains/kotlin/j2k/JavaToJKTreeBuilder.kt:223-251 | Without the pre-pass, building a declaration leaves it with a multiverse symbol that still points at the Java element. |
| OperatorConversion.TokenOf | j2k/newSrc/org/jetbrains/kotlin/j2k/conversions/OperatorExpressionConversion.kt:19-28 | The pass finds a token exactly for operator expressions whose operator is in `javaToKotlinOperator`. The token is the Kotlin counterpart. |
| OperatorConversion.Apply | j2k/newSrc/org/jetbrains/kotlin/j2k/conversions/OperatorExpressionConversion.kt:18-46 | The pass preserves the size of the tree. |
| OperatorConversion.Recurse | j2k/newSrc/org/jetbrains/kotlin/j2k/conversions/OperatorExpressionConversion.kt:28 | Applying the pass to the children preserves the size of the tree. |
| OperatorConversion.UnconvertedGoesToRecurse | j2k/newSrc/org/jetbrains/kotlin/j2k/conversions/OperatorExpressionConversion.kt:19-28 | A node without a convertible operator is only descended into. Each child is replaced by the pass applied to it, and an operator node keeps its operator. |
| OperatorConversion.ConvertedOperatorShape | j2k/newSrc/org/jetbrains/kotlin/j2k/conversions/OperatorExpressionConversion.kt:30-43 | A convertible binary, prefix or postfix expression becomes the same kind of expression over the converted operands, with the Kotlin operator. |
| OperatorConversion.TypeCastOperandUntouched | j2k/newSrc/org/jetbrains/kotlin/j2k/conversions/OperatorExpressionConversion.kt:44 | The operand of a type cast is not a child, so the pass does not reach it. |
| OperatorConversion.SlotlessUntouched | j2k/newSrc/org/jetbrains/kotlin/j2k/conversions/OperatorExpressionConversion.kt:44 | A node without children, such as a Java method call, field or method, comes back unchanged, whatever it contains. |
| OperatorConversion.ApplyConverts | j2k/newSrc/org/jetbrains/kotlin/j2k/conversions/OperatorExpressionConversion.kt:18-46 | After the pass, no operator it can reach is still convertible. |
| OperatorConversion.ConvertedIsFixed | j2k/newSrc/org/jetbrains/kotlin/j2k/conversions/OperatorExpressionConversion.kt:18-46 | The pass leaves a fully converted tree unchanged. |
| OperatorConversion.ApplyIdempotent | j2k/newSrc/org/jetbrains/kotlin/j2k/conversions/OperatorExpressionConversion.kt:18-46 | Running the pass twice gives the same tree as running it once. |
| OperatorConversion.ApplyMapsOperators | j2k/newSrc/org/jetbrains/kotlin/j2k/conversions/OperatorExpressionConversion.kt:18-46 | If a tree's operators all lie in a set, after the pass they all lie in that set's image under `javaToKotlinOperator`. |
| OperatorConversion.BuilderOperatorsImage | j2k/newSrc/org/jetbrains/kotlin/j2k/tree/impl/k.kt:91-100 | The image of the Java `PLUS` and `MINUS` is the Kotlin `PLUS` and `MINUS`. |
| OperatorConversion.BuilderOutputBecomesKotlin | j2k/newSrc/org/jetbrains/kotlin/j2k/conversions/OperatorExpressionConversion.kt:18-46 | A tree holding only Java `PLUS`/`MINUS` holds only Kotlin `PLUS`/`MINUS` after the pass. |
| Pipeline.BuiltExpressionBecomesKotlin | j2k/newSrc/org/jetbrains/kotlin/j2k/conversions/OperatorExpressionConversion.kt:18-46 | Any expression the builder produces is, after the operator pass, fully converted with only Kotlin `PLUS`/`MINUS`. If it is an operator expression, its type can now be asked for. |
| InnerClassConversion.RemoveFirst | nj2k/src/org/jetbrains/kotlin/nj2k/conversions/InnerClassConversion.kt:29-31 | Removing `static` drops exactly its first occurrence and keeps the rest in order. |
| InnerClassConversion.Retag | nj2k/src/org/jetbrains/kotlin/nj2k/conversions/InnerClassConversion.kt:29-36 | A nested class that has `static` loses one `static`. Otherwise it gains `inner` when neither it nor its outer class is an interface and it is not an enum. Otherwise its extra modifiers stay as they are. |
| InnerClassConversion.RetagInner | nj2k/src/org/jetbrains/kotlin/nj2k/conversions/InnerClassConversion.kt:29-36 | After retagging, a class is `inner` exactly when it already was, or when it had no `static` and qualifies for `inner`. No other modifier's count changes. |
| InnerClassConversion.RetagTwiceAddsTwice | nj2k/src/org/jetbrains/kotlin/nj2k/conversions/InnerClassConversion.kt:32-36 | Retagging a qualifying class twice adds `inner` twice. |
| InnerClassConversion.RecurseArmedShape | nj2k/src/org/jetbrains/kotlin/nj2k/conversions/InnerClassConversion.kt:20-22 | Descending inside a class applies the armed step to each child with the same outer class. The node's own kind and modifiers are left alone. |
| InnerClassConversion.ArmedShape | nj2k/src/org/jetbrains/kotlin/nj2k/conversions/InnerClassConversion.kt:24-39 | A nested class that is not a companion or local class is retagged, and its own children then see it as their outer class. Anything else is descended into with the outer class unchanged. |
| InnerClassConversion.ApplyShape | nj2k/src/org/jetbrains/kotlin/nj2k/conversions/InnerClassConversion.kt:15-18 | The pass leaves a top-level class itself unchanged and arms its children with it as outer class. A non-class is only descended into. |
| InnerClassConversion.ArmedOnlyRetags | nj2k/src/org/jetbrains/kotlin/nj2k/conversions/InnerClassConversion.kt:24-39 | The armed step changes nothing but the extra modifiers of classes. |
| InnerClassConversion.Apply | nj2k/src/org/jetbrains/kotlin/nj2k/conversions/InnerClassConversion.kt:15-18 | The pass keeps the size of the tree. |
| InnerClassConversion.RecurseArmed | nj2k/src/org/jetbrains/kotlin/nj2k/conversions/InnerClassConversion.kt:20-22 | Recursing under an enclosing class keeps the size of the tree. |
| InnerClassConversion.Armed | nj2k/src/org/jetbrains/kotlin/nj2k/conversions/InnerClassConversion.kt:24-39 | `applyArmed` keeps the size of the tree. |
| InnerClassConversion.ApplyOnlyRetags | nj2k/src/org/jetbrains/kotlin/nj2k/conversions/InnerClassConversion.kt:15-39 | The whole pass changes nothing but the extra modifiers of classes. |
| InnerClassConversion.SecondRunAddsInnerAgain | nj2k/src/org/jetbrains/kotlin/nj2k/conversions/InnerClassConversion.kt:32-36 | The pass is not idempotent. On a class holding a nested class, the first run makes the nested class `inner`, and a second run adds another `inner`. |

## Left out

- The IntelliJ PSI and its resolution are replaced by `JavaAst`.
  - Each reference stores the element it resolves to.
  - Each `new` expression lists its children as tokens for the sibling walk.
  - The `JavaTokenType`, `PsiModifier` and `KtTokens` constants are
    enumerations.
- `PsiModifier.MODIFIERS` is not part of this model. Its order is taken
  as public, protected, private, static, abstract, final, native,
  synchronized, strictfp, transient, volatile, default, open, transitive.
- The builder's `backAnnotation` map is left out. It only records which
  PSI element a node came from.
- Parent links, `attach`/`detach` and the mutable child properties are
  left out. Children are the immutable `Slots` of a node, and a pass
  returns a new tree.
- `RecursiveApplicableConversionBase` and `applyRecursive` are not part
  of this model. `recurse` is taken as applying the pass to every child
  slot in order.
- `toKtToken`, `kotlinBinaryExpression`, `kotlinPrefixExpression` and
  `kotlinPostfixExpression` are not part of this model. They are taken
  to build the same kind of expression with the Kotlin operator named by
  `javaToKotlinOperator`.
- OperatorConversion.Apply: the `!!` after `kotlinBinaryExpression` is
  taken to succeed, because the function is not part of this model. Its
  own contract states only size preservation; the lemmas state what it
  computes.
- `isLocalClass` is not part of this model and is a parameter of the
  inner-class pass.
- The Kotlin type-system queries in `types.kt` are left out: subtyping,
  `toKtType`, `isCollectionType`, `returnTypeNullability` and
  `ClassId.toKtClassType`. They need the Kotlin compiler's analyser.
- `JKExpression.type` asks a `TypeOracle` parameter for:
  - the types of literals and operators;
  - the symbol-typed expressions;
  - the class a `new` expression instantiates.

  The `throw` and `instanceof` expressions are left out; they need
  `kotlinTypeByName`.
- `provideDirectSymbol` and `provideByFqName` are not part of this model.
  Where `PsiType.toJK` calls `provideDirectSymbol`, `provideSymbol` is
  used.
- The driver, `NewJavaToKotlinConverter`, is left out. Only its order is
  kept: the pre-pass runs before the builder. That order is the
  precondition of `DeclarationMapper.PreBuildThenBuildBinds`.
- The build script in the repository has nothing to model.
- ExpressionMapper.ExprToJK: its own contract states only that the
  provider grows. The contents are stated by `ExprOperators`,
  `MethodCallBypassesProvider`, `ReferenceShape`,
  `ConstructorUsesProvider` and the `NewArray*` lemmas. These cover every
  case that does not just wrap its children.
- Provider.Bind: its own contract states only that the symbol table is
  untouched. Its effect on targets is stated by `BindThenTarget`,
  `MultiverseTargetFixed`, `UniverseRebind` and `BindIsolated`.
- ExpressionMapper.TypeToJK: its own contract states only that the
  provider grows. `TypeToJKAgrees` relates it to `TypeConversion.ToJK`.
- ExpressionMapper.CallToJK: its own contract states only that the
  provider grows. Its result is stated by `MethodCallBypassesProvider`.
- ExpressionMapper.ReferenceToJK: its own contract states only that the
  provider grows. Its result is stated by `ReferenceShape`.
- ExpressionMapper.NewToJK: its own contract states only that the provider
  grows. Its result is stated by `ConstructorUsesProvider`,
  `NewArrayInitializer` and `NewEmptyArrayDimensions`.
- ModifierMapper.ModifierListToJK: its own contract states only the node
  kind. Its contents are stated by `MissingModifierList`,
  `ModifierListSucceeds` and `ModifierListContents`.
- OperatorConversion.Recurse: its own contract states only size
  preservation. Its result is stated by `UnconvertedGoesToRecurse`.
- DeclarationMapper.BuildTree: its own contract states only the provider
  invariant and that the result is a declaration. What each element
  yields is stated by `DeclarationMapper.ElementToJK`. For a file, it is
  stated by `DeclarationMapper.BuildFileLastWins`.
- DeclarationMapper.FileChildrenToJK: its own contract does not say
  which declaration is kept. That the last one wins is stated by
  `DeclarationMapper.FileChildrenAppend` and
  `DeclarationMapper.BuildFileLastWins`.
- InnerClassConversion.Apply, InnerClassConversion.RecurseArmed and
  InnerClassConversion.Armed: their own contracts state only size
  preservation. What they compute is stated by `ApplyShape`,
  `RecurseArmedShape`, `ArmedShape`, `ArmedOnlyRetags` and
  `ApplyOnlyRetags`.
- Tree.WithSlots carries no contract of its own. It is stated by
  `SlotsOfWithSlots`, `WithOwnSlots`, `WithSlotsOnlyTouchesSlots`,
  `SameShape`, `WithSlotsKeepsOperator` and `WithSlotsKeepsCategory`.
- TypeOps.ExpressionType: its own contract covers literals, operator
  expressions and the failure kinds. The other cases are stated by
  `OperatorExpressionType`, `QualifiedHasSelectorType`,
  `ParenthesesKeepType` and `TypeCastHasCastType`.
- `types.kt` line 41 matches `JKFieldAccessExpressionImpl`, and no file
  of this model defines that class. The model asks the `TypeOracle` for
  the type of both the Java and the Kotlin field access.
- `JKJavaMethodImpl` takes four constructor arguments (j.kt lines
  55-60), but the builder passes five, the return type second
  (JavaToJKTreeBuilder.kt lines 243-249). The model converts the return
  type element, so a failure there is kept, and then drops it, as the
  constructor has no place for it.
- ExpressionMapper.NewArrayInitializer: the source recurses without end
  (a stack overflow). The model returns `Fail(Diverges)` instead.
- `JKElement.valid` is `true` for Java fields and methods and is a
  constant in the model; nothing is stated about it.
- The accept methods are modelled by the visit-method kind of each node
  and by `Tree.AcceptChildren`. No visitor objects are modelled.

## Where the code and its description differ

The model follows the code in each of these cases:

- **Method calls and field references skip the provider.** The builder
  creates multiverse symbols directly for them (JavaToJKTreeBuilder.kt
  lines 124 and 139). This happens even when the method or field is
  declared in the converted files and was pre-registered. So those uses
  never meet the universe symbol of their own declaration. Among
  expressions, only constructor calls and class types go through
  `provideSymbol`; declarations also call it, to bind their own symbols
  (`DeclarationMapper.Publish`)
  (`ExpressionMapper.MethodCallBypassesProvider`,
  `ExpressionMapper.ConstructorUsesProvider`).
- **A non-empty array initializer never finishes.** It maps the `new`
  expression itself instead of each initializer, at line 153, so building
  it never ends (`ExpressionMapper.NewArrayInitializer`).
- **The builder's type conversion differs from the shared one.** They
  agree only on resolved class types that are not type parameters, arrays
  of those, and primitives (`ExpressionMapper.TypeToJKAgrees`). An
  unresolved class type makes the builder fail on `!!` (lines 201-202).
  `types.kt` builds an unresolved class type instead
  (`ExpressionMapper.UnresolvedTypeDisagrees`). For a type parameter, the
  provider treats it as a class (JKSymbolProvider.kt line 24), so the
  builder builds a class type over a multiverse class symbol. `types.kt`
  builds a type-parameter type (`ExpressionMapper.TypeParameterDisagrees`).
- **Most statements are a `TODO`.** Only expression and return statements
  are converted (lines 268-276).
- **The inner-class pass is not idempotent.** Running it twice adds a
  second `inner` (`InnerClassConversion.SecondRunAddsInnerAgain`).
- **The operator pass misses some operators.** This holds if
  `applyRecursive`, which is not part of this model, applies the pass to
  every child slot and nothing else. The pass then reaches only child
  slots. Operators inside a type cast's operand, a Java method call's
  arguments, or a Java field's or method's parts are left unconverted
  (`OperatorConversion.TypeCastOperandUntouched`,
  `OperatorConversion.SlotlessUntouched`).
- **Re-applying the operator pass is harmless.** After converting an
  operator node, the pass recurses into its already converted operands
  again. Idempotence (`OperatorConversion.ApplyIdempotent`) shows this
  changes nothing.
- **`toLiteralType` tests `CHAR` twice.** Its second `CHAR` test is dead.
  `byte` falls through to the default case and has no literal type
  (`TypeOps.ConversionDomains`).
