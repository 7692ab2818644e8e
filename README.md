# mapstruct-eclipse in Dafny

A model of the logic of the MapStruct Eclipse plug-in, with proofs:

- **Content assist** inside MapStruct annotations:
  - the property paths of `@Mapping(source = …, target = …)` and `@ValueMapping`;
  - the `componentModel` of `@Mapper`.

  This covers the newer computers (`proposal/…`), the older ones (`internal/…`), the `PropertyNameProposalCollector` visitor and the `Bindings` helpers.
- **Quick fixes** for MapStruct's "Can't map property" error:
  - the message matcher;
  - the "add method" fix;
  - the "ignore unmapped target property" fix;
  - the base class's import handling and apply decision;
  - the visitor that finds an annotation by name.

The model works over an abstract stand-in for Eclipse JDT, not over JDT itself:

- **Types:** a type table (`TypeBindings`) standing in for `ITypeBinding` and friends.
- **Syntax trees:** a syntax tree (`Ast.Node`) that the visitors walk in `ASTNode.accept` order.
- **Java model:** `AnnotationCompletion.CompilationUnit`, standing in for `ICompilationUnit`/`IAnnotation`.
- **Rewrites:** `ListRewrites.ListRewrite`, standing in for JDT's list rewrites.
- **Java library behaviour** the code relies on (`JavaLang`):
  - `startsWith`;
  - `lastIndexOf`;
  - `split("\\.")`;
  - `String.compareTo` and `TreeSet` order;
  - `Introspector.decapitalize` as in section 8.8 of the JavaBeans 1.01 specification;
  - 32-bit `int` addition;
  - which strings are identifiers and names, as JDT's `newSimpleName` and `newName` check them.

Each visitor is given twice: as pure step functions plus a `Walk` over the tree, and as a class with the Java fields whose methods are proved to follow those functions. Each pure function has lemmas about it. Exceptions that the Java code catches are modelled as `Option`/`ok` results and the catch's empty list.

One module per source file:

| module | file |
|---|---|
| JavaLang | Java library semantics every module states its contracts in |
| TypeBindings, Ast | the abstract bindings and syntax tree |
| MapStructApiConstants | internal/MapStructAPIConstants.java |
| Bindings | internal/Bindings.java |
| PropertyAccessors, ProposalCollector | internal/proposal/visitors/PropertyNameProposalCollector.java |
| AnnotationCompletion | internal/proposal/AbstractAnnotationCompletionProposalComputer.java |
| MapperCompletion | internal/proposal/MapperAnnotationCompletionProposalComputer.java |
| MappingCompletion | internal/proposal/MappingAnnotationCompletionProposalComputer.java |
| InternalAnnotationCompletion | internal/AbstractAnnotationCompletionProposalComputer.java |
| InternalVisitor, MapStructCompletion | internal/MapStructCompletionProposalComputer.java |
| InternalVisitor, InternalMappingCompletion | internal/MappingAnnotationCompletionProposalComputer.java |
| CantMapPropertyFactory | internal/quickfix/factories/CantMapPropertyQFFactory.java |
| ListRewrites, MapStructQuickFix | internal/quickfix/MapStructQuickFix.java |
| AddMethodFix | internal/quickfix/fixes/AddMethodQuickFix.java |
| AddIgnoreTargetMappingFix | internal/quickfix/fixes/AddIgnoreTargetMappingAnnotationQuickFix.java |
| FindAnnotationByName | internal/quickfix/visitors/FindAnnotationByNameVisitor.java |

Where the code differs from its own documentation, the model follows the code. For example, the older `isInRange` is computed with 32-bit wrap-around (`InternalAnnotationCompletion.IsInRangeWraps`).

## Model

| member | source | states |
|---|---|---|
| MapStructApiConstants.QualifiedInjective | org.mapstruct.eclipse/src/org/mapstruct/eclipse/internal/MapStructAPIConstants.java:38-72 | distinct simple names give distinct qualified names, and conversely |
| MapStructApiConstants.QualifiedIsName | org.mapstruct.eclipse/src/org/mapstruct/eclipse/internal/MapStructAPIConstants.java:33-72 | an identifier qualified with `org.mapstruct.` is a Java name |
| MapStructApiConstants.ImportedNamesAreNames | org.mapstruct.eclipse/src/org/mapstruct/eclipse/internal/MapStructAPIConstants.java:47-72 | the Mapping and Mappings names the fixes import are names `ast.newName` accepts |
| MapStructApiConstants.QualifiedNames | org.mapstruct.eclipse/src/org/mapstruct/eclipse/internal/MapStructAPIConstants.java:33-97 | each of the Mapper, Mapping, ValueMapping and Mappings qualified names is the prefix plus its simple name; the TargetType and MappingTarget names are the prefix plus their own names |
| MapStructApiConstants.NamesDistinct | org.mapstruct.eclipse/src/org/mapstruct/eclipse/internal/MapStructAPIConstants.java:38-87 | the four simple names are pairwise distinct, as are the four qualified names and the three member names source, target and ignore |
| JavaLang.Wrap32 | org.mapstruct.eclipse/src/org/mapstruct/eclipse/internal/AbstractAnnotationCompletionProposalComputer.java:125 | Java `int` addition: the result is a 32-bit value that differs from the sum by a multiple of 2^32; it is the sum when that fits, and the sum minus or plus 2^32 after a single positive or negative overflow |
| JavaLang.LastIndexOf | org.mapstruct.eclipse/src/org/mapstruct/eclipse/internal/proposal/visitors/PropertyNameProposalCollector.java:315-323 | -1 iff the character is absent; otherwise an index holding it with no later occurrence |
| JavaLang.Decapitalize | org.mapstruct.eclipse/src/org/mapstruct/eclipse/internal/proposal/visitors/PropertyNameProposalCollector.java:278-279 | keeps the length and every character after the first |
| JavaLang.DecapitalizeCases | org.mapstruct.eclipse/src/org/mapstruct/eclipse/internal/proposal/visitors/PropertyNameProposalCollector.java:278-279 | the three cases of JavaBeans section 8.8: empty stays empty, two leading capitals stay unchanged, otherwise the first character is lower-cased |
| JavaLang.DecapitalizeIdempotent | org.mapstruct.eclipse/src/org/mapstruct/eclipse/internal/proposal/visitors/PropertyNameProposalCollector.java:278-279 | decapitalizing twice equals decapitalizing once |
| JavaLang.Chunks | org.mapstruct.eclipse/src/org/mapstruct/eclipse/internal/proposal/visitors/PropertyNameProposalCollector.java:146 | at least one piece, no piece holds a dot, a dot-free string is its own single piece |
| JavaLang.JoinChunks | org.mapstruct.eclipse/src/org/mapstruct/eclipse/internal/proposal/visitors/PropertyNameProposalCollector.java:146 | joining the pieces with dots gives the string back |
| JavaLang.ChunksAfterDot | org.mapstruct.eclipse/src/org/mapstruct/eclipse/internal/quickfix/MapStructQuickFix.java:147 | the pieces of `a.b`, for a dot-free `a`, are `a` followed by the pieces of `b` |
| JavaLang.IdentifierHasNoDot | org.mapstruct.eclipse/src/org/mapstruct/eclipse/internal/quickfix/MapStructQuickFix.java:147 | an identifier holds no dot |
| JavaLang.IdentifierIsName | org.mapstruct.eclipse/src/org/mapstruct/eclipse/internal/quickfix/MapStructQuickFix.java:147 | an identifier is a name |
| JavaLang.NameAfterIdentifier | org.mapstruct.eclipse/src/org/mapstruct/eclipse/internal/quickfix/MapStructQuickFix.java:147 | an identifier, a dot and a name make a name |
| JavaLang.PrimitiveTypeCodeNotName | org.mapstruct.eclipse/src/org/mapstruct/eclipse/internal/quickfix/MapStructQuickFix.java:147 | a primitive type keyword is not a name, so `ast.newName` rejects it |
| JavaLang.DropTrailingEmpty | org.mapstruct.eclipse/src/org/mapstruct/eclipse/internal/proposal/visitors/PropertyNameProposalCollector.java:146 | a prefix of the pieces whose last element is non-empty, with only empty pieces removed |
| JavaLang.SplitDot | org.mapstruct.eclipse/src/org/mapstruct/eclipse/internal/proposal/visitors/PropertyNameProposalCollector.java:146 | `split("\\.")`: no resulting piece holds a dot |
| JavaLang.SplitDotJoin | org.mapstruct.eclipse/src/org/mapstruct/eclipse/internal/proposal/visitors/PropertyNameProposalCollector.java:146 | when the last piece is not empty, split keeps every piece and joining gives the string back |
| JavaLang.SplitDotEdgeCases | org.mapstruct.eclipse/src/org/mapstruct/eclipse/internal/proposal/visitors/PropertyNameProposalCollector.java:146 | Java's split of "", ".", "a." and ".a" |
| JavaLang.LessIrreflexive | org.mapstruct.eclipse/src/org/mapstruct/eclipse/internal/proposal/visitors/PropertyNameProposalCollector.java:65 | `compareTo` order: no string is less than itself |
| JavaLang.LessTransitive | org.mapstruct.eclipse/src/org/mapstruct/eclipse/internal/proposal/visitors/PropertyNameProposalCollector.java:65 | `compareTo` order is transitive |
| JavaLang.LessTotal | org.mapstruct.eclipse/src/org/mapstruct/eclipse/internal/proposal/visitors/PropertyNameProposalCollector.java:65 | `compareTo` order is total |
| JavaLang.LessAsymmetric | org.mapstruct.eclipse/src/org/mapstruct/eclipse/internal/proposal/visitors/PropertyNameProposalCollector.java:65 | `compareTo` order is asymmetric |
| JavaLang.TreeSetAdd | org.mapstruct.eclipse/src/org/mapstruct/eclipse/internal/proposal/visitors/PropertyNameProposalCollector.java:253-256 | `TreeSet.add` keeps the sequence strictly sorted and adds exactly the new element |
| JavaLang.SortedDistinct | org.mapstruct.eclipse/src/org/mapstruct/eclipse/internal/proposal/visitors/PropertyNameProposalCollector.java:65 | a strictly sorted sequence has no duplicates |
| JavaLang.SortedUnique | org.mapstruct.eclipse/src/org/mapstruct/eclipse/internal/proposal/visitors/PropertyNameProposalCollector.java:65 | two strictly sorted sequences with the same elements are equal, so a TreeSet's iteration order is fixed by its contents |
| JavaLang.SortedOf | org.mapstruct.eclipse/src/org/mapstruct/eclipse/internal/proposal/visitors/PropertyNameProposalCollector.java:65 | the iteration order of a TreeSet holding a given set: strictly sorted, same elements |
| JavaLang.TreeSetAddAll | org.mapstruct.eclipse/src/org/mapstruct/eclipse/internal/MapStructCompletionProposalComputer.java:250-256 | `addAll` keeps the order and adds exactly the given elements |
| Bindings.NamesOfUnion | org.mapstruct.eclipse/src/org/mapstruct/eclipse/internal/Bindings.java:60-62 | the names of a union of types are the union of their names |
| Bindings.AddDeclaredNames | org.mapstruct.eclipse/src/org/mapstruct/eclipse/internal/Bindings.java:60-62 | adds exactly the names of the declared methods |
| Bindings.CollectMethodNames | org.mapstruct.eclipse/src/org/mapstruct/eclipse/internal/Bindings.java:57-73 | the visited set only grows, `t` is visited unless it is `java.lang.Object`, the newly visited types are closed under expandable super types and included in every closed set holding `t`, and the names grow by exactly those types' declared method names |
| Bindings.CollectSupertypes | org.mapstruct.eclipse/src/org/mapstruct/eclipse/internal/Bindings.java:64-72 | the loop over interfaces then superclass: every expandable super type is visited, and the same closure and name invariants hold |
| Bindings.FindAllMethodNames | org.mapstruct.eclipse/src/org/mapstruct/eclipse/internal/Bindings.java:49-55 | exactly the names declared in the types reachable from `t` through expandable super types (the least closed set), never through `java.lang.Object` |
| Bindings.ReachClosed | org.mapstruct.eclipse/src/org/mapstruct/eclipse/internal/Bindings.java:57-73 | the reachable set is closed under super types and holds `t` unless `t` is `java.lang.Object` |
| Bindings.ReachFromObject | org.mapstruct.eclipse/src/org/mapstruct/eclipse/internal/Bindings.java:59-77 | starting from `java.lang.Object` reaches nothing and collects no name |
| Bindings.ReachAvoidsObject | org.mapstruct.eclipse/src/org/mapstruct/eclipse/internal/Bindings.java:59-77 | every reachable type is a known type other than `java.lang.Object` |
| Bindings.ContainsAnnotation | org.mapstruct.eclipse/src/org/mapstruct/eclipse/internal/Bindings.java:84-91 | true iff some annotation's type has the given qualified name |
| Bindings.EnumConstants | org.mapstruct.eclipse/src/org/mapstruct/eclipse/internal/Bindings.java:97-111 | empty for a non-enum; for an enum, the declared field names in order, one per field |
| Bindings.FindAllEnumConstants | org.mapstruct.eclipse/src/org/mapstruct/eclipse/internal/Bindings.java:97-111 | the append loop returns exactly `EnumConstants` |
| Bindings.GetAnnotationQualifiedName | org.mapstruct.eclipse/src/org/mapstruct/eclipse/internal/Bindings.java:116-126 | null when the method binding or its declaring class is missing, otherwise the declaring class's qualified name |
| PropertyAccessors.GetMatchingPrefix | org.mapstruct.eclipse/src/org/mapstruct/eclipse/internal/proposal/visitors/PropertyNameProposalCollector.java:305-312 | a returned prefix is a candidate the name starts with |
| PropertyAccessors.GetMatchingPrefixFirst | org.mapstruct.eclipse/src/org/mapstruct/eclipse/internal/proposal/visitors/PropertyNameProposalCollector.java:305-312 | null iff no candidate matches; otherwise the first matching candidate in array order |
| PropertyAccessors.AccessorsOf | org.mapstruct.eclipse/src/org/mapstruct/eclipse/internal/proposal/visitors/PropertyNameProposalCollector.java:281-288 | the accessors of one property, in method order: exactly the methods whose derived property is that key |
| PropertyAccessors.Group | org.mapstruct.eclipse/src/org/mapstruct/eclipse/internal/proposal/visitors/PropertyNameProposalCollector.java:281-288 | exactly the methods with the given key, never more than the list |
| PropertyAccessors.Grouped | org.mapstruct.eclipse/src/org/mapstruct/eclipse/internal/proposal/visitors/PropertyNameProposalCollector.java:274-291 | the map a one-pass grouping loop builds: its keys are the keys that occur, each mapped to its group in list order |
| PropertyAccessors.GroupSame | org.mapstruct.eclipse/src/org/mapstruct/eclipse/internal/proposal/visitors/PropertyNameProposalCollector.java:281-288 | two key functions that agree on a key give that key the same group |
| PropertyAccessors.PropertyMethodsGrouped | org.mapstruct.eclipse/src/org/mapstruct/eclipse/internal/proposal/visitors/PropertyNameProposalCollector.java:270-294 | the map `findPropertyMethods` builds is the grouping of the methods by selected property |
| PropertyAccessors.PropertyMethodsSpec | org.mapstruct.eclipse/src/org/mapstruct/eclipse/internal/proposal/visitors/PropertyNameProposalCollector.java:270-294 | a key is present iff some selected accessor stands for it; each value is that property's accessors in method order |
| PropertyAccessors.PropertyMethodsOfOne | org.mapstruct.eclipse/src/org/mapstruct/eclipse/internal/proposal/visitors/PropertyNameProposalCollector.java:205-207 | for one requested property the map is empty iff it has no accessor, and otherwise maps it to its accessors |
| PropertyAccessors.PropertyMethodsShape | org.mapstruct.eclipse/src/org/mapstruct/eclipse/internal/proposal/visitors/PropertyNameProposalCollector.java:270-294 | a key is present iff it is requested (or any is) and some accessor yields it; every list is non-empty; a requested name leaves at most that key |
| PropertyAccessors.FindPropertyMethods | org.mapstruct.eclipse/src/org/mapstruct/eclipse/internal/proposal/visitors/PropertyNameProposalCollector.java:270-303 | the HashMap-filling loop returns exactly `PropertyMethods` |
| PropertyAccessors.ReadAccessorExamples | org.mapstruct.eclipse/src/org/mapstruct/eclipse/internal/proposal/visitors/PropertyNameProposalCollector.java:276-279 | getName gives name, isActive gives active, getURL gives URL |
| PropertyAccessors.PrefixOnlyExamples | org.mapstruct.eclipse/src/org/mapstruct/eclipse/internal/proposal/visitors/PropertyNameProposalCollector.java:276-279 | issue gives sue and get gives the empty name: a prefix is stripped whatever follows it |
| PropertyAccessors.WriteAndNonAccessorExamples | org.mapstruct.eclipse/src/org/mapstruct/eclipse/internal/proposal/visitors/PropertyNameProposalCollector.java:276-279 | setName gives name for a write; getName is no write accessor; toString is no read accessor |
| PropertyAccessors.LastPathElement | org.mapstruct.eclipse/src/org/mapstruct/eclipse/internal/proposal/visitors/PropertyNameProposalCollector.java:314-320 | holds no dot, and is the whole path when the path has no dot |
| PropertyAccessors.PathWithoutLastElement | org.mapstruct.eclipse/src/org/mapstruct/eclipse/internal/proposal/visitors/PropertyNameProposalCollector.java:322-328 | shorter than the path or empty, and empty when the path has no dot |
| PropertyAccessors.PathReassembles | org.mapstruct.eclipse/src/org/mapstruct/eclipse/internal/proposal/visitors/PropertyNameProposalCollector.java:314-328 | a dotted path is its part before the last dot, the dot and its last element; otherwise "" and the path |
| PropertyAccessors.NextType | org.mapstruct.eclipse/src/org/mapstruct/eclipse/internal/proposal/visitors/PropertyNameProposalCollector.java:209-216 | the return type for a read; for a write, the first parameter type, or the return type when there are no parameters |
| PropertyAccessors.TypeFromPath | org.mapstruct.eclipse/src/org/mapstruct/eclipse/internal/proposal/visitors/PropertyNameProposalCollector.java:194-226 | a resulting type is in the table |
| PropertyAccessors.TypeFromPathStep | org.mapstruct.eclipse/src/org/mapstruct/eclipse/internal/proposal/visitors/PropertyNameProposalCollector.java:200-222 | a step takes the first accessor of the element's property, in `findAllMethods` order; with none the result is null |
| PropertyAccessors.TypeFromPathEdges | org.mapstruct.eclipse/src/org/mapstruct/eclipse/internal/proposal/visitors/PropertyNameProposalCollector.java:195-225 | an empty path returns the type; a null type, or an enum with path left, gives null |
| PropertyAccessors.TypeFromPathConcat | org.mapstruct.eclipse/src/org/mapstruct/eclipse/internal/proposal/visitors/PropertyNameProposalCollector.java:200-218 | each step consumes one element: walking `p + q` is walking `p` and then `q` |
| ProposalCollector.MemberValuePairStep | org.mapstruct.eclipse/src/org/mapstruct/eclipse/internal/proposal/visitors/PropertyNameProposalCollector.java:86-99 | throws (the null binding in `getAnnotationQualifiedName`) iff the pair has no binding; otherwise `valid` becomes true iff it was, or the pair is source/target of @Mapping/@ValueMapping with the cursor in its value; then `source` records whether it is `source`; nothing else changes |
| ProposalCollector.MethodDeclarationStep | org.mapstruct.eclipse/src/org/mapstruct/eclipse/internal/proposal/visitors/PropertyNameProposalCollector.java:106-115 | `inMethod` records the range test and decides whether the children are visited; nothing else changes |
| ProposalCollector.VariableDeclarationStep | org.mapstruct.eclipse/src/org/mapstruct/eclipse/internal/proposal/visitors/PropertyNameProposalCollector.java:117-131 | throws iff the parameter has no binding; otherwise @MappingTarget sets the result type; @TargetType or @Context parameters never enter the source map; any other parameter is recorded by name |
| ProposalCollector.MatchingSpec | org.mapstruct.eclipse/src/org/mapstruct/eclipse/internal/proposal/visitors/PropertyNameProposalCollector.java:247-257 | a value is proposed, behind the proposal prefix, iff it starts with the prefix; an empty prefix admits all |
| ProposalCollector.MatchingAdd | org.mapstruct.eclipse/src/org/mapstruct/eclipse/internal/proposal/visitors/PropertyNameProposalCollector.java:248-250 | each value adds at most its own proposal |
| ProposalCollector.ProposeStepAdd | org.mapstruct.eclipse/src/org/mapstruct/eclipse/internal/proposal/visitors/PropertyNameProposalCollector.java:247-251 | proposing values one at a time, in any order, proposes the whole collection |
| ProposalCollector.OnlyValue | org.mapstruct.eclipse/src/org/mapstruct/eclipse/internal/proposal/visitors/PropertyNameProposalCollector.java:179 | a one-entry map's single value |
| ProposalCollector.TypeForPropertyProposals | org.mapstruct.eclipse/src/org/mapstruct/eclipse/internal/proposal/visitors/PropertyNameProposalCollector.java:161-192 | fails iff the side is source and there are no source parameters (the `iterator().next()` exception), or the side is target with no @MappingTarget type and no method binding (the null dereference); a result type is in the table; only the multi-source empty-path case changes the state |
| ProposalCollector.EndMethodStep | org.mapstruct.eclipse/src/org/mapstruct/eclipse/internal/proposal/visitors/PropertyNameProposalCollector.java:133-159 | nothing outside the method; fails iff inside with source side and no source parameter, or with target side, no @MappingTarget type and no method binding; otherwise only the proposals (which grow) and the proposal prefix change |
| ProposalCollector.Walk | org.mapstruct.eclipse/src/org/mapstruct/eclipse/internal/proposal/visitors/PropertyNameProposalCollector.java:58-159 | the walk keeps every type it stores in the table |
| ProposalCollector.WalkChildren | org.mapstruct.eclipse/src/org/mapstruct/eclipse/internal/proposal/visitors/PropertyNameProposalCollector.java:58-159 | the same, for the children from an index on |
| ProposalCollector.ProposalPrefixJoin | org.mapstruct.eclipse/src/org/mapstruct/eclipse/internal/proposal/visitors/PropertyNameProposalCollector.java:139-150 | without a dot, or with text before the last dot, the proposal prefix plus the last element is the typed text |
| ProposalCollector.ProposeStepPrefix | org.mapstruct.eclipse/src/org/mapstruct/eclipse/internal/proposal/visitors/PropertyNameProposalCollector.java:253-256 | proposals only grow, and every new one starts with the proposal prefix plus the property prefix |
| ProposalCollector.EndMethodPreserves | org.mapstruct.eclipse/src/org/mapstruct/eclipse/internal/proposal/visitors/PropertyNameProposalCollector.java:133-159 | `endVisit` keeps the collector invariant |
| ProposalCollector.WalkPreserves | org.mapstruct.eclipse/src/org/mapstruct/eclipse/internal/proposal/visitors/PropertyNameProposalCollector.java:86-159 | any walk keeps it: valid only through a qualifying pair, sources only from eligible parameters, proposals extending the typed text |
| ProposalCollector.WalkChildrenPreserves | org.mapstruct.eclipse/src/org/mapstruct/eclipse/internal/proposal/visitors/PropertyNameProposalCollector.java:86-159 | the same, over the children |
| ProposalCollector.CollectorOutcome | org.mapstruct.eclipse/src/org/mapstruct/eclipse/internal/proposal/visitors/PropertyNameProposalCollector.java:86-157 | after a whole walk: valid only if a supported source/target member holds the cursor; each recorded source is a parameter that is not @MappingTarget/@TargetType/@Context; with no dot, or text before the last dot, every proposal starts with the typed text |
| ProposalCollector.WalkOutsideMethod | org.mapstruct.eclipse/src/org/mapstruct/eclipse/internal/proposal/visitors/PropertyNameProposalCollector.java:113-136 | a method that does not hold the cursor changes only `inMethod`, to false |
| ProposalCollector.EndMethodMultipleSources | org.mapstruct.eclipse/src/org/mapstruct/eclipse/internal/proposal/visitors/PropertyNameProposalCollector.java:165-170 | with several sources and no path, the matching parameter names are proposed and no type is walked |
| ProposalCollector.SourceStartType | org.mapstruct.eclipse/src/org/mapstruct/eclipse/internal/proposal/visitors/PropertyNameProposalCollector.java:164-181 | the source side starts at the parameter named by the first element, or at the only parameter |
| ProposalCollector.TargetStartType | org.mapstruct.eclipse/src/org/mapstruct/eclipse/internal/proposal/visitors/PropertyNameProposalCollector.java:182-189 | the target side starts at the @MappingTarget type if present, else at the return type of the method binding; with neither there is none |
| ProposalCollector.PropertyNameProposalCollector.constructor | org.mapstruct.eclipse/src/org/mapstruct/eclipse/internal/proposal/visitors/PropertyNameProposalCollector.java:62-83 | a fresh collector: empty set and map, all flags false |
| ProposalCollector.PropertyNameProposalCollector.VisitMemberValuePair | org.mapstruct.eclipse/src/org/mapstruct/eclipse/internal/proposal/visitors/PropertyNameProposalCollector.java:86-99 | the fields change as `MemberValuePairStep`, failing where it throws; the children are not visited |
| ProposalCollector.PropertyNameProposalCollector.VisitMethodDeclaration | org.mapstruct.eclipse/src/org/mapstruct/eclipse/internal/proposal/visitors/PropertyNameProposalCollector.java:106-115 | as `MethodDeclarationStep` |
| ProposalCollector.PropertyNameProposalCollector.VisitSingleVariableDeclaration | org.mapstruct.eclipse/src/org/mapstruct/eclipse/internal/proposal/visitors/PropertyNameProposalCollector.java:117-131 | as `VariableDeclarationStep`, failing where it throws |
| ProposalCollector.PropertyNameProposalCollector.ProposeIfPrefixMatches | org.mapstruct.eclipse/src/org/mapstruct/eclipse/internal/proposal/visitors/PropertyNameProposalCollector.java:253-257 | as `ProposeStep` for one value, the TreeSet staying sorted |
| ProposalCollector.PropertyNameProposalCollector.ProposeAllIfPrefixMatches | org.mapstruct.eclipse/src/org/mapstruct/eclipse/internal/proposal/visitors/PropertyNameProposalCollector.java:247-251 | as `ProposeStep` for the whole key set |
| ProposalCollector.PropertyNameProposalCollector.ProposePropertiesIfPrefixMatches | org.mapstruct.eclipse/src/org/mapstruct/eclipse/internal/proposal/visitors/PropertyNameProposalCollector.java:228-245 | enum constants for an enum, else the accessor properties of the side |
| ProposalCollector.PropertyNameProposalCollector.RetrieveProposalTypeFromPath | org.mapstruct.eclipse/src/org/mapstruct/eclipse/internal/proposal/visitors/PropertyNameProposalCollector.java:194-226 | returns `TypeFromPath` |
| ProposalCollector.PropertyNameProposalCollector.GetTypeForPropertyProposals | org.mapstruct.eclipse/src/org/mapstruct/eclipse/internal/proposal/visitors/PropertyNameProposalCollector.java:161-192 | as `TypeForPropertyProposals`, failing exactly where Java throws |
| ProposalCollector.PropertyNameProposalCollector.EndVisitMethodDeclaration | org.mapstruct.eclipse/src/org/mapstruct/eclipse/internal/proposal/visitors/PropertyNameProposalCollector.java:133-159 | as `EndMethodStep` |
| ProposalCollector.PropertyNameProposalCollector.Accept | org.mapstruct.eclipse/src/org/mapstruct/eclipse/internal/proposal/visitors/PropertyNameProposalCollector.java:58-159 | `node.accept(this)` is `Walk` |
| ProposalCollector.PropertyNameProposalCollector.AcceptChildren | org.mapstruct.eclipse/src/org/mapstruct/eclipse/internal/proposal/visitors/PropertyNameProposalCollector.java:58-159 | the children from an index on are `WalkChildren` |
| AnnotationCompletion.FirstSelected | org.mapstruct.eclipse/src/org/mapstruct/eclipse/internal/proposal/AbstractAnnotationCompletionProposalComputer.java:92-104 | none iff no annotation has a supported name and holds the cursor; otherwise the first index that does |
| AnnotationCompletion.DispatchOf | org.mapstruct.eclipse/src/org/mapstruct/eclipse/internal/proposal/AbstractAnnotationCompletionProposalComputer.java:66-112 | each failing guard (non-Java context, null or unknown unit, lookup fails, element not annotatable) and no deciding annotation give the empty list; otherwise `getProposals` gets the context's unit, offset and token |
| AnnotationCompletion.Outcome | org.mapstruct.eclipse/src/org/mapstruct/eclipse/internal/proposal/AbstractAnnotationCompletionProposalComputer.java:100-110 | empty when nothing is dispatched or `getProposals` throws, otherwise what `getProposals` returns |
| AnnotationCompletion.FirstSelectedIgnoresLater | org.mapstruct.eclipse/src/org/mapstruct/eclipse/internal/proposal/AbstractAnnotationCompletionProposalComputer.java:92-104 | annotations after the deciding one never change the choice |
| AnnotationCompletion.ComputeContextInformation | org.mapstruct.eclipse/src/org/mapstruct/eclipse/internal/proposal/AbstractAnnotationCompletionProposalComputer.java:58-61 | always the empty list |
| AnnotationCompletion.PrefixProposal | org.mapstruct.eclipse/src/org/mapstruct/eclipse/internal/proposal/MapperAnnotationCompletionProposalComputer.java:62-75 | token plus replacement is the name, inserted at the offset with length 0, cursor at the replacement's end, name displayed |
| AnnotationCompletion.PrefixMatches | org.mapstruct.eclipse/src/org/mapstruct/eclipse/internal/proposal/MapperAnnotationCompletionProposalComputer.java:60-62 | exactly the names that start with the token, never more than the list |
| AnnotationCompletion.PrefixProposalsAreMatches | org.mapstruct.eclipse/src/org/mapstruct/eclipse/internal/proposal/MapperAnnotationCompletionProposalComputer.java:60-81 | one proposal per matching name, in list order |
| AnnotationCompletion.PrefixMatchesDistinct | org.mapstruct.eclipse/src/org/mapstruct/eclipse/internal/proposal/MapperAnnotationCompletionProposalComputer.java:44-62 | distinct names give distinct matches |
| AnnotationCompletion.PrefixMatchesSorted | org.mapstruct.eclipse/src/org/mapstruct/eclipse/internal/MapStructCompletionProposalComputer.java:183-185 | filtering a sorted list keeps it sorted |
| AnnotationCompletion.PrefixProposalsSpec | org.mapstruct.eclipse/src/org/mapstruct/eclipse/internal/proposal/MapperAnnotationCompletionProposalComputer.java:60-81 | every proposal displays a listed name that starts with the token and completes the token; every such name is proposed |
| AnnotationCompletion.PrefixProposalsSorted | org.mapstruct.eclipse/src/org/mapstruct/eclipse/internal/MapStructCompletionProposalComputer.java:183-200 | a sorted list gives proposals in strictly increasing order |
| MapperCompletion.GetAnnotationNames | org.mapstruct.eclipse/src/org/mapstruct/eclipse/internal/proposal/MapperAnnotationCompletionProposalComputer.java:40-53 | exactly "Mapper" and "org.mapstruct.Mapper" |
| MapperCompletion.GetProposals | org.mapstruct.eclipse/src/org/mapstruct/eclipse/internal/proposal/MapperAnnotationCompletionProposalComputer.java:55-84 | the append loop returns the prefix proposals of COMPONENT_MODEL_TYPES |
| MapperCompletion.MapperProposalsSpec | org.mapstruct.eclipse/src/org/mapstruct/eclipse/internal/proposal/MapperAnnotationCompletionProposalComputer.java:44-81 | exactly the models among default, cdi, spring, jsr330 that start with the token, in that order; at most four; no duplicates; token plus replacement is the name; inserted at the offset with length 0 |
| MapperCompletion.EmptyTokenGivesAll | org.mapstruct.eclipse/src/org/mapstruct/eclipse/internal/proposal/MapperAnnotationCompletionProposalComputer.java:44-62 | an empty token yields all four models in order |
| MapperCompletion.ComputeCompletionProposals | org.mapstruct.eclipse/src/org/mapstruct/eclipse/internal/proposal/AbstractAnnotationCompletionProposalComputer.java:66-112 | empty when the guard chain stops the request, otherwise the component-model proposals |
| MappingCompletion.GetAnnotationNames | org.mapstruct.eclipse/src/org/mapstruct/eclipse/internal/proposal/MappingAnnotationCompletionProposalComputer.java:104-107 | exactly the simple and qualified names of Mapping, Mappings and ValueMapping |
| MappingCompletion.PropertyProposals | org.mapstruct.eclipse/src/org/mapstruct/eclipse/internal/proposal/MappingAnnotationCompletionProposalComputer.java:80-97 | fails (the `substring` exception) iff some property is shorter than the token; otherwise one proposal per property |
| MappingCompletion.PropertyProposalsShape | org.mapstruct.eclipse/src/org/mapstruct/eclipse/internal/proposal/MappingAnnotationCompletionProposalComputer.java:82-96 | each proposal displays its property, replaces nothing at the offset, inserts the property minus its first token-length characters with the cursor after it, and token plus replacement is the property when it starts with the token |
| MappingCompletion.GetProposals | org.mapstruct.eclipse/src/org/mapstruct/eclipse/internal/proposal/MappingAnnotationCompletionProposalComputer.java:63-102 | returns what the collector walk and the proposal loop compute, failing where an exception escapes |
| MappingCompletion.ProposeEach | org.mapstruct.eclipse/src/org/mapstruct/eclipse/internal/proposal/MappingAnnotationCompletionProposalComputer.java:82-96 | the proposal loop computes `PropertyProposals`, failing where `substring` throws |
| MappingCompletion.ProposalsNeedValidValue | org.mapstruct.eclipse/src/org/mapstruct/eclipse/internal/proposal/MappingAnnotationCompletionProposalComputer.java:79-97 | no proposals unless the collector reports a valid value; then one per collected property |
| MappingCompletion.ProposalsCompleteToken | org.mapstruct.eclipse/src/org/mapstruct/eclipse/internal/proposal/MappingAnnotationCompletionProposalComputer.java:83 | when the typed text has no dot or has text before its last dot, nothing throws and every proposal completes the token |
| MappingCompletion.ComputeCompletionProposals | org.mapstruct.eclipse/src/org/mapstruct/eclipse/internal/proposal/AbstractAnnotationCompletionProposalComputer.java:66-112 | empty when the guard chain stops the request; when dispatched, the proposals of `getProposals`, or empty where it throws; a non-empty result needs a dispatched request whose collector walk ends valid through a qualifying member-value pair |
| InternalAnnotationCompletion.IsInRange | org.mapstruct.eclipse/src/org/mapstruct/eclipse/internal/AbstractAnnotationCompletionProposalComputer.java:124-129 | true only past the start; without overflow, true iff start < offset < start + length |
| InternalAnnotationCompletion.IsInRangeExcludesEnds | org.mapstruct.eclipse/src/org/mapstruct/eclipse/internal/AbstractAnnotationCompletionProposalComputer.java:124-129 | both ends are excluded, and a length of at most 1 contains nothing |
| InternalAnnotationCompletion.IsInRangeWraps | org.mapstruct.eclipse/src/org/mapstruct/eclipse/internal/AbstractAnnotationCompletionProposalComputer.java:125 | when start + length overflows, no offset is in range, not even one inside the range |
| InternalAnnotationCompletion.InternalDispatchDecides | org.mapstruct.eclipse/src/org/mapstruct/eclipse/internal/AbstractAnnotationCompletionProposalComputer.java:92-112 | with this class's range test, `getProposals` answers iff some annotation has a supported name and strictly contains the cursor |
| InternalVisitor.PropertiesOfAdd | org.mapstruct.eclipse/src/org/mapstruct/eclipse/internal/MapStructCompletionProposalComputer.java:274-283 | one more method name adds its decapitalized rest exactly when it starts with the prefix |
| InternalVisitor.PropertiesOfShape | org.mapstruct.eclipse/src/org/mapstruct/eclipse/internal/MapStructCompletionProposalComputer.java:274-283 | every property found is already decapitalized; there are no more properties than matching names |
| InternalVisitor.ImageCard | org.mapstruct.eclipse/src/org/mapstruct/eclipse/internal/MappingAnnotationCompletionProposalComputer.java:215-224 | the properties of a set of matching names are no more numerous than the names |
| InternalVisitor.PropertiesAgreeWithAccessors | org.mapstruct.eclipse/src/org/mapstruct/eclipse/internal/MapStructCompletionProposalComputer.java:245-259 | the set properties equal the write-accessor properties, and the get and is properties together equal the read-accessor properties, of the collector |
| InternalVisitor.WriteAccessorProperty | org.mapstruct.eclipse/src/org/mapstruct/eclipse/internal/MapStructCompletionProposalComputer.java:245-250 | a write accessor is exactly a `set` method, standing for the decapitalized rest of its name |
| InternalVisitor.ReadAccessorProperty | org.mapstruct.eclipse/src/org/mapstruct/eclipse/internal/MapStructCompletionProposalComputer.java:252-257 | a read accessor is a `get` method, or else an `is` method, standing for the decapitalized rest of its name |
| InternalVisitor.WriteAccessorsAgree | org.mapstruct.eclipse/src/org/mapstruct/eclipse/internal/MapStructCompletionProposalComputer.java:245-250 | the `set` properties are the write-accessor properties |
| InternalVisitor.ReadAccessorsAgree | org.mapstruct.eclipse/src/org/mapstruct/eclipse/internal/MapStructCompletionProposalComputer.java:252-257 | the `get` and `is` properties together are the read-accessor properties |
| InternalVisitor.FindPropertiesOfBindings | org.mapstruct.eclipse/src/org/mapstruct/eclipse/internal/MapStructCompletionProposalComputer.java:274-283 | the loop returns exactly the decapitalized rests of the method names that start with the prefix |
| InternalVisitor.FindPropertiesOfNames | org.mapstruct.eclipse/src/org/mapstruct/eclipse/internal/MappingAnnotationCompletionProposalComputer.java:215-224 | the same over a set of names |
| InternalVisitor.AddAll | org.mapstruct.eclipse/src/org/mapstruct/eclipse/internal/MapStructCompletionProposalComputer.java:250-256 | `TreeSet.addAll` stays sorted and adds exactly the given set |
| InternalVisitor.MemberValuePairStep | org.mapstruct.eclipse/src/org/mapstruct/eclipse/internal/MapStructCompletionProposalComputer.java:222-239 | throws iff the pair has no binding; otherwise `isValidValue` is set iff it was or the pair is source/target of org.mapstruct.Mapping in range; `isSource` is only ever set, by a qualifying `source` pair; the sets are unchanged |
| InternalVisitor.MethodDeclarationStep | org.mapstruct.eclipse/src/org/mapstruct/eclipse/internal/MapStructCompletionProposalComputer.java:242-264 | throws iff the cursor is inside and the method has no binding; otherwise the children are visited iff the cursor is inside; then the return type's set properties and, with exactly one parameter, its get/is properties are added; otherwise nothing changes |
| InternalVisitor.WalkPreserves | org.mapstruct.eclipse/src/org/mapstruct/eclipse/internal/MapStructCompletionProposalComputer.java:215-269 | any walk that does not throw: flags only set, and only by qualifying pairs; sets only grow, by properties of methods that hold the cursor |
| InternalVisitor.WalkChildrenPreserves | org.mapstruct.eclipse/src/org/mapstruct/eclipse/internal/MapStructCompletionProposalComputer.java:215-269 | the same, over the children |
| InternalVisitor.WalkChildrenStep | org.mapstruct.eclipse/src/org/mapstruct/eclipse/internal/MapStructCompletionProposalComputer.java:215-269 | a child walk that returns is followed by the walk of the next children from its state |
| InternalVisitor.WalkThrowsExactly | org.mapstruct.eclipse/src/org/mapstruct/eclipse/internal/MapStructCompletionProposalComputer.java:222-264 | whatever the state, a walk throws exactly when it reaches a pair without a binding or a method holding the cursor without one |
| InternalVisitor.WalkChildrenThrowsExactly | org.mapstruct.eclipse/src/org/mapstruct/eclipse/internal/MapStructCompletionProposalComputer.java:215-269 | the same, over the children from an index on |
| InternalVisitor.ChildrenReach | org.mapstruct.eclipse/src/org/mapstruct/eclipse/internal/MapStructCompletionProposalComputer.java:215-269 | the children from index 0 reach a null binding iff some child does |
| InternalVisitor.InRangeMethodContributes | org.mapstruct.eclipse/src/org/mapstruct/eclipse/internal/MapStructCompletionProposalComputer.java:245-259 | a method holding the cursor, in a walk that does not throw, has a binding and contributes all its properties whatever its children do |
| InternalVisitor.MappingPropertyVisitor.constructor | org.mapstruct.eclipse/src/org/mapstruct/eclipse/internal/MapStructCompletionProposalComputer.java:159-163 | both flags false, both sets empty |
| InternalVisitor.MappingPropertyVisitor.FindTypeProperties | org.mapstruct.eclipse/src/org/mapstruct/eclipse/internal/MappingAnnotationCompletionProposalComputer.java:191-197 | the properties of a type from the method names this visitor reads (declared, or all inherited) |
| InternalVisitor.MappingPropertyVisitor.VisitMemberValuePair | org.mapstruct.eclipse/src/org/mapstruct/eclipse/internal/MapStructCompletionProposalComputer.java:222-239 | as `MemberValuePairStep`, failing where it throws; the children are not visited |
| InternalVisitor.MappingPropertyVisitor.VisitMethodDeclaration | org.mapstruct.eclipse/src/org/mapstruct/eclipse/internal/MapStructCompletionProposalComputer.java:242-264 | as `MethodDeclarationStep`, failing where it throws |
| InternalVisitor.MappingPropertyVisitor.Accept | org.mapstruct.eclipse/src/org/mapstruct/eclipse/internal/MapStructCompletionProposalComputer.java:215-269 | `node.accept(visitor)` is `Walk`, failing where it throws |
| InternalVisitor.MappingPropertyVisitor.AcceptChildren | org.mapstruct.eclipse/src/org/mapstruct/eclipse/internal/MapStructCompletionProposalComputer.java:215-269 | the children from an index on are `WalkChildren` |
| InternalVisitor.ParseCompilationUnit | org.mapstruct.eclipse/src/org/mapstruct/eclipse/internal/MapStructCompletionProposalComputer.java:149-209 | returns `ParseSpec` of the parsed unit: none where a null binding makes the visitor throw |
| InternalVisitor.ParseProposals | org.mapstruct.eclipse/src/org/mapstruct/eclipse/internal/MapStructCompletionProposalComputer.java:172-202 | throws exactly where the walk meets a null binding; otherwise nothing unless the value is valid, and then exactly the chosen properties that start with the token, strictly increasing, each completing the token at the offset |
| InternalVisitor.ParseProvenance | org.mapstruct.eclipse/src/org/mapstruct/eclipse/internal/MapStructCompletionProposalComputer.java:222-259 | for a walk that does not throw: valid only if a source/target member of @Mapping holds the cursor; source side only if a `source` one did; target properties from set methods, source properties from get/is methods of a single-parameter method holding the cursor |
| MapStructCompletion.MethodDispatchOf | org.mapstruct.eclipse/src/org/mapstruct/eclipse/internal/MapStructCompletionProposalComputer.java:92-142 | each failing guard (non-Java context, null or unknown unit, lookup exception, element not a method) and no Mapping/Mappings annotation holding the cursor give the empty list |
| MapStructCompletion.ComputeCompletionProposals | org.mapstruct.eclipse/src/org/mapstruct/eclipse/internal/MapStructCompletionProposalComputer.java:92-142 | empty unless dispatched, then `parseCompilationUnit` over declared methods, and empty (the `catch ( Exception e )`) where a null binding makes it throw; a non-empty result needs a qualifying member |
| MapStructCompletion.ComputeContextInformation | org.mapstruct.eclipse/src/org/mapstruct/eclipse/internal/MapStructCompletionProposalComputer.java:86-89 | always the empty list, as `AnnotationCompletion.ComputeContextInformation` |
| InternalMappingCompletion.ComputeCompletionProposals | org.mapstruct.eclipse/src/org/mapstruct/eclipse/internal/MappingAnnotationCompletionProposalComputer.java:66-83 | empty unless the annotation is Mappings or Mapping and strictly holds the cursor; then `parseCompilationUnit` over inherited method names, throwing to the caller exactly where the walk meets a null binding; a non-empty result needs a qualifying member |
| CantMapPropertyFactory.QuoteIndex | org.mapstruct.eclipse/src/org/mapstruct/eclipse/internal/quickfix/factories/CantMapPropertyQFFactory.java:40 | the index of the first quote, or none when there is no quote |
| CantMapPropertyFactory.Quoted | org.mapstruct.eclipse/src/org/mapstruct/eclipse/internal/quickfix/factories/CantMapPropertyQFFactory.java:40 | a quote-free part up to the first quote, the string being that part, the quote and the rest |
| CantMapPropertyFactory.QuotedJoin | org.mapstruct.eclipse/src/org/mapstruct/eclipse/internal/quickfix/factories/CantMapPropertyQFFactory.java:40 | a quote-free part followed by a quote is split back into that part and the rest |
| CantMapPropertyFactory.LastSpaceBefore | org.mapstruct.eclipse/src/org/mapstruct/eclipse/internal/quickfix/factories/CantMapPropertyQFFactory.java:40 | the last space below a bound, or none |
| CantMapPropertyFactory.SplitJoin | org.mapstruct.eclipse/src/org/mapstruct/eclipse/internal/quickfix/factories/CantMapPropertyQFFactory.java:40 | a non-empty type and a non-empty property with no space before its last character are split back at the space between them |
| CantMapPropertyFactory.SplitSound | org.mapstruct.eclipse/src/org/mapstruct/eclipse/internal/quickfix/factories/CantMapPropertyQFFactory.java:40 | a split gives a non-empty type and such a property joined by a space |
| CantMapPropertyFactory.MatchComplete | org.mapstruct.eclipse/src/org/mapstruct/eclipse/internal/quickfix/factories/CantMapPropertyQFFactory.java:39-50 | every message of the pattern's form with valid groups matches with exactly those groups when its tail has no line terminator, and does not match otherwise |
| CantMapPropertyFactory.MatchSound | org.mapstruct.eclipse/src/org/mapstruct/eclipse/internal/quickfix/factories/CantMapPropertyQFFactory.java:39-50 | every match has valid groups and the message has the pattern's form with them |
| CantMapPropertyFactory.MatchExactly | org.mapstruct.eclipse/src/org/mapstruct/eclipse/internal/quickfix/factories/CantMapPropertyQFFactory.java:39-40 | a message matches with given groups iff it is built from them and a terminator-free tail |
| CantMapPropertyFactory.NoFinalDotExample | org.mapstruct.eclipse/src/org/mapstruct/eclipse/internal/quickfix/factories/CantMapPropertyQFFactory.java:40 | a message without the dot after the second quote does not match |
| CantMapPropertyFactory.NoSpaceExample | org.mapstruct.eclipse/src/org/mapstruct/eclipse/internal/quickfix/factories/CantMapPropertyQFFactory.java:40 | a quoted part without a space does not match |
| CantMapPropertyFactory.CreateQuickFix | org.mapstruct.eclipse/src/org/mapstruct/eclipse/internal/quickfix/factories/CantMapPropertyQFFactory.java:42-64 | no match gives no fix; a match gives one or two fixes, the last ignoring the target property; the add-method fix (target type, source type) comes first iff neither type contains '<' |
| ListRewrites.IndexOf | org.mapstruct.eclipse/src/org/mapstruct/eclipse/internal/quickfix/fixes/AddMethodQuickFix.java:88-90 | the first position of an element in a list |
| ListRewrites.InsertedAfter | org.mapstruct.eclipse/src/org/mapstruct/eclipse/internal/quickfix/fixes/AddMethodQuickFix.java:88-90 | the element sits right after the anchor, everything before and after keeping its order |
| ListRewrites.RemovedFirst | org.mapstruct.eclipse/src/org/mapstruct/eclipse/internal/quickfix/fixes/AddIgnoreTargetMappingAnnotationQuickFix.java:131-134 | one element shorter; the removed element plus the rest is the original multiset |
| ListRewrites.InsertedAfterRemoved | org.mapstruct.eclipse/src/org/mapstruct/eclipse/internal/quickfix/fixes/AddMethodQuickFix.java:88-90 | removing an inserted element gives the list back |
| ListRewrites.ListRewrite.constructor | org.mapstruct.eclipse/src/org/mapstruct/eclipse/internal/quickfix/MapStructQuickFix.java:143-151 | a rewrite of a list starts from its original entries |
| ListRewrites.ListRewrite.InsertFirst | org.mapstruct.eclipse/src/org/mapstruct/eclipse/internal/quickfix/fixes/AddIgnoreTargetMappingAnnotationQuickFix.java:213-215 | the element goes in front |
| ListRewrites.ListRewrite.InsertLast | org.mapstruct.eclipse/src/org/mapstruct/eclipse/internal/quickfix/MapStructQuickFix.java:148 | the element goes at the end |
| ListRewrites.ListRewrite.InsertAfter | org.mapstruct.eclipse/src/org/mapstruct/eclipse/internal/quickfix/fixes/AddMethodQuickFix.java:88-90 | succeeds iff the anchor is in the list, and then the element follows it; otherwise nothing changes |
| ListRewrites.ListRewrite.Remove | org.mapstruct.eclipse/src/org/mapstruct/eclipse/internal/quickfix/fixes/AddIgnoreTargetMappingAnnotationQuickFix.java:131-134 | succeeds iff the element is in the list, removing its first occurrence; otherwise nothing changes |
| MapStructQuickFix.HasImport | org.mapstruct.eclipse/src/org/mapstruct/eclipse/internal/quickfix/MapStructQuickFix.java:153-161 | true iff some import's name equals the given name |
| MapStructQuickFix.AddImportIfRequired | org.mapstruct.eclipse/src/org/mapstruct/eclipse/internal/quickfix/MapStructQuickFix.java:143-151 | unchanged when the original imports hold the name; fails (the `ast.newName` exception) iff they do not and it is not a Java name; otherwise exactly that import appended |
| MapStructQuickFix.Requested | org.mapstruct.eclipse/src/org/mapstruct/eclipse/internal/quickfix/MapStructQuickFix.java:143-151 | the names that are queued are exactly those among the requested ones absent from the original imports |
| MapStructQuickFix.RequestTwice | org.mapstruct.eclipse/src/org/mapstruct/eclipse/internal/quickfix/MapStructQuickFix.java:144-154 | `hasImport` reads the original imports, so requesting a new name twice queues it twice; a string that is no name throws at the first request |
| MapStructQuickFix.FirstPosition | org.mapstruct.eclipse/src/org/mapstruct/eclipse/internal/quickfix/MapStructQuickFix.java:99-115 | none iff no marker annotation for this marker has a position; otherwise the first such position |
| MapStructQuickFix.FindProblemStart | org.mapstruct.eclipse/src/org/mapstruct/eclipse/internal/quickfix/MapStructQuickFix.java:96-119 | the editor annotation's position, else the marker's CHAR_START, else -1 |
| MapStructQuickFix.FirstPositionIsFirst | org.mapstruct.eclipse/src/org/mapstruct/eclipse/internal/quickfix/MapStructQuickFix.java:104-110 | a positioned annotation for the marker with none before it gives its position |
| MapStructQuickFix.Workspace.constructor | org.mapstruct.eclipse/src/org/mapstruct/eclipse/internal/quickfix/MapStructQuickFix.java:57-86 | nothing applied, marker not deleted |
| MapStructQuickFix.Run | org.mapstruct.eclipse/src/org/mapstruct/eclipse/internal/quickfix/MapStructQuickFix.java:65-80 | the rewrite is applied and the marker deleted only when there is an input, a node was located and the rewrite is non-null; otherwise nothing changes |
| AddMethodFix.NewAddMethodQuickFix | org.mapstruct.eclipse/src/org/mapstruct/eclipse/internal/quickfix/fixes/AddMethodQuickFix.java:46-52 | both simple names come from `toSimpleName` |
| AddMethodFix.CreateType | org.mapstruct.eclipse/src/org/mapstruct/eclipse/internal/quickfix/fixes/AddMethodQuickFix.java:98-104 | fails iff a primitive name is unknown to `PrimitiveType.toCode` or another name is no identifier; otherwise a primitive type node iff `isPrimitive`, else a simple type; the node reads as the type name |
| AddMethodFix.GetLabel | org.mapstruct.eclipse/src/org/mapstruct/eclipse/internal/quickfix/fixes/AddMethodQuickFix.java:54-57 | "Add method: " followed by the declaration string |
| AddMethodFix.GetDescription | org.mapstruct.eclipse/src/org/mapstruct/eclipse/internal/quickfix/fixes/AddMethodQuickFix.java:64-67 | the declaration string in `<html><b>` … `</b></html>` |
| AddMethodFix.LabelAndDescriptionAgree | org.mapstruct.eclipse/src/org/mapstruct/eclipse/internal/quickfix/fixes/AddMethodQuickFix.java:54-67 | label and description show the same declaration |
| AddMethodFix.NewMethod | org.mapstruct.eclipse/src/org/mapstruct/eclipse/internal/quickfix/fixes/AddMethodQuickFix.java:77-86 | fails iff a name is no identifier or a type cannot be created; otherwise named "to" + capitalize(R), the marked method's modifiers, return type R, one parameter of type S named uncapitalize(S); its source text is the declaration string |
| AddMethodFix.GetASTRewrite | org.mapstruct.eclipse/src/org/mapstruct/eclipse/internal/quickfix/fixes/AddMethodQuickFix.java:69-96 | fails (JDT's `IllegalArgumentException`, which `run` does not catch) iff the new method cannot be built or a requested import is no name; otherwise the new method is inserted right after the marked one with every other declaration in place, and imports are requested for the result type, then the source type |
| AddMethodFix.AddImports | org.mapstruct.eclipse/src/org/mapstruct/eclipse/internal/quickfix/fixes/AddMethodQuickFix.java:92-93 | the two import requests fail iff a name they queue is no Java name; otherwise the imports gain exactly the requested names |
| AddMethodFix.PrimitiveResultTypeThrows | org.mapstruct.eclipse/src/org/mapstruct/eclipse/internal/quickfix/fixes/AddMethodQuickFix.java:92 | a primitive result type that the unit does not import makes the fix throw |
| AddMethodFix.ReservedParameterNameThrows | org.mapstruct.eclipse/src/org/mapstruct/eclipse/internal/quickfix/fixes/AddMethodQuickFix.java:85 | a parameter name that is a keyword makes the fix throw |
| AddIgnoreTargetMappingFix.GetLabel | org.mapstruct.eclipse/src/org/mapstruct/eclipse/internal/quickfix/fixes/AddIgnoreTargetMappingAnnotationQuickFix.java:65-70 | "Ignore unmapped target property p" for one property, "Ignore unmapped target properties." for more |
| AddIgnoreTargetMappingFix.LinesAppend | org.mapstruct.eclipse/src/org/mapstruct/eclipse/internal/quickfix/fixes/AddIgnoreTargetMappingAnnotationQuickFix.java:81-83 | the lines of two lists, for any line function, are the lines of each in order |
| AddIgnoreTargetMappingFix.MappingLinesAppend | org.mapstruct.eclipse/src/org/mapstruct/eclipse/internal/quickfix/fixes/AddIgnoreTargetMappingAnnotationQuickFix.java:81-83 | the lines of two lists are the lines of each, in order |
| AddIgnoreTargetMappingFix.MappingLinesInOrder | org.mapstruct.eclipse/src/org/mapstruct/eclipse/internal/quickfix/fixes/AddIgnoreTargetMappingAnnotationQuickFix.java:81-83 | each property's line sits between the earlier and the later properties' lines |
| AddIgnoreTargetMappingFix.GetDescription | org.mapstruct.eclipse/src/org/mapstruct/eclipse/internal/quickfix/fixes/AddIgnoreTargetMappingAnnotationQuickFix.java:72-88 | an `<html>` header, then one `@Mapping( target = "p", ignore = true )` line per property in list order, then `</html>` |
| AddIgnoreTargetMappingFix.IgnoreMappings | org.mapstruct.eclipse/src/org/mapstruct/eclipse/internal/quickfix/fixes/AddIgnoreTargetMappingAnnotationQuickFix.java:192-209 | one new annotation per property, each `@Mapping` with exactly target = p then ignore = true |
| AddIgnoreTargetMappingFix.GeneratedTargetsAppend | org.mapstruct.eclipse/src/org/mapstruct/eclipse/internal/quickfix/fixes/AddIgnoreTargetMappingAnnotationQuickFix.java:192-216 | the generated targets of two lists are those of each, in order |
| AddIgnoreTargetMappingFix.IgnoreMappingsTargets | org.mapstruct.eclipse/src/org/mapstruct/eclipse/internal/quickfix/fixes/AddIgnoreTargetMappingAnnotationQuickFix.java:192-209 | the generated annotations ignore exactly the properties, in order |
| AddIgnoreTargetMappingFix.Presents | org.mapstruct.eclipse/src/org/mapstruct/eclipse/internal/quickfix/fixes/AddIgnoreTargetMappingAnnotationQuickFix.java:106-138 | the entries already in a list, one per node, in order |
| AddIgnoreTargetMappingFix.PresentsHaveNoTargets | org.mapstruct.eclipse/src/org/mapstruct/eclipse/internal/quickfix/fixes/AddIgnoreTargetMappingAnnotationQuickFix.java:106-138 | a list without generated annotations ignores nothing |
| AddIgnoreTargetMappingFix.AddMappingAnnotations | org.mapstruct.eclipse/src/org/mapstruct/eclipse/internal/quickfix/fixes/AddIgnoreTargetMappingAnnotationQuickFix.java:189-216 | building with `addFirst` then `insertFirst` leaves the new annotations in front in property order, followed by the previous contents |
| AddIgnoreTargetMappingFix.SupportsRepeatableMapping | org.mapstruct.eclipse/src/org/mapstruct/eclipse/internal/quickfix/fixes/AddIgnoreTargetMappingAnnotationQuickFix.java:163-187 | false without a Java element, a found type, or when the lookup throws; otherwise true iff the Mapping type carries `Repeatable` or `java.lang.annotation.Repeatable` |
| AddIgnoreTargetMappingFix.FindAnnotation | org.mapstruct.eclipse/src/org/mapstruct/eclipse/internal/quickfix/fixes/AddIgnoreTargetMappingAnnotationQuickFix.java:156-161 | the last annotation of the method with the given type, by the visitor |
| AddIgnoreTargetMappingFix.PlacementOf | org.mapstruct.eclipse/src/org/mapstruct/eclipse/internal/quickfix/fixes/AddIgnoreTargetMappingAnnotationQuickFix.java:106-138 | the decision order: an existing @Mappings gets the new annotations; else a repeatable @Mapping, or no @Mapping and one property, puts them on the method; else a new @Mappings receives them and any existing @Mapping; fails iff the @Mappings value is not an array or the @Mapping to move is not a modifier |
| AddIgnoreTargetMappingFix.AddNewMappingsAnnotation | org.mapstruct.eclipse/src/org/mapstruct/eclipse/internal/quickfix/fixes/AddIgnoreTargetMappingAnnotationQuickFix.java:140-154 | a new @Mappings goes first among the modifiers, its Mappings import is requested, and an empty array is returned |
| AddIgnoreTargetMappingFix.RewriteForIsFinish | org.mapstruct.eclipse/src/org/mapstruct/eclipse/internal/quickfix/fixes/AddIgnoreTargetMappingAnnotationQuickFix.java:90-138 | choosing the list and then adding the annotations and the Mapping import is the rewrite of the placement |
| AddIgnoreTargetMappingFix.GetListForAddingMappingAnnotations | org.mapstruct.eclipse/src/org/mapstruct/eclipse/internal/quickfix/fixes/AddIgnoreTargetMappingAnnotationQuickFix.java:106-138 | succeeds iff the placement does not fail; the chosen list, modifiers and imports are those of the placement |
| AddIgnoreTargetMappingFix.GetASTRewrite | org.mapstruct.eclipse/src/org/mapstruct/eclipse/internal/quickfix/fixes/AddIgnoreTargetMappingAnnotationQuickFix.java:90-104 | the rewrite is `IgnoreRewriteOf`, none where JDT throws |
| AddIgnoreTargetMappingFix.RewriteTargets | org.mapstruct.eclipse/src/org/mapstruct/eclipse/internal/quickfix/fixes/AddIgnoreTargetMappingAnnotationQuickFix.java:106-216 | for any placement, the rewrite's generated annotations ignore exactly the properties, in order |
| AddIgnoreTargetMappingFix.NewMappingsTargets | org.mapstruct.eclipse/src/org/mapstruct/eclipse/internal/quickfix/fixes/AddIgnoreTargetMappingAnnotationQuickFix.java:127-137 | the same for a new @Mappings |
| AddIgnoreTargetMappingFix.EachPropertyIgnoredOnce | org.mapstruct.eclipse/src/org/mapstruct/eclipse/internal/quickfix/fixes/AddIgnoreTargetMappingAnnotationQuickFix.java:90-104 | the rewrite holds exactly one ignore-@Mapping per property, in property order, and no other generated one |
| AddIgnoreTargetMappingFix.NewMappingsEntries | org.mapstruct.eclipse/src/org/mapstruct/eclipse/internal/quickfix/fixes/AddIgnoreTargetMappingAnnotationQuickFix.java:127-137 | a new @Mappings opens the modifiers; a moved @Mapping ends the new array and leaves the modifiers once |
| AddIgnoreTargetMappingFix.RewriteEntries | org.mapstruct.eclipse/src/org/mapstruct/eclipse/internal/quickfix/fixes/AddIgnoreTargetMappingAnnotationQuickFix.java:106-138 | for any placement, the entries are the new annotations, the modifiers, the previous array elements and a new @Mappings, each as often as before |
| AddIgnoreTargetMappingFix.ExistingEntriesKept | org.mapstruct.eclipse/src/org/mapstruct/eclipse/internal/quickfix/fixes/AddIgnoreTargetMappingAnnotationQuickFix.java:106-138 | nothing already in the method is lost or duplicated |
| AddIgnoreTargetMappingFix.SingleMappingMoved | org.mapstruct.eclipse/src/org/mapstruct/eclipse/internal/quickfix/fixes/AddIgnoreTargetMappingAnnotationQuickFix.java:129-136 | with a new @Mappings, an existing @Mapping is removed from the modifiers and placed after the new annotations in the new array |
| AddIgnoreTargetMappingFix.NewMappingsLeadTheirList | org.mapstruct.eclipse/src/org/mapstruct/eclipse/internal/quickfix/fixes/AddIgnoreTargetMappingAnnotationQuickFix.java:189-216 | the receiving list starts with the new annotations in property order, followed by its previous contents unchanged |
| AddIgnoreTargetMappingFix.ImportsCoverNewAnnotations | org.mapstruct.eclipse/src/org/mapstruct/eclipse/internal/quickfix/fixes/AddIgnoreTargetMappingAnnotationQuickFix.java:96-99 | afterwards Mapping is imported, and Mappings for a new @Mappings; the original imports come first and no queued import repeats one of them |
| FindAnnotationByName.VisitedAnnotations | org.mapstruct.eclipse/src/org/mapstruct/eclipse/internal/quickfix/visitors/FindAnnotationByNameVisitor.java:43-76 | the nodes the visitor reports, in visit order, are all annotations (it never looks inside one) |
| FindAnnotationByName.VisitedInChildren | org.mapstruct.eclipse/src/org/mapstruct/eclipse/internal/quickfix/visitors/FindAnnotationByNameVisitor.java:43-76 | the same for the children from an index on, all annotations |
| FindAnnotationByName.LastMatchAppend | org.mapstruct.eclipse/src/org/mapstruct/eclipse/internal/quickfix/visitors/FindAnnotationByNameVisitor.java:65-72 | the last match of a concatenation: the second part's, or else the first part's |
| FindAnnotationByName.WalkIsLastMatch | org.mapstruct.eclipse/src/org/mapstruct/eclipse/internal/quickfix/visitors/FindAnnotationByNameVisitor.java:43-78 | the visitor's walk yields the last matching annotation in visit order, or keeps the earlier result |
| FindAnnotationByName.WalkChildrenIsLastMatch | org.mapstruct.eclipse/src/org/mapstruct/eclipse/internal/quickfix/visitors/FindAnnotationByNameVisitor.java:43-78 | the same, over the children |
| FindAnnotationByName.LastMatchSpec | org.mapstruct.eclipse/src/org/mapstruct/eclipse/internal/quickfix/visitors/FindAnnotationByNameVisitor.java:37-73 | none iff no annotation matches; otherwise a matching one with no later match |
| FindAnnotationByName.FindsLastMatchingAnnotation | org.mapstruct.eclipse/src/org/mapstruct/eclipse/internal/quickfix/visitors/FindAnnotationByNameVisitor.java:37-76 | from a fresh visitor, the located node is null iff nothing matches, and otherwise the last matching annotation in visit order |
| FindAnnotationByName.FindAnnotationByNameVisitor.constructor | org.mapstruct.eclipse/src/org/mapstruct/eclipse/internal/quickfix/visitors/FindAnnotationByNameVisitor.java:36-41 | the located node starts null |
| FindAnnotationByName.FindAnnotationByNameVisitor.VisitAnnotation | org.mapstruct.eclipse/src/org/mapstruct/eclipse/internal/quickfix/visitors/FindAnnotationByNameVisitor.java:62-77 | a qualified name matches iff equal to the target; a simple name iff its binding resolves with that binary name; a match overwrites the located node; children never visited |
| FindAnnotationByName.FindAnnotationByNameVisitor.Accept | org.mapstruct.eclipse/src/org/mapstruct/eclipse/internal/quickfix/visitors/FindAnnotationByNameVisitor.java:43-56 | `node.accept(visitor)` is `Walk` |
| FindAnnotationByName.FindAnnotationByNameVisitor.AcceptChildren | org.mapstruct.eclipse/src/org/mapstruct/eclipse/internal/quickfix/visitors/FindAnnotationByNameVisitor.java:43-56 | the children from an index on are `WalkChildren` |

## Left out

- MapStructPlugIn.java is not part of this model. It is the OSGi activator and holds no logic.
- JDT parsing and binding resolution are not modelled. `ASTParser`, `resolveBinding`, `getDeclaredMethods` and `getElementAt` are replaced by the abstract type table, syntax tree and compilation unit. A failing lookup is a case of `ElementLookup`. A binding JDT cannot resolve is `None` in the tree. The visitors throw where the source dereferences it, so the computers give the empty list of their `catch ( Exception e )`, or the exception escapes where there is no such catch.
- Eclipse UI objects are not modelled: images, the `IEditorInput` and the annotation model. A proposal is the record `AnnotationCompletion.Proposal`. The editor's annotation model is a list of marker annotations.
- `util.Ranges.isInRange` is a function parameter, because its code is not part of this model. So is `util.Bindings.findAllMethods`, whose result is a per-type table field (`allMethods`). `util.Bindings.containsAnnotation`, `getAnnotationQualifiedName` and `findAllEnumConstants` are taken to be their namesakes in internal/Bindings.java.
- `CONTEXT_FQ_NAME` is a parameter of the collector, because it is absent from the constants file.
- The older computers' private `isInRange` and `getAnnotationQualifiedName` copies are modelled once each. MapStructCompletionProposalComputer.java:288-293 and 309-318 are the same code as `InternalAnnotationCompletion.IsInRange` and `Bindings.GetAnnotationQualifiedName`.
- internal/MappingAnnotationCompletionProposalComputer.java does not implement its base class's abstract `getProposals`/`getAnnotationNames`. Only its own four-argument `computeCompletionProposals` is modelled.
- `Introspector.decapitalize` and `Character` tests use ASCII case only. Unicode case tables are not modelled.
- String order compares code points, which stand in for UTF-16 code units.
- HashSet and HashMap iteration order is not modelled. Every result they feed goes into a TreeSet, or the map has at most one key.
- `MapStructQuickFix.run` is modelled only as the apply/delete decision. Working copies, text edits, marker I/O, `CoreException` to `RuntimeException`, the `ASTParser` in `toAST`, and `FindMethodByPositionVisitor` (locating the marked node) are not. The located node and `getASTRewrite` are function parameters.
- `QuickFixFactory.getMessage` is not modelled. `CreateQuickFix` takes the message itself.
- The factory matches with a hand-written matcher for its single pattern, not with Java's regex engine. A positive example on a literal message is left out because the verifier unfolds the matcher on literals too slowly. The general lemmas `MatchComplete`/`MatchExactly` cover it.
- AddMethodFix: `toSimpleName`, `capitalize`, `uncapitalize` and `isPrimitive` are parameters (`NameHelpers`), because their code is not part of this model.
- JavaLang.IsIdentifier models JDT's scanner for ASCII only, with the keywords of Java 5 and later. Unicode identifiers and the source-level dependence of `assert`, `enum` and `_` are not modelled.
- AddIgnoreTargetMappingFix.GetLabel and AddIgnoreTargetMappingFix.GetDescription require a non-empty property list. The source reads `properties.get(0)`, which throws on an empty list that no caller passes.
- AddIgnoreTargetMappingFix.GetASTRewrite gives none where the source's casts or list rewrites throw: a `@Mappings` whose value is not a single array initializer, or a `@Mapping` to move that is not a modifier of the method. The exception itself is not modelled.
- AddIgnoreTargetMappingFix.SupportsRepeatableMapping takes the type lookup's outcome as a value (`MappingTypeLookup`), not the `IJavaProject` lookup.
- The unit's imports are modelled as fully qualified names. `ImportDeclaration` nodes and static or on-demand imports are not distinguished.
