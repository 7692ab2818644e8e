/**
 * The AST visitor that internal/MapStructCompletionProposalComputer.java
 * (`createVisitor`, lines 215-269) and
 * internal/MappingAnnotationCompletionProposalComputer.java (`createVisitor`,
 * lines 156-210) build, shared here because the two are the same code except
 * for where a type's method names come from: the methods the type declares,
 * or every method name `Bindings.findAllMethodNames` collects through its
 * super types.
 *
 * In Java the visitor fills two `AtomicBoolean`s and two `TreeSet`s that
 * `parseCompilationUnit` created; here they are the fields of the class
 * `MappingPropertyVisitor`. As for the other visitor, its behaviour is given
 * first by pure step functions and a `Walk` in `ASTNode.accept` order, and
 * the class is proved to follow them.
 */
module InternalVisitor {
  import opened JavaLang
  import opened TypeBindings
  import opened Ast
  import opened Bindings
  import opened PropertyAccessors
  import opened AnnotationCompletion
  import opened InternalAnnotationCompletion

  const MAPPING_ANNOTATION_QUALIFIED_NAME: string := "org.mapstruct.Mapping"
  const SOURCE_ANNOTATION_METHOD: string := "source"
  const TARGET_ANNOTATION_METHOD: string := "target"
  const GET_PREFIX: string := "get"
  const SET_PREFIX: string := "set"
  const IS_PREFIX: string := "is"

  // ---------------------------------------------------------------------------
  // findProperties
  // ---------------------------------------------------------------------------

  /** The property names `findProperties` derives from method names: the part after the prefix, decapitalized. */
  function PropertiesOf(methodNames: set<string>, methodPrefix: string): set<string>
  {
    set n | n in methodNames && StartsWith(n, methodPrefix) :: Decapitalize(n[|methodPrefix|..])
  }

  /** The method names that start with the prefix. */
  function NamesWithPrefix(methodNames: set<string>, methodPrefix: string): set<string>
  {
    set n | n in methodNames && StartsWith(n, methodPrefix)
  }

  /** The names of a list of method bindings. */
  function MethodNamesOf(methods: seq<MethodBinding>): set<string>
  {
    set m | m in methods :: m.name
  }

  /** One more method name adds its property if it starts with the prefix, and nothing otherwise. */
  lemma PropertiesOfAdd(methodNames: set<string>, name: string, methodPrefix: string)
    ensures PropertiesOf(methodNames + {name}, methodPrefix) ==
            PropertiesOf(methodNames, methodPrefix) +
            (if StartsWith(name, methodPrefix) then {Decapitalize(name[|methodPrefix|..])} else {})
  {
  }

  /** Every property found is already in decapitalized form, and there are no more properties than matching names. */
  lemma PropertiesOfShape(methodNames: set<string>, methodPrefix: string)
    ensures forall p :: p in PropertiesOf(methodNames, methodPrefix) ==> Decapitalize(p) == p
    ensures |PropertiesOf(methodNames, methodPrefix)| <= |NamesWithPrefix(methodNames, methodPrefix)|
  {
    forall p | p in PropertiesOf(methodNames, methodPrefix) ensures Decapitalize(p) == p {
      var n :| n in methodNames && StartsWith(n, methodPrefix) && p == Decapitalize(n[|methodPrefix|..]);
      DecapitalizeIdempotent(n[|methodPrefix|..]);
    }
    ImageCard(NamesWithPrefix(methodNames, methodPrefix), methodPrefix);
    assert PropertiesOf(NamesWithPrefix(methodNames, methodPrefix), methodPrefix) == PropertiesOf(methodNames, methodPrefix);
  }

  /** The image of a set under "drop the prefix, decapitalize" is no larger than the set. */
  lemma {:induction false} ImageCard(names: set<string>, methodPrefix: string)
    requires forall n :: n in names ==> StartsWith(n, methodPrefix)
    ensures |PropertiesOf(names, methodPrefix)| <= |names|
    decreases |names|
  {
    if names != {} {
      var n :| n in names;
      var rest := names - {n};
      ImageCard(rest, methodPrefix);
      PropertiesOfAdd(rest, n, methodPrefix);
      assert rest + {n} == names;
    }
  }

  /**
   * The older computers and the newer `PropertyNameProposalCollector` agree
   * on property names: the `set` properties are the write-accessor
   * properties, and the `get` and `is` properties together are the
   * read-accessor properties of `findPropertyMethods`.
   */
  lemma PropertiesAgreeWithAccessors(methodNames: set<string>)
    ensures PropertiesOf(methodNames, SET_PREFIX) ==
            set n | n in methodNames && AccessorProperty(n, WRITE_ACCESSOR_PREFIXES).Some? ::
              AccessorProperty(n, WRITE_ACCESSOR_PREFIXES).value
    ensures PropertiesOf(methodNames, GET_PREFIX) + PropertiesOf(methodNames, IS_PREFIX) ==
            set n | n in methodNames && AccessorProperty(n, READ_ACCESSOR_PREFIXES).Some? ::
              AccessorProperty(n, READ_ACCESSOR_PREFIXES).value
  {
    WriteAccessorsAgree(methodNames);
    ReadAccessorsAgree(methodNames);
  }

  /** A write accessor is a `set` method, standing for the decapitalized rest of its name. */
  lemma WriteAccessorProperty(n: string)
    ensures AccessorProperty(n, WRITE_ACCESSOR_PREFIXES) ==
            if StartsWith(n, SET_PREFIX) then Some(Decapitalize(n[|SET_PREFIX|..])) else None
  {
    assert WRITE_ACCESSOR_PREFIXES[1..] == [];
  }

  /** A read accessor is a `get` method or else an `is` method, standing for the decapitalized rest of its name. */
  lemma ReadAccessorProperty(n: string)
    ensures AccessorProperty(n, READ_ACCESSOR_PREFIXES) ==
            if StartsWith(n, GET_PREFIX) then Some(Decapitalize(n[|GET_PREFIX|..]))
            else if StartsWith(n, IS_PREFIX) then Some(Decapitalize(n[|IS_PREFIX|..]))
            else None
  {
    assert READ_ACCESSOR_PREFIXES[0] == GET_PREFIX && READ_ACCESSOR_PREFIXES[1..] == [IS_PREFIX];
    if !StartsWith(n, GET_PREFIX) {
      assert GetMatchingPrefix(n, READ_ACCESSOR_PREFIXES) == GetMatchingPrefix(n, [IS_PREFIX]);
      assert [IS_PREFIX][1..] == [];
    }
  }

  lemma WriteAccessorsAgree(methodNames: set<string>)
    ensures PropertiesOf(methodNames, SET_PREFIX) ==
            set n | n in methodNames && AccessorProperty(n, WRITE_ACCESSOR_PREFIXES).Some? ::
              AccessorProperty(n, WRITE_ACCESSOR_PREFIXES).value
  {
    var lhs := PropertiesOf(methodNames, SET_PREFIX);
    var rhs := set n | n in methodNames && AccessorProperty(n, WRITE_ACCESSOR_PREFIXES).Some? ::
                 AccessorProperty(n, WRITE_ACCESSOR_PREFIXES).value;
    forall p | p in lhs ensures p in rhs {
      var n :| n in methodNames && StartsWith(n, SET_PREFIX) && p == Decapitalize(n[|SET_PREFIX|..]);
      WriteAccessorProperty(n);
    }
    forall p | p in rhs ensures p in lhs {
      var n :| n in methodNames && AccessorProperty(n, WRITE_ACCESSOR_PREFIXES).Some?
               && p == AccessorProperty(n, WRITE_ACCESSOR_PREFIXES).value;
      WriteAccessorProperty(n);
    }
  }

  lemma ReadAccessorsAgree(methodNames: set<string>)
    ensures PropertiesOf(methodNames, GET_PREFIX) + PropertiesOf(methodNames, IS_PREFIX) ==
            set n | n in methodNames && AccessorProperty(n, READ_ACCESSOR_PREFIXES).Some? ::
              AccessorProperty(n, READ_ACCESSOR_PREFIXES).value
  {
    var lhs := PropertiesOf(methodNames, GET_PREFIX) + PropertiesOf(methodNames, IS_PREFIX);
    var rhs := set n | n in methodNames && AccessorProperty(n, READ_ACCESSOR_PREFIXES).Some? ::
                 AccessorProperty(n, READ_ACCESSOR_PREFIXES).value;
    forall p | p in lhs ensures p in rhs {
      if p in PropertiesOf(methodNames, GET_PREFIX) {
        var n :| n in methodNames && StartsWith(n, GET_PREFIX) && p == Decapitalize(n[|GET_PREFIX|..]);
        ReadAccessorProperty(n);
      } else {
        var n :| n in methodNames && StartsWith(n, IS_PREFIX) && p == Decapitalize(n[|IS_PREFIX|..]);
        ReadAccessorProperty(n);
        // an `is` name never starts with "get"
        assert n[0] == 'i';
        assert !StartsWith(n, GET_PREFIX);
      }
    }
    forall p | p in rhs ensures p in lhs {
      var n :| n in methodNames && AccessorProperty(n, READ_ACCESSOR_PREFIXES).Some?
               && p == AccessorProperty(n, READ_ACCESSOR_PREFIXES).value;
      ReadAccessorProperty(n);
    }
  }

  /** `findProperties` of MapStructCompletionProposalComputer, over an array of method bindings. */
  method FindPropertiesOfBindings(methodBindings: seq<MethodBinding>, methodPrefix: string) returns (returnValue: set<string>)
    ensures returnValue == PropertiesOf(MethodNamesOf(methodBindings), methodPrefix)
  {
    returnValue := {};
    var i := 0;
    while i < |methodBindings|
      invariant 0 <= i <= |methodBindings|
      invariant returnValue == PropertiesOf(MethodNamesOf(methodBindings[..i]), methodPrefix)
    {
      var methodBinding := methodBindings[i];
      assert methodBindings[..i + 1] == methodBindings[..i] + [methodBinding];
      assert MethodNamesOf(methodBindings[..i + 1]) == MethodNamesOf(methodBindings[..i]) + {methodBinding.name};
      PropertiesOfAdd(MethodNamesOf(methodBindings[..i]), methodBinding.name, methodPrefix);
      if StartsWith(methodBinding.name, methodPrefix) {
        var propertyName := methodBinding.name[|methodPrefix|..];
        returnValue := returnValue + {Decapitalize(propertyName)};
      }
      i := i + 1;
    }
    assert methodBindings[..i] == methodBindings;
  }

  /** `findProperties` of the older MappingAnnotationCompletionProposalComputer, over a set of method names. */
  method FindPropertiesOfNames(methodNames: set<string>, methodPrefix: string) returns (returnValue: set<string>)
    ensures returnValue == PropertiesOf(methodNames, methodPrefix)
  {
    returnValue := {};
    var remaining := methodNames;
    while remaining != {}
      invariant remaining <= methodNames
      invariant returnValue == PropertiesOf(methodNames - remaining, methodPrefix)
      decreases |remaining|
    {
      var methodName :| methodName in remaining;
      PropertiesOfAdd(methodNames - remaining, methodName, methodPrefix);
      assert methodNames - (remaining - {methodName}) == (methodNames - remaining) + {methodName};
      if StartsWith(methodName, methodPrefix) {
        var propertyName := methodName[|methodPrefix|..];
        returnValue := returnValue + {Decapitalize(propertyName)};
      }
      remaining := remaining - {methodName};
    }
    assert methodNames - remaining == methodNames;
  }

  lemma AddAllStep(s: seq<string>, r: seq<string>, xs: set<string>, remaining: set<string>, x: string)
    requires StrictlySorted(r) && x in remaining && remaining <= xs
    requires Elements(r) == Elements(s) + (xs - remaining)
    ensures Elements(TreeSetAdd(r, x)) == Elements(s) + (xs - (remaining - {x}))
  {
    assert Elements(TreeSetAdd(r, x)) == Elements(r) + {x};
  }

  /** `TreeSet.addAll` of a `HashSet`, element by element in some order. */
  method AddAll(s: seq<string>, xs: set<string>) returns (r: seq<string>)
    requires StrictlySorted(s)
    ensures StrictlySorted(r)
    ensures Elements(r) == Elements(s) + xs
  {
    r := s;
    var remaining := xs;
    while remaining != {}
      invariant remaining <= xs
      invariant StrictlySorted(r)
      invariant Elements(r) == Elements(s) + (xs - remaining)
      decreases |remaining|
    {
      var x :| x in remaining;
      AddAllStep(s, r, xs, remaining, x);
      r := TreeSetAdd(r, x);
      remaining := remaining - {x};
    }
  }

  // ---------------------------------------------------------------------------
  // The visitor as step functions
  // ---------------------------------------------------------------------------

  /** Where the visitor takes a type's method names from. */
  datatype NameSource =
    /** `getDeclaredMethods()`, in MapStructCompletionProposalComputer. */
    | DeclaredMethods
    /** `Bindings.findAllMethodNames`, in the older MappingAnnotationCompletionProposalComputer. */
    | InheritedMethods

  /** What the visitor is created with, and the type table behind its bindings. */
  datatype VisitorConfig = VisitorConfig(invocationOffset: int, table: TypeTable, nameSource: NameSource)

  /** The two flags and the two property sets the visitor fills. */
  datatype VisitorState = VisitorState(
    isValidValue: bool,
    isSource: bool,
    sourceProperties: set<string>,
    targetProperties: set<string>)

  /** As `parseCompilationUnit` creates them: both flags false, both sets empty. */
  const Initial: VisitorState := VisitorState(false, false, {}, {})

  /** The method names of type `t` the visitor reads. */
  ghost function MethodNames(c: VisitorConfig, t: TypeId): set<string>
    requires t in c.table
  {
    match c.nameSource
    case DeclaredMethods => MethodNamesOf(c.table[t].declaredMethods)
    case InheritedMethods => NamesOf(c.table, Reach(c.table, t))
  }

  /** `isMappingAnnotationMethod`: the member is `source` or `target`. */
  predicate IsMappingAnnotationMethod(name: string)
  {
    name == SOURCE_ANNOTATION_METHOD || name == TARGET_ANNOTATION_METHOD
  }

  /** A member-value pair that makes the value valid: `source` or `target` of `@Mapping`, with the cursor inside its value. */
  predicate Qualifying(c: VisitorConfig, node: Node)
    requires node.MemberValuePair?
  {
    && node.pairBinding.Some?
    && GetAnnotationQualifiedName(node.pairBinding.value) == Some(MAPPING_ANNOTATION_QUALIFIED_NAME)
    && IsInRange(c.invocationOffset, node.valueStart, node.valueLength)
    && IsMappingAnnotationMethod(node.name)
  }

  /**
   * `visit(MemberValuePair)`: a qualifying pair sets `isValidValue`, and
   * `isSource` if it is `source`; no flag is ever cleared. None when the
   * pair's binding is null, which `getAnnotationQualifiedName` dereferences.
   */
  function MemberValuePairStep(c: VisitorConfig, s: VisitorState, node: Node): (r: Option<VisitorState>)
    requires node.MemberValuePair?
    ensures r.None? <==> node.pairBinding.None?
    ensures r.Some? ==> (r.value.isValidValue <==> s.isValidValue || Qualifying(c, node))
    ensures r.Some? ==> (r.value.isSource <==> s.isSource || (Qualifying(c, node) && node.name == SOURCE_ANNOTATION_METHOD))
    ensures r.Some? ==> r.value.sourceProperties == s.sourceProperties && r.value.targetProperties == s.targetProperties
  {
    if node.pairBinding.None? then None
    else if Qualifying(c, node) then
      Some(s.(isValidValue := true, isSource := s.isSource || node.name == SOURCE_ANNOTATION_METHOD))
    else Some(s)
  }

  /** The target properties a method declaration holding the cursor adds: its return type's `set` properties. */
  ghost function TargetContribution(c: VisitorConfig, binding: MethodBinding): set<string>
    requires MethodWellFormed(c.table, binding)
  {
    PropertiesOf(MethodNames(c, binding.returnType), SET_PREFIX)
  }

  /** The source properties it adds: the `get` and `is` properties of its parameter type, only when it has exactly one parameter. */
  ghost function SourceContribution(c: VisitorConfig, binding: MethodBinding): set<string>
    requires MethodWellFormed(c.table, binding)
  {
    if |binding.parameterTypes| == 1 then
      PropertiesOf(MethodNames(c, binding.parameterTypes[0]), GET_PREFIX)
      + PropertiesOf(MethodNames(c, binding.parameterTypes[0]), IS_PREFIX)
    else {}
  }

  /**
   * `visit(MethodDeclaration)`: the new state, and whether the children are
   * visited (only when the cursor is inside). None when the cursor is inside
   * and the method's binding is null, whose return type is read first.
   */
  ghost function MethodDeclarationStep(c: VisitorConfig, s: VisitorState, node: Node): (r: Option<(VisitorState, bool)>)
    requires node.MethodDeclaration? && NodeTypesIn(c.table, node)
    ensures r.None? <==> IsInRange(c.invocationOffset, node.start, node.length) && node.methodBinding.None?
    ensures r.Some? ==> (r.value.1 <==> IsInRange(c.invocationOffset, node.start, node.length))
    ensures r.Some? ==> r.value.0.isValidValue == s.isValidValue && r.value.0.isSource == s.isSource
    ensures r.Some? && r.value.1 ==>
              r.value.0.targetProperties == s.targetProperties + TargetContribution(c, node.methodBinding.value)
    ensures r.Some? && r.value.1 ==>
              r.value.0.sourceProperties == s.sourceProperties + SourceContribution(c, node.methodBinding.value)
    ensures r.Some? && !r.value.1 ==> r.value.0 == s
  {
    if !IsInRange(c.invocationOffset, node.start, node.length) then Some((s, false))
    else
      match node.methodBinding
      case None => None
      case Some(binding) =>
        Some((s.(targetProperties := s.targetProperties + TargetContribution(c, binding),
                 sourceProperties := s.sourceProperties + SourceContribution(c, binding)), true))
  }

  /**
   * `n.accept(visitor)` from state `s`. A member-value pair's children are
   * never visited, a method declaration's only when the cursor is inside it;
   * every other node keeps the default `visit`, which returns true. None
   * when an exception escapes.
   */
  ghost function Walk(c: VisitorConfig, s: VisitorState, n: Node): Option<VisitorState>
    requires NodeTypesIn(c.table, n)
    decreases n, 1
  {
    match n
    case MemberValuePair(_, _, _, _, _) => MemberValuePairStep(c, s, n)
    case MethodDeclaration(_, _, _, _) =>
      (match MethodDeclarationStep(c, s, n)
       case None => None
       case Some((s1, visitChildren)) => if visitChildren then WalkChildren(c, s1, n, 0) else Some(s1))
    case SingleVariableDeclaration(_, _, _) => WalkChildren(c, s, n, 0)
    case Annotation(_, _, _) => WalkChildren(c, s, n, 0)
    case Other(_) | ArrayInitializer(_) => WalkChildren(c, s, n, 0)
  }

  /** The children of `parent` from index `i` on, in order; an exception stops the walk. */
  ghost function WalkChildren(c: VisitorConfig, s: VisitorState, parent: Node, i: nat): Option<VisitorState>
    requires NodeTypesIn(c.table, parent) && i <= |parent.children|
    decreases parent, 0, |parent.children| - i
  {
    if i == |parent.children| then Some(s)
    else
      assert parent.children[i] in parent.children;
      match Walk(c, s, parent.children[i])
      case None => None
      case Some(s1) => WalkChildren(c, s1, parent, i + 1)
  }

  /** One child visited without an exception leaves the rest of the children to visit. */
  lemma WalkChildrenStep(c: VisitorConfig, s: VisitorState, parent: Node, i: nat)
    requires NodeTypesIn(c.table, parent) && i < |parent.children|
    requires parent.children[i] in parent.children && Walk(c, s, parent.children[i]).Some?
    ensures WalkChildren(c, s, parent, i) == WalkChildren(c, Walk(c, s, parent.children[i]).value, parent, i + 1)
  {
  }

  // ---------------------------------------------------------------------------
  // Where a walk throws
  // ---------------------------------------------------------------------------

  /**
   * The walk meets a null binding: a member-value pair without one, a method
   * declaration that holds the cursor and has none, or such a node among the
   * children the walk enters.
   */
  ghost predicate ReachesNullBinding(c: VisitorConfig, n: Node)
  {
    match n
    case MemberValuePair(_, _, _, _, _) => n.pairBinding.None?
    case MethodDeclaration(_, _, _, _) =>
      IsInRange(c.invocationOffset, n.start, n.length)
      && (n.methodBinding.None? || exists ch :: ch in n.children && ReachesNullBinding(c, ch))
    case SingleVariableDeclaration(_, _, _) => exists ch :: ch in n.children && ReachesNullBinding(c, ch)
    case Annotation(_, _, _) => exists ch :: ch in n.children && ReachesNullBinding(c, ch)
    case Other(_) | ArrayInitializer(_) => exists ch :: ch in n.children && ReachesNullBinding(c, ch)
  }

  /** Some child of `parent` from index `i` on reaches a null binding. */
  ghost predicate ChildReachesNullBinding(c: VisitorConfig, parent: Node, i: nat)
  {
    exists j :: i <= j < |parent.children| && ReachesNullBinding(c, parent.children[j])
  }

  /**
   * Whether an exception escapes does not depend on the state: the walk
   * throws exactly when it meets a null binding.
   */
  lemma {:induction false} WalkThrowsExactly(c: VisitorConfig, s: VisitorState, n: Node)
    requires NodeTypesIn(c.table, n)
    ensures Walk(c, s, n).None? <==> ReachesNullBinding(c, n)
    decreases n, 1
  {
    match n
    case MemberValuePair(_, _, _, _, _) =>
    case MethodDeclaration(_, _, _, _) =>
      if IsInRange(c.invocationOffset, n.start, n.length) && n.methodBinding.Some? {
        var (s1, _) := MethodDeclarationStep(c, s, n).value;
        WalkChildrenThrowsExactly(c, s1, n, 0);
        ChildrenReach(c, n);
      }
    case SingleVariableDeclaration(_, _, _) =>
      WalkChildrenThrowsExactly(c, s, n, 0);
      ChildrenReach(c, n);
    case Annotation(_, _, _) =>
      WalkChildrenThrowsExactly(c, s, n, 0);
      ChildrenReach(c, n);
    case Other(_) | ArrayInitializer(_) =>
      WalkChildrenThrowsExactly(c, s, n, 0);
      ChildrenReach(c, n);
  }

  lemma {:induction false} WalkChildrenThrowsExactly(c: VisitorConfig, s: VisitorState, parent: Node, i: nat)
    requires NodeTypesIn(c.table, parent) && i <= |parent.children|
    ensures WalkChildren(c, s, parent, i).None? <==> ChildReachesNullBinding(c, parent, i)
    decreases parent, 0, |parent.children| - i
  {
    if i < |parent.children| {
      var child := parent.children[i];
      assert child in parent.children;
      WalkThrowsExactly(c, s, child);
      match Walk(c, s, child)
      case None =>
      case Some(s1) =>
        WalkChildrenThrowsExactly(c, s1, parent, i + 1);
        if ChildReachesNullBinding(c, parent, i) {
          var j :| i <= j < |parent.children| && ReachesNullBinding(c, parent.children[j]);
          assert j != i;
        }
    }
  }

  /** Some child reaches a null binding exactly when one from index 0 on does. */
  lemma ChildrenReach(c: VisitorConfig, parent: Node)
    ensures ChildReachesNullBinding(c, parent, 0) <==> exists ch :: ch in parent.children && ReachesNullBinding(c, ch)
  {
    if exists ch :: ch in parent.children && ReachesNullBinding(c, ch) {
      var ch :| ch in parent.children && ReachesNullBinding(c, ch);
      var j :| 0 <= j < |parent.children| && parent.children[j] == ch;
    }
  }

  // ---------------------------------------------------------------------------
  // What a walk changes
  // ---------------------------------------------------------------------------

  /** Some member-value pair in the tree qualifies. */
  ghost predicate HasQualifyingPair(c: VisitorConfig, n: Node)
  {
    (n.MemberValuePair? && Qualifying(c, n)) || exists ch :: ch in n.children && HasQualifyingPair(c, ch)
  }

  /** Some qualifying member-value pair in the tree is `source`. */
  ghost predicate HasSourcePair(c: VisitorConfig, n: Node)
  {
    (n.MemberValuePair? && Qualifying(c, n) && n.name == SOURCE_ANNOTATION_METHOD)
    || exists ch :: ch in n.children && HasSourcePair(c, ch)
  }

  /** Some method declaration in the tree holds the cursor and has `p` among its target properties. */
  ghost predicate TargetFrom(c: VisitorConfig, n: Node, p: string)
  {
    (n.MethodDeclaration? && n.methodBinding.Some? && n.methodBinding.value.returnType in c.table
     && IsInRange(c.invocationOffset, n.start, n.length)
     && p in PropertiesOf(MethodNames(c, n.methodBinding.value.returnType), SET_PREFIX))
    || exists ch :: ch in n.children && TargetFrom(c, ch, p)
  }

  /** Some single-parameter method declaration in the tree holds the cursor and has `p` among its source properties. */
  ghost predicate SourceFrom(c: VisitorConfig, n: Node, p: string)
  {
    (n.MethodDeclaration? && n.methodBinding.Some? && IsInRange(c.invocationOffset, n.start, n.length)
     && |n.methodBinding.value.parameterTypes| == 1 && n.methodBinding.value.parameterTypes[0] in c.table
     && (p in PropertiesOf(MethodNames(c, n.methodBinding.value.parameterTypes[0]), GET_PREFIX)
         || p in PropertiesOf(MethodNames(c, n.methodBinding.value.parameterTypes[0]), IS_PREFIX)))
    || exists ch :: ch in n.children && SourceFrom(c, ch, p)
  }

  /**
   * What visiting `n` may change, going from `s` to `r`: flags are only ever
   * set, `isValidValue` only by a qualifying pair and `isSource` only by a
   * qualifying `source` pair, and with it `isValidValue`; the property sets
   * only grow, by properties of method declarations that hold the cursor.
   */
  ghost predicate Preserves(c: VisitorConfig, n: Node, s: VisitorState, r: VisitorState)
  {
    && (s.isValidValue ==> r.isValidValue)
    && (s.isSource ==> r.isSource)
    && (r.isValidValue && !s.isValidValue ==> HasQualifyingPair(c, n))
    && (r.isSource && !s.isSource ==> HasSourcePair(c, n) && r.isValidValue)
    && s.targetProperties <= r.targetProperties
    && s.sourceProperties <= r.sourceProperties
    && (forall p :: p in r.targetProperties && p !in s.targetProperties ==> TargetFrom(c, n, p))
    && (forall p :: p in r.sourceProperties && p !in s.sourceProperties ==> SourceFrom(c, n, p))
  }

  lemma {:induction false} WalkPreserves(c: VisitorConfig, s: VisitorState, n: Node)
    requires NodeTypesIn(c.table, n) && Walk(c, s, n).Some?
    ensures Preserves(c, n, s, Walk(c, s, n).value)
    decreases n, 1
  {
    match n
    case MemberValuePair(_, _, _, _, _) =>
    case MethodDeclaration(_, _, _, _) =>
      var (s1, visitChildren) := MethodDeclarationStep(c, s, n).value;
      if visitChildren {
        var binding := n.methodBinding.value;
        WalkChildrenPreserves(c, s1, n, 0);
        var r := Walk(c, s, n).value;
        forall p | p in r.sourceProperties && p !in s.sourceProperties ensures SourceFrom(c, n, p) {
          if p in s1.sourceProperties {
            assert p in SourceContribution(c, binding);
          }
        }
        forall p | p in r.targetProperties && p !in s.targetProperties ensures TargetFrom(c, n, p) {
          if p in s1.targetProperties {
            assert p in TargetContribution(c, binding);
          }
        }
      }
    case SingleVariableDeclaration(_, _, _) =>
      WalkChildrenPreserves(c, s, n, 0);
    case Annotation(_, _, _) =>
      WalkChildrenPreserves(c, s, n, 0);
    case Other(_) | ArrayInitializer(_) =>
      WalkChildrenPreserves(c, s, n, 0);
  }

  lemma {:induction false} WalkChildrenPreserves(c: VisitorConfig, s: VisitorState, parent: Node, i: nat)
    requires NodeTypesIn(c.table, parent) && i <= |parent.children| && WalkChildren(c, s, parent, i).Some?
    ensures Preserves(c, parent, s, WalkChildren(c, s, parent, i).value)
    decreases parent, 0, |parent.children| - i
  {
    if i < |parent.children| {
      var child := parent.children[i];
      assert child in parent.children;
      var s1 := Walk(c, s, child).value;
      WalkPreserves(c, s, child);
      WalkChildrenPreserves(c, s1, parent, i + 1);
      assert HasQualifyingPair(c, child) ==> HasQualifyingPair(c, parent);
      assert HasSourcePair(c, child) ==> HasSourcePair(c, parent);
      forall p | TargetFrom(c, child, p) ensures TargetFrom(c, parent, p) {
      }
      forall p | SourceFrom(c, child, p) ensures SourceFrom(c, parent, p) {
      }
    }
  }

  /** A method declaration that holds the cursor contributes all its properties, whatever its children do. */
  lemma InRangeMethodContributes(c: VisitorConfig, s: VisitorState, n: Node)
    requires NodeTypesIn(c.table, n) && n.MethodDeclaration? && Walk(c, s, n).Some?
    requires IsInRange(c.invocationOffset, n.start, n.length)
    ensures n.methodBinding.Some?
    ensures s.targetProperties + TargetContribution(c, n.methodBinding.value) <= Walk(c, s, n).value.targetProperties
    ensures s.sourceProperties + SourceContribution(c, n.methodBinding.value) <= Walk(c, s, n).value.sourceProperties
  {
    var (s1, _) := MethodDeclarationStep(c, s, n).value;
    WalkChildrenPreserves(c, s1, n, 0);
  }

  // ---------------------------------------------------------------------------
  // The visitor as a class
  // ---------------------------------------------------------------------------

  class MappingPropertyVisitor {
    const invocationOffset: int
    const table: TypeTable
    const nameSource: NameSource
    /** `isValidValue` and `isSource`, the `AtomicBoolean`s of `parseCompilationUnit`. */
    var isValidValue: bool
    var isSource: bool
    /** `sourceProperties` and `targetProperties`, the `TreeSet`s of `parseCompilationUnit`, in iteration order. */
    var sourceProperties: seq<string>
    var targetProperties: seq<string>

    function Cfg(): VisitorConfig
    {
      VisitorConfig(invocationOffset, table, nameSource)
    }

    ghost function State(): VisitorState
      reads this
    {
      VisitorState(isValidValue, isSource, Elements(sourceProperties), Elements(targetProperties))
    }

    ghost predicate Valid()
      reads this
    {
      WellFormed(table) && StrictlySorted(sourceProperties) && StrictlySorted(targetProperties)
    }

    constructor(invocationOffset: int, table: TypeTable, nameSource: NameSource)
      requires WellFormed(table)
      ensures Valid() && State() == Initial
      ensures Cfg() == VisitorConfig(invocationOffset, table, nameSource)
    {
      this.invocationOffset := invocationOffset;
      this.table := table;
      this.nameSource := nameSource;
      isValidValue := false;
      isSource := false;
      sourceProperties := [];
      targetProperties := [];
    }

    /** The properties of type `t` for one prefix, read from the method names this visitor uses. */
    method FindTypeProperties(t: TypeId, methodPrefix: string) returns (properties: set<string>)
      requires WellFormed(table) && t in table
      ensures properties == PropertiesOf(MethodNames(Cfg(), t), methodPrefix)
    {
      match nameSource
      case DeclaredMethods =>
        properties := FindPropertiesOfBindings(table[t].declaredMethods, methodPrefix);
      case InheritedMethods =>
        var methodNames := FindAllMethodNames(table, t);
        properties := FindPropertiesOfNames(methodNames, methodPrefix);
    }

    /** `visit(MemberValuePair)`; `ok` is false where the null binding throws. */
    method VisitMemberValuePair(node: Node) returns (ok: bool, visitChildren: bool)
      requires Valid() && node.MemberValuePair?
      modifies this
      ensures Valid() && !visitChildren
      ensures MemberValuePairStep(Cfg(), old(State()), node) == if ok then Some(State()) else None
    {
      var binding := node.pairBinding;
      if binding.None? {
        return false, false;
      }
      var annotationQualifiedName := GetAnnotationQualifiedName(binding.value);
      if annotationQualifiedName == Some(MAPPING_ANNOTATION_QUALIFIED_NAME)
         && IsInRange(invocationOffset, node.valueStart, node.valueLength)
         && IsMappingAnnotationMethod(node.name)
      {
        isValidValue := true;
        if node.name == SOURCE_ANNOTATION_METHOD {
          isSource := true;
        }
      }
      return true, false;
    }

    /** `visit(MethodDeclaration)`; `ok` is false where the null binding throws. */
    method VisitMethodDeclaration(node: Node) returns (ok: bool, visitChildren: bool)
      requires Valid() && node.MethodDeclaration? && NodeTypesIn(table, node)
      modifies this
      ensures Valid()
      ensures MethodDeclarationStep(Cfg(), old(State()), node) == if ok then Some((State(), visitChildren)) else None
    {
      if IsInRange(invocationOffset, node.start, node.length) {
        var binding := node.methodBinding;
        if binding.None? {
          return false, false;
        }
        var returnType := binding.value.returnType;
        var targets := FindTypeProperties(returnType, SET_PREFIX);
        targetProperties := AddAll(targetProperties, targets);
        var parameterTypes := binding.value.parameterTypes;
        if |parameterTypes| == 1 {
          var getters := FindTypeProperties(parameterTypes[0], GET_PREFIX);
          sourceProperties := AddAll(sourceProperties, getters);
          var predicates := FindTypeProperties(parameterTypes[0], IS_PREFIX);
          sourceProperties := AddAll(sourceProperties, predicates);
        }
        assert Elements(targetProperties) == old(State()).targetProperties + TargetContribution(Cfg(), binding.value);
        assert Elements(sourceProperties) == old(State()).sourceProperties + SourceContribution(Cfg(), binding.value);
        return true, true;
      }
      return true, false;
    }

    /** `node.accept(this)`: `visit`, then the children if it returned true; `ok` is false where an exception escapes. */
    method Accept(node: Node) returns (ok: bool)
      requires Valid() && NodeTypesIn(table, node)
      modifies this
      ensures Valid()
      ensures Walk(Cfg(), old(State()), node) == if ok then Some(State()) else None
      decreases node, 1
    {
      match node
      case MemberValuePair(_, _, _, _, _) =>
        var visitChildren;
        ok, visitChildren := VisitMemberValuePair(node);
      case MethodDeclaration(_, _, _, _) =>
        var visitChildren;
        ok, visitChildren := VisitMethodDeclaration(node);
        if ok && visitChildren {
          ok := AcceptChildren(node, 0);
        }
      case SingleVariableDeclaration(_, _, _) =>
        ok := AcceptChildren(node, 0);
      case Annotation(_, _, _) =>
        ok := AcceptChildren(node, 0);
      case Other(_) | ArrayInitializer(_) =>
        ok := AcceptChildren(node, 0);
    }

    /** The children of `parent` from index `i` on. */
    method AcceptChildren(parent: Node, i: nat) returns (ok: bool)
      requires Valid() && NodeTypesIn(table, parent) && i <= |parent.children|
      modifies this
      ensures Valid()
      ensures WalkChildren(Cfg(), old(State()), parent, i) == if ok then Some(State()) else None
      decreases parent, 0, |parent.children| - i
    {
      var j := i;
      ok := true;
      while j < |parent.children|
        invariant i <= j <= |parent.children|
        invariant ok && Valid()
        invariant WalkChildren(Cfg(), old(State()), parent, i) == WalkChildren(Cfg(), State(), parent, j)
        decreases |parent.children| - j
      {
        assert parent.children[j] in parent.children;
        ghost var before := State();
        ok := Accept(parent.children[j]);
        if !ok {
          return false;
        }
        WalkChildrenStep(Cfg(), before, parent, j);
        j := j + 1;
      }
    }
  }

  // ---------------------------------------------------------------------------
  // parseCompilationUnit
  // ---------------------------------------------------------------------------

  /**
   * `parseCompilationUnit` as a function of the parsed unit: none when the
   * visitor throws; nothing unless the value is valid; then one proposal for
   * each source property (when `isSource`) or target property that starts
   * with the token, in `TreeSet` order.
   */
  ghost function ParseSpec(c: VisitorConfig, root: Node, token: string): Option<seq<Proposal>>
    requires NodeTypesIn(c.table, root)
  {
    match Walk(c, Initial, root)
    case None => None
    case Some(s) =>
      if !s.isValidValue then Some([]) else Some(PrefixProposals(SortedOf(Chosen(s)), c.invocationOffset, token))
  }

  /** The properties `parseCompilationUnit` offers from: the source ones when `isSource`, the target ones otherwise. */
  function Chosen(s: VisitorState): set<string>
  {
    if s.isSource then s.sourceProperties else s.targetProperties
  }

  /**
   * `parseCompilationUnit`: runs the visitor over the parsed unit and offers
   * the chosen properties that start with the token; none where the visitor
   * throws.
   */
  method ParseCompilationUnit(compilationUnit: CompilationUnit, invocationOffset: int, token: string,
                              table: TypeTable, nameSource: NameSource)
    returns (r: Option<seq<Proposal>>)
    requires WellFormed(table) && NodeTypesIn(table, compilationUnit.ast)
    ensures r == ParseSpec(VisitorConfig(invocationOffset, table, nameSource), compilationUnit.ast, token)
  {
    var returnValue := [];
    var astNode := compilationUnit.ast;
    var astVisitor := new MappingPropertyVisitor(invocationOffset, table, nameSource);
    var ok := astVisitor.Accept(astNode);
    if !ok {
      return None;
    }
    if astVisitor.isValidValue {
      var propertiesToProcess := if astVisitor.isSource then astVisitor.sourceProperties else astVisitor.targetProperties;
      ghost var sorted := SortedOf(Elements(propertiesToProcess));
      assert forall x :: x in propertiesToProcess <==> x in Elements(propertiesToProcess);
      assert forall x :: x in sorted <==> x in Elements(sorted);
      SortedUnique(propertiesToProcess, sorted);
      var i := 0;
      while i < |propertiesToProcess|
        invariant 0 <= i <= |propertiesToProcess|
        invariant returnValue == PrefixProposals(propertiesToProcess[..i], invocationOffset, token)
      {
        var property := propertiesToProcess[i];
        assert propertiesToProcess[..i + 1][..i] == propertiesToProcess[..i];
        if StartsWith(property, token) {
          var replacement := property[|token|..];
          returnValue := returnValue + [Proposal(replacement, invocationOffset, 0, |replacement|, property)];
        }
        i := i + 1;
      }
      assert propertiesToProcess[..i] == propertiesToProcess;
    }
    return Some(returnValue);
  }

  /**
   * What `parseCompilationUnit` returns: none exactly when the walk meets a
   * null binding; otherwise nothing unless the value is valid, and then
   * exactly the chosen properties that start with the token, in strictly
   * increasing order, each completing the token to the property and inserted
   * at the cursor without replacing anything.
   */
  lemma ParseProposals(c: VisitorConfig, root: Node, token: string)
    requires NodeTypesIn(c.table, root)
    ensures ParseSpec(c, root, token).None? <==> ReachesNullBinding(c, root)
    ensures ParseSpec(c, root, token).Some? ==>
            var r := ParseSpec(c, root, token).value;
            var s := Walk(c, Initial, root).value;
            && (!s.isValidValue ==> r == [])
            && (forall i, j :: 0 <= i < j < |r| ==> Less(r[i].displayString, r[j].displayString))
            && (forall i :: 0 <= i < |r| ==> r[i].displayString in Chosen(s) && Completes(r[i], c.invocationOffset, token))
            && (s.isValidValue ==>
                  forall p :: p in Chosen(s) && StartsWith(p, token) ==> exists i :: 0 <= i < |r| && r[i].displayString == p)
  {
    WalkThrowsExactly(c, Initial, root);
    if Walk(c, Initial, root).Some? && Walk(c, Initial, root).value.isValidValue {
      var s := Walk(c, Initial, root).value;
      var props := SortedOf(Chosen(s));
      var r := PrefixProposals(props, c.invocationOffset, token);
      assert ParseSpec(c, root, token) == Some(r);
      assert StrictlySorted(props);
      PrefixProposalsSpec(props, c.invocationOffset, token);
      PrefixProposalsSorted(props, c.invocationOffset, token);
      assert forall x :: x in props <==> x in Chosen(s);
    }
  }

  /**
   * Where the chosen properties come from, after a walk from a fresh visitor:
   * the value is valid only if some `source` or `target` member of `@Mapping`
   * holds the cursor, and the source side is chosen only if a `source` member
   * did; every target property comes from the `set` methods of the return
   * type of a method declaration that holds the cursor, every source
   * property from the `get`/`is` methods of the single parameter type of one.
   */
  lemma ParseProvenance(c: VisitorConfig, root: Node)
    requires NodeTypesIn(c.table, root)
    ensures Walk(c, Initial, root).Some? ==>
            var s := Walk(c, Initial, root).value;
            && (s.isValidValue ==> HasQualifyingPair(c, root))
            && (s.isSource ==> s.isValidValue && HasSourcePair(c, root))
            && (forall p :: p in s.targetProperties ==> TargetFrom(c, root, p))
            && (forall p :: p in s.sourceProperties ==> SourceFrom(c, root, p))
  {
    if Walk(c, Initial, root).Some? {
      WalkPreserves(c, Initial, root);
    }
  }
}
