/**
 * proposal/visitors/PropertyNameProposalCollector.java: the AST visitor that
 * collects the property-path proposals for the `source` or `target` member of
 * a `@Mapping` or `@ValueMapping` annotation.
 *
 * The visitor's behaviour is given first as pure step functions on a
 * `CollectorState` and a `Walk` over the syntax tree in `ASTNode.accept`
 * order; the class `PropertyNameProposalCollector` below has the same fields
 * and methods as the Java visitor and is proved to follow those functions.
 */
module ProposalCollector {
  import opened JavaLang
  import opened TypeBindings
  import opened Ast
  import opened Bindings
  import opened MapStructApiConstants
  import opened PropertyAccessors

  /**
   * What the visitor is constructed with (the cursor position and the text
   * already typed before it), together with what it reads from its
   * environment: the type table behind the bindings, the qualified name of
   * the `@Context` annotation, and `util.Ranges.isInRange`.
   */
  datatype Config = Config(
    invocationOffset: int,
    givenPrefix: string,
    table: TypeTable,
    contextFqName: string,
    isInRange: (int, int, int) -> bool)

  /** The visitor's mutable fields; `proposed` is the content of the `TreeSet`. */
  datatype CollectorState = CollectorState(
    proposed: set<string>,
    sourceNameToType: map<string, TypeId>,
    source: bool,
    valid: bool,
    inMethod: bool,
    resultType: Option<TypeId>,
    proposalPrefix: string)

  /** The fields of a freshly constructed visitor. */
  const Start: CollectorState := CollectorState({}, map[], false, false, false, None, "")

  /** Every type the state refers to is in the table. */
  ghost predicate StateTypesIn(T: TypeTable, s: CollectorState)
  {
    (forall k :: k in s.sourceNameToType ==> s.sourceNameToType[k] in T)
    && (s.resultType.Some? ==> s.resultType.value in T)
  }

  /** `isSupportedAnnotation`: `@Mapping` or `@ValueMapping`, by qualified name. */
  predicate IsSupportedAnnotation(annotationQualifiedName: Option<string>)
  {
    annotationQualifiedName == Some(MAPPING_FQ_NAME) || annotationQualifiedName == Some(VALUE_MAPPING_FQ_NAME)
  }

  /** A member-value pair the cursor is completing: `source` or `target` of a supported annotation, cursor inside its value. */
  predicate Qualifying(c: Config, node: Node)
    requires node.MemberValuePair?
  {
    node.pairBinding.Some?
    && IsSupportedAnnotation(GetAnnotationQualifiedName(node.pairBinding.value))
    && c.isInRange(c.invocationOffset, node.valueStart, node.valueLength)
    && (node.name == MAPPING_MEMBER_SOURCE || node.name == MAPPING_MEMBER_TARGET)
  }

  /**
   * `visit(MemberValuePair)`; the children are never visited. None when the
   * pair's binding is null, which `getAnnotationQualifiedName` dereferences.
   */
  function MemberValuePairStep(c: Config, s: CollectorState, node: Node): (r: Option<CollectorState>)
    requires node.MemberValuePair?
    ensures r.None? <==> node.pairBinding.None?
    ensures r.Some? ==> (r.value.valid <==> s.valid || Qualifying(c, node))
    ensures r.Some? && Qualifying(c, node) ==> r.value.source == (node.name == MAPPING_MEMBER_SOURCE)
    ensures r.Some? && !Qualifying(c, node) ==> r.value == s
    ensures r.Some? ==> r.value.(valid := s.valid, source := s.source) == s
  {
    if node.pairBinding.None? then None
    else if Qualifying(c, node) then Some(s.(valid := true, source := node.name == MAPPING_MEMBER_SOURCE))
    else Some(s)
  }

  /** `visit(MethodDeclaration)`: `inMethod` records whether the cursor is inside; only then are the children visited. */
  function MethodDeclarationStep(c: Config, s: CollectorState, node: Node): (r: (CollectorState, bool))
    requires node.MethodDeclaration?
    ensures r.1 == r.0.inMethod
    ensures r.0.(inMethod := s.inMethod) == s
  {
    var inRange := c.isInRange(c.invocationOffset, node.start, node.length);
    (s.(inMethod := inRange), inRange)
  }

  /** A parameter annotated `@MappingTarget`, `@TargetType` or `@Context` is not a source parameter. */
  predicate ExcludedFromSources(c: Config, annotations: seq<AnnotationBinding>)
  {
    ContainsAnnotation(annotations, MAPPING_TARGET_FQ_NAME)
    || ContainsAnnotation(annotations, TARGET_TYPE_FQ_NAME)
    || ContainsAnnotation(annotations, c.contextFqName)
  }

  /**
   * `visit(SingleVariableDeclaration)`: a `@MappingTarget` parameter's type
   * becomes the result type; any other parameter that is neither
   * `@TargetType` nor `@Context` is recorded by name as a source. None when
   * the parameter's binding is null, whose annotations are read first.
   */
  function VariableDeclarationStep(c: Config, s: CollectorState, node: Node): (r: Option<CollectorState>)
    requires node.SingleVariableDeclaration?
    ensures r.None? <==> node.variableBinding.None?
    ensures r.Some? && ContainsAnnotation(node.variableBinding.value.annotations, MAPPING_TARGET_FQ_NAME) ==>
              r.value == s.(resultType := Some(node.variableBinding.value.variableType))
    ensures r.Some? && ExcludedFromSources(c, node.variableBinding.value.annotations) ==>
              r.value.sourceNameToType == s.sourceNameToType
    ensures r.Some? && !ExcludedFromSources(c, node.variableBinding.value.annotations) ==>
              r.value == s.(sourceNameToType := s.sourceNameToType[node.name := node.variableBinding.value.variableType])
  {
    match node.variableBinding
    case None => None
    case Some(binding) =>
      if ContainsAnnotation(binding.annotations, MAPPING_TARGET_FQ_NAME) then
        Some(s.(resultType := Some(binding.variableType)))
      else if !ContainsAnnotation(binding.annotations, TARGET_TYPE_FQ_NAME)
           && !ContainsAnnotation(binding.annotations, c.contextFqName) then
        Some(s.(sourceNameToType := s.sourceNameToType[node.name := binding.variableType]))
      else Some(s)
  }

  /** The strings `proposeIfPrefixMatches` adds for `values`: `proposalPrefix + value` for each value starting with `prefix`. */
  function Matching(proposalPrefix: string, prefix: string, values: set<string>): set<string>
  {
    set v | v in values && (|prefix| == 0 || StartsWith(v, prefix)) :: proposalPrefix + v
  }

  /** Exactly the values starting with the prefix are proposed, each behind `proposalPrefix`; an empty prefix admits all. */
  lemma MatchingSpec(proposalPrefix: string, prefix: string, values: set<string>)
    ensures forall v :: v in values && StartsWith(v, prefix) ==> proposalPrefix + v in Matching(proposalPrefix, prefix, values)
    ensures forall x :: x in Matching(proposalPrefix, prefix, values) ==>
              StartsWith(x, proposalPrefix) && x[|proposalPrefix|..] in values && StartsWith(x[|proposalPrefix|..], prefix)
    ensures prefix == "" ==> Matching(proposalPrefix, prefix, values) == set v | v in values :: proposalPrefix + v
  {
    forall x | x in Matching(proposalPrefix, prefix, values)
      ensures StartsWith(x, proposalPrefix) && x[|proposalPrefix|..] in values && StartsWith(x[|proposalPrefix|..], prefix)
    {
      var v :| v in values && (|prefix| == 0 || StartsWith(v, prefix)) && x == proposalPrefix + v;
      assert x[|proposalPrefix|..] == v;
    }
  }

  /** Adding one value to the set of candidates adds at most its own proposal. */
  lemma MatchingAdd(proposalPrefix: string, prefix: string, done: set<string>, v: string)
    ensures Matching(proposalPrefix, prefix, done + {v}) ==
            Matching(proposalPrefix, prefix, done) + (if |prefix| == 0 || StartsWith(v, prefix) then {proposalPrefix + v} else {})
  {
  }

  /** `proposeIfPrefixMatches` over a collection of values. */
  function ProposeStep(s: CollectorState, prefix: string, values: set<string>): CollectorState
  {
    s.(proposed := s.proposed + Matching(s.proposalPrefix, prefix, values))
  }

  /** Proposing the values one at a time, in any order, proposes the whole collection. */
  lemma ProposeStepAdd(s: CollectorState, prefix: string, done: set<string>, v: string)
    ensures ProposeStep(ProposeStep(s, prefix, done), prefix, {v}) == ProposeStep(s, prefix, done + {v})
  {
    MatchingAdd(s.proposalPrefix, prefix, done, v);
    MatchingAdd(s.proposalPrefix, prefix, {}, v);
    assert {} + {v} == {v};
  }

  /** `proposePropertiesIfPrefixMatches`: the enum constants of an enum, else the property names of its accessors. */
  function ProposePropertiesStep(c: Config, s: CollectorState, prefix: string, t: TypeId): CollectorState
    requires t in c.table
  {
    if c.table[t].isEnum then ProposeStep(s, prefix, Elements(EnumConstants(c.table, t)))
    else ProposeStep(s, prefix, PropertyMethods(None, c.table[t].allMethods, AccessorPrefixes(s.source)).Keys)
  }

  /** The value of a map with a single entry. */
  ghost function OnlyValue(m: map<string, TypeId>): (v: TypeId)
    requires |m| == 1
    ensures exists k :: k in m && m[k] == v && m.Keys == {k}
  {
    var k :| k in m;
    assert m.Keys == {k} by {
      forall j | j in m ensures j == k {
        if j != k {
          assert {j, k} <= m.Keys;
          assert |{j, k}| == 2;
          SubsetCard({j, k}, m.Keys);
        }
      }
    }
    m[k]
  }

  /** The `IMethodBinding` of a method declaration, if resolved, refers only to types of the table. */
  predicate BindingTypesIn(T: TypeTable, methodBinding: Option<MethodBinding>)
  {
    methodBinding.Some? ==> MethodWellFormed(T, methodBinding.value)
  }

  /**
   * `getTypeForPropertyProposals`: the type whose properties are proposed,
   * with the state after any proposals it makes itself; none when it throws
   * (`iterator().next()` on an empty source map, or the return type of a
   * method whose binding is null).
   */
  ghost function TypeForPropertyProposals(c: Config, s: CollectorState, methodBinding: Option<MethodBinding>, path: seq<string>,
                                          propertyPrefix: string): (r: Option<(CollectorState, Option<TypeId>)>)
    requires WellFormed(c.table) && StateTypesIn(c.table, s) && BindingTypesIn(c.table, methodBinding)
    ensures r.None? <==> (s.source && |s.sourceNameToType| == 0) || (!s.source && s.resultType.None? && methodBinding.None?)
    ensures r.Some? && r.value.1.Some? ==> r.value.1.value in c.table
    ensures r.Some? && !(s.source && |s.sourceNameToType| > 1 && |path| == 0) ==> r.value.0 == s
  {
    if s.source then
      if |s.sourceNameToType| > 1 then
        if |path| == 0 then
          Some((ProposeStep(s, propertyPrefix, s.sourceNameToType.Keys), None))
        else
          var first := path[0];
          var t := if first in s.sourceNameToType then Some(s.sourceNameToType[first]) else None;
          Some((s, TypeFromPath(c.table, true, t, path[1..])))
      else if |s.sourceNameToType| == 0 then None
      else
        var t := OnlyValue(s.sourceNameToType);
        Some((s, TypeFromPath(c.table, true, Some(t), path)))
    else if s.resultType.Some? then Some((s, TypeFromPath(c.table, false, s.resultType, path)))
    else if methodBinding.None? then None
    else Some((s, TypeFromPath(c.table, false, Some(methodBinding.value.returnType), path)))
  }

  /** The property path before the last element of the typed text: empty without a dot, else its parts split at dots. */
  function PathToProposedType(givenPrefix: string): seq<string>
  {
    var pathWithoutLastElement := PathWithoutLastElement(givenPrefix);
    if |pathWithoutLastElement| == 0 then [] else SplitDot(pathWithoutLastElement)
  }

  /** What every proposal is prefixed with: the path before the last element and a dot, or nothing. */
  function ProposalPrefixOf(givenPrefix: string): string
  {
    var pathWithoutLastElement := PathWithoutLastElement(givenPrefix);
    if |pathWithoutLastElement| == 0 then "" else pathWithoutLastElement + "."
  }

  /** `endVisit(MethodDeclaration)`: none when it throws. */
  ghost function EndMethodStep(c: Config, s: CollectorState, node: Node): (r: Option<CollectorState>)
    requires node.MethodDeclaration?
    requires WellFormed(c.table) && StateTypesIn(c.table, s) && BindingTypesIn(c.table, node.methodBinding)
    ensures !s.inMethod ==> r == Some(s)
    ensures r.None? <==> s.inMethod && ((s.source && |s.sourceNameToType| == 0)
                                        || (!s.source && s.resultType.None? && node.methodBinding.None?))
    ensures r.Some? ==> r.value.(proposed := s.proposed, proposalPrefix := s.proposalPrefix) == s && s.proposed <= r.value.proposed
  {
    if !s.inMethod then Some(s)
    else
      var s1 := s.(proposalPrefix := ProposalPrefixOf(c.givenPrefix));
      var propertyPrefix := LastPathElement(c.givenPrefix);
      match TypeForPropertyProposals(c, s1, node.methodBinding, PathToProposedType(c.givenPrefix), propertyPrefix)
      case None => None
      case Some((s2, proposalType)) =>
        assert s2 == s1 || s2 == ProposeStep(s1, propertyPrefix, s1.sourceNameToType.Keys);
        assert s2.(proposed := s.proposed, proposalPrefix := s.proposalPrefix) == s && s.proposed <= s2.proposed;
        if proposalType.None? then Some(s2)
        else
          var s3 := ProposePropertiesStep(c, s2, propertyPrefix, proposalType.value);
          assert s3.(proposed := s2.proposed) == s2 && s2.proposed <= s3.proposed;
          Some(s3)
  }

  /**
   * The visitor driven over `n` by `ASTNode.accept`: `visit`, the children
   * when `visit` returned true, then `endVisit`. None when an exception
   * escapes.
   */
  ghost function Walk(c: Config, s: CollectorState, n: Node): (r: Option<CollectorState>)
    requires WellFormed(c.table) && StateTypesIn(c.table, s) && NodeTypesIn(c.table, n)
    ensures r.Some? ==> StateTypesIn(c.table, r.value)
    decreases n, 1
  {
    match n
    case MethodDeclaration(_, _, _, _) =>
      var (s1, visitChildren) := MethodDeclarationStep(c, s, n);
      var s2 := if visitChildren then WalkChildren(c, s1, n, 0) else Some(s1);
      if s2.None? then None else EndMethodStep(c, s2.value, n)
    case SingleVariableDeclaration(_, _, _) => VariableDeclarationStep(c, s, n)
    case MemberValuePair(_, _, _, _, _) => MemberValuePairStep(c, s, n)
    case Annotation(_, _, _) => WalkChildren(c, s, n, 0)
    case Other(_) | ArrayInitializer(_) => WalkChildren(c, s, n, 0)
  }

  /** The children of `parent` from index `i` on, in order; an exception stops the walk. */
  ghost function WalkChildren(c: Config, s: CollectorState, parent: Node, i: nat): (r: Option<CollectorState>)
    requires WellFormed(c.table) && StateTypesIn(c.table, s) && NodeTypesIn(c.table, parent) && i <= |parent.children|
    ensures r.Some? ==> StateTypesIn(c.table, r.value)
    decreases parent, 0, |parent.children| - i
  {
    if i == |parent.children| then Some(s)
    else
      assert parent.children[i] in parent.children;
      match Walk(c, s, parent.children[i])
      case None => None
      case Some(s1) => WalkChildren(c, s1, parent, i + 1)
  }

  /** One child visited without an exception leaves the rest of the children to visit. */
  lemma WalkChildrenStep(c: Config, s: CollectorState, parent: Node, i: nat)
    requires WellFormed(c.table) && StateTypesIn(c.table, s) && NodeTypesIn(c.table, parent) && i < |parent.children|
    requires parent.children[i] in parent.children && Walk(c, s, parent.children[i]).Some?
    ensures WalkChildren(c, s, parent, i) == WalkChildren(c, Walk(c, s, parent.children[i]).value, parent, i + 1)
  {
  }

  /** Some member-value pair in the tree is one the cursor is completing. */
  ghost predicate HasQualifyingPair(c: Config, n: Node)
  {
    (n.MemberValuePair? && Qualifying(c, n)) || exists ch :: ch in n.children && HasQualifyingPair(c, ch)
  }

  /** Some parameter in the tree is named `k` and is neither `@MappingTarget`, `@TargetType` nor `@Context`. */
  ghost predicate DeclaresSource(c: Config, n: Node, k: string)
  {
    (n.SingleVariableDeclaration? && n.name == k && n.variableBinding.Some?
     && !ExcludedFromSources(c, n.variableBinding.value.annotations))
    || exists ch :: ch in n.children && DeclaresSource(c, ch, k)
  }

  /** The typed text has no dot, or has something before its last dot. */
  predicate ProposalsKeepPrefix(givenPrefix: string)
  {
    '.' !in givenPrefix || |PathWithoutLastElement(givenPrefix)| > 0
  }

  /** What visiting `n` may change, going from `s` to `r`. */
  ghost predicate Preserves(c: Config, n: Node, s: CollectorState, r: CollectorState)
  {
    && (s.valid ==> r.valid)
    && (!HasQualifyingPair(c, n) ==> r.valid == s.valid && r.source == s.source)
    && s.sourceNameToType.Keys <= r.sourceNameToType.Keys
    && (forall k :: k in r.sourceNameToType ==>
          (k in s.sourceNameToType && r.sourceNameToType[k] == s.sourceNameToType[k]) || DeclaresSource(c, n, k))
    && s.proposed <= r.proposed
    && (ProposalsKeepPrefix(c.givenPrefix) ==> forall x :: x in r.proposed - s.proposed ==> StartsWith(x, c.givenPrefix))
  }

  /** The proposal prefix followed by the last path element is the typed text again. */
  lemma ProposalPrefixJoin(givenPrefix: string)
    requires ProposalsKeepPrefix(givenPrefix)
    ensures ProposalPrefixOf(givenPrefix) + LastPathElement(givenPrefix) == givenPrefix
  {
    PathReassembles(givenPrefix);
    if '.' in givenPrefix {
      assert PathWithoutLastElement(givenPrefix) + "." + LastPathElement(givenPrefix)
          == (PathWithoutLastElement(givenPrefix) + ".") + LastPathElement(givenPrefix);
    }
  }

  /** Every string `proposeIfPrefixMatches` adds starts with the proposal prefix followed by the property prefix. */
  lemma ProposeStepPrefix(s: CollectorState, prefix: string, values: set<string>)
    ensures s.proposed <= ProposeStep(s, prefix, values).proposed
    ensures forall x :: x in ProposeStep(s, prefix, values).proposed - s.proposed ==> StartsWith(x, s.proposalPrefix + prefix)
  {
    forall x | x in ProposeStep(s, prefix, values).proposed - s.proposed ensures StartsWith(x, s.proposalPrefix + prefix) {
      var v :| v in values && (|prefix| == 0 || StartsWith(v, prefix)) && x == s.proposalPrefix + v;
      assert v[..|prefix|] == prefix;
      assert x[..|s.proposalPrefix + prefix|] == s.proposalPrefix + prefix;
    }
  }

  /** `endVisit` keeps the invariants. */
  lemma EndMethodPreserves(c: Config, s: CollectorState, node: Node)
    requires node.MethodDeclaration?
    requires WellFormed(c.table) && StateTypesIn(c.table, s) && BindingTypesIn(c.table, node.methodBinding)
    requires EndMethodStep(c, s, node).Some?
    ensures Preserves(c, node, s, EndMethodStep(c, s, node).value)
  {
    if s.inMethod {
      var s1 := s.(proposalPrefix := ProposalPrefixOf(c.givenPrefix));
      var propertyPrefix := LastPathElement(c.givenPrefix);
      var (s2, proposalType) := TypeForPropertyProposals(c, s1, node.methodBinding, PathToProposedType(c.givenPrefix), propertyPrefix).value;
      if s1.source && |s1.sourceNameToType| > 1 && |PathToProposedType(c.givenPrefix)| == 0 {
        ProposeStepPrefix(s1, propertyPrefix, s1.sourceNameToType.Keys);
      } else {
        assert s2 == s1;
      }
      var r := EndMethodStep(c, s, node).value;
      if proposalType.Some? {
        var t := proposalType.value;
        if c.table[t].isEnum {
          ProposeStepPrefix(s2, propertyPrefix, Elements(EnumConstants(c.table, t)));
        } else {
          ProposeStepPrefix(s2, propertyPrefix, PropertyMethods(None, c.table[t].allMethods, AccessorPrefixes(s2.source)).Keys);
        }
      }
      if ProposalsKeepPrefix(c.givenPrefix) {
        ProposalPrefixJoin(c.givenPrefix);
      }
    }
  }

  /** Visiting a node keeps the invariants. */
  lemma {:induction false} WalkPreserves(c: Config, s: CollectorState, n: Node)
    requires WellFormed(c.table) && StateTypesIn(c.table, s) && NodeTypesIn(c.table, n)
    requires Walk(c, s, n).Some?
    ensures Preserves(c, n, s, Walk(c, s, n).value)
    decreases n, 2
  {
    match n
    case MethodDeclaration(_, _, _, _) =>
      MethodWalkPreserves(c, s, n);
    case SingleVariableDeclaration(_, _, _) =>
      VariableWalkPreserves(c, s, n);
    case MemberValuePair(_, _, _, _, _) =>
    case Annotation(_, _, _) =>
      WalkChildrenPreserves(c, s, n, 0);
    case Other(_) | ArrayInitializer(_) =>
      WalkChildrenPreserves(c, s, n, 0);
  }

  lemma {:induction false} MethodWalkPreserves(c: Config, s: CollectorState, n: Node)
    requires n.MethodDeclaration?
    requires WellFormed(c.table) && StateTypesIn(c.table, s) && NodeTypesIn(c.table, n)
    requires Walk(c, s, n).Some?
    ensures Preserves(c, n, s, Walk(c, s, n).value)
    decreases n, 1
  {
    var (s1, visitChildren) := MethodDeclarationStep(c, s, n);
    var s2 := if visitChildren then WalkChildren(c, s1, n, 0) else Some(s1);
    if visitChildren {
      WalkChildrenPreserves(c, s1, n, 0);
    }
    EndMethodPreserves(c, s2.value, n);
  }

  lemma VariableWalkPreserves(c: Config, s: CollectorState, n: Node)
    requires n.SingleVariableDeclaration?
    requires WellFormed(c.table) && StateTypesIn(c.table, s) && NodeTypesIn(c.table, n)
    requires Walk(c, s, n).Some?
    ensures Preserves(c, n, s, Walk(c, s, n).value)
  {
    var r := Walk(c, s, n).value;
    forall k | k in r.sourceNameToType
      ensures (k in s.sourceNameToType && r.sourceNameToType[k] == s.sourceNameToType[k]) || DeclaresSource(c, n, k)
    {
      if !(k in s.sourceNameToType && r.sourceNameToType[k] == s.sourceNameToType[k]) {
        assert !ExcludedFromSources(c, n.variableBinding.value.annotations) && k == n.name;
      }
    }
  }

  /** Visiting the children of `parent` from `i` on keeps the invariants, stated for `parent`. */
  lemma {:induction false} WalkChildrenPreserves(c: Config, s: CollectorState, parent: Node, i: nat)
    requires WellFormed(c.table) && StateTypesIn(c.table, s) && NodeTypesIn(c.table, parent) && i <= |parent.children|
    requires WalkChildren(c, s, parent, i).Some?
    ensures Preserves(c, parent, s, WalkChildren(c, s, parent, i).value)
    decreases parent, 0, |parent.children| - i
  {
    if i < |parent.children| {
      var child := parent.children[i];
      assert child in parent.children;
      var s1 := Walk(c, s, child).value;
      WalkPreserves(c, s, child);
      WalkChildrenPreserves(c, s1, parent, i + 1);
      var r := WalkChildren(c, s, parent, i).value;
      assert HasQualifyingPair(c, child) ==> HasQualifyingPair(c, parent);
      forall k | DeclaresSource(c, child, k) ensures DeclaresSource(c, parent, k) {
      }
    }
  }

  /**
   * What a whole walk from a fresh visitor guarantees: `valid` is set only if
   * some supported `source`/`target` member holds the cursor; every source
   * parameter recorded is named by a parameter that is not `@MappingTarget`,
   * `@TargetType` or `@Context`; and when the typed text has no dot, or
   * something before its last dot, every proposal starts with the typed text.
   */
  lemma CollectorOutcome(c: Config, root: Node)
    requires WellFormed(c.table) && NodeTypesIn(c.table, root)
    requires Walk(c, Start, root).Some?
    ensures var r := Walk(c, Start, root).value;
            && (r.valid ==> HasQualifyingPair(c, root))
            && (forall k :: k in r.sourceNameToType ==> DeclaresSource(c, root, k))
            && (ProposalsKeepPrefix(c.givenPrefix) ==> forall x :: x in r.proposed ==> StartsWith(x, c.givenPrefix))
  {
    WalkPreserves(c, Start, root);
  }

  /** A method declaration the cursor is not inside changes nothing but `inMethod`, which becomes false. */
  lemma WalkOutsideMethod(c: Config, s: CollectorState, n: Node)
    requires n.MethodDeclaration? && !c.isInRange(c.invocationOffset, n.start, n.length)
    requires WellFormed(c.table) && StateTypesIn(c.table, s) && NodeTypesIn(c.table, n)
    ensures Walk(c, s, n) == Some(s.(inMethod := false))
  {
  }

  /**
   * With several source parameters and no path before the last element, the
   * matching parameter names themselves are proposed and no type is walked.
   */
  lemma EndMethodMultipleSources(c: Config, s: CollectorState, node: Node)
    requires node.MethodDeclaration?
    requires WellFormed(c.table) && StateTypesIn(c.table, s) && BindingTypesIn(c.table, node.methodBinding)
    requires s.inMethod && s.source && |s.sourceNameToType| > 1 && PathWithoutLastElement(c.givenPrefix) == ""
    ensures EndMethodStep(c, s, node) ==
      Some(s.(proposalPrefix := "", proposed := s.proposed + Matching("", LastPathElement(c.givenPrefix), s.sourceNameToType.Keys)))
  {
  }

  /** The source side starts from the parameter named by the first path element, or from the only parameter. */
  lemma SourceStartType(c: Config, s: CollectorState, methodBinding: Option<MethodBinding>, path: seq<string>, propertyPrefix: string)
    requires WellFormed(c.table) && StateTypesIn(c.table, s) && BindingTypesIn(c.table, methodBinding)
    requires s.source && |s.sourceNameToType| > 0 && (|s.sourceNameToType| > 1 ==> |path| > 0)
    ensures var r := TypeForPropertyProposals(c, s, methodBinding, path, propertyPrefix);
            && (|s.sourceNameToType| > 1 ==>
                  r == Some((s, TypeFromPath(c.table, true,
                                  if path[0] in s.sourceNameToType then Some(s.sourceNameToType[path[0]]) else None, path[1..]))))
            && (|s.sourceNameToType| == 1 ==>
                  exists k :: s.sourceNameToType.Keys == {k} && r == Some((s, TypeFromPath(c.table, true, Some(s.sourceNameToType[k]), path))))
  {
    if |s.sourceNameToType| == 1 {
      var t := OnlyValue(s.sourceNameToType);
      var k :| k in s.sourceNameToType && s.sourceNameToType[k] == t && s.sourceNameToType.Keys == {k};
    }
  }

  /**
   * The target side starts from the `@MappingTarget` parameter's type if
   * there is one, else from the method's return type, which throws when the
   * method's binding is null.
   */
  lemma TargetStartType(c: Config, s: CollectorState, methodBinding: Option<MethodBinding>, path: seq<string>, propertyPrefix: string)
    requires WellFormed(c.table) && StateTypesIn(c.table, s) && BindingTypesIn(c.table, methodBinding)
    requires !s.source
    ensures s.resultType.Some? ==>
              TypeForPropertyProposals(c, s, methodBinding, path, propertyPrefix) == Some((s, TypeFromPath(c.table, false, s.resultType, path)))
    ensures s.resultType.None? && methodBinding.Some? ==>
              TypeForPropertyProposals(c, s, methodBinding, path, propertyPrefix)
              == Some((s, TypeFromPath(c.table, false, Some(methodBinding.value.returnType), path)))
    ensures s.resultType.None? && methodBinding.None? ==> TypeForPropertyProposals(c, s, methodBinding, path, propertyPrefix).None?
  {
  }

  /**
   * The visitor object. `Accept` plays `node.accept(visitor)`; every method
   * is proved to change the fields exactly as the corresponding step
   * function says, and `Valid()` keeps the `TreeSet` sorted and free of
   * duplicates.
   */
  class PropertyNameProposalCollector {
    const invocationOffset: int
    const givenPrefix: string
    const table: TypeTable
    const contextFqName: string
    const isInRange: (int, int, int) -> bool

    /** The `TreeSet`, in its iteration order. */
    var proposedProperties: seq<string>
    var sourceNameToType: map<string, TypeId>
    var source: bool
    var valid: bool
    var inMethod: bool
    var resultType: Option<TypeId>
    var proposalPrefix: string

    function Cfg(): Config
    {
      Config(invocationOffset, givenPrefix, table, contextFqName, isInRange)
    }

    ghost function State(): CollectorState
      reads this
    {
      CollectorState(Elements(proposedProperties), sourceNameToType, source, valid, inMethod, resultType, proposalPrefix)
    }

    ghost predicate Valid()
      reads this
    {
      StrictlySorted(proposedProperties) && WellFormed(table) && StateTypesIn(table, State())
    }

    constructor (invocationOffset: int, givenPrefix: string, table: TypeTable, contextFqName: string,
                 isInRange: (int, int, int) -> bool)
      requires WellFormed(table)
      ensures Valid() && State() == Start
      ensures Cfg() == Config(invocationOffset, givenPrefix, table, contextFqName, isInRange)
    {
      this.invocationOffset := invocationOffset;
      this.givenPrefix := givenPrefix;
      this.table := table;
      this.contextFqName := contextFqName;
      this.isInRange := isInRange;
      proposedProperties := [];
      sourceNameToType := map[];
      source := false;
      valid := false;
      inMethod := false;
      resultType := None;
      proposalPrefix := "";
      new;
      assert Elements(proposedProperties) == {};
    }

    /** `visit(MemberValuePair)`; `ok` is false where the null binding throws. */
    method VisitMemberValuePair(node: Node) returns (ok: bool, visitChildren: bool)
      requires node.MemberValuePair? && Valid()
      modifies this
      ensures Valid() && !visitChildren
      ensures MemberValuePairStep(Cfg(), old(State()), node) == if ok then Some(State()) else None
    {
      var binding := node.pairBinding;
      if binding.None? {
        return false, false;
      }
      var annotationQualifiedName := GetAnnotationQualifiedName(binding.value);
      if IsSupportedAnnotation(annotationQualifiedName)
         && isInRange(invocationOffset, node.valueStart, node.valueLength)
         && (node.name == MAPPING_MEMBER_SOURCE || node.name == MAPPING_MEMBER_TARGET)
      {
        valid := true;
        source := node.name == MAPPING_MEMBER_SOURCE;
      }
      return true, false;
    }

    /** `visit(MethodDeclaration)`. */
    method VisitMethodDeclaration(node: Node) returns (visitChildren: bool)
      requires node.MethodDeclaration? && Valid()
      modifies this
      ensures Valid() && (State(), visitChildren) == MethodDeclarationStep(Cfg(), old(State()), node)
    {
      if isInRange(invocationOffset, node.start, node.length) {
        inMethod := true;
        return true;
      }
      inMethod := false;
      return false;
    }

    /** `visit(SingleVariableDeclaration)`; `ok` is false where the null binding throws. */
    method VisitSingleVariableDeclaration(node: Node) returns (ok: bool, visitChildren: bool)
      requires node.SingleVariableDeclaration? && Valid()
      requires node.variableBinding.Some? ==> node.variableBinding.value.variableType in table
      modifies this
      ensures Valid() && !visitChildren
      ensures VariableDeclarationStep(Cfg(), old(State()), node) == if ok then Some(State()) else None
    {
      var binding := node.variableBinding;
      if binding.None? {
        return false, false;
      }
      var annotations := binding.value.annotations;
      if ContainsAnnotation(annotations, MAPPING_TARGET_FQ_NAME) {
        resultType := Some(binding.value.variableType);
      } else if !ContainsAnnotation(annotations, TARGET_TYPE_FQ_NAME)
                && !ContainsAnnotation(annotations, contextFqName) {
        sourceNameToType := sourceNameToType[node.name := binding.value.variableType];
      }
      return true, false;
    }

    /** `proposeIfPrefixMatches(String, String)`: one value. */
    method ProposeIfPrefixMatches(prefix: string, value: string)
      requires Valid()
      modifies this
      ensures Valid() && State() == ProposeStep(old(State()), prefix, {value})
    {
      if |prefix| == 0 || StartsWith(value, prefix) {
        ghost var before := proposedProperties;
        proposedProperties := TreeSetAdd(proposedProperties, proposalPrefix + value);
        assert Elements(proposedProperties) == Elements(before) + {proposalPrefix + value};
      }
      assert Matching(proposalPrefix, prefix, {value}) ==
             if |prefix| == 0 || StartsWith(value, prefix) then {proposalPrefix + value} else {};
    }

    /** `proposeIfPrefixMatches(String, Collection)`: every value of the collection, in any order. */
    method ProposeAllIfPrefixMatches(propertyPrefix: string, keySet: set<string>)
      requires Valid()
      modifies this
      ensures Valid() && State() == ProposeStep(old(State()), propertyPrefix, keySet)
    {
      var remaining := keySet;
      while remaining != {}
        invariant remaining <= keySet
        invariant Valid() && State() == ProposeStep(old(State()), propertyPrefix, keySet - remaining)
        decreases |remaining|
      {
        var value :| value in remaining;
        ghost var done := keySet - remaining;
        ProposeIfPrefixMatches(propertyPrefix, value);
        ProposeStepAdd(old(State()), propertyPrefix, done, value);
        remaining := remaining - {value};
        assert keySet - remaining == done + {value};
      }
    }

    /** `proposePropertiesIfPrefixMatches`. */
    method ProposePropertiesIfPrefixMatches(propertyPrefix: string, t: TypeId)
      requires Valid() && t in table
      modifies this
      ensures Valid() && State() == ProposePropertiesStep(Cfg(), old(State()), propertyPrefix, t)
    {
      if table[t].isEnum {
        var constants := FindAllEnumConstants(table, t);
        ProposeAllIfPrefixMatches(propertyPrefix, Elements(constants));
      } else {
        var methodNames := table[t].allMethods;
        var propertyMethods := FindPropertyMethods(None, methodNames, AccessorPrefixes(source));
        ProposeAllIfPrefixMatches(propertyPrefix, propertyMethods.Keys);
      }
    }

    /** `retrieveProposalTypeFromPath`: consumes the path one element per call. */
    method RetrieveProposalTypeFromPath(proposalType: Option<TypeId>, pathToProposedType: seq<string>)
      returns (r: Option<TypeId>)
      requires WellFormed(table) && (proposalType.Some? ==> proposalType.value in table)
      ensures r == TypeFromPath(table, source, proposalType, pathToProposedType)
      decreases |pathToProposedType|
    {
      if proposalType.Some? && |pathToProposedType| > 0 {
        if table[proposalType.value].isEnum {
          return None;
        }
        var propertyName := pathToProposedType[0];
        var methodNames := table[proposalType.value].allMethods;
        var prefixes := AccessorPrefixes(source);
        var propertyMethods := FindPropertyMethods(Some(propertyName), methodNames, prefixes);
        PropertyMethodsOfOne(propertyName, methodNames, prefixes);
        if |propertyMethods| > 0 {
          var firstMethod := propertyMethods[propertyName][0];
          assert firstMethod in methodNames;
          assert BindingWellFormed(table, table[proposalType.value]);
          var nextType := NextType(firstMethod, source);
          r := RetrieveProposalTypeFromPath(Some(nextType), pathToProposedType[1..]);
        } else {
          return None;
        }
      } else {
        r := proposalType;
      }
    }

    /**
     * `getTypeForPropertyProposals`; `ok` is false where Java throws
     * `NoSuchElementException`, or dereferences the null binding of `node`.
     */
    method GetTypeForPropertyProposals(methodBinding: Option<MethodBinding>, pathToProposedType: seq<string>, propertyPrefix: string)
      returns (ok: bool, proposalType: Option<TypeId>)
      requires Valid() && BindingTypesIn(table, methodBinding)
      modifies this
      ensures ok ==> Valid()
      ensures TypeForPropertyProposals(Cfg(), old(State()), methodBinding, pathToProposedType, propertyPrefix)
              == if ok then Some((State(), proposalType)) else None
    {
      var t: Option<TypeId>;
      var path := pathToProposedType;
      if source {
        if |sourceNameToType| > 1 {
          if |path| == 0 {
            ProposeAllIfPrefixMatches(propertyPrefix, sourceNameToType.Keys);
            return true, None;
          } else {
            var first := path[0];
            path := path[1..];
            t := if first in sourceNameToType then Some(sourceNameToType[first]) else None;
          }
        } else {
          if |sourceNameToType| == 0 {
            return false, None;
          }
          var k :| k in sourceNameToType;
          ghost var v := OnlyValue(sourceNameToType);
          assert sourceNameToType[k] == v;
          t := Some(sourceNameToType[k]);
        }
      } else {
        if resultType.None? {
          if methodBinding.None? {
            return false, None;
          }
          t := Some(methodBinding.value.returnType);
        } else {
          t := resultType;
        }
      }
      proposalType := RetrieveProposalTypeFromPath(t, path);
      ok := true;
    }

    /** `endVisit(MethodDeclaration)`; `ok` is false where an exception escapes. */
    method EndVisitMethodDeclaration(node: Node) returns (ok: bool)
      requires node.MethodDeclaration? && Valid() && BindingTypesIn(table, node.methodBinding)
      modifies this
      ensures ok ==> Valid()
      ensures EndMethodStep(Cfg(), old(State()), node) == if ok then Some(State()) else None
    {
      if !inMethod {
        return true;
      }
      var pathWithoutLastElement := PathWithoutLastElement(givenPrefix);
      var pathToProposedType: seq<string>;
      if |pathWithoutLastElement| == 0 {
        pathToProposedType := [];
        proposalPrefix := "";
      } else {
        pathToProposedType := SplitDot(pathWithoutLastElement);
        proposalPrefix := pathWithoutLastElement + ".";
      }
      var propertyPrefix := LastPathElement(givenPrefix);
      var proposalType;
      ok, proposalType := GetTypeForPropertyProposals(node.methodBinding, pathToProposedType, propertyPrefix);
      if ok && proposalType.Some? {
        ProposePropertiesIfPrefixMatches(propertyPrefix, proposalType.value);
      }
    }

    /** `node.accept(this)`: `visit`, then the children if it returned true, then `endVisit`. */
    method Accept(node: Node) returns (ok: bool)
      requires Valid() && NodeTypesIn(table, node)
      modifies this
      ensures ok ==> Valid()
      ensures Walk(Cfg(), old(State()), node) == if ok then Some(State()) else None
      decreases node, 1
    {
      match node
      case MethodDeclaration(_, _, _, _) =>
        var visitChildren := VisitMethodDeclaration(node);
        ok := true;
        if visitChildren {
          ok := AcceptChildren(node, 0);
        }
        if ok {
          ok := EndVisitMethodDeclaration(node);
        }
      case SingleVariableDeclaration(_, _, _) =>
        var visitChildren;
        ok, visitChildren := VisitSingleVariableDeclaration(node);
      case MemberValuePair(_, _, _, _, _) =>
        var visitChildren;
        ok, visitChildren := VisitMemberValuePair(node);
      case Annotation(_, _, _) =>
        ok := AcceptChildren(node, 0);
      case Other(_) | ArrayInitializer(_) =>
        ok := AcceptChildren(node, 0);
    }

    /** The children of `parent` from index `i` on. */
    method AcceptChildren(parent: Node, i: nat) returns (ok: bool)
      requires Valid() && NodeTypesIn(table, parent) && i <= |parent.children|
      modifies this
      ensures ok ==> Valid()
      ensures WalkChildren(Cfg(), old(State()), parent, i) == if ok then Some(State()) else None
      decreases parent, 0, |parent.children| - i
    {
      var j := i;
      ok := true;
      while j < |parent.children|
        invariant i <= j <= |parent.children|
        invariant ok && Valid()
        invariant WalkChildren(Cfg(), old(State()), parent, i) == WalkChildren(Cfg(), State(), parent, j)
        decreases |parent.children| - j
      {
        assert parent.children[j] in parent.children;
        ghost var before := State();
        ok := Accept(parent.children[j]);
        if !ok {
          return false;
        }
        WalkChildrenStep(Cfg(), before, parent, j);
        j := j + 1;
      }
    }
  }
}
