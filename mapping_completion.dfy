/**
 * proposal/MappingAnnotationCompletionProposalComputer.java: completes the
 * `source` and `target` property paths of `@Mapping` and `@ValueMapping`
 * by running a `PropertyNameProposalCollector` over the parsed unit.
 */
module MappingCompletion {
  import opened JavaLang
  import opened TypeBindings
  import opened Ast
  import opened MapStructApiConstants
  import opened AnnotationCompletion
  import opened ProposalCollector

  const MAPPING_ANNOTATION_NAMES: seq<string> := [
    MAPPING_FQ_NAME,
    MAPPING_SIMPLE_NAME,
    MAPPINGS_SIMPLE_NAME,
    MAPPINGS_FQ_NAME,
    VALUE_MAPPING_FQ_NAME,
    VALUE_MAPPING_SIMPLE_NAME]

  /** `getAnnotationNames`: exactly the simple and qualified names of `@Mapping`, `@Mappings` and `@ValueMapping`. */
  function GetAnnotationNames(): (r: seq<string>)
    ensures |r| == 6
    ensures forall n :: n in r <==>
      n in {"Mapping", "org.mapstruct.Mapping", "Mappings", "org.mapstruct.Mappings", "ValueMapping", "org.mapstruct.ValueMapping"}
  {
    QualifiedNames();
    MAPPING_ANNOTATION_NAMES
  }

  /**
   * The proposals for the collected properties, in their order: each inserts
   * the property minus its first |token| characters at the cursor. None when
   * some property is shorter than the token (`substring` throws).
   */
  function PropertyProposals(properties: seq<string>, invocationOffset: int, token: string): (r: Option<seq<Proposal>>)
    ensures r.Some? <==> forall i :: 0 <= i < |properties| ==> |token| <= |properties[i]|
    ensures r.Some? ==> |r.value| == |properties|
  {
    if |properties| == 0 then Some([])
    else
      var last := properties[|properties| - 1];
      var prev := PropertyProposals(properties[..|properties| - 1], invocationOffset, token);
      assert forall i :: 0 <= i < |properties| - 1 ==> properties[..|properties| - 1][i] == properties[i];
      if prev.None? || |last| < |token| then None
      else
        var replacement := last[|token|..];
        Some(prev.value + [Proposal(replacement, invocationOffset, 0, |replacement|, last)])
  }

  /**
   * Each proposal displays its property, inserts at the cursor without
   * replacing anything, puts the cursor after the insertion, and completes the
   * token to the property whenever the property starts with the token.
   */
  lemma {:induction false} PropertyProposalsShape(properties: seq<string>, invocationOffset: int, token: string)
    requires PropertyProposals(properties, invocationOffset, token).Some?
    ensures var r := PropertyProposals(properties, invocationOffset, token).value;
            forall i :: 0 <= i < |r| ==>
              && r[i].displayString == properties[i]
              && r[i].replacementString == properties[i][|token|..]
              && r[i].replacementOffset == invocationOffset && r[i].replacementLength == 0
              && r[i].cursorPosition == |r[i].replacementString|
              && (StartsWith(properties[i], token) ==> token + r[i].replacementString == properties[i])
  {
    if |properties| > 0 {
      var init := properties[..|properties| - 1];
      PropertyProposalsShape(init, invocationOffset, token);
      var r := PropertyProposals(properties, invocationOffset, token).value;
      forall i | 0 <= i < |r| && StartsWith(properties[i], token)
        ensures token + r[i].replacementString == properties[i]
      {
        if i < |init| { assert properties[i] == init[i]; }
        assert properties[i] == properties[i][..|token|] + properties[i][|token|..];
      }
    }
  }

  /** `getProposals` as a function of the parsed unit: none when the visitor or `substring` throws. */
  ghost function GetProposalsSpec(c: Config, root: Node): (r: Option<seq<Proposal>>)
    requires WellFormed(c.table) && NodeTypesIn(c.table, root)
  {
    match Walk(c, Start, root)
    case None => None
    case Some(s) =>
      if !s.valid then Some([])
      else PropertyProposals(SortedOf(s.proposed), c.invocationOffset, c.givenPrefix)
  }

  /**
   * `getProposals`: parses the unit (the tree `ast`), runs the collector with
   * the token as the typed text, and turns every collected property into one
   * proposal. `ok` is false where an exception escapes.
   */
  method GetProposals(compilationUnit: CompilationUnit, invocationOffset: int, token: string,
                      table: TypeTable, contextFqName: string, isInRange: (int, int, int) -> bool)
    returns (ok: bool, returnValue: seq<Proposal>)
    requires WellFormed(table) && NodeTypesIn(table, compilationUnit.ast)
    ensures GetProposalsSpec(Config(invocationOffset, token, table, contextFqName, isInRange), compilationUnit.ast)
            == if ok then Some(returnValue) else None
  {
    returnValue := [];
    var astNode := compilationUnit.ast;
    var astVisitor := new PropertyNameProposalCollector(invocationOffset, token, table, contextFqName, isInRange);
    ok := astVisitor.Accept(astNode);
    if !ok {
      return;
    }
    if astVisitor.valid {
      var propertiesToProcess := astVisitor.proposedProperties;
      ghost var sorted := SortedOf(Elements(propertiesToProcess));
      assert forall x :: x in propertiesToProcess <==> x in Elements(propertiesToProcess);
      assert forall x :: x in sorted <==> x in Elements(sorted);
      SortedUnique(propertiesToProcess, sorted);
      ok, returnValue := ProposeEach(propertiesToProcess, invocationOffset, token);
    }
  }

  /** The loop of `getProposals` over the collected properties; `ok` is false where `substring` throws. */
  method ProposeEach(properties: seq<string>, invocationOffset: int, token: string) returns (ok: bool, returnValue: seq<Proposal>)
    ensures PropertyProposals(properties, invocationOffset, token) == if ok then Some(returnValue) else None
  {
    returnValue := [];
    var i := 0;
    while i < |properties|
      invariant 0 <= i <= |properties|
      invariant PropertyProposals(properties[..i], invocationOffset, token) == Some(returnValue)
    {
      var property := properties[i];
      assert properties[..i + 1][..i] == properties[..i];
      if |property| < |token| {
        return false, [];
      }
      var replacement := property[|token|..];
      returnValue := returnValue + [Proposal(replacement, invocationOffset, 0, |replacement|, property)];
      i := i + 1;
    }
    assert properties[..i] == properties;
    ok := true;
  }

  /** No proposals unless the collector reports a valid value, and then one per collected property, in sorted order. */
  lemma ProposalsNeedValidValue(c: Config, root: Node)
    requires WellFormed(c.table) && NodeTypesIn(c.table, root)
    requires Walk(c, Start, root).Some?
    ensures !Walk(c, Start, root).value.valid ==> GetProposalsSpec(c, root) == Some([])
    ensures Walk(c, Start, root).value.valid && GetProposalsSpec(c, root).Some? ==>
              |GetProposalsSpec(c, root).value| == |Walk(c, Start, root).value.proposed|
  {
    var s := Walk(c, Start, root).value;
    if s.valid && GetProposalsSpec(c, root).Some? {
      SortedCard(SortedOf(s.proposed));
    }
  }

  /** A sorted sequence has as many elements as its set. */
  lemma {:induction false} SortedCard(s: seq<string>)
    requires StrictlySorted(s)
    ensures |Elements(s)| == |s|
  {
    if |s| > 0 {
      var rest := s[1..];
      SortedCard(rest);
      assert Elements(s) == {s[0]} + Elements(rest);
      forall j | 0 <= j < |rest| ensures rest[j] != s[0] {
        SortedDistinct(s, 0, j + 1);
      }
      assert s[0] !in Elements(rest);
    }
  }

  /**
   * When the typed text has no dot, or something before its last dot, every
   * collected property starts with it, so no `substring` throws and every
   * proposal completes the token to its property.
   */
  lemma ProposalsCompleteToken(c: Config, root: Node)
    requires WellFormed(c.table) && NodeTypesIn(c.table, root)
    requires Walk(c, Start, root).Some? && ProposalsKeepPrefix(c.givenPrefix)
    ensures GetProposalsSpec(c, root).Some?
    ensures forall p :: p in GetProposalsSpec(c, root).value ==> c.givenPrefix + p.replacementString == p.displayString
  {
    CollectorOutcome(c, root);
    var s := Walk(c, Start, root).value;
    if s.valid {
      var props := SortedOf(s.proposed);
      assert forall i :: 0 <= i < |props| ==> props[i] in s.proposed;
      PropertyProposalsShape(props, c.invocationOffset, c.givenPrefix);
    }
  }

  /**
   * `computeCompletionProposals` of this computer: the empty list unless the
   * guard chain lets the request through; then what `getProposals` returns,
   * or the empty list from the `catch` when it throws. A non-empty result
   * needs a walk without exception that ended valid, and so a `source` or
   * `target` member of a supported annotation holding the cursor.
   */
  ghost function ComputeCompletionProposals(context: InvocationContext, table: TypeTable, contextFqName: string,
                                            isInRange: (int, int, int) -> bool): (r: seq<Proposal>)
    requires WellFormed(table)
    requires context.JavaContext? && context.compilationUnit.Some? ==> NodeTypesIn(table, context.compilationUnit.value.ast)
    ensures DispatchOf(context, GetAnnotationNames(), isInRange).NoProposals? ==> r == []
    ensures DispatchOf(context, GetAnnotationNames(), isInRange).GetProposals? ==>
              var c := Config(context.invocationOffset, context.token, table, contextFqName, isInRange);
              r == if GetProposalsSpec(c, context.compilationUnit.value.ast).Some?
                   then GetProposalsSpec(c, context.compilationUnit.value.ast).value else []
    ensures |r| > 0 ==>
              var c := Config(context.invocationOffset, context.token, table, contextFqName, isInRange);
              && DispatchOf(context, GetAnnotationNames(), isInRange).GetProposals?
              && Walk(c, Start, context.compilationUnit.value.ast).Some?
              && Walk(c, Start, context.compilationUnit.value.ast).value.valid
              && HasQualifyingPair(c, context.compilationUnit.value.ast)
  {
    var d := DispatchOf(context, GetAnnotationNames(), isInRange);
    match d
    case NoProposals => []
    case GetProposals(compilationUnit, invocationOffset, token) =>
      var c := Config(invocationOffset, token, table, contextFqName, isInRange);
      var ast := compilationUnit.ast;
      if Walk(c, Start, ast).Some? then
        ProposalsNeedValidValue(c, ast);
        CollectorOutcome(c, ast);
        Outcome(d, GetProposalsSpec(c, ast))
      else
        Outcome(d, GetProposalsSpec(c, ast))
  }
}
