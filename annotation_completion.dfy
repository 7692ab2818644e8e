/**
 * proposal/AbstractAnnotationCompletionProposalComputer.java: the content
 * assist entry point shared by the `@Mapper` and `@Mapping` computers. It
 * checks the invocation context and then hands the request to the concrete
 * computer for the first annotation of the element at the cursor whose name
 * the computer supports and whose source range holds the cursor.
 */
module AnnotationCompletion {
  import opened JavaLang
  import opened Ast

  /** A `CompletionProposal`: replacement string, replacement offset and length, cursor position, display string. */
  datatype Proposal = Proposal(
    replacementString: string,
    replacementOffset: int,
    replacementLength: int,
    cursorPosition: int,
    displayString: string)

  /** An `IAnnotation` of the Java model: its element name (simple or qualified, as written) and its source range. */
  datatype SourceAnnotation = SourceAnnotation(elementName: string, offset: int, length: int)

  /** The Java element at the cursor: an `IAnnotatable` with its annotations (`isMethod` when it is an `IMethod`), or another element. */
  datatype JavaElement = Annotatable(annotations: seq<SourceAnnotation>, isMethod: bool) | NotAnnotatable

  /** What `getElementAt(invocationOffset)` does: returns an element, returns null, or throws. */
  datatype ElementLookup = Found(element: JavaElement) | NoElement | LookupFails

  /** An `ICompilationUnit`: whether its structure is known, its element at the cursor, and its parsed syntax tree. */
  datatype CompilationUnit = CompilationUnit(structureKnown: bool, elementAtOffset: ElementLookup, ast: Node)

  /** The invocation context; only a Java context carries a compilation unit (possibly null), the offset and the token. */
  datatype InvocationContext =
    | OtherContext
    | JavaContext(compilationUnit: Option<CompilationUnit>, invocationOffset: int, token: string)

  /** How `computeCompletionProposals` ends: with an empty list, or by returning what `getProposals` returns for these arguments. */
  datatype Dispatch = NoProposals | GetProposals(compilationUnit: CompilationUnit, invocationOffset: int, token: string)

  /** An annotation that decides the result: its name is supported and `util.Ranges.isInRange` holds for the cursor. */
  predicate Selects(a: SourceAnnotation, names: seq<string>, invocationOffset: int, isInRange: (int, int, int) -> bool)
  {
    a.elementName in names && isInRange(invocationOffset, a.offset, a.length)
  }

  /** The index of the first annotation, in declaration order, that decides the result. */
  function FirstSelected(annotations: seq<SourceAnnotation>, names: seq<string>, invocationOffset: int,
                         isInRange: (int, int, int) -> bool): (r: Option<nat>)
    ensures r.None? <==> forall k :: 0 <= k < |annotations| ==> !Selects(annotations[k], names, invocationOffset, isInRange)
    ensures r.Some? ==> r.value < |annotations| && Selects(annotations[r.value], names, invocationOffset, isInRange)
    ensures r.Some? ==> forall k :: 0 <= k < r.value ==> !Selects(annotations[k], names, invocationOffset, isInRange)
  {
    if |annotations| == 0 then None
    else if Selects(annotations[0], names, invocationOffset, isInRange) then Some(0)
    else
      var r := FirstSelected(annotations[1..], names, invocationOffset, isInRange);
      assert forall k :: 1 <= k < |annotations| ==> annotations[k] == annotations[1..][k - 1];
      if r.None? then None else Some(r.value + 1)
  }

  /**
   * The guard chain of `computeCompletionProposals`: a non-Java context, a
   * null compilation unit or one of unknown structure, an element at the
   * cursor that is not annotatable (or null), an exception while looking it
   * up, or no deciding annotation all give the empty list; otherwise
   * `getProposals` answers.
   */
  function DispatchOf(context: InvocationContext, names: seq<string>, isInRange: (int, int, int) -> bool): (r: Dispatch)
    ensures context.OtherContext? ==> r == NoProposals
    ensures context.JavaContext? && (context.compilationUnit.None? || !context.compilationUnit.value.structureKnown) ==> r == NoProposals
    ensures context.JavaContext? && context.compilationUnit.Some? && !context.compilationUnit.value.elementAtOffset.Found? ==> r == NoProposals
    ensures context.JavaContext? && context.compilationUnit.Some? && context.compilationUnit.value.elementAtOffset == Found(NotAnnotatable) ==> r == NoProposals
    ensures r.GetProposals? ==>
      && context.JavaContext?
      && context.compilationUnit == Some(r.compilationUnit)
      && r.compilationUnit.structureKnown
      && r.invocationOffset == context.invocationOffset
      && r.token == context.token
      && r.compilationUnit.elementAtOffset.Found? && r.compilationUnit.elementAtOffset.element.Annotatable?
      && FirstSelected(r.compilationUnit.elementAtOffset.element.annotations, names, r.invocationOffset, isInRange).Some?
    ensures r == NoProposals && context.JavaContext? && context.compilationUnit.Some? && context.compilationUnit.value.structureKnown
            && context.compilationUnit.value.elementAtOffset.Found? && context.compilationUnit.value.elementAtOffset.element.Annotatable? ==>
            FirstSelected(context.compilationUnit.value.elementAtOffset.element.annotations, names, context.invocationOffset, isInRange).None?
  {
    match context
    case OtherContext => NoProposals
    case JavaContext(compilationUnit, invocationOffset, token) =>
      if compilationUnit.None? || !compilationUnit.value.structureKnown then NoProposals
      else
        match compilationUnit.value.elementAtOffset
        case Found(Annotatable(annotations, _)) =>
          if FirstSelected(annotations, names, invocationOffset, isInRange).Some? then
            GetProposals(compilationUnit.value, invocationOffset, token)
          else NoProposals
        case _ => NoProposals
  }

  /** The list `computeCompletionProposals` returns, given what `getProposals` returns (none when it throws). */
  function Outcome(d: Dispatch, proposals: Option<seq<Proposal>>): (r: seq<Proposal>)
    ensures d.NoProposals? ==> r == []
    ensures proposals.None? ==> r == []
    ensures d.GetProposals? && proposals.Some? ==> r == proposals.value
  {
    if d.NoProposals? || proposals.None? then [] else proposals.value
  }

  /** A later annotation never matters once an earlier one decides: its name and range are not consulted. */
  lemma FirstSelectedIgnoresLater(annotations: seq<SourceAnnotation>, later: seq<SourceAnnotation>, names: seq<string>,
                                  invocationOffset: int, isInRange: (int, int, int) -> bool)
    requires FirstSelected(annotations, names, invocationOffset, isInRange).Some?
    ensures FirstSelected(annotations + later, names, invocationOffset, isInRange)
            == FirstSelected(annotations, names, invocationOffset, isInRange)
  {
    var i := FirstSelected(annotations, names, invocationOffset, isInRange).value;
    var r := FirstSelected(annotations + later, names, invocationOffset, isInRange);
    assert (annotations + later)[i] == annotations[i];
    assert forall k :: 0 <= k < i ==> (annotations + later)[k] == annotations[k];
  }

  /** `IContextInformation`, of which none is ever computed. */
  datatype ContextInformation = ContextInformation(display: string)

  /** `computeContextInformation`: always the empty list. */
  function ComputeContextInformation(context: InvocationContext): (r: seq<ContextInformation>)
    ensures |r| == 0
  {
    []
  }

  /** The proposal for one name that starts with the token: the rest of the name is inserted at the cursor, and the whole name is displayed. */
  function PrefixProposal(property: string, invocationOffset: int, token: string): (p: Proposal)
    requires StartsWith(property, token)
    ensures token + p.replacementString == property
    ensures p.replacementOffset == invocationOffset && p.replacementLength == 0
    ensures p.cursorPosition == |p.replacementString| && p.displayString == property
  {
    var replacement := property[|token|..];
    assert property == token + replacement;
    Proposal(replacement, invocationOffset, 0, |replacement|, property)
  }

  /**
   * The proposal loop shared by the computers that offer fixed or collected
   * names: one proposal for each name in `names` that starts with the token,
   * in list order.
   */
  function PrefixProposals(names: seq<string>, invocationOffset: int, token: string): seq<Proposal>
  {
    if |names| == 0 then []
    else
      var last := names[|names| - 1];
      var prev := PrefixProposals(names[..|names| - 1], invocationOffset, token);
      if StartsWith(last, token) then prev + [PrefixProposal(last, invocationOffset, token)] else prev
  }

  /** The names that start with the token, in list order. */
  function PrefixMatches(names: seq<string>, token: string): (r: seq<string>)
    ensures forall m :: m in r <==> m in names && StartsWith(m, token)
    ensures |r| <= |names|
  {
    if |names| == 0 then []
    else
      var last := names[|names| - 1];
      var prev := PrefixMatches(names[..|names| - 1], token);
      assert names == names[..|names| - 1] + [last];
      if StartsWith(last, token) then prev + [last] else prev
  }

  /** The proposals are the matching names, one each, in the order of the list. */
  lemma {:induction false} PrefixProposalsAreMatches(names: seq<string>, invocationOffset: int, token: string)
    ensures var r := PrefixProposals(names, invocationOffset, token);
            var matches := PrefixMatches(names, token);
            && |r| == |matches|
            && forall i :: 0 <= i < |r| ==> r[i] == PrefixProposal(matches[i], invocationOffset, token)
  {
    if |names| > 0 {
      PrefixProposalsAreMatches(names[..|names| - 1], invocationOffset, token);
    }
  }

  /** The names are pairwise distinct, so the matching ones are too. */
  lemma {:induction false} PrefixMatchesDistinct(names: seq<string>, token: string)
    requires forall i, j :: 0 <= i < j < |names| ==> names[i] != names[j]
    ensures forall i, j :: 0 <= i < j < |PrefixMatches(names, token)| ==>
              PrefixMatches(names, token)[i] != PrefixMatches(names, token)[j]
  {
    if |names| > 0 {
      var init := names[..|names| - 1];
      PrefixMatchesDistinct(init, token);
      var prev := PrefixMatches(init, token);
      var last := names[|names| - 1];
      assert names == init + [last];
      assert last !in init;
      assert last !in prev;
      var r := PrefixMatches(names, token);
      if StartsWith(last, token) {
        assert r == prev + [last];
        forall i, j | 0 <= i < j < |r| ensures r[i] != r[j] {
          assert r[i] == prev[i];
          if j == |prev| {
            assert prev[i] in prev;
            assert r[j] == last;
          } else {
            assert r[j] == prev[j];
            assert prev[i] != prev[j];
          }
        }
      }
    }
  }

  /** Dropping the names that do not start with the token keeps a `TreeSet`'s order. */
  lemma {:induction false} PrefixMatchesSorted(names: seq<string>, token: string)
    requires StrictlySorted(names)
    ensures StrictlySorted(PrefixMatches(names, token))
  {
    if |names| > 0 {
      var init := names[..|names| - 1];
      var last := names[|names| - 1];
      assert StrictlySorted(init);
      PrefixMatchesSorted(init, token);
      var prev := PrefixMatches(init, token);
      if StartsWith(last, token) {
        var r := prev + [last];
        forall i, j | 0 <= i < j < |r| ensures Less(r[i], r[j]) {
          if j == |prev| {
            assert r[i] in init;
            var k :| 0 <= k < |init| && init[k] == r[i];
            assert names[k] == r[i];
          } else {
            assert r[i] == prev[i] && r[j] == prev[j];
          }
        }
      }
    }
  }

  /**
   * A proposal that completes the token: it displays a string that starts
   * with the token, inserts the rest of that string at the cursor without
   * replacing anything, and puts the cursor after the insertion.
   */
  predicate Completes(p: Proposal, invocationOffset: int, token: string)
  {
    && StartsWith(p.displayString, token)
    && token + p.replacementString == p.displayString
    && p.replacementOffset == invocationOffset && p.replacementLength == 0
    && p.cursorPosition == |p.replacementString|
  }

  /**
   * The proposals for a list of names: each displays a name of the list that
   * starts with the token and completes the token to it, inserted at the
   * cursor without replacing anything; and every such name is offered.
   */
  lemma PrefixProposalsSpec(names: seq<string>, invocationOffset: int, token: string)
    ensures forall i :: 0 <= i < |PrefixProposals(names, invocationOffset, token)| ==>
              && PrefixProposals(names, invocationOffset, token)[i].displayString in names
              && Completes(PrefixProposals(names, invocationOffset, token)[i], invocationOffset, token)
    ensures forall m :: m in names && StartsWith(m, token) ==>
              exists i :: 0 <= i < |PrefixProposals(names, invocationOffset, token)|
                          && PrefixProposals(names, invocationOffset, token)[i].displayString == m
  {
    var r := PrefixProposals(names, invocationOffset, token);
    var matches := PrefixMatches(names, token);
    PrefixProposalsAreMatches(names, invocationOffset, token);
    assert forall i :: 0 <= i < |r| ==> r[i].displayString == matches[i];
    forall m | m in names && StartsWith(m, token) ensures exists i :: 0 <= i < |r| && r[i].displayString == m {
      var i :| 0 <= i < |matches| && matches[i] == m;
      assert r[i].displayString == m;
    }
  }

  /** A sorted list of names gives its proposals in the same strictly increasing order. */
  lemma PrefixProposalsSorted(names: seq<string>, invocationOffset: int, token: string)
    requires StrictlySorted(names)
    ensures forall i, j :: 0 <= i < j < |PrefixProposals(names, invocationOffset, token)| ==>
              Less(PrefixProposals(names, invocationOffset, token)[i].displayString,
                   PrefixProposals(names, invocationOffset, token)[j].displayString)
  {
    var r := PrefixProposals(names, invocationOffset, token);
    var matches := PrefixMatches(names, token);
    PrefixProposalsAreMatches(names, invocationOffset, token);
    PrefixMatchesSorted(names, token);
    assert forall i :: 0 <= i < |r| ==> r[i].displayString == matches[i];
  }
}
