/**
 * internal/MapStructCompletionProposalComputer.java: the older computer of
 * `source` and `target` completions in `@Mapping`. It answers only when the
 * element at the cursor is a method carrying a `Mapping` or `Mappings`
 * annotation whose range holds the cursor, and then offers the properties
 * the visitor of `InternalVisitor` collects from the declared methods of the
 * method's return and parameter types.
 */
module MapStructCompletion {
  import opened JavaLang
  import opened TypeBindings
  import opened Ast
  import opened AnnotationCompletion
  import opened InternalAnnotationCompletion
  import opened InternalVisitor

  const MAPPING_ANNOTATION_NAMES: seq<string> := ["Mappings", "Mapping"]

  /** The element is an `IMethod`. */
  predicate IsMethod(element: JavaElement)
  {
    element.Annotatable? && element.isMethod
  }

  /**
   * The guard chain of `computeCompletionProposals`: a non-Java context, a
   * null unit or one of unknown structure, an element at the cursor that is
   * not a method, an exception while looking it up, or no `Mapping`/`Mappings`
   * annotation of the method that holds the cursor all give the empty list;
   * otherwise `parseCompilationUnit` answers.
   */
  function MethodDispatchOf(context: InvocationContext): (r: Dispatch)
    ensures context.OtherContext? ==> r == NoProposals
    ensures context.JavaContext? && (context.compilationUnit.None? || !context.compilationUnit.value.structureKnown) ==> r == NoProposals
    ensures context.JavaContext? && context.compilationUnit.Some? && !context.compilationUnit.value.elementAtOffset.Found? ==> r == NoProposals
    ensures (&& context.JavaContext? && context.compilationUnit.Some?
             && context.compilationUnit.value.elementAtOffset.Found?
             && !IsMethod(context.compilationUnit.value.elementAtOffset.element)) ==> r == NoProposals
    ensures r.GetProposals? ==>
      && context.JavaContext?
      && context.compilationUnit == Some(r.compilationUnit)
      && r.compilationUnit.structureKnown
      && r.invocationOffset == context.invocationOffset
      && r.token == context.token
      && r.compilationUnit.elementAtOffset.Found?
      && r.compilationUnit.elementAtOffset.element.Annotatable?
      && r.compilationUnit.elementAtOffset.element.isMethod
      && FirstSelected(r.compilationUnit.elementAtOffset.element.annotations, MAPPING_ANNOTATION_NAMES, r.invocationOffset, IsInRange).Some?
    ensures r == NoProposals && context.JavaContext? && context.compilationUnit.Some? && context.compilationUnit.value.structureKnown
            && context.compilationUnit.value.elementAtOffset.Found?
            && context.compilationUnit.value.elementAtOffset.element.Annotatable?
            && context.compilationUnit.value.elementAtOffset.element.isMethod ==>
            FirstSelected(context.compilationUnit.value.elementAtOffset.element.annotations,
                          MAPPING_ANNOTATION_NAMES, context.invocationOffset, IsInRange).None?
  {
    match context
    case OtherContext => NoProposals
    case JavaContext(compilationUnit, invocationOffset, token) =>
      if compilationUnit.None? || !compilationUnit.value.structureKnown then NoProposals
      else
        match compilationUnit.value.elementAtOffset
        case Found(Annotatable(annotations, true)) =>
          if FirstSelected(annotations, MAPPING_ANNOTATION_NAMES, invocationOffset, IsInRange).Some? then
            GetProposals(compilationUnit.value, invocationOffset, token)
          else NoProposals
        case _ => NoProposals
  }

  /**
   * `computeCompletionProposals`: the empty list unless the guard chain lets
   * the request through, and then what `parseCompilationUnit` returns for the
   * declared methods of the types involved, or the empty list from the
   * `catch` when the visitor meets a null binding. A non-empty result needs a
   * `source` or `target` member of `@Mapping` holding the cursor.
   */
  method ComputeCompletionProposals(context: InvocationContext, table: TypeTable) returns (proposals: seq<Proposal>)
    requires WellFormed(table)
    requires context.JavaContext? && context.compilationUnit.Some? ==> NodeTypesIn(table, context.compilationUnit.value.ast)
    ensures MethodDispatchOf(context).NoProposals? ==> proposals == []
    ensures MethodDispatchOf(context).GetProposals?
            && ParseSpec(VisitorConfig(context.invocationOffset, table, DeclaredMethods),
                         context.compilationUnit.value.ast, context.token).Some? ==>
              proposals == ParseSpec(VisitorConfig(context.invocationOffset, table, DeclaredMethods),
                                     context.compilationUnit.value.ast, context.token).value
    ensures (MethodDispatchOf(context).GetProposals?
             && ReachesNullBinding(VisitorConfig(context.invocationOffset, table, DeclaredMethods),
                                   context.compilationUnit.value.ast)) ==> proposals == []
    ensures |proposals| > 0 ==>
              && MethodDispatchOf(context).GetProposals?
              && HasQualifyingPair(VisitorConfig(context.invocationOffset, table, DeclaredMethods), context.compilationUnit.value.ast)
  {
    var d := MethodDispatchOf(context);
    if d.NoProposals? {
      return [];
    }
    var c := VisitorConfig(d.invocationOffset, table, DeclaredMethods);
    var r := ParseCompilationUnit(d.compilationUnit, d.invocationOffset, d.token, table, DeclaredMethods);
    ParseProposals(c, d.compilationUnit.ast, d.token);
    ParseProvenance(c, d.compilationUnit.ast);
    proposals := if r.Some? then r.value else [];
  }

  /**
   * `computeContextInformation`: always the empty list. The annotation
   * computers' base class declares the same method
   * (`AnnotationCompletion.ComputeContextInformation`); the two Java classes
   * share no code, so each has its own member here.
   */
  function ComputeContextInformation(context: InvocationContext): (r: seq<ContextInformation>)
    ensures |r| == 0
  {
    []
  }
}
