/**
 * internal/MappingAnnotationCompletionProposalComputer.java: the older
 * `@Mapping` computer that is handed one annotation. It answers only for a
 * `Mapping` or `Mappings` annotation whose range holds the cursor, and then
 * offers the properties the visitor of `InternalVisitor` collects from every
 * method name the return and parameter types have, inherited ones included.
 */
module InternalMappingCompletion {
  import opened JavaLang
  import opened TypeBindings
  import opened Ast
  import opened AnnotationCompletion
  import opened InternalAnnotationCompletion
  import opened InternalVisitor

  const MAPPING_ANNOTATION_NAMES: seq<string> := ["Mappings", "Mapping"]

  /** The annotation decides: its name is `Mappings` or `Mapping` and the cursor lies strictly inside its source range. */
  predicate Applies(annotation: SourceAnnotation, invocationOffset: int)
  {
    annotation.elementName in MAPPING_ANNOTATION_NAMES && IsInRange(invocationOffset, annotation.offset, annotation.length)
  }

  /**
   * `computeCompletionProposals(javaContent, compilationUnit, invocationOffset,
   * annotation)`: the empty list unless the annotation applies, and then what
   * `parseCompilationUnit` returns for all inherited method names. This
   * method has no `catch`: none stands for the exception that escapes to its
   * caller when the visitor meets a null binding. A non-empty result needs a
   * `source` or `target` member of `@Mapping` holding the cursor.
   */
  method ComputeCompletionProposals(compilationUnit: CompilationUnit, invocationOffset: int,
                                    annotation: SourceAnnotation, token: string, table: TypeTable)
    returns (r: Option<seq<Proposal>>)
    requires WellFormed(table) && NodeTypesIn(table, compilationUnit.ast)
    ensures !Applies(annotation, invocationOffset) ==> r == Some([])
    ensures Applies(annotation, invocationOffset) ==>
              r == ParseSpec(VisitorConfig(invocationOffset, table, InheritedMethods), compilationUnit.ast, token)
    ensures r.None? <==>
              Applies(annotation, invocationOffset)
              && ReachesNullBinding(VisitorConfig(invocationOffset, table, InheritedMethods), compilationUnit.ast)
    ensures r.Some? && |r.value| > 0 ==>
              && (annotation.elementName == "Mappings" || annotation.elementName == "Mapping")
              && annotation.offset < invocationOffset
              && HasQualifyingPair(VisitorConfig(invocationOffset, table, InheritedMethods), compilationUnit.ast)
  {
    if annotation.elementName in MAPPING_ANNOTATION_NAMES
       && IsInRange(invocationOffset, annotation.offset, annotation.length)
    {
      r := ParseCompilationUnit(compilationUnit, invocationOffset, token, table, InheritedMethods);
      var c := VisitorConfig(invocationOffset, table, InheritedMethods);
      ParseProposals(c, compilationUnit.ast, token);
      ParseProvenance(c, compilationUnit.ast);
      return;
    }
    return Some([]);
  }
}
