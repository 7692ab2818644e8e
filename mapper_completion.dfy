/**
 * proposal/MapperAnnotationCompletionProposalComputer.java: completes the
 * `componentModel` of `@Mapper` from a fixed list of component models.
 */
module MapperCompletion {
  import opened JavaLang
  import opened MapStructApiConstants
  import opened AnnotationCompletion

  const MAPPER_ANNOTATION_NAMES: seq<string> := [MAPPER_SIMPLE_NAME, MAPPER_FQ_NAME]

  const COMPONENT_MODEL_TYPES: seq<string> := ["default", "cdi", "spring", "jsr330"]

  /** `getAnnotationNames`: the simple and the qualified name of `@Mapper`. */
  function GetAnnotationNames(): (r: seq<string>)
    ensures forall n :: n in r <==> n == "Mapper" || n == "org.mapstruct.Mapper"
  {
    QualifiedNames();
    MAPPER_ANNOTATION_NAMES
  }

  /** `getProposals`: one pass over `COMPONENT_MODEL_TYPES`. */
  method GetProposals(invocationOffset: int, token: string) returns (proposals: seq<Proposal>)
    ensures proposals == PrefixProposals(COMPONENT_MODEL_TYPES, invocationOffset, token)
  {
    proposals := [];
    var i := 0;
    while i < |COMPONENT_MODEL_TYPES|
      invariant 0 <= i <= |COMPONENT_MODEL_TYPES|
      invariant proposals == PrefixProposals(COMPONENT_MODEL_TYPES[..i], invocationOffset, token)
    {
      var property := COMPONENT_MODEL_TYPES[i];
      assert COMPONENT_MODEL_TYPES[..i + 1][..i] == COMPONENT_MODEL_TYPES[..i];
      if StartsWith(property, token) {
        var replacement := property[|token|..];
        proposals := proposals + [Proposal(replacement, invocationOffset, 0, |replacement|, property)];
      }
      i := i + 1;
    }
    assert COMPONENT_MODEL_TYPES[..i] == COMPONENT_MODEL_TYPES;
  }

  /**
   * The proposals are exactly the component models starting with the token,
   * in the order default, cdi, spring, jsr330: never more than four, never a
   * name twice, and each completes the token to the model name.
   */
  lemma MapperProposalsSpec(invocationOffset: int, token: string)
    ensures var r := PrefixProposals(COMPONENT_MODEL_TYPES, invocationOffset, token);
            && |r| <= 4
            && (forall i :: 0 <= i < |r| ==> r[i].displayString in COMPONENT_MODEL_TYPES && StartsWith(r[i].displayString, token))
            && (forall m :: m in COMPONENT_MODEL_TYPES && StartsWith(m, token) ==> exists i :: 0 <= i < |r| && r[i].displayString == m)
            && (forall i, j :: 0 <= i < j < |r| ==> r[i].displayString != r[j].displayString)
            && (forall i :: 0 <= i < |r| ==> token + r[i].replacementString == r[i].displayString)
            && (forall i :: 0 <= i < |r| ==>
                  r[i].replacementOffset == invocationOffset && r[i].replacementLength == 0
                  && r[i].cursorPosition == |r[i].replacementString|)
  {
    var r := PrefixProposals(COMPONENT_MODEL_TYPES, invocationOffset, token);
    var names := PrefixMatches(COMPONENT_MODEL_TYPES, token);
    PrefixProposalsAreMatches(COMPONENT_MODEL_TYPES, invocationOffset, token);
    assert forall i :: 0 <= i < |r| ==> r[i].displayString == names[i];
    forall m | m in COMPONENT_MODEL_TYPES && StartsWith(m, token) ensures exists i :: 0 <= i < |r| && r[i].displayString == m {
      var i :| 0 <= i < |names| && names[i] == m;
      assert r[i].displayString == m;
    }
    PrefixMatchesDistinct(COMPONENT_MODEL_TYPES, token);
  }

  /** An empty token yields all four component models, in list order. */
  lemma EmptyTokenGivesAll(invocationOffset: int)
    ensures var r := PrefixProposals(COMPONENT_MODEL_TYPES, invocationOffset, "");
            |r| == 4 && forall i :: 0 <= i < 4 ==> r[i].displayString == COMPONENT_MODEL_TYPES[i] && r[i].replacementString == COMPONENT_MODEL_TYPES[i]
  {
    var ms := COMPONENT_MODEL_TYPES;
    assert forall m :: StartsWith(m, "");
    assert ms[..3][..2][..1][..0] == [];
    assert PrefixMatches(ms, "") == ms by {
      assert PrefixMatches(ms[..1], "") == ms[..1];
      assert PrefixMatches(ms[..2], "") == ms[..2];
      assert PrefixMatches(ms[..3], "") == ms[..3];
    }
    PrefixProposalsAreMatches(ms, invocationOffset, "");
  }

  /** `computeCompletionProposals` of this computer. */
  function ComputeCompletionProposals(context: InvocationContext, isInRange: (int, int, int) -> bool): (r: seq<Proposal>)
    ensures DispatchOf(context, GetAnnotationNames(), isInRange).NoProposals? ==> r == []
    ensures context.JavaContext? && DispatchOf(context, GetAnnotationNames(), isInRange).GetProposals? ==>
              r == PrefixProposals(COMPONENT_MODEL_TYPES, context.invocationOffset, context.token)
  {
    match DispatchOf(context, GetAnnotationNames(), isInRange)
    case NoProposals => []
    case GetProposals(_, invocationOffset, token) =>
      Outcome(DispatchOf(context, GetAnnotationNames(), isInRange), Some(PrefixProposals(COMPONENT_MODEL_TYPES, invocationOffset, token)))
  }
}
