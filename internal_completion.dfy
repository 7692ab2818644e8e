/**
 * internal/AbstractAnnotationCompletionProposalComputer.java: the older base
 * class of the completion computers. Its guard chain and its
 * first-deciding-annotation search are those of the newer base class
 * (`AnnotationCompletion.DispatchOf`), except that the range test is its own
 * `isInRange`, written with Java's 32-bit `int` addition.
 */
module InternalAnnotationCompletion {
  import opened JavaLang
  import opened AnnotationCompletion

  /**
   * `isInRange`: the offset lies strictly between the start and the start plus
   * the length, the sum being computed in 32-bit `int` arithmetic.
   */
  function IsInRange(offset: int, rangeStartPosition: int, rangeLength: int): (r: bool)
    ensures r ==> rangeStartPosition < offset
    ensures IsInt32(rangeStartPosition + rangeLength) ==>
              (r <==> rangeStartPosition < offset < rangeStartPosition + rangeLength)
  {
    rangeStartPosition < offset && offset < Wrap32(rangeStartPosition + rangeLength)
  }

  /** Both ends of the range are excluded, so a range of length 0 or 1 never holds the offset. */
  lemma IsInRangeExcludesEnds(offset: int, rangeStartPosition: int, rangeLength: int)
    requires IsInt32(rangeStartPosition + rangeLength)
    ensures !IsInRange(rangeStartPosition, rangeStartPosition, rangeLength)
    ensures !IsInRange(rangeStartPosition + rangeLength, rangeStartPosition, rangeLength)
    ensures rangeLength <= 1 ==> !IsInRange(offset, rangeStartPosition, rangeLength)
  {
  }

  /**
   * When the end of the range lies past `Integer.MAX_VALUE` the sum wraps to a
   * negative number and no offset is in range, even one that lies
   * mathematically inside it.
   */
  lemma IsInRangeWraps()
    ensures INT_MAX - 1 < INT_MAX < (INT_MAX - 1) + 3
    ensures !IsInRange(INT_MAX, INT_MAX - 1, 3)
  {
    assert Wrap32((INT_MAX - 1) + 3) == INT_MIN + 1;
  }

  /**
   * With the range test of this class, an annotatable element at the cursor
   * makes `getProposals` answer exactly when one of its annotations has a
   * supported name and strictly contains the cursor; the first such one
   * decides (`FirstSelected`), and otherwise the list is empty.
   */
  lemma InternalDispatchDecides(context: InvocationContext, names: seq<string>)
    requires context.JavaContext? && context.compilationUnit.Some? && context.compilationUnit.value.structureKnown
    requires context.compilationUnit.value.elementAtOffset.Found?
    requires context.compilationUnit.value.elementAtOffset.element.Annotatable?
    requires var annotations := context.compilationUnit.value.elementAtOffset.element.annotations;
             forall k :: 0 <= k < |annotations| ==> IsInt32(annotations[k].offset + annotations[k].length)
    ensures var annotations := context.compilationUnit.value.elementAtOffset.element.annotations;
            DispatchOf(context, names, IsInRange).GetProposals? <==>
              exists k :: 0 <= k < |annotations| && annotations[k].elementName in names
                          && annotations[k].offset < context.invocationOffset < annotations[k].offset + annotations[k].length
  {
    var annotations := context.compilationUnit.value.elementAtOffset.element.annotations;
    var offset := context.invocationOffset;
    var first := FirstSelected(annotations, names, offset, IsInRange);
    if first.Some? {
      var k := first.value;
      assert Selects(annotations[k], names, offset, IsInRange);
      assert annotations[k].offset < offset < annotations[k].offset + annotations[k].length;
    } else {
      forall k | 0 <= k < |annotations|
        ensures !(annotations[k].elementName in names
                  && annotations[k].offset < offset < annotations[k].offset + annotations[k].length)
      {
        assert !Selects(annotations[k], names, offset, IsInRange);
      }
    }
  }
}
