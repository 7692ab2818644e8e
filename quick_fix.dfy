/**
 * quickfix/MapStructQuickFix.java: the base class of the quick fixes. It
 * finds where the marked problem starts, lets the concrete fix compute a
 * rewrite for the node found there, applies that rewrite and deletes the
 * marker; it also offers the fixes a way to request an import.
 */
module MapStructQuickFix {
  import opened JavaLang
  import opened ListRewrites

  /** `hasImport`: some import of the unit names `fullyQualifiedName`. */
  method HasImport(imports: seq<string>, fullyQualifiedName: string) returns (r: bool)
    ensures r <==> exists i :: 0 <= i < |imports| && imports[i] == fullyQualifiedName
  {
    for i := 0 to |imports|
      invariant forall k :: 0 <= k < i ==> imports[k] != fullyQualifiedName
    {
      if imports[i] == fullyQualifiedName {
        return true;
      }
    }
    return false;
  }

  /**
   * `addImportIfRequired`: an import of `fullyQualifiedName` is appended to
   * the unit's import list unless the unit, as it was before the rewrite,
   * already imports it. Imports queued earlier on the same rewrite are not
   * looked at. The import is built with `ast.newName`, which throws
   * `IllegalArgumentException` for a string that is not a Java name (a
   * primitive type, say): `ok` is false then and nothing is queued.
   */
  method AddImportIfRequired(originalImports: seq<string>, imports: ListRewrite<string>, fullyQualifiedName: string)
    returns (ok: bool)
    modifies imports
    ensures ok <==> fullyQualifiedName in originalImports || IsName(fullyQualifiedName)
    ensures !ok || fullyQualifiedName in originalImports ==> imports.entries == old(imports.entries)
    ensures ok && fullyQualifiedName !in originalImports ==> imports.entries == old(imports.entries) + [fullyQualifiedName]
  {
    var present := HasImport(originalImports, fullyQualifiedName);
    if !present {
      if !IsName(fullyQualifiedName) {
        return false;
      }
      imports.InsertLast(fullyQualifiedName);
    }
    return true;
  }

  /**
   * The imports queued for `names`, requested in this order: those the
   * original unit lacks, each once per request.
   */
  function Requested(originalImports: seq<string>, names: seq<string>): (r: seq<string>)
    ensures forall i :: 0 <= i < |r| ==> r[i] in names && r[i] !in originalImports
    ensures forall n :: n in names && n !in originalImports ==> n in r
  {
    if names == [] then []
    else (if names[0] in originalImports then [] else [names[0]]) + Requested(originalImports, names[1..])
  }

  /** Requesting the same missing import twice queues it twice, or throws at the first request if it is no name. */
  method RequestTwice(originalImports: seq<string>, fullyQualifiedName: string) returns (queued: Option<seq<string>>)
    requires fullyQualifiedName !in originalImports
    ensures queued.None? <==> !IsName(fullyQualifiedName)
    ensures queued.Some? ==> queued.value == originalImports + [fullyQualifiedName, fullyQualifiedName]
  {
    var imports := new ListRewrite(originalImports);
    var ok := AddImportIfRequired(originalImports, imports, fullyQualifiedName);
    if !ok {
      return None;
    }
    ok := AddImportIfRequired(originalImports, imports, fullyQualifiedName);
    queued := Some(imports.entries);
  }

  type MarkerId = nat

  /** An annotation of the editor's annotation model: a marker annotation with its current position (null if unknown), or another kind. */
  datatype EditorAnnotation =
    | MarkerAnnotation(marker: MarkerId, position: Option<int>)
    | OtherAnnotation

  /** An editor input, with its annotation model if the document provider has one. */
  datatype EditorInput = EditorInput(annotationModel: Option<seq<EditorAnnotation>>)

  predicate PositionsMarker(a: EditorAnnotation, marker: MarkerId)
  {
    a.MarkerAnnotation? && a.marker == marker && a.position.Some?
  }

  /** The position of the first annotation of `marker` that has one. */
  function FirstPosition(annotations: seq<EditorAnnotation>, marker: MarkerId): (r: Option<int>)
    ensures r.None? <==> forall k :: 0 <= k < |annotations| ==> !PositionsMarker(annotations[k], marker)
    ensures r.Some? ==> exists k :: 0 <= k < |annotations| && PositionsMarker(annotations[k], marker)
                                    && annotations[k].position == r
                                    && forall j :: 0 <= j < k ==> !PositionsMarker(annotations[j], marker)
  {
    if annotations == [] then None
    else if PositionsMarker(annotations[0], marker) then annotations[0].position
    else
      var r := FirstPosition(annotations[1..], marker);
      assert forall k :: 1 <= k < |annotations| ==> annotations[k] == annotations[1..][k - 1];
      if r.Some? then
        var k :| 0 <= k < |annotations[1..]| && PositionsMarker(annotations[1..][k], marker)
                 && annotations[1..][k].position == r
                 && forall j :: 0 <= j < k ==> !PositionsMarker(annotations[1..][j], marker);
        assert PositionsMarker(annotations[k + 1], marker);
        r
      else r
  }

  /** Where `findProblemStart` says the problem starts. */
  function ProblemStart(input: EditorInput, marker: MarkerId, charStart: Option<int>): int
  {
    if input.annotationModel.Some? && FirstPosition(input.annotationModel.value, marker).Some?
    then FirstPosition(input.annotationModel.value, marker).value
    else if charStart.Some? then charStart.value
    else -1
  }

  /**
   * `findProblemStart`: the position the annotation model holds for the
   * marker, else the marker's `CHAR_START` attribute, else -1.
   */
  method FindProblemStart(input: EditorInput, marker: MarkerId, charStart: Option<int>) returns (offset: int)
    ensures offset == ProblemStart(input, marker, charStart)
    ensures input.annotationModel.Some? ==>
              forall k :: 0 <= k < |input.annotationModel.value| && PositionsMarker(input.annotationModel.value[k], marker)
                ==> exists j :: 0 <= j <= k && PositionsMarker(input.annotationModel.value[j], marker)
                                && input.annotationModel.value[j].position == Some(offset)
    ensures (input.annotationModel.None? || forall k :: 0 <= k < |input.annotationModel.value| ==> !PositionsMarker(input.annotationModel.value[k], marker))
              ==> offset == (if charStart.Some? then charStart.value else -1)
  {
    if input.annotationModel.Some? {
      var model := input.annotationModel.value;
      var i := 0;
      while i < |model|
        invariant 0 <= i <= |model|
        invariant forall k :: 0 <= k < i ==> !PositionsMarker(model[k], marker)
      {
        var curr := model[i];
        if curr.MarkerAnnotation? && curr.marker == marker {
          var pos := curr.position;
          if pos.Some? {
            assert PositionsMarker(model[i], marker);
            FirstPositionIsFirst(model, marker, i);
            return pos.value;
          }
        }
        i := i + 1;
      }
    }
    if charStart.Some? {
      offset := charStart.value;
    } else {
      offset := -1;
    }
  }

  lemma FirstPositionIsFirst(annotations: seq<EditorAnnotation>, marker: MarkerId, i: nat)
    requires i < |annotations| && PositionsMarker(annotations[i], marker)
    requires forall k :: 0 <= k < i ==> !PositionsMarker(annotations[k], marker)
    ensures FirstPosition(annotations, marker) == annotations[i].position
  {
    var r := FirstPosition(annotations, marker);
    var k :| 0 <= k < |annotations| && PositionsMarker(annotations[k], marker)
             && annotations[k].position == r
             && forall j :: 0 <= j < k ==> !PositionsMarker(annotations[j], marker);
    assert k == i;
  }

  /** What `run` leaves behind: the rewrites applied to the unit and whether the marker is gone. */
  class Workspace<R> {
    var appliedRewrites: seq<R>
    var markerDeleted: bool

    constructor()
      ensures appliedRewrites == [] && !markerDeleted
    {
      appliedRewrites := [];
      markerDeleted := false;
    }
  }

  /** Whether `run` applies a rewrite and deletes the marker. */
  predicate Applies<N, R>(input: Option<EditorInput>, marker: MarkerId, charStart: Option<int>,
                          locate: int -> Option<N>, getASTRewrite: N -> Option<R>)
  {
    input.Some?
    && locate(ProblemStart(input.value, marker, charStart)).Some?
    && getASTRewrite(locate(ProblemStart(input.value, marker, charStart)).value).Some?
  }

  /**
   * `run`: with an editor input, the node at the problem start (found by
   * `locate`, the position visitor), and a non-null rewrite for it, the
   * rewrite is applied and the marker deleted; otherwise nothing changes.
   */
  method Run<N, R>(workspace: Workspace<R>, input: Option<EditorInput>, marker: MarkerId, charStart: Option<int>,
                   locate: int -> Option<N>, getASTRewrite: N -> Option<R>)
    modifies workspace
    ensures Applies(input, marker, charStart, locate, getASTRewrite) ==>
              workspace.appliedRewrites
                == old(workspace.appliedRewrites) + [getASTRewrite(locate(ProblemStart(input.value, marker, charStart)).value).value]
              && workspace.markerDeleted
    ensures !Applies(input, marker, charStart, locate, getASTRewrite) ==>
              workspace.appliedRewrites == old(workspace.appliedRewrites)
              && workspace.markerDeleted == old(workspace.markerDeleted)
  {
    if input.Some? {
      var start := FindProblemStart(input.value, marker, charStart);
      var locatedNode := locate(start);
      if locatedNode.Some? {
        var rewrite := getASTRewrite(locatedNode.value);
        if rewrite.Some? {
          workspace.appliedRewrites := workspace.appliedRewrites + [rewrite.value];
          workspace.markerDeleted := true;
        }
      }
    }
  }
}
