/**
 * quickfix/visitors/FindAnnotationByNameVisitor.java: a visitor that records,
 * in its field `locatedNode`, the last annotation it visits whose type is the
 * given fully qualified name. Normal, single-member and marker annotations are
 * handled alike, and the visitor never descends into an annotation.
 */
module FindAnnotationByName {
  import opened JavaLang
  import opened Ast

  /**
   * `visitAnnotation`'s test: a qualified type name matches by its own text;
   * a simple name matches by the binary name of the type it resolves to, and
   * never when it does not resolve.
   */
  predicate NameMatches(fullyQualifiedName: string, typeName: TypeName)
  {
    if typeName.isQualified then typeName.fullyQualifiedName == fullyQualifiedName
    else typeName.resolvedBinaryName == Some(fullyQualifiedName)
  }

  predicate IsMatch(fullyQualifiedName: string, n: Node)
  {
    n.Annotation? && NameMatches(fullyQualifiedName, n.typeName)
  }

  /** The located node after the visitor, holding `located`, is driven over `n`. */
  function Walk(fullyQualifiedName: string, located: Option<Node>, n: Node): Option<Node>
    decreases n, 1
  {
    if n.Annotation? then
      if NameMatches(fullyQualifiedName, n.typeName) then Some(n) else located
    else
      WalkChildren(fullyQualifiedName, located, n, 0)
  }

  function WalkChildren(fullyQualifiedName: string, located: Option<Node>, parent: Node, i: nat): Option<Node>
    requires i <= |parent.children|
    decreases parent, 0, |parent.children| - i
  {
    if i == |parent.children| then located
    else WalkChildren(fullyQualifiedName, Walk(fullyQualifiedName, located, parent.children[i]), parent, i + 1)
  }

  /**
   * The annotations `visitAnnotation` is called on, in visit order: every
   * annotation of the tree that is not nested inside another annotation.
   */
  function VisitedAnnotations(n: Node): (r: seq<Node>)
    ensures forall k :: 0 <= k < |r| ==> r[k].Annotation?
    decreases n, 1
  {
    if n.Annotation? then [n] else VisitedInChildren(n, 0)
  }

  function VisitedInChildren(parent: Node, i: nat): (r: seq<Node>)
    requires i <= |parent.children|
    ensures forall k :: 0 <= k < |r| ==> r[k].Annotation?
    decreases parent, 0, |parent.children| - i
  {
    if i == |parent.children| then []
    else VisitedAnnotations(parent.children[i]) + VisitedInChildren(parent, i + 1)
  }

  /** The last node of `s` that matches, or `located` when none does. */
  function LastMatch(fullyQualifiedName: string, s: seq<Node>, located: Option<Node>): Option<Node>
  {
    if s == [] then located
    else if IsMatch(fullyQualifiedName, s[|s| - 1]) then Some(s[|s| - 1])
    else LastMatch(fullyQualifiedName, s[..|s| - 1], located)
  }

  lemma {:induction false} LastMatchAppend(fullyQualifiedName: string, a: seq<Node>, b: seq<Node>, located: Option<Node>)
    ensures LastMatch(fullyQualifiedName, a + b, located)
         == LastMatch(fullyQualifiedName, b, LastMatch(fullyQualifiedName, a, located))
    decreases |b|
  {
    if b == [] {
      assert a + b == a;
    } else {
      assert (a + b)[|a + b| - 1] == b[|b| - 1];
      assert (a + b)[..|a + b| - 1] == a + b[..|b| - 1];
      LastMatchAppend(fullyQualifiedName, a, b[..|b| - 1], located);
    }
  }

  /** The visitor locates the last matching annotation among those it visits. */
  lemma {:induction false} WalkIsLastMatch(fullyQualifiedName: string, located: Option<Node>, n: Node)
    ensures Walk(fullyQualifiedName, located, n) == LastMatch(fullyQualifiedName, VisitedAnnotations(n), located)
    decreases n, 1
  {
    if !n.Annotation? {
      WalkChildrenIsLastMatch(fullyQualifiedName, located, n, 0);
    }
  }

  lemma {:induction false} WalkChildrenIsLastMatch(fullyQualifiedName: string, located: Option<Node>, parent: Node, i: nat)
    requires i <= |parent.children|
    ensures WalkChildren(fullyQualifiedName, located, parent, i)
         == LastMatch(fullyQualifiedName, VisitedInChildren(parent, i), located)
    decreases parent, 0, |parent.children| - i
  {
    if i < |parent.children| {
      var child := parent.children[i];
      WalkIsLastMatch(fullyQualifiedName, located, child);
      var l1 := Walk(fullyQualifiedName, located, child);
      WalkChildrenIsLastMatch(fullyQualifiedName, l1, parent, i + 1);
      LastMatchAppend(fullyQualifiedName, VisitedAnnotations(child), VisitedInChildren(parent, i + 1), located);
    }
  }

  /**
   * Starting from null, the located node is null exactly when no visited
   * annotation matches; otherwise it is a matching one that no later visited
   * annotation matches after.
   */
  lemma {:induction false} LastMatchSpec(fullyQualifiedName: string, s: seq<Node>)
    ensures LastMatch(fullyQualifiedName, s, None).None? <==> forall k :: 0 <= k < |s| ==> !IsMatch(fullyQualifiedName, s[k])
    ensures LastMatch(fullyQualifiedName, s, None).Some? ==>
              exists k :: 0 <= k < |s| && s[k] == LastMatch(fullyQualifiedName, s, None).value
                          && IsMatch(fullyQualifiedName, s[k])
                          && forall j :: k < j < |s| ==> !IsMatch(fullyQualifiedName, s[j])
    decreases |s|
  {
    if s != [] {
      var last := |s| - 1;
      var init := s[..last];
      if IsMatch(fullyQualifiedName, s[last]) {
        assert LastMatch(fullyQualifiedName, s, None) == Some(s[last]);
      } else {
        assert LastMatch(fullyQualifiedName, s, None) == LastMatch(fullyQualifiedName, init, None);
        LastMatchSpec(fullyQualifiedName, init);
        assert forall k :: 0 <= k < |init| ==> init[k] == s[k];
        if LastMatch(fullyQualifiedName, init, None).Some? {
          var k :| 0 <= k < |init| && init[k] == LastMatch(fullyQualifiedName, init, None).value
                   && IsMatch(fullyQualifiedName, init[k])
                   && forall j :: k < j < |init| ==> !IsMatch(fullyQualifiedName, init[j]);
          assert s[k] == init[k];
        }
      }
    }
  }

  /** The outcome of one run of the visitor over `n`, from a null located node. */
  lemma FindsLastMatchingAnnotation(fullyQualifiedName: string, n: Node)
    ensures Walk(fullyQualifiedName, None, n).None? <==>
              forall k :: 0 <= k < |VisitedAnnotations(n)| ==> !NameMatches(fullyQualifiedName, VisitedAnnotations(n)[k].typeName)
    ensures Walk(fullyQualifiedName, None, n).Some? ==>
              exists k :: 0 <= k < |VisitedAnnotations(n)| && VisitedAnnotations(n)[k] == Walk(fullyQualifiedName, None, n).value
                          && NameMatches(fullyQualifiedName, VisitedAnnotations(n)[k].typeName)
                          && forall j :: k < j < |VisitedAnnotations(n)| ==> !NameMatches(fullyQualifiedName, VisitedAnnotations(n)[j].typeName)
  {
    WalkIsLastMatch(fullyQualifiedName, None, n);
    LastMatchSpec(fullyQualifiedName, VisitedAnnotations(n));
  }

  class FindAnnotationByNameVisitor {
    const fullyQualifiedName: string
    var locatedNode: Option<Node>

    constructor(fullyQualifiedName: string)
      ensures this.fullyQualifiedName == fullyQualifiedName && locatedNode == None
    {
      this.fullyQualifiedName := fullyQualifiedName;
      locatedNode := None;
    }

    /** `visitAnnotation`, the common body of the three annotation `visit` methods. */
    method VisitAnnotation(node: Node) returns (visitChildren: bool)
      requires node.Annotation?
      modifies this
      ensures !visitChildren
      ensures NameMatches(fullyQualifiedName, node.typeName) ==> locatedNode == Some(node)
      ensures !NameMatches(fullyQualifiedName, node.typeName) ==> locatedNode == old(locatedNode)
    {
      if node.typeName.isQualified {
        if node.typeName.fullyQualifiedName == fullyQualifiedName {
          locatedNode := Some(node);
        }
      } else {
        var binding := node.typeName.resolvedBinaryName;
        if binding.Some? && binding.value == fullyQualifiedName {
          locatedNode := Some(node);
        }
      }
      visitChildren := false;
    }

    /** `node.accept(this)`: annotations go to `visitAnnotation`, every other node is entered. */
    method Accept(node: Node)
      modifies this
      ensures locatedNode == Walk(fullyQualifiedName, old(locatedNode), node)
      decreases node, 1
    {
      if node.Annotation? {
        var _ := VisitAnnotation(node);
      } else {
        AcceptChildren(node, 0);
      }
    }

    method AcceptChildren(parent: Node, i: nat)
      requires i <= |parent.children|
      modifies this
      ensures locatedNode == WalkChildren(fullyQualifiedName, old(locatedNode), parent, i)
      decreases parent, 0, |parent.children| - i
    {
      if i < |parent.children| {
        Accept(parent.children[i]);
        AcceptChildren(parent, i + 1);
      }
    }
  }
}
