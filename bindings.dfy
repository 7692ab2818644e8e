/**
 * internal/Bindings.java: helpers that inspect bindings. The method-name
 * collection walks the type hierarchy (interfaces, then superclass) with a
 * shared visited set, never expanding `java.lang.Object`.
 */
module Bindings {
  import opened JavaLang
  import opened TypeBindings

  const JAVA_LANG_OBJECT: string := "java.lang.Object"

  predicate IsJavaLangObject(T: TypeTable, t: TypeId)
  {
    t in T && T[t].qualifiedName == JAVA_LANG_OBJECT
  }

  /** A type the walk expands: a known type other than `java.lang.Object`. */
  predicate Expandable(T: TypeTable, t: TypeId)
  {
    t in T && T[t].qualifiedName != JAVA_LANG_OBJECT
  }

  /** The direct super types in the order the walk visits them: interfaces, then the superclass. */
  function Supertypes(T: TypeTable, t: TypeId): seq<TypeId>
    requires t in T
  {
    T[t].interfaces + (if T[t].superclass.Some? then [T[t].superclass.value] else [])
  }

  /** `S` holds only expandable types and every expandable super type of each of them. */
  ghost predicate Closed(T: TypeTable, S: set<TypeId>)
  {
    forall u :: u in S ==>
      Expandable(T, u) && forall v :: v in Supertypes(T, u) && Expandable(T, v) ==> v in S
  }

  /**
   * The types whose methods count as inherited by `t`: the least set closed
   * under expandable super types that contains `t` unless `t` is `java.lang.Object`.
   */
  ghost function Reach(T: TypeTable, t: TypeId): set<TypeId>
  {
    set u | u in T.Keys && forall S :: Closed(T, S) && (Expandable(T, t) ==> t in S) ==> u in S
  }

  /** The names of the methods declared in the types of `S`. */
  function NamesOf(T: TypeTable, S: set<TypeId>): set<string>
  {
    set u, m | u in S && u in T && m in T[u].declaredMethods :: m.name
  }

  lemma NamesOfUnion(T: TypeTable, A: set<TypeId>, B: set<TypeId>)
    ensures NamesOf(T, A + B) == NamesOf(T, A) + NamesOf(T, B)
  {
  }

  lemma SubsetCard<X>(A: set<X>, B: set<X>)
    requires A <= B
    ensures |A| <= |B|
    decreases |B|
  {
    if A != {} {
      var x :| x in A;
      SubsetCard(A - {x}, B - {x});
    }
  }

  lemma UnvisitedShrinks(K: set<TypeId>, V: set<TypeId>, W: set<TypeId>, t: TypeId)
    requires t in K && t !in V && V + {t} <= W
    ensures |K - W| < |K - V|
  {
    SubsetCard(K - W, (K - V) - {t});
  }

  /** Every expandable direct super type of `u` is in `V`. */
  ghost predicate SupersIn(T: TypeTable, u: TypeId, V: set<TypeId>)
    requires u in T
  {
    forall v :: v in Supertypes(T, u) && Expandable(T, v) ==> v in V
  }

  /** The types of `D` are expandable and their expandable super types are in `V`. */
  ghost predicate LocallyClosed(T: TypeTable, D: set<TypeId>, V: set<TypeId>)
  {
    forall u :: u in D ==> Expandable(T, u) && SupersIn(T, u, V)
  }

  /** `D` lies inside every closed set that holds `t` (unless `t` is `java.lang.Object`). */
  ghost predicate Below(T: TypeTable, t: TypeId, D: set<TypeId>)
  {
    forall S :: Closed(T, S) && (Expandable(T, t) ==> t in S) ==> D <= S
  }

  /** One recursive call on the super type `c` of `t` keeps the walk's invariants. */
  lemma ChildStep(T: TypeTable, t: TypeId, c: TypeId, visited: set<TypeId>, before: set<TypeId>, after: set<TypeId>)
    requires t in T && c in Supertypes(T, t) && Expandable(T, t)
    requires visited + {t} <= before <= after
    requires LocallyClosed(T, before - (visited + {t}), before)
    requires LocallyClosed(T, after - before, after)
    requires Below(T, t, before - visited)
    requires Below(T, c, after - before)
    ensures LocallyClosed(T, after - (visited + {t}), after)
    ensures Below(T, t, after - visited)
  {
    forall S | Closed(T, S) && (Expandable(T, t) ==> t in S) ensures after - visited <= S {
      assert before - visited <= S;
      assert Expandable(T, c) ==> c in S;
      assert after - before <= S;
    }
  }

  /** The expandable types among the first `j` super types are in `V`. */
  ghost predicate PrefixIn(T: TypeTable, supers: seq<TypeId>, j: nat, V: set<TypeId>)
    requires j <= |supers|
  {
    forall k :: 0 <= k < j && Expandable(T, supers[k]) ==> supers[k] in V
  }

  lemma PrefixStep(T: TypeTable, supers: seq<TypeId>, j: nat, before: set<TypeId>, after: set<TypeId>)
    requires j < |supers| && before <= after
    requires PrefixIn(T, supers, j, before)
    requires Expandable(T, supers[j]) ==> supers[j] in after
    ensures PrefixIn(T, supers, j + 1, after)
  {
  }

  lemma PrefixAll(T: TypeTable, t: TypeId, V: set<TypeId>)
    requires t in T
    requires PrefixIn(T, Supertypes(T, t), |Supertypes(T, t)|, V)
    ensures SupersIn(T, t, V)
  {
    var supers := Supertypes(T, t);
    forall v | v in supers && Expandable(T, v) ensures v in V {
      var k :| 0 <= k < |supers| && supers[k] == v;
    }
  }

  /** Once all super types of `t` are done, `t` itself is locally closed. */
  lemma CloseStep(T: TypeTable, t: TypeId, visited: set<TypeId>, after: set<TypeId>)
    requires t in T && Expandable(T, t) && visited + {t} <= after
    requires LocallyClosed(T, after - (visited + {t}), after)
    requires SupersIn(T, t, after)
    ensures LocallyClosed(T, after - visited, after)
  {
  }

  /** One round of the loop over the super types: the recursive call on `supers[j]` keeps the loop's invariants. */
  lemma SupertypeStep(T: TypeTable, t: TypeId, visited: set<TypeId>, names: set<string>, j: nat,
                      before: set<TypeId>, after: set<TypeId>, namesBefore: set<string>, namesAfter: set<string>)
    requires t in T && Expandable(T, t) && j < |Supertypes(T, t)|
    requires visited + {t} <= before <= after
    requires PrefixIn(T, Supertypes(T, t), j, before)
    requires LocallyClosed(T, before - (visited + {t}), before)
    requires Below(T, t, before - visited)
    requires namesBefore == names + NamesOf(T, before - visited)
    requires Expandable(T, Supertypes(T, t)[j]) ==> Supertypes(T, t)[j] in after
    requires LocallyClosed(T, after - before, after)
    requires Below(T, Supertypes(T, t)[j], after - before)
    requires namesAfter == namesBefore + NamesOf(T, after - before)
    ensures PrefixIn(T, Supertypes(T, t), j + 1, after)
    ensures LocallyClosed(T, after - (visited + {t}), after)
    ensures Below(T, t, after - visited)
    ensures namesAfter == names + NamesOf(T, after - visited)
  {
    var supers := Supertypes(T, t);
    assert supers[j] in supers;
    ChildStep(T, t, supers[j], visited, before, after);
    PrefixStep(T, supers, j, before, after);
    NamesOfUnion(T, before - visited, after - before);
    assert (before - visited) + (after - before) == after - visited;
  }

  /** `addAll` of the declared method names of one type. */
  method AddDeclaredNames(names: set<string>, declared: seq<MethodBinding>) returns (names': set<string>)
    ensures names' == names + set m | m in declared :: m.name
  {
    names' := names;
    var i := 0;
    while i < |declared|
      invariant 0 <= i <= |declared|
      invariant names' == names + set m | m in declared[..i] :: m.name
    {
      assert declared[..i + 1] == declared[..i] + [declared[i]];
      names' := names' + {declared[i].name};
      i := i + 1;
    }
    assert declared[..i] == declared;
  }

  /**
   * `collectMethodNames`: adds to `names` the names of the methods declared in
   * `t` and, recursively, in its interfaces and its superclass, expanding each
   * type at most once (`visited.add`) and never `java.lang.Object`. Returns
   * the updated shared `visited` set and `names` collection.
   */
  method CollectMethodNames(T: TypeTable, t: TypeId, visited: set<TypeId>, names: set<string>)
    returns (visited': set<TypeId>, names': set<string>)
    requires WellFormed(T) && t in T
    ensures visited <= visited'
    ensures Expandable(T, t) ==> t in visited'
    ensures LocallyClosed(T, visited' - visited, visited')
    ensures Below(T, t, visited' - visited)
    ensures names' == names + NamesOf(T, visited' - visited)
    decreases |T.Keys - visited|, 1
  {
    if IsJavaLangObject(T, t) || t in visited {
      return visited, names;
    }
    names' := AddDeclaredNames(names, T[t].declaredMethods);
    assert NamesOf(T, {t}) == set m | m in T[t].declaredMethods :: m.name;
    assert (visited + {t}) - visited == {t};
    visited', names' := CollectSupertypes(T, t, visited, visited + {t}, names, names');
    PrefixAll(T, t, visited');
    CloseStep(T, t, visited, visited');
  }

  /**
   * The loop of `collectMethodNames` over the interfaces and then the
   * superclass of `t`, once `t` itself has been added to `visited` and its
   * declared method names to `names`.
   */
  method CollectSupertypes(T: TypeTable, t: TypeId, visited: set<TypeId>, start: set<TypeId>,
                           names: set<string>, startNames: set<string>)
    returns (visited': set<TypeId>, names': set<string>)
    requires WellFormed(T) && t in T && Expandable(T, t) && t !in visited
    requires start == visited + {t}
    requires startNames == names + NamesOf(T, start - visited)
    ensures visited + {t} <= visited'
    ensures PrefixIn(T, Supertypes(T, t), |Supertypes(T, t)|, visited')
    ensures LocallyClosed(T, visited' - (visited + {t}), visited')
    ensures Below(T, t, visited' - visited)
    ensures names' == names + NamesOf(T, visited' - visited)
    decreases |T.Keys - visited|, 0
  {
    visited', names' := start, startNames;
    var supers := Supertypes(T, t);
    var j := 0;
    while j < |supers|
      invariant 0 <= j <= |supers|
      invariant visited + {t} <= visited'
      invariant PrefixIn(T, supers, j, visited')
      invariant LocallyClosed(T, visited' - (visited + {t}), visited')
      invariant Below(T, t, visited' - visited)
      invariant names' == names + NamesOf(T, visited' - visited)
    {
      UnvisitedShrinks(T.Keys, visited, visited', t);
      ghost var before, namesBefore := visited', names';
      assert supers[j] in T;
      visited', names' := CollectMethodNames(T, supers[j], visited', names');
      SupertypeStep(T, t, visited, names, j, before, visited', namesBefore, names');
      j := j + 1;
    }
  }

  /**
   * `findAllMethodNames`: the names of the methods declared in `t` and in all
   * its super types, transitively, leaving out everything that is reached only
   * through `java.lang.Object`.
   */
  method FindAllMethodNames(T: TypeTable, t: TypeId) returns (result: set<string>)
    requires WellFormed(T) && t in T
    ensures result == NamesOf(T, Reach(T, t))
  {
    var visited;
    visited, result := CollectMethodNames(T, t, {}, {});
    assert visited - {} == visited;
    forall u | u in visited ensures u in Reach(T, t) {
      assert LocallyClosed(T, visited, visited);
    }
    forall u | u in Reach(T, t) ensures u in visited {
      assert LocallyClosed(T, visited, visited);
      assert Closed(T, visited);
    }
    assert visited == Reach(T, t);
  }

  /** `Reach(T, t)` is closed and holds `t` (unless `t` is `java.lang.Object`): inherited methods are found transitively. */
  lemma ReachClosed(T: TypeTable, t: TypeId)
    requires WellFormed(T)
    ensures Closed(T, Reach(T, t))
    ensures Expandable(T, t) ==> t in Reach(T, t)
  {
    var R := Reach(T, t);
    forall u | u in R ensures Expandable(T, u) && forall v :: v in Supertypes(T, u) && Expandable(T, v) ==> v in R {
      var S0 := set x | x in T.Keys && Expandable(T, x) && forall S :: Closed(T, S) && (Expandable(T, t) ==> t in S) ==> x in S;
      assert S0 == R;
      forall v | v in Supertypes(T, u) && Expandable(T, v) ensures v in R {
        forall S | Closed(T, S) && (Expandable(T, t) ==> t in S) ensures v in S {
          assert u in S;
        }
      }
    }
  }

  /** Starting from `java.lang.Object` itself collects nothing. */
  lemma ReachFromObject(T: TypeTable, t: TypeId)
    requires IsJavaLangObject(T, t)
    ensures Reach(T, t) == {}
    ensures NamesOf(T, Reach(T, t)) == {}
  {
    var R := Reach(T, t);
    if R != {} {
      var u :| u in R;
      assert Closed(T, {});
      assert false;
    }
  }

  /** Every type on the way is `java.lang.Object`-free: no method of a `java.lang.Object` type is collected through it. */
  lemma ReachAvoidsObject(T: TypeTable, t: TypeId, u: TypeId)
    requires WellFormed(T) && u in Reach(T, t)
    ensures Expandable(T, u)
  {
    ReachClosed(T, t);
  }

  /**
   * `containsAnnotation`: true iff some annotation's type has the given
   * qualified name.
   */
  function ContainsAnnotation(annotations: seq<AnnotationBinding>, annotationName: string): (b: bool)
    ensures b <==> exists i :: 0 <= i < |annotations| && annotations[i].annotationTypeName == annotationName
  {
    if |annotations| == 0 then false
    else if annotations[0].annotationTypeName == annotationName then true
    else
      var b := ContainsAnnotation(annotations[1..], annotationName);
      assert forall i :: 1 <= i < |annotations| ==> annotations[i] == annotations[1..][i - 1];
      b
  }

  /** The enum constant names of a type: its declared field names for an enum, nothing otherwise. */
  function EnumConstants(T: TypeTable, t: TypeId): (r: seq<string>)
    requires t in T
    ensures !T[t].isEnum ==> r == []
    ensures T[t].isEnum ==> |r| == |T[t].declaredFields|
    ensures T[t].isEnum ==> forall i :: 0 <= i < |r| ==> r[i] == T[t].declaredFields[i].name
  {
    if T[t].isEnum then seq(|T[t].declaredFields|, i requires 0 <= i < |T[t].declaredFields| => T[t].declaredFields[i].name)
    else []
  }

  /** `findAllEnumConstants`: appends the declared field names of an enum, in declaration order. */
  method FindAllEnumConstants(T: TypeTable, t: TypeId) returns (result: seq<string>)
    requires t in T
    ensures result == EnumConstants(T, t)
  {
    if !T[t].isEnum {
      return [];
    }
    var declaredFields := T[t].declaredFields;
    result := [];
    var i := 0;
    while i < |declaredFields|
      invariant 0 <= i <= |declaredFields|
      invariant |result| == i
      invariant forall k :: 0 <= k < i ==> result[k] == declaredFields[k].name
    {
      result := result + [declaredFields[i].name];
      i := i + 1;
    }
  }

  /**
   * `getAnnotationQualifiedName`: the qualified name of the annotation that
   * declares the member, or null when the member's method binding or its
   * declaring class is missing.
   */
  function GetAnnotationQualifiedName(binding: MemberValuePairBinding): (r: Option<string>)
    ensures binding.methodBinding.None? ==> r.None?
    ensures binding.methodBinding.Some? && binding.methodBinding.value.declaringClass.None? ==> r.None?
    ensures r.Some? ==> binding.methodBinding.Some? && binding.methodBinding.value.declaringClass == r
  {
    match binding.methodBinding
    case None => None
    case Some(m) => m.declaringClass
  }
}
