/**
 * A JDT `ListRewrite`: the edits a quick fix records against one node list of
 * a syntax tree (the modifiers of a method, the expressions of an array
 * initializer, the body declarations of a type, the imports of a unit). The
 * model keeps the contents the list will have once the recorded edits are
 * applied; JDT refuses an edit whose anchor or target is not in the list,
 * which the model reports as `ok == false` with the list unchanged.
 */
module ListRewrites {
  /** The first position of `x` in `s`. */
  function IndexOf<T(==)>(s: seq<T>, x: T): (i: nat)
    requires x in s
    ensures i < |s| && s[i] == x
    ensures forall j :: 0 <= j < i ==> s[j] != x
  {
    if s[0] == x then 0 else 1 + IndexOf(s[1..], x)
  }

  /** `s` with `x` placed immediately after the first occurrence of `anchor`. */
  function InsertedAfter<T(==)>(s: seq<T>, x: T, anchor: T): (r: seq<T>)
    requires anchor in s
    ensures |r| == |s| + 1
    ensures r[..IndexOf(s, anchor) + 1] == s[..IndexOf(s, anchor) + 1]
    ensures r[IndexOf(s, anchor) + 1] == x
    ensures r[IndexOf(s, anchor) + 2..] == s[IndexOf(s, anchor) + 1..]
  {
    var k := IndexOf(s, anchor);
    s[..k + 1] + [x] + s[k + 1..]
  }

  /** `s` without the first occurrence of `x`. */
  function RemovedFirst<T(==)>(s: seq<T>, x: T): (r: seq<T>)
    requires x in s
    ensures |r| == |s| - 1
    ensures multiset(r) + multiset{x} == multiset(s)
  {
    var k := IndexOf(s, x);
    assert s == s[..k] + [x] + s[k + 1..];
    s[..k] + s[k + 1..]
  }

  /** Removing an element other than the head keeps the head. */
  lemma RemovedFirstKeepsHead<T>(s: seq<T>, x: T)
    requires x in s && s[0] != x
    ensures |RemovedFirst(s, x)| > 0 && RemovedFirst(s, x)[0] == s[0]
  {
    var k := IndexOf(s, x);
    assert k > 0;
  }

  /** Taking the inserted element out again gives back the original list. */
  lemma InsertedAfterRemoved<T>(s: seq<T>, x: T, anchor: T)
    requires anchor in s && x !in s
    ensures x in InsertedAfter(s, x, anchor)
    ensures RemovedFirst(InsertedAfter(s, x, anchor), x) == s
  {
    var k := IndexOf(s, anchor);
    var r := InsertedAfter(s, x, anchor);
    assert r == s[..k + 1] + [x] + s[k + 1..];
    assert r[k + 1] == x;
    assert forall j :: 0 <= j <= k ==> r[j] == s[j];
    assert IndexOf(r, x) == k + 1;
  }

  class ListRewrite<T(==)> {
    /** The list as it will be once the recorded edits are applied. */
    var entries: seq<T>

    constructor(original: seq<T>)
      ensures entries == original
    {
      entries := original;
    }

    method InsertFirst(x: T)
      modifies this
      ensures entries == [x] + old(entries)
    {
      entries := [x] + entries;
    }

    method InsertLast(x: T)
      modifies this
      ensures entries == old(entries) + [x]
    {
      entries := entries + [x];
    }

    method InsertAfter(x: T, anchor: T) returns (ok: bool)
      modifies this
      ensures ok <==> anchor in old(entries)
      ensures ok ==> entries == InsertedAfter(old(entries), x, anchor)
      ensures !ok ==> entries == old(entries)
    {
      ok := anchor in entries;
      if ok {
        entries := InsertedAfter(entries, x, anchor);
      }
    }

    method Remove(x: T) returns (ok: bool)
      modifies this
      ensures ok <==> x in old(entries)
      ensures ok ==> entries == RemovedFirst(old(entries), x)
      ensures !ok ==> entries == old(entries)
    {
      ok := x in entries;
      if ok {
        entries := RemovedFirst(entries, x);
      }
    }
  }
}
