/**
 * The pieces of Java's standard library semantics that the plug-in relies on:
 * `String.startsWith`, `lastIndexOf`, `split("\\.")`, `compareTo` (the order of a
 * `TreeSet<String>`), `java.beans.Introspector.decapitalize`, 32-bit `int`
 * addition, and the identifiers and names JDT's `AST` accepts. Everything here is written out so that the other modules state
 * their contracts in terms of the Java behaviour and not Dafny's.
 */
module JavaLang {

  /** A Java reference that may be `null`. */
  datatype Option<T> = None | Some(value: T)

  // ---------------------------------------------------------------------------
  // 32-bit int arithmetic
  // ---------------------------------------------------------------------------

  const INT_MIN: int := -0x8000_0000
  const INT_MAX: int := 0x7fff_ffff

  predicate IsInt32(x: int) { INT_MIN <= x <= INT_MAX }

  /**
   * The value Java's `int` arithmetic yields for the mathematical result `x`:
   * the one `int` that differs from `x` by a multiple of 2^32.
   */
  function Wrap32(x: int): (r: int)
    ensures IsInt32(r)
    ensures (x - r) % 0x1_0000_0000 == 0
    ensures IsInt32(x) ==> r == x
    ensures x > INT_MAX && x <= 2 * INT_MAX + 1 ==> r == x - 0x1_0000_0000
    ensures x < INT_MIN && x >= 2 * INT_MIN ==> r == x + 0x1_0000_0000
  {
    (x + 0x8000_0000) % 0x1_0000_0000 - 0x8000_0000
  }

  // ---------------------------------------------------------------------------
  // Strings
  // ---------------------------------------------------------------------------

  /** `s.startsWith(prefix)`; an empty prefix is a prefix of every string. */
  predicate StartsWith(s: string, prefix: string) { prefix <= s }

  /** `s.contains(String.valueOf(c))`. */
  predicate ContainsChar(s: string, c: char) { c in s }

  /** `s.lastIndexOf(c)`: the index of the last occurrence of `c`, or -1. */
  function LastIndexOf(s: string, c: char): (r: int)
    ensures -1 <= r < |s|
    ensures r == -1 <==> c !in s
    ensures r >= 0 ==> s[r] == c && c !in s[r + 1..]
  {
    if |s| == 0 then -1
    else if s[|s| - 1] == c then |s| - 1
    else
      var r := LastIndexOf(s[..|s| - 1], c);
      assert s[..|s| - 1] + [s[|s| - 1]] == s;
      r
  }

  /** `Character.isUpperCase`, for the ASCII letters. */
  predicate IsUpperCase(c: char) { 'A' <= c <= 'Z' }

  /** `Character.toLowerCase`, for the ASCII letters. */
  function ToLowerCase(c: char): (r: char)
    ensures !IsUpperCase(r)
    ensures !IsUpperCase(c) ==> r == c
  {
    if IsUpperCase(c) then (c as int + 32) as char else c
  }

  /**
   * `java.beans.Introspector.decapitalize`, section 8.8 of the JavaBeans 1.01
   * specification: the empty string is returned unchanged, so is a name whose
   * first two characters are both upper case ("URL" stays "URL"); otherwise the
   * first character is converted to lower case ("FooBah" becomes "fooBah").
   */
  function Decapitalize(name: string): (r: string)
    ensures |r| == |name|
    ensures |name| > 0 ==> r[1..] == name[1..]
  {
    if |name| == 0 then name
    else if |name| > 1 && IsUpperCase(name[1]) && IsUpperCase(name[0]) then name
    else [ToLowerCase(name[0])] + name[1..]
  }

  /** The three cases of section 8.8, as a caller reads them. */
  lemma DecapitalizeCases(name: string)
    ensures name == [] ==> Decapitalize(name) == []
    ensures |name| >= 2 && IsUpperCase(name[0]) && IsUpperCase(name[1]) ==> Decapitalize(name) == name
    ensures |name| >= 1 && !(|name| >= 2 && IsUpperCase(name[0]) && IsUpperCase(name[1])) ==>
              Decapitalize(name)[0] == ToLowerCase(name[0])
  {
  }

  /** Decapitalizing twice is the same as decapitalizing once. */
  lemma DecapitalizeIdempotent(name: string)
    ensures Decapitalize(Decapitalize(name)) == Decapitalize(name)
  {
    var d := Decapitalize(name);
    if |name| > 0 && !(|name| > 1 && IsUpperCase(name[1]) && IsUpperCase(name[0])) {
      assert d[0] == ToLowerCase(name[0]);
      assert !IsUpperCase(d[0]);
      assert Decapitalize(d) == [ToLowerCase(d[0])] + d[1..];
      assert [ToLowerCase(d[0])] + d[1..] == d;
    }
  }

  // ---------------------------------------------------------------------------
  // String.split("\\.")
  // ---------------------------------------------------------------------------

  /** The pieces of `s` between its dots, keeping every empty piece. */
  function Chunks(s: string): (r: seq<string>)
    ensures |r| >= 1
    ensures forall i :: 0 <= i < |r| ==> '.' !in r[i]
    ensures '.' !in s ==> r == [s]
  {
    if |s| == 0 then [""]
    else
      var rest := Chunks(s[1..]);
      if s[0] == '.' then [""] + rest
      else
        assert '.' !in s ==> rest == [s[1..]] && [s[0]] + s[1..] == s;
        [[s[0]] + rest[0]] + rest[1..]
  }

  /** The inverse of `Chunks`: the pieces joined with dots. */
  function JoinDot(parts: seq<string>): string
    requires |parts| >= 1
  {
    if |parts| == 1 then parts[0] else parts[0] + "." + JoinDot(parts[1..])
  }

  /** Joining the chunks of a string with dots gives back the string. */
  lemma {:induction false} JoinChunks(s: string)
    ensures JoinDot(Chunks(s)) == s
  {
    if |s| > 0 {
      var rest := Chunks(s[1..]);
      JoinChunks(s[1..]);
      if s[0] == '.' {
        assert Chunks(s) == [""] + rest;
        assert ([""] + rest)[1..] == rest;
        assert JoinDot(Chunks(s)) == "" + "." + JoinDot(rest);
      } else {
        var r := Chunks(s);
        assert r == [[s[0]] + rest[0]] + rest[1..];
        if |rest| == 1 {
          assert JoinDot(r) == [s[0]] + rest[0];
        } else {
          assert r[1..] == rest[1..];
          assert JoinDot(r) == [s[0]] + rest[0] + "." + JoinDot(rest[1..]);
          assert JoinDot(rest) == rest[0] + "." + JoinDot(rest[1..]);
        }
        assert [s[0]] + s[1..] == s;
      }
    }
  }

  /** Drops the empty strings at the end of `parts`. */
  function DropTrailingEmpty(parts: seq<string>): (r: seq<string>)
    ensures |r| <= |parts| && r == parts[..|r|]
    ensures |r| > 0 ==> r[|r| - 1] != ""
    ensures forall i :: |r| <= i < |parts| ==> parts[i] == ""
  {
    if |parts| == 0 then []
    else if parts[|parts| - 1] == "" then DropTrailingEmpty(parts[..|parts| - 1])
    else parts
  }

  /**
   * `s.split("\\.")` with Java's semantics: a string without a dot gives the
   * one-element array `{s}` (even when `s` is empty); otherwise the pieces
   * between the dots, leading empty pieces kept and trailing ones removed.
   */
  function SplitDot(s: string): (r: seq<string>)
    ensures forall i :: 0 <= i < |r| ==> '.' !in r[i]
  {
    if '.' !in s then [s] else DropTrailingEmpty(Chunks(s))
  }

  /** A string whose last piece is not empty is split into all its pieces, so joining gives it back. */
  lemma SplitDotJoin(s: string)
    requires Chunks(s)[|Chunks(s)| - 1] != ""
    ensures SplitDot(s) == Chunks(s)
    ensures JoinDot(SplitDot(s)) == s
  {
    JoinChunks(s);
  }

  /** Splitting "" and "." (the odd cases of Java's split). */
  lemma SplitDotEdgeCases()
    ensures SplitDot("") == [""]
    ensures SplitDot(".") == []
    ensures SplitDot("a.") == ["a"]
    ensures SplitDot(".a") == ["", "a"]
  {
    assert "."[1..] == "" && Chunks("") == [""];
    assert Chunks(".") == ["", ""];
    assert "a."[1..] == ".";
    var rest := Chunks(".");
    assert Chunks("a.") == [['a'] + rest[0]] + rest[1..];
    assert ['a'] + rest[0] == "a" && rest[1..] == [""];
    assert Chunks("a.") == ["a", ""];
    assert ["a", ""][..1] == ["a"];
    assert ".a"[1..] == "a" && Chunks("a") == ["a"];
    assert Chunks(".a") == ["", "a"];
  }

  // ---------------------------------------------------------------------------
  // Identifiers and names
  // ---------------------------------------------------------------------------

  /**
   * The keywords of section 3.9 of the Java Language Specification (Java 5 and
   * later) and the literals `true`, `false` and `null`, grouped by length: the
   * words JDT's scanner never reads as an identifier.
   */
  predicate IsReservedWord(s: string)
  {
    match |s|
    case 2 => s in {"do", "if"}
    case 3 => s in {"for", "int", "new", "try"}
    case 4 => s in {"byte", "case", "char", "else", "enum", "goto", "long", "this", "void", "true", "null"}
    case 5 => s in {"break", "catch", "class", "const", "final", "float", "short", "super", "throw", "while", "false"}
    case 6 => s in {"assert", "double", "import", "native", "public", "return", "static", "switch", "throws"}
    case 7 => s in {"boolean", "default", "extends", "finally", "package", "private"}
    case 8 => s in {"abstract", "continue", "strictfp", "volatile"}
    case 9 => s in {"interface", "protected", "transient"}
    case 10 => s in {"implements", "instanceof"}
    case 12 => s == "synchronized"
    case _ => false
  }

  /** The names `PrimitiveType.toCode` knows: the eight primitive types and `void`. */
  const PRIMITIVE_TYPE_CODES: set<string> := {"boolean", "byte", "char", "short", "int", "long", "float", "double", "void"}

  /** `Character.isJavaIdentifierStart`, for ASCII. */
  predicate IsIdentifierStart(c: char) { 'a' <= c <= 'z' || 'A' <= c <= 'Z' || c == '_' || c == '$' }

  /** `Character.isJavaIdentifierPart`, for ASCII. */
  predicate IsIdentifierPart(c: char) { IsIdentifierStart(c) || '0' <= c <= '9' }

  /**
   * An identifier (section 3.8): a start character, then part characters, and
   * no reserved word. This is what `AST.newSimpleName` accepts.
   */
  predicate IsIdentifier(s: string)
  {
    && |s| > 0 && IsIdentifierStart(s[0])
    && (forall i :: 1 <= i < |s| ==> IsIdentifierPart(s[i]))
    && !IsReservedWord(s)
  }

  /**
   * A name (section 6.2): identifiers separated by single dots, with no empty
   * piece. This is what `AST.newName` accepts.
   */
  predicate IsName(s: string)
  {
    forall p :: p in Chunks(s) ==> IsIdentifier(p)
  }

  /** The pieces of `a.b`, for `a` without a dot: `a`, then the pieces of `b`. */
  lemma {:induction false} ChunksAfterDot(a: string, b: string)
    requires '.' !in a
    ensures Chunks(a + "." + b) == [a] + Chunks(b)
  {
    if |a| == 0 {
      assert a + "." + b == "." + b;
      assert ("." + b)[1..] == b;
    } else {
      ChunksAfterDot(a[1..], b);
      var s := a + "." + b;
      assert s[0] == a[0] && s[1..] == a[1..] + "." + b;
      assert [a[0]] + a[1..] == a;
    }
  }

  /** A type keyword is no name, so `AST.newName` rejects it. */
  lemma PrimitiveTypeCodeNotName(p: string)
    requires p in PRIMITIVE_TYPE_CODES
    ensures !IsName(p)
  {
    assert '.' !in p;
    assert Chunks(p) == [p];
    assert IsReservedWord(p) && !IsIdentifier(p);
    assert p in Chunks(p);
  }

  lemma IdentifierHasNoDot(s: string)
    requires IsIdentifier(s)
    ensures '.' !in s
  {
    forall i | 0 <= i < |s| ensures s[i] != '.' {
      if i > 0 { assert IsIdentifierPart(s[i]); }
    }
  }

  /** An identifier is a name of one piece. */
  lemma IdentifierIsName(s: string)
    requires IsIdentifier(s)
    ensures IsName(s)
  {
    IdentifierHasNoDot(s);
  }

  /** An identifier, a dot and a name make a name: a qualified name is built from the left. */
  lemma NameAfterIdentifier(qualifier: string, rest: string)
    requires IsIdentifier(qualifier) && IsName(rest)
    ensures IsName(qualifier + "." + rest)
  {
    IdentifierHasNoDot(qualifier);
    ChunksAfterDot(qualifier, rest);
  }

  // ---------------------------------------------------------------------------
  // String.compareTo and TreeSet<String>
  // ---------------------------------------------------------------------------

  /** `a.compareTo(b) < 0`: lexicographic on characters, a proper prefix first. */
  predicate Less(a: string, b: string)
    decreases |a|
  {
    if |a| == 0 then |b| > 0
    else if |b| == 0 then false
    else if a[0] == b[0] then Less(a[1..], b[1..])
    else a[0] < b[0]
  }

  lemma {:induction false} LessIrreflexive(a: string)
    ensures !Less(a, a)
  {
    if |a| > 0 { LessIrreflexive(a[1..]); }
  }

  lemma {:induction false} LessTransitive(a: string, b: string, c: string)
    requires Less(a, b) && Less(b, c)
    ensures Less(a, c)
    decreases |a|
  {
    if |a| > 0 && |b| > 0 && |c| > 0 && a[0] == b[0] && b[0] == c[0] {
      LessTransitive(a[1..], b[1..], c[1..]);
    }
  }

  lemma {:induction false} LessTotal(a: string, b: string)
    ensures a == b || Less(a, b) || Less(b, a)
    decreases |a|
  {
    if |a| > 0 && |b| > 0 && a[0] == b[0] {
      LessTotal(a[1..], b[1..]);
      if a[1..] == b[1..] {
        assert a == [a[0]] + a[1..] && b == [b[0]] + b[1..];
      }
    }
  }

  lemma LessAsymmetric(a: string, b: string)
    requires Less(a, b)
    ensures !Less(b, a)
  {
    if Less(b, a) {
      LessTransitive(a, b, a);
      LessIrreflexive(a);
    }
  }

  /** Strictly increasing in `compareTo` order: the iteration order of a `TreeSet`. */
  predicate StrictlySorted(s: seq<string>)
  {
    forall i, j :: 0 <= i < j < |s| ==> Less(s[i], s[j])
  }

  function Elements(s: seq<string>): set<string>
  {
    set x | x in s
  }

  /** `TreeSet.add`: the element is inserted at its place unless already present. */
  function TreeSetAdd(s: seq<string>, x: string): (r: seq<string>)
    requires StrictlySorted(s)
    ensures StrictlySorted(r)
    ensures forall y :: y in r <==> y in s || y == x
  {
    if |s| == 0 then [x]
    else if x == s[0] then s
    else if Less(x, s[0]) then
      assert forall j :: 0 < j < |s| ==> Less(x, s[j]) by {
        forall j | 0 < j < |s| ensures Less(x, s[j]) { LessTransitive(x, s[0], s[j]); }
      }
      [x] + s
    else
      LessTotal(x, s[0]);
      var rest := TreeSetAdd(s[1..], x);
      assert forall y :: y in s[1..] ==> Less(s[0], y);
      [s[0]] + rest
  }

  /** A strictly sorted sequence has no element twice. */
  lemma SortedDistinct(s: seq<string>, i: int, j: int)
    requires StrictlySorted(s)
    requires 0 <= i < |s| && 0 <= j < |s| && i != j
    ensures s[i] != s[j]
  {
    if i < j { LessIrreflexive(s[i]); } else { LessIrreflexive(s[j]); }
  }

  /** Two strictly sorted sequences with the same elements are equal: a TreeSet's order is determined by its set. */
  lemma {:induction false} SortedUnique(a: seq<string>, b: seq<string>)
    requires StrictlySorted(a) && StrictlySorted(b)
    requires forall x :: x in a <==> x in b
    ensures a == b
    decreases |a|
  {
    if |a| > 0 { assert a[0] in b; }
    if |b| > 0 { assert b[0] in a; }
    if |a| > 0 && |b| > 0 {
      if a[0] != b[0] {
        assert b[0] in a;
        var i :| 0 <= i < |a| && a[i] == b[0];
        assert a[0] in b;
        var j :| 0 <= j < |b| && b[j] == a[0];
        assert Less(a[0], a[i]) && Less(b[0], b[j]);
        LessAsymmetric(a[0], b[0]);
        assert false;
      }
      forall x ensures x in a[1..] <==> x in b[1..] {
        if x in a[1..] {
          var i :| 1 <= i < |a| && a[i] == x;
          SortedDistinct(a, 0, i);
          assert x in b && x != b[0];
        }
        if x in b[1..] {
          var j :| 1 <= j < |b| && b[j] == x;
          SortedDistinct(b, 0, j);
          assert x in a && x != a[0];
        }
      }
      SortedUnique(a[1..], b[1..]);
      assert a == [a[0]] + a[1..] && b == [b[0]] + b[1..];
    }
  }

  /** The iteration order of a `TreeSet<String>` holding exactly the strings of `S`. */
  ghost function SortedOf(S: set<string>): (r: seq<string>)
    ensures StrictlySorted(r)
    ensures Elements(r) == S
    decreases |S|
  {
    if S == {} then []
    else
      var x :| x in S;
      var prev := SortedOf(S - {x});
      var r := TreeSetAdd(prev, x);
      assert forall y :: y in Elements(r) <==> y in Elements(prev) || y == x;
      r
  }

  /** `TreeSet.addAll` of a collection, one element at a time. */
  function TreeSetAddAll(s: seq<string>, xs: seq<string>): (r: seq<string>)
    requires StrictlySorted(s)
    ensures StrictlySorted(r)
    ensures forall y :: y in r <==> y in s || y in xs
    decreases |xs|
  {
    if |xs| == 0 then s else TreeSetAddAll(TreeSetAdd(s, xs[0]), xs[1..])
  }
}
