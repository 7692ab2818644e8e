/**
 * The static helpers of proposal/visitors/PropertyNameProposalCollector.java:
 * accessor prefixes, the property name an accessor stands for, the split of a
 * dotted property path, and the walk of a path through the type table.
 */
module PropertyAccessors {
  import opened JavaLang
  import opened TypeBindings

  const READ_ACCESSOR_PREFIXES: seq<string> := ["get", "is"]
  const WRITE_ACCESSOR_PREFIXES: seq<string> := ["set"]

  /** The prefixes of the accessors that are followed: read accessors for a source path, write accessors for a target path. */
  function AccessorPrefixes(source: bool): seq<string>
  {
    if source then READ_ACCESSOR_PREFIXES else WRITE_ACCESSOR_PREFIXES
  }

  /** `getMatchingPrefix`: the first candidate prefix, in array order, that the method name starts with; null if none. */
  function GetMatchingPrefix(methodName: string, prefixes: seq<string>): (r: Option<string>)
    ensures r.Some? ==> r.value in prefixes && StartsWith(methodName, r.value)
  {
    if |prefixes| == 0 then None
    else if StartsWith(methodName, prefixes[0]) then Some(prefixes[0])
    else GetMatchingPrefix(methodName, prefixes[1..])
  }

  /** The prefix found is the first one in array order that matches, and null means none matches. */
  lemma {:induction false} GetMatchingPrefixFirst(methodName: string, prefixes: seq<string>)
    ensures var r := GetMatchingPrefix(methodName, prefixes);
            && (r.None? <==> forall i :: 0 <= i < |prefixes| ==> !StartsWith(methodName, prefixes[i]))
            && (r.Some? ==> exists i :: 0 <= i < |prefixes| && prefixes[i] == r.value
                                      && forall k :: 0 <= k < i ==> !StartsWith(methodName, prefixes[k]))
  {
    if |prefixes| > 0 && !StartsWith(methodName, prefixes[0]) {
      GetMatchingPrefixFirst(methodName, prefixes[1..]);
      var r := GetMatchingPrefix(methodName, prefixes[1..]);
      assert forall i :: 1 <= i < |prefixes| ==> prefixes[i] == prefixes[1..][i - 1];
      if r.Some? {
        var i :| 0 <= i < |prefixes[1..]| && prefixes[1..][i] == r.value
                 && forall k :: 0 <= k < i ==> !StartsWith(methodName, prefixes[1..][k]);
        forall k | 0 <= k < i + 1 ensures !StartsWith(methodName, prefixes[k]) {
          if k > 0 { assert prefixes[k] == prefixes[1..][k - 1]; }
        }
        assert prefixes[i + 1] == r.value;
      }
    }
  }

  /**
   * The property an accessor method stands for: its name without the first
   * matching prefix, passed through `Introspector.decapitalize`; none when no
   * prefix matches.
   */
  function AccessorProperty(methodName: string, prefixes: seq<string>): Option<string>
  {
    match GetMatchingPrefix(methodName, prefixes)
    case None => None
    case Some(prefix) => Some(Decapitalize(methodName[|prefix|..]))
  }

  /** Whether `m` is an accessor that `findPropertyMethods` keeps for the requested property (any property when null). */
  predicate Selected(propertyName: Option<string>, m: MethodBinding, prefixes: seq<string>)
  {
    AccessorProperty(m.name, prefixes).Some?
    && (propertyName.None? || AccessorProperty(m.name, prefixes).value == propertyName.value)
  }

  // Grouping a method list by a key, stated for any key function so that the
  // proofs below never look inside `AccessorProperty`.

  /** The methods whose key is `k`, in list order. */
  function Group(key: MethodBinding -> Option<string>, k: string, methods: seq<MethodBinding>): (r: seq<MethodBinding>)
    ensures forall m :: m in r <==> m in methods && key(m) == Some(k)
    ensures |r| <= |methods|
  {
    if methods == [] then []
    else
      var init, last := methods[..|methods| - 1], methods[|methods| - 1];
      assert methods == init + [last];
      var prev := Group(key, k, init);
      if key(last) == Some(k) then prev + [last] else prev
  }

  /** The keys that occur among `methods`. */
  function GroupKeys(key: MethodBinding -> Option<string>, methods: seq<MethodBinding>): set<string>
  {
    set m | m in methods && key(m).Some? :: key(m).value
  }

  lemma GroupKeysSnoc(key: MethodBinding -> Option<string>, methods: seq<MethodBinding>, m: MethodBinding)
    ensures GroupKeys(key, methods + [m]) == GroupKeys(key, methods) + (if key(m).Some? then {key(m).value} else {})
  {
    var after := GroupKeys(key, methods + [m]);
    var before := GroupKeys(key, methods);
    forall x | x in after ensures x in before || (key(m).Some? && x == key(m).value) {
      var w :| w in methods + [m] && key(w).Some? && key(w).value == x;
      if w != m { assert w in methods; }
    }
    forall x | x in before ensures x in after {
      var w :| w in methods && key(w).Some? && key(w).value == x;
      assert w in methods + [m];
    }
    if key(m).Some? {
      assert m in methods + [m];
    }
  }

  lemma AbsentKeyEmptyGroup(key: MethodBinding -> Option<string>, k: string, methods: seq<MethodBinding>)
    ensures k !in GroupKeys(key, methods) ==> Group(key, k, methods) == []
  {
    if |Group(key, k, methods)| > 0 {
      assert Group(key, k, methods)[0] in Group(key, k, methods);
    }
  }

  /** Two keys that agree on `k` group the same methods under `k`. */
  lemma {:induction false} GroupSame(f: MethodBinding -> Option<string>, g: MethodBinding -> Option<string>, k: string, methods: seq<MethodBinding>)
    requires forall m :: m in methods ==> (f(m) == Some(k) <==> g(m) == Some(k))
    ensures Group(f, k, methods) == Group(g, k, methods)
    decreases |methods|
  {
    if methods != [] {
      var init := methods[..|methods| - 1];
      assert forall m :: m in init ==> m in methods;
      assert methods[|methods| - 1] in methods;
      GroupSame(f, g, k, init);
    }
  }

  /**
   * The map a one-pass grouping loop builds: each key that occurs to its
   * methods, in list order.
   */
  function Grouped(key: MethodBinding -> Option<string>, methods: seq<MethodBinding>): (r: map<string, seq<MethodBinding>>)
    ensures r.Keys == GroupKeys(key, methods)
    ensures forall k :: k in r ==> r[k] == Group(key, k, methods)
  {
    if methods == [] then map[]
    else
      var init, m := methods[..|methods| - 1], methods[|methods| - 1];
      var before := Grouped(key, init);
      assert methods == init + [m];
      GroupKeysSnoc(key, init, m);
      match key(m)
      case None => before
      case Some(k) =>
        AbsentKeyEmptyGroup(key, k, init);
        before[k := (if k in before then before[k] else []) + [m]]
  }

  /** The key of an accessor: the property it stands for. */
  function AccessorKey(prefixes: seq<string>): MethodBinding -> Option<string>
  {
    (m: MethodBinding) => AccessorProperty(m.name, prefixes)
  }

  /** The key `findPropertyMethods` groups by: the property of a selected accessor, none for any other method. */
  function SelectedKey(propertyName: Option<string>, prefixes: seq<string>): MethodBinding -> Option<string>
  {
    (m: MethodBinding) => if Selected(propertyName, m, prefixes) then AccessorProperty(m.name, prefixes) else None
  }

  /** The accessors of property `key` among `methods`, in method order. */
  function AccessorsOf(key: string, methods: seq<MethodBinding>, prefixes: seq<string>): (r: seq<MethodBinding>)
    ensures forall m :: m in r <==> m in methods && AccessorProperty(m.name, prefixes) == Some(key)
    ensures |r| <= |methods|
  {
    Group(AccessorKey(prefixes), key, methods)
  }

  /**
   * The map `findPropertyMethods` builds, one method at a time: a selected
   * accessor is appended to the list of its property.
   */
  function PropertyMethods(propertyName: Option<string>, methods: seq<MethodBinding>, prefixes: seq<string>)
    : map<string, seq<MethodBinding>>
    decreases |methods|
  {
    if methods == [] then map[]
    else
      var before := PropertyMethods(propertyName, methods[..|methods| - 1], prefixes);
      var m := methods[|methods| - 1];
      if Selected(propertyName, m, prefixes) then
        var k := AccessorProperty(m.name, prefixes).value;
        before[k := (if k in before then before[k] else []) + [m]]
      else before
  }

  /** `PropertyMethods` is the grouping of the methods by `SelectedKey`. */
  lemma {:induction false} PropertyMethodsGrouped(propertyName: Option<string>, methods: seq<MethodBinding>, prefixes: seq<string>)
    ensures PropertyMethods(propertyName, methods, prefixes) == Grouped(SelectedKey(propertyName, prefixes), methods)
    decreases |methods|
  {
    if methods != [] {
      PropertyMethodsGrouped(propertyName, methods[..|methods| - 1], prefixes);
    }
  }

  /** The keys are the properties of the selected accessors, each with the accessors standing for it, in method order. */
  lemma PropertyMethodsSpec(propertyName: Option<string>, methods: seq<MethodBinding>, prefixes: seq<string>)
    ensures forall k :: k in PropertyMethods(propertyName, methods, prefixes) <==>
              exists m :: m in methods && Selected(propertyName, m, prefixes) && AccessorProperty(m.name, prefixes) == Some(k)
    ensures forall k :: k in PropertyMethods(propertyName, methods, prefixes) ==>
              PropertyMethods(propertyName, methods, prefixes)[k] == AccessorsOf(k, methods, prefixes)
  {
    PropertyMethodsGrouped(propertyName, methods, prefixes);
    var r := PropertyMethods(propertyName, methods, prefixes);
    forall k | k in r ensures r[k] == AccessorsOf(k, methods, prefixes) {
      GroupSame(SelectedKey(propertyName, prefixes), AccessorKey(prefixes), k, methods);
    }
  }

  /**
   * The keys are exactly the requested property names some accessor stands
   * for, each with a non-empty list; methods without a matching prefix are
   * dropped, and a non-null property name leaves at most that one key.
   */
  lemma PropertyMethodsShape(propertyName: Option<string>, methods: seq<MethodBinding>, prefixes: seq<string>)
    ensures var r := PropertyMethods(propertyName, methods, prefixes);
            && (forall k :: k in r <==>
                  (propertyName.None? || propertyName.value == k)
                  && exists m :: m in methods && AccessorProperty(m.name, prefixes) == Some(k))
            && (forall k :: k in r ==> |r[k]| > 0)
            && (propertyName.Some? ==> r.Keys <= {propertyName.value})
  {
    PropertyMethodsSpec(propertyName, methods, prefixes);
    var r := PropertyMethods(propertyName, methods, prefixes);
    forall k | k in r ensures |r[k]| > 0 {
      assert exists m :: m in methods && Selected(propertyName, m, prefixes) && AccessorProperty(m.name, prefixes) == Some(k);
      var m :| m in methods && Selected(propertyName, m, prefixes) && AccessorProperty(m.name, prefixes) == Some(k);
      assert m in AccessorsOf(k, methods, prefixes);
    }
  }

  /** For one requested property the map is empty, or holds just that property with its accessors. */
  lemma PropertyMethodsOfOne(propertyName: string, methods: seq<MethodBinding>, prefixes: seq<string>)
    ensures var r := PropertyMethods(Some(propertyName), methods, prefixes);
            var accessors := AccessorsOf(propertyName, methods, prefixes);
            && (|r| == 0 <==> |accessors| == 0)
            && (|r| > 0 ==> propertyName in r && r[propertyName] == accessors)
  {
    PropertyMethodsSpec(Some(propertyName), methods, prefixes);
    var r := PropertyMethods(Some(propertyName), methods, prefixes);
    var accessors := AccessorsOf(propertyName, methods, prefixes);
    if |r| > 0 {
      var k :| k in r;
      assert k == propertyName;
    }
    if |accessors| > 0 {
      assert accessors[0] in accessors;
      assert propertyName in r;
    }
  }

  /** `findPropertyMethods`: one pass over the methods, filling a map from property name to its accessors. */
  method FindPropertyMethods(propertyName: Option<string>, methods: seq<MethodBinding>, candidatePrefixes: seq<string>)
    returns (returnValue: map<string, seq<MethodBinding>>)
    ensures returnValue == PropertyMethods(propertyName, methods, candidatePrefixes)
  {
    returnValue := map[];
    var i := 0;
    while i < |methods|
      invariant 0 <= i <= |methods|
      invariant returnValue == PropertyMethods(propertyName, methods[..i], candidatePrefixes)
    {
      var candidate := methods[i];
      assert methods[..i + 1][..i] == methods[..i];
      var matchingPrefix := GetMatchingPrefix(candidate.name, candidatePrefixes);
      if matchingPrefix.Some? {
        var methodPropertyName := Decapitalize(candidate.name[|matchingPrefix.value|..]);
        assert AccessorProperty(candidate.name, candidatePrefixes) == Some(methodPropertyName);
        if propertyName.None? || methodPropertyName == propertyName.value {
          var accessorMethods := if methodPropertyName in returnValue then returnValue[methodPropertyName] else [];
          returnValue := returnValue[methodPropertyName := accessorMethods + [candidate]];
        }
      }
      i := i + 1;
    }
    assert methods[..i] == methods;
  }

  /** A string does not start with a prefix whose first character it does not share. */
  lemma FirstCharDiffers(s: string, prefix: string)
    requires |s| > 0 && |prefix| > 0 && s[0] != prefix[0]
    ensures !StartsWith(s, prefix)
  {
  }

  /** How read accessors become property names: the first matching prefix is stripped, then the rest decapitalized. */
  lemma ReadAccessorExamples()
    ensures AccessorProperty("getName", READ_ACCESSOR_PREFIXES) == Some("name")
    ensures AccessorProperty("isActive", READ_ACCESSOR_PREFIXES) == Some("active")
    ensures AccessorProperty("getURL", READ_ACCESSOR_PREFIXES) == Some("URL")
  {
    var read := READ_ACCESSOR_PREFIXES;
    assert read[1..] == ["is"] && read[1..][1..] == [];
    assert StartsWith("getName", "get") && "getName"[3..] == "Name";
    assert Decapitalize("Name") == "name" by { assert ToLowerCase('N') == 'n'; assert "Name"[1..] == "ame"; }
    assert Decapitalize("Active") == "active" by { assert ToLowerCase('A') == 'a'; assert "Active"[1..] == "ctive"; }
    FirstCharDiffers("isActive", "get");
    assert StartsWith("isActive", "is") && "isActive"[2..] == "Active";
    assert GetMatchingPrefix("isActive", read[1..]) == Some("is");
    assert StartsWith("getURL", "get") && "getURL"[3..] == "URL";
    assert Decapitalize("URL") == "URL";
  }

  /** A prefix is stripped however the name goes on: "issue" stands for "sue", and "get" alone for the empty name. */
  lemma PrefixOnlyExamples()
    ensures AccessorProperty("issue", READ_ACCESSOR_PREFIXES) == Some("sue")
    ensures AccessorProperty("get", READ_ACCESSOR_PREFIXES) == Some("")
  {
    var read := READ_ACCESSOR_PREFIXES;
    assert read[1..] == ["is"] && read[1..][1..] == [];
    assert Decapitalize("sue") == "sue" by { assert "sue"[1..] == "ue"; }
    FirstCharDiffers("issue", "get");
    assert StartsWith("issue", "is") && "issue"[2..] == "sue";
    assert GetMatchingPrefix("issue", read[1..]) == Some("is");
    assert StartsWith("get", "get") && "get"[3..] == "";
  }

  /** Only `set` methods are write accessors, and a method without an accessor prefix stands for no property. */
  lemma WriteAndNonAccessorExamples()
    ensures AccessorProperty("setName", WRITE_ACCESSOR_PREFIXES) == Some("name")
    ensures AccessorProperty("getName", WRITE_ACCESSOR_PREFIXES) == None
    ensures AccessorProperty("toString", READ_ACCESSOR_PREFIXES) == None
  {
    var read := READ_ACCESSOR_PREFIXES;
    assert read[1..] == ["is"] && read[1..][1..] == [];
    assert StartsWith("setName", "set") && "setName"[3..] == "Name";
    assert Decapitalize("Name") == "name" by { assert ToLowerCase('N') == 'n'; assert "Name"[1..] == "ame"; }
    FirstCharDiffers("getName", "set");
    assert WRITE_ACCESSOR_PREFIXES[1..] == [];
    FirstCharDiffers("toString", "get");
    FirstCharDiffers("toString", "is");
    assert GetMatchingPrefix("toString", read[1..]) == None;
  }

  /** `getLastPathElement`: everything after the last dot, or the whole path when it has no dot. */
  function LastPathElement(path: string): (r: string)
    ensures '.' !in r
    ensures '.' !in path ==> r == path
  {
    var lastDot := LastIndexOf(path, '.');
    if lastDot >= 0 then path[lastDot + 1..] else path
  }

  /** `getPathWithoutLastElement`: everything before the last dot, or "" when the path has no dot. */
  function PathWithoutLastElement(path: string): (r: string)
    ensures |r| < |path| || r == ""
    ensures '.' !in path ==> r == ""
  {
    var lastDot := LastIndexOf(path, '.');
    if lastDot >= 0 then path[..lastDot] else ""
  }

  /** A dotted path is its part before the last dot, the dot, and its last element. */
  lemma PathReassembles(path: string)
    ensures '.' in path ==> PathWithoutLastElement(path) + "." + LastPathElement(path) == path
    ensures '.' !in path ==> PathWithoutLastElement(path) == "" && LastPathElement(path) == path
  {
    if '.' in path {
      var lastDot := LastIndexOf(path, '.');
      assert path == path[..lastDot] + [path[lastDot]] + path[lastDot + 1..];
    }
  }

  /** The type a path step moves to from accessor `m`: its return type for a read, its first parameter type (else its return type) for a write. */
  function NextType(m: MethodBinding, source: bool): (r: TypeId)
    ensures source ==> r == m.returnType
    ensures !source && |m.parameterTypes| > 0 ==> r == m.parameterTypes[0]
    ensures !source && |m.parameterTypes| == 0 ==> r == m.returnType
  {
    if source then m.returnType
    else if |m.parameterTypes| > 0 then m.parameterTypes[0]
    else m.returnType
  }

  /**
   * `retrieveProposalTypeFromPath`: follows the path one property at a time
   * through the accessors of each type (`findAllMethods`). An enum with path
   * left, or an element without an accessor, gives null; so does a null start.
   */
  function TypeFromPath(T: TypeTable, source: bool, t: Option<TypeId>, path: seq<string>): (r: Option<TypeId>)
    requires WellFormed(T) && (t.Some? ==> t.value in T)
    ensures r.Some? ==> r.value in T
    decreases |path|
  {
    if t.None? || |path| == 0 then t
    else if T[t.value].isEnum then None
    else
      var propertyName := path[0];
      var propertyMethods := PropertyMethods(Some(propertyName), T[t.value].allMethods, AccessorPrefixes(source));
      PropertyMethodsOfOne(propertyName, T[t.value].allMethods, AccessorPrefixes(source));
      if |propertyMethods| == 0 then None
      else
        var firstMethod := propertyMethods[propertyName][0];
        assert firstMethod in T[t.value].allMethods;
        assert BindingWellFormed(T, T[t.value]);
        TypeFromPath(T, source, Some(NextType(firstMethod, source)), path[1..])
  }

  /** The accessor a path step follows: the first accessor, in `findAllMethods` order, of the requested property. */
  lemma TypeFromPathStep(T: TypeTable, source: bool, t: TypeId, path: seq<string>)
    requires WellFormed(T) && t in T && |path| > 0 && !T[t].isEnum
    ensures var accessors := AccessorsOf(path[0], T[t].allMethods, AccessorPrefixes(source));
            && (|accessors| == 0 ==> TypeFromPath(T, source, Some(t), path) == None)
            && (|accessors| > 0 ==> NextType(accessors[0], source) in T)
            && (|accessors| > 0 ==>
                  TypeFromPath(T, source, Some(t), path) == TypeFromPath(T, source, Some(NextType(accessors[0], source)), path[1..]))
  {
    var accessors := AccessorsOf(path[0], T[t].allMethods, AccessorPrefixes(source));
    PropertyMethodsOfOne(path[0], T[t].allMethods, AccessorPrefixes(source));
    if |accessors| > 0 {
      assert accessors[0] in T[t].allMethods;
      assert BindingWellFormed(T, T[t]);
    }
  }

  /** The edge cases of the path walk: no path keeps the type; an enum, or a null type, with path left gives null. */
  lemma TypeFromPathEdges(T: TypeTable, source: bool, t: Option<TypeId>, path: seq<string>)
    requires WellFormed(T) && (t.Some? ==> t.value in T)
    ensures |path| == 0 ==> TypeFromPath(T, source, t, path) == t
    ensures t.None? ==> TypeFromPath(T, source, t, path) == None
    ensures t.Some? && |path| > 0 && T[t.value].isEnum ==> TypeFromPath(T, source, t, path) == None
  {
  }

  /**
   * Each step consumes exactly one element: walking `p + q` is walking `p`,
   * then `q` from where `p` ended (a null stays null).
   */
  lemma {:induction false} TypeFromPathConcat(T: TypeTable, source: bool, t: Option<TypeId>, p: seq<string>, q: seq<string>)
    requires WellFormed(T) && (t.Some? ==> t.value in T)
    ensures TypeFromPath(T, source, t, p + q) == TypeFromPath(T, source, TypeFromPath(T, source, t, p), q)
    decreases |p|
  {
    if t.None? {
    } else if |p| == 0 {
      assert p + q == q;
    } else if T[t.value].isEnum {
    } else {
      assert (p + q)[0] == p[0] && (p + q)[1..] == p[1..] + q;
      var propertyMethods := PropertyMethods(Some(p[0]), T[t.value].allMethods, AccessorPrefixes(source));
      PropertyMethodsOfOne(p[0], T[t.value].allMethods, AccessorPrefixes(source));
      if |propertyMethods| > 0 {
        var firstMethod := propertyMethods[p[0]][0];
        assert firstMethod in T[t.value].allMethods;
        assert BindingWellFormed(T, T[t.value]);
        TypeFromPathConcat(T, source, Some(NextType(firstMethod, source)), p[1..], q);
      }
    }
  }
}
