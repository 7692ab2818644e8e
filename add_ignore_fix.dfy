/**
 * quickfix/fixes/AddIgnoreTargetMappingAnnotationQuickFix.java: a fix that
 * adds `@Mapping( target = "p", ignore = true )` to the marked method for each
 * property `p`. The new annotations go into an existing `@Mappings`, or
 * directly onto the method when `@Mapping` is repeatable or only one is needed
 * and there is none yet, or else into a new `@Mappings`, into which an
 * existing single `@Mapping` is moved.
 */
module AddIgnoreTargetMappingFix {
  import opened JavaLang
  import opened Ast
  import opened ListRewrites
  import opened MapStructApiConstants
  import opened FindAnnotationByName
  import opened MapStructQuickFix

  /** The word ending the label and the description's first line: one property, or several. */
  function Suffix(properties: seq<string>): string
    requires |properties| >= 1
  {
    if |properties| > 1 then "ies." else "y " + properties[0]
  }

  const LABEL_START: string := "Ignore unmapped target propert"

  /** `getLabel`; the list must not be empty (`properties.get(0)`). */
  function GetLabel(properties: seq<string>): (r: string)
    requires |properties| >= 1
    ensures |properties| == 1 ==> r == "Ignore unmapped target property " + properties[0]
    ensures |properties| > 1 ==> r == "Ignore unmapped target properties."
  {
    LABEL_START + Suffix(properties)
  }

  const DESCRIPTION_START: string := "<html>Ignore target propert"

  /** The description's line for one property. */
  function MappingLine(property: string): string
  {
    "<b>@Mapping( target = \"" + property + "\", ignore = true )</b><br>"
  }

  /** The text of one line per element, in list order. */
  function Lines(line: string -> string, xs: seq<string>): string
  {
    if xs == [] then ""
    else Lines(line, xs[..|xs| - 1]) + line(xs[|xs| - 1])
  }

  lemma {:induction false} LinesAppend(line: string -> string, a: seq<string>, b: seq<string>)
    ensures Lines(line, a + b) == Lines(line, a) + Lines(line, b)
    decreases |b|
  {
    if b == [] {
      assert a + b == a;
    } else {
      assert (a + b)[..|a + b| - 1] == a + b[..|b| - 1];
      assert (a + b)[|a + b| - 1] == b[|b| - 1];
      LinesAppend(line, a, b[..|b| - 1]);
    }
  }

  /** The lines for `properties`, in list order. */
  function MappingLines(properties: seq<string>): string
  {
    Lines(MappingLine, properties)
  }

  /** The lines of two lists are the lines of each, one after the other. */
  lemma MappingLinesAppend(a: seq<string>, b: seq<string>)
    ensures MappingLines(a + b) == MappingLines(a) + MappingLines(b)
  {
    LinesAppend(MappingLine, a, b);
  }

  /** The line of each property sits between the lines of the properties before it and those after it. */
  lemma {:induction false} MappingLinesInOrder(properties: seq<string>, i: nat)
    requires i < |properties|
    ensures MappingLines(properties)
         == MappingLines(properties[..i]) + MappingLine(properties[i]) + MappingLines(properties[i + 1..])
  {
    assert properties == properties[..i + 1] + properties[i + 1..];
    MappingLinesAppend(properties[..i + 1], properties[i + 1..]);
    assert properties[..i + 1][..i] == properties[..i];
  }

  /** `getDescription`, built in a `StringBuilder`; the list must not be empty. */
  method GetDescription(properties: seq<string>) returns (r: string)
    requires |properties| >= 1
    ensures r == DESCRIPTION_START + Suffix(properties) + "<br><br>" + MappingLines(properties) + "</html>"
  {
    var suffix := Suffix(properties);
    var sb := DESCRIPTION_START;
    sb := sb + suffix;
    sb := sb + "<br><br>";
    var head := sb;
    for i := 0 to |properties|
      invariant sb == head + MappingLines(properties[..i])
    {
      assert properties[..i + 1][..i] == properties[..i];
      sb := sb + "<b>@Mapping( target = \"" + properties[i] + "\", ignore = true )</b><br>";
    }
    assert properties[..|properties|] == properties;
    sb := sb + "</html>";
    r := sb;
  }

  /** The value of a member of a generated annotation. */
  datatype MemberValue = StringLiteral(literalValue: string) | BooleanLiteral(booleanValue: bool)

  datatype GeneratedPair = GeneratedPair(name: string, value: MemberValue)

  /** A normal annotation the fix creates. */
  datatype GeneratedAnnotation = GeneratedAnnotation(typeName: string, values: seq<GeneratedPair>)

  /** An entry of a modifier list or of an `@Mappings` array, as the rewrite leaves it. */
  datatype Entry =
    | Present(node: Node)                       // already in the unit
    | NewMapping(annotation: GeneratedAnnotation)
    | NewMappings                               // the new `@Mappings`, whose array is reported separately

  /** The annotation `addMappingAnnotations` builds for one property. */
  function IgnoreMapping(property: string): GeneratedAnnotation
  {
    GeneratedAnnotation(MAPPING_SIMPLE_NAME,
      [GeneratedPair(MAPPING_MEMBER_TARGET, StringLiteral(property)),
       GeneratedPair(MAPPING_MEMBER_IGNORE, BooleanLiteral(true))])
  }

  function IgnoreMappings(properties: seq<string>): (r: seq<Entry>)
    ensures |r| == |properties|
  {
    seq(|properties|, i requires 0 <= i < |properties| => NewMapping(IgnoreMapping(properties[i])))
  }

  /** The target a generated `@Mapping` ignores: its only members are `target` and then `ignore = true`. */
  function IgnoredTarget(a: GeneratedAnnotation): Option<string>
  {
    if a.typeName == MAPPING_SIMPLE_NAME && |a.values| == 2
       && a.values[0].name == MAPPING_MEMBER_TARGET && a.values[0].value.StringLiteral?
       && a.values[1] == GeneratedPair(MAPPING_MEMBER_IGNORE, BooleanLiteral(true))
    then Some(a.values[0].value.literalValue)
    else None
  }

  /** The targets of the generated ignore-`@Mapping`s among `entries`, in order. */
  function GeneratedTargets(entries: seq<Entry>): seq<string>
  {
    if entries == [] then []
    else
      var last := entries[|entries| - 1];
      GeneratedTargets(entries[..|entries| - 1])
        + (if last.NewMapping? && IgnoredTarget(last.annotation).Some? then [IgnoredTarget(last.annotation).value] else [])
  }

  lemma {:induction false} GeneratedTargetsAppend(a: seq<Entry>, b: seq<Entry>)
    ensures GeneratedTargets(a + b) == GeneratedTargets(a) + GeneratedTargets(b)
    decreases |b|
  {
    if b == [] {
      assert a + b == a;
    } else {
      assert (a + b)[..|a + b| - 1] == a + b[..|b| - 1];
      GeneratedTargetsAppend(a, b[..|b| - 1]);
    }
  }

  /** Each property gets one ignore-`@Mapping` naming it as target, in list order. */
  lemma {:induction false} IgnoreMappingsTargets(properties: seq<string>)
    ensures GeneratedTargets(IgnoreMappings(properties)) == properties
    decreases |properties|
  {
    if properties != [] {
      var init := properties[..|properties| - 1];
      assert IgnoreMappings(properties)[..|properties| - 1] == IgnoreMappings(init);
      IgnoreMappingsTargets(init);
      assert properties == init + [properties[|properties| - 1]];
    }
  }

  function Presents(nodes: seq<Node>): (r: seq<Entry>)
    ensures |r| == |nodes|
    ensures forall i :: 0 <= i < |nodes| ==> r[i] == Present(nodes[i])
  {
    seq(|nodes|, i requires 0 <= i < |nodes| => Present(nodes[i]))
  }

  lemma {:induction false} PresentsHaveNoTargets(entries: seq<Entry>)
    requires forall k :: 0 <= k < |entries| ==> !entries[k].NewMapping?
    ensures GeneratedTargets(entries) == []
    decreases |entries|
  {
    if entries != [] {
      PresentsHaveNoTargets(entries[..|entries| - 1]);
    }
  }

  /**
   * `addMappingAnnotations`: the annotations are first collected with
   * `addFirst`, in reverse, and then each is inserted at the front of the
   * list, so the list starts with them in property order.
   */
  method AddMappingAnnotations(properties: seq<string>, mappingList: ListRewrite<Entry>)
    modifies mappingList
    ensures mappingList.entries == IgnoreMappings(properties) + old(mappingList.entries)
  {
    var toAdd: seq<GeneratedAnnotation> := [];
    for i := 0 to |properties|
      invariant |toAdd| == i
      invariant forall k :: 0 <= k < i ==> toAdd[k] == IgnoreMapping(properties[i - 1 - k])
    {
      var values: seq<GeneratedPair> := [];
      values := values + [GeneratedPair(MAPPING_MEMBER_TARGET, StringLiteral(properties[i]))];
      values := values + [GeneratedPair(MAPPING_MEMBER_IGNORE, BooleanLiteral(true))];
      var mapping := GeneratedAnnotation(MAPPING_SIMPLE_NAME, values);
      toAdd := [mapping] + toAdd;
    }
    ghost var original := mappingList.entries;
    for j := 0 to |toAdd|
      invariant |mappingList.entries| == j + |original|
      invariant forall k :: 0 <= k < j ==> mappingList.entries[k] == NewMapping(toAdd[j - 1 - k])
      invariant mappingList.entries[j..] == original
    {
      mappingList.InsertFirst(NewMapping(toAdd[j]));
      assert mappingList.entries[j + 1..] == mappingList.entries[1..][j..];
    }
    assert mappingList.entries == IgnoreMappings(properties) + original;
  }

  /** What `findType` and `getAnnotations` give for `org.mapstruct.Mapping`. */
  datatype MappingTypeLookup =
    | NoJavaElement                               // `unit.getJavaElement()` is null
    | TypeNotFound                                // `findType` answers null
    | LookupFails                                 // a `CoreException` is thrown
    | TypeFound(annotationNames: seq<string>)     // the element names of the type's annotations

  predicate IsRepeatableName(name: string)
  {
    name == "Repeatable" || name == "java.lang.annotation.Repeatable"
  }

  predicate DeclaresRepeatable(lookup: MappingTypeLookup)
  {
    lookup.TypeFound? && exists i :: 0 <= i < |lookup.annotationNames| && IsRepeatableName(lookup.annotationNames[i])
  }

  /** `supportsRepeatableMapping`: the `Mapping` type is found and carries `@Repeatable`. */
  method SupportsRepeatableMapping(lookup: MappingTypeLookup) returns (r: bool)
    ensures r <==> lookup.TypeFound? && exists i :: 0 <= i < |lookup.annotationNames| && IsRepeatableName(lookup.annotationNames[i])
  {
    if !lookup.TypeFound? {
      return false;
    }
    var annotations := lookup.annotationNames;
    for i := 0 to |annotations|
      invariant forall k :: 0 <= k < i ==> !IsRepeatableName(annotations[k])
    {
      if annotations[i] == "Repeatable" || annotations[i] == "java.lang.annotation.Repeatable" {
        return true;
      }
    }
    return false;
  }

  /** The marked method: its modifiers (keywords and annotations) and the rest of its syntax, in visit order. */
  datatype MarkedMethod = MarkedMethod(modifiers: seq<Node>, others: seq<Node>)

  function MethodNode(m: MarkedMethod): Node
  {
    Other(m.modifiers + m.others)
  }

  /** `findAnnotation`: the last annotation of the method, in visit order, of the given type. */
  method FindAnnotation(m: MarkedMethod, annotationName: string) returns (located: Option<Node>)
    ensures located == Walk(annotationName, None, MethodNode(m))
  {
    var visitor := new FindAnnotationByNameVisitor(annotationName);
    visitor.Accept(MethodNode(m));
    located := visitor.locatedNode;
  }

  /**
   * The expressions of the array that is the value of a found `@Mappings`:
   * the cast to a single-member annotation and the list rewrite of an array
   * initializer fail (None) for any other form.
   */
  function ArrayElements(mappings: Node): Option<seq<Node>>
  {
    if mappings.Annotation? && mappings.kind == SingleMemberAnnotation
       && |mappings.children| == 1 && mappings.children[0].ArrayInitializer?
    then Some(mappings.children[0].children)
    else None
  }

  /** Where `getListForAddingMappingAnnotations` puts the new annotations. */
  datatype Placement =
    | IntoMappings(elements: seq<Node>)     // the array of the existing `@Mappings`
    | IntoModifiers                         // directly onto the method
    | IntoNewMappings(moved: Option<Node>)  // a new `@Mappings`, taking over the single `@Mapping` found, if any
    | Fails                                 // JDT throws

  function PlacementOf(properties: seq<string>, lookup: MappingTypeLookup, m: MarkedMethod): (r: Placement)
    ensures r.IntoMappings? ==> Walk(MAPPINGS_FQ_NAME, None, MethodNode(m)).Some?
    ensures r.IntoModifiers? ==>
              Walk(MAPPINGS_FQ_NAME, None, MethodNode(m)).None?
              && (DeclaresRepeatable(lookup) || (Walk(MAPPING_FQ_NAME, None, MethodNode(m)).None? && |properties| == 1))
    ensures r.IntoNewMappings? ==>
              Walk(MAPPINGS_FQ_NAME, None, MethodNode(m)).None? && !DeclaresRepeatable(lookup)
              && r.moved == Walk(MAPPING_FQ_NAME, None, MethodNode(m))
              && (r.moved.Some? || |properties| != 1)
    ensures r.IntoNewMappings? && r.moved.Some? ==> r.moved.value in m.modifiers
    ensures r.Fails? <==>
              (Walk(MAPPINGS_FQ_NAME, None, MethodNode(m)).Some? && ArrayElements(Walk(MAPPINGS_FQ_NAME, None, MethodNode(m)).value).None?)
              || (Walk(MAPPINGS_FQ_NAME, None, MethodNode(m)).None? && !DeclaresRepeatable(lookup)
                  && Walk(MAPPING_FQ_NAME, None, MethodNode(m)).Some?
                  && Walk(MAPPING_FQ_NAME, None, MethodNode(m)).value !in m.modifiers)
  {
    var mappings := Walk(MAPPINGS_FQ_NAME, None, MethodNode(m));
    if mappings.Some? then
      match ArrayElements(mappings.value)
      case Some(elements) => IntoMappings(elements)
      case None => Fails
    else if DeclaresRepeatable(lookup) then IntoModifiers
    else
      var single := Walk(MAPPING_FQ_NAME, None, MethodNode(m));
      if single.None? && |properties| == 1 then IntoModifiers
      else if single.Some? && single.value !in m.modifiers then Fails
      else IntoNewMappings(single)
  }

  /** The rewrite of this fix: the method's modifiers, the `@Mappings` array written to (if any) and the unit's imports. */
  datatype IgnoreRewrite = IgnoreRewrite(modifiers: seq<Entry>, mappingsArray: Option<seq<Entry>>, imports: seq<string>)

  /** What `getASTRewrite` produces; None when JDT throws. */
  function IgnoreRewriteOf(properties: seq<string>, lookup: MappingTypeLookup, imports: seq<string>, m: MarkedMethod): Option<IgnoreRewrite>
  {
    RewriteFor(PlacementOf(properties, lookup, m), properties, imports, m)
  }

  /** The rewrite for a given placement. */
  function RewriteFor(placement: Placement, properties: seq<string>, imports: seq<string>, m: MarkedMethod): Option<IgnoreRewrite>
    requires placement.IntoNewMappings? && placement.moved.Some? ==> placement.moved.value in m.modifiers
  {
    match placement
    case Fails => None
    case IntoMappings(elements) =>
      Some(IgnoreRewrite(Presents(m.modifiers), Some(IgnoreMappings(properties) + Presents(elements)),
                         imports + Requested(imports, [MAPPING_FQ_NAME])))
    case IntoModifiers =>
      Some(IgnoreRewrite(IgnoreMappings(properties) + Presents(m.modifiers), None,
                         imports + Requested(imports, [MAPPING_FQ_NAME])))
    case IntoNewMappings(moved) =>
      var modifiers := [NewMappings] + Presents(m.modifiers);
      assert moved.Some? ==> modifiers[1 + IndexOf(m.modifiers, moved.value)] == Present(moved.value);
      Some(IgnoreRewrite(
        if moved.Some? then RemovedFirst(modifiers, Present(moved.value)) else modifiers,
        Some(IgnoreMappings(properties) + (if moved.Some? then [Present(moved.value)] else [])),
        imports + Requested(imports, [MAPPINGS_FQ_NAME, MAPPING_FQ_NAME])))
  }

  /** `addNewMappingsAnnotation`: a new `@Mappings` goes first among the modifiers; its empty array is returned. */
  method AddNewMappingsAnnotation(originalImports: seq<string>, modifiers: ListRewrite<Entry>, imports: ListRewrite<string>)
    returns (mappingArray: ListRewrite<Entry>)
    modifies modifiers, imports
    ensures fresh(mappingArray) && mappingArray.entries == []
    ensures modifiers.entries == [NewMappings] + old(modifiers.entries)
    ensures imports.entries == old(imports.entries) + Requested(originalImports, [MAPPINGS_FQ_NAME])
  {
    modifiers.InsertFirst(NewMappings);
    ImportedNamesAreNames();
    var _ := AddImportIfRequired(originalImports, imports, MAPPINGS_FQ_NAME);
    assert [MAPPINGS_FQ_NAME][1..] == [];
    mappingArray := new ListRewrite([]);
  }

  /**
   * The lists once `getListForAddingMappingAnnotations` has chosen: the
   * modifiers, the chosen list when it is not the modifiers, and the imports.
   */
  datatype Chosen = Chosen(modifiers: seq<Entry>, list: Option<seq<Entry>>, imports: seq<string>)

  function ChosenFor(placement: Placement, imports: seq<string>, m: MarkedMethod): Chosen
    requires !placement.Fails?
    requires placement.IntoNewMappings? && placement.moved.Some? ==> placement.moved.value in m.modifiers
  {
    match placement
    case IntoMappings(elements) => Chosen(Presents(m.modifiers), Some(Presents(elements)), imports)
    case IntoModifiers => Chosen(Presents(m.modifiers), None, imports)
    case IntoNewMappings(moved) =>
      var modifiers := [NewMappings] + Presents(m.modifiers);
      assert moved.Some? ==> modifiers[1 + IndexOf(m.modifiers, moved.value)] == Present(moved.value);
      Chosen(if moved.Some? then RemovedFirst(modifiers, Present(moved.value)) else modifiers,
             Some(if moved.Some? then [Present(moved.value)] else []),
             imports + Requested(imports, [MAPPINGS_FQ_NAME]))
  }

  /** The rewrite once the new annotations are at the front of the chosen list and `Mapping` is imported. */
  function Finish(c: Chosen, properties: seq<string>, imports: seq<string>): IgnoreRewrite
  {
    if c.list.None? then
      IgnoreRewrite(IgnoreMappings(properties) + c.modifiers, None, c.imports + Requested(imports, [MAPPING_FQ_NAME]))
    else
      IgnoreRewrite(c.modifiers, Some(IgnoreMappings(properties) + c.list.value), c.imports + Requested(imports, [MAPPING_FQ_NAME]))
  }

  lemma RewriteForIsFinish(placement: Placement, properties: seq<string>, imports: seq<string>, m: MarkedMethod)
    requires !placement.Fails?
    requires placement.IntoNewMappings? && placement.moved.Some? ==> placement.moved.value in m.modifiers
    ensures RewriteFor(placement, properties, imports, m) == Some(Finish(ChosenFor(placement, imports, m), properties, imports))
  {
    if placement.IntoNewMappings? {
      assert Requested(imports, [MAPPINGS_FQ_NAME, MAPPING_FQ_NAME])
          == Requested(imports, [MAPPINGS_FQ_NAME]) + Requested(imports, [MAPPING_FQ_NAME]) by {
        assert [MAPPINGS_FQ_NAME, MAPPING_FQ_NAME][1..] == [MAPPING_FQ_NAME];
        assert [MAPPINGS_FQ_NAME][1..] == [];
      }
      var q := Requested(imports, [MAPPINGS_FQ_NAME]);
      assert imports + q + Requested(imports, [MAPPING_FQ_NAME]) == imports + (q + Requested(imports, [MAPPING_FQ_NAME]));
    }
  }

  /**
   * `getListForAddingMappingAnnotations`: the list the new annotations are
   * inserted into, after the edits that choosing it takes; `ok` is false when
   * JDT throws.
   */
  method GetListForAddingMappingAnnotations(properties: seq<string>, lookup: MappingTypeLookup, originalImports: seq<string>,
                                            m: MarkedMethod, modifiers: ListRewrite<Entry>, imports: ListRewrite<string>)
    returns (ok: bool, mappingList: ListRewrite<Entry>)
    requires modifiers.entries == Presents(m.modifiers) && imports.entries == originalImports
    modifies modifiers, imports
    ensures ok <==> !PlacementOf(properties, lookup, m).Fails?
    ensures ok ==> mappingList == modifiers || fresh(mappingList)
    ensures ok ==> modifiers.entries == ChosenFor(PlacementOf(properties, lookup, m), originalImports, m).modifiers
    ensures ok ==> (mappingList == modifiers <==> ChosenFor(PlacementOf(properties, lookup, m), originalImports, m).list.None?)
    ensures ok && mappingList != modifiers ==>
              mappingList.entries == ChosenFor(PlacementOf(properties, lookup, m), originalImports, m).list.value
    ensures ok ==> imports.entries == ChosenFor(PlacementOf(properties, lookup, m), originalImports, m).imports
  {
    var mappingsAnnotation := FindAnnotation(m, MAPPINGS_FQ_NAME);
    if mappingsAnnotation.Some? {
      var elements := ArrayElements(mappingsAnnotation.value);
      if elements.None? {
        return false, modifiers;
      }
      assert PlacementOf(properties, lookup, m) == IntoMappings(elements.value);
      mappingList := new ListRewrite(Presents(elements.value));
      return true, mappingList;
    }
    var repeatable := SupportsRepeatableMapping(lookup);
    if repeatable {
      assert PlacementOf(properties, lookup, m) == IntoModifiers;
      return true, modifiers;
    }
    var singleMappingAnnotation := FindAnnotation(m, MAPPING_FQ_NAME);
    if singleMappingAnnotation.None? && |properties| == 1 {
      assert PlacementOf(properties, lookup, m) == IntoModifiers;
      return true, modifiers;
    }
    assert singleMappingAnnotation.None? ==> PlacementOf(properties, lookup, m) == IntoNewMappings(None);
    assert singleMappingAnnotation.Some? && singleMappingAnnotation.value in m.modifiers
           ==> PlacementOf(properties, lookup, m) == IntoNewMappings(singleMappingAnnotation);
    mappingList := AddNewMappingsAnnotation(originalImports, modifiers, imports);
    if singleMappingAnnotation.Some? {
      var single := singleMappingAnnotation.value;
      assert single in m.modifiers ==> modifiers.entries[1 + IndexOf(m.modifiers, single)] == Present(single);
      var removed := modifiers.Remove(Present(single));
      if !removed {
        return false, mappingList;
      }
      mappingList.InsertFirst(Present(single));
    }
    ok := true;
  }

  /** `getASTRewrite`; None when JDT throws. */
  method GetASTRewrite(properties: seq<string>, lookup: MappingTypeLookup, imports: seq<string>, m: MarkedMethod)
    returns (r: Option<IgnoreRewrite>)
    ensures r == IgnoreRewriteOf(properties, lookup, imports, m)
  {
    var modifiers := new ListRewrite(Presents(m.modifiers));
    var importRewrite := new ListRewrite(imports);
    var ok, mappingList := GetListForAddingMappingAnnotations(properties, lookup, imports, m, modifiers, importRewrite);
    if !ok {
      return None;
    }
    ghost var chosen := Chosen(modifiers.entries, if mappingList == modifiers then None else Some(mappingList.entries), importRewrite.entries);
    AddMappingAnnotations(properties, mappingList);
    ImportedNamesAreNames();
    var _ := AddImportIfRequired(imports, importRewrite, MAPPING_FQ_NAME);
    assert importRewrite.entries == chosen.imports + Requested(imports, [MAPPING_FQ_NAME]) by {
      assert [MAPPING_FQ_NAME][1..] == [];
    }
    var mappingsArray;
    if mappingList == modifiers {
      mappingsArray := None;
      assert modifiers.entries == IgnoreMappings(properties) + chosen.modifiers;
    } else {
      mappingsArray := Some(mappingList.entries);
      assert modifiers.entries == chosen.modifiers;
      assert mappingList.entries == IgnoreMappings(properties) + chosen.list.value;
    }
    r := Some(IgnoreRewrite(modifiers.entries, mappingsArray, importRewrite.entries));
    assert r == Some(Finish(chosen, properties, imports));
    RewriteForIsFinish(PlacementOf(properties, lookup, m), properties, imports, m);
  }

  /** All entries of a rewrite: the modifiers, then the `@Mappings` array written to, if any. */
  function AllEntries(r: IgnoreRewrite): seq<Entry>
  {
    r.modifiers + (if r.mappingsArray.Some? then r.mappingsArray.value else [])
  }

  lemma NoNewMappingIn(entries: seq<Entry>, from: seq<Entry>)
    requires forall k :: 0 <= k < |from| ==> !from[k].NewMapping?
    requires multiset(entries) <= multiset(from)
    ensures GeneratedTargets(entries) == []
  {
    forall k | 0 <= k < |entries| ensures !entries[k].NewMapping? {
      assert entries[k] in multiset(entries);
      assert entries[k] in multiset(from);
    }
    PresentsHaveNoTargets(entries);
  }

  /** `EachPropertyIgnoredOnce`, for any placement. */
  lemma RewriteTargets(placement: Placement, properties: seq<string>, imports: seq<string>, m: MarkedMethod)
    requires placement.IntoNewMappings? && placement.moved.Some? ==> placement.moved.value in m.modifiers
    requires RewriteFor(placement, properties, imports, m).Some?
    ensures GeneratedTargets(AllEntries(RewriteFor(placement, properties, imports, m).value)) == properties
  {
    var r := RewriteFor(placement, properties, imports, m).value;
    match placement {
      case IntoMappings(elements) =>
        assert AllEntries(r) == Presents(m.modifiers) + (IgnoreMappings(properties) + Presents(elements));
        TargetsBetweenPresents(Presents(m.modifiers), properties, Presents(elements));
      case IntoModifiers =>
        assert AllEntries(r) == [] + (IgnoreMappings(properties) + Presents(m.modifiers));
        TargetsBetweenPresents([], properties, Presents(m.modifiers));
      case IntoNewMappings(moved) =>
        NewMappingsTargets(moved, properties, imports, m);
    }
  }

  lemma NewMappingsTargets(moved: Option<Node>, properties: seq<string>, imports: seq<string>, m: MarkedMethod)
    requires moved.Some? ==> moved.value in m.modifiers
    ensures GeneratedTargets(AllEntries(RewriteFor(IntoNewMappings(moved), properties, imports, m).value)) == properties
  {
    var r := RewriteFor(IntoNewMappings(moved), properties, imports, m).value;
    var mods := [NewMappings] + Presents(m.modifiers);
    var rest := if moved.Some? then [Present(moved.value)] else [];
    assert r.mappingsArray == Some(IgnoreMappings(properties) + rest);
    if moved.Some? {
      var x := Present(moved.value);
      assert mods[1 + IndexOf(m.modifiers, moved.value)] == x;
      assert r.modifiers == RemovedFirst(mods, x);
      assert multiset(r.modifiers) + multiset{x} == multiset(mods);
    } else {
      assert r.modifiers == mods;
    }
    TargetsAroundIgnoreMappings(r.modifiers, m, properties, moved);
  }

  /** Ignore-`@Mapping`s between entries that are not generated ones are the only targets. */
  lemma TargetsBetweenPresents(before: seq<Entry>, properties: seq<string>, after: seq<Entry>)
    requires forall k :: 0 <= k < |before| ==> !before[k].NewMapping?
    requires forall k :: 0 <= k < |after| ==> !after[k].NewMapping?
    ensures GeneratedTargets(before + (IgnoreMappings(properties) + after)) == properties
  {
    IgnoreMappingsTargets(properties);
    PresentsHaveNoTargets(before);
    PresentsHaveNoTargets(after);
    GeneratedTargetsAppend(IgnoreMappings(properties), after);
    GeneratedTargetsAppend(before, IgnoreMappings(properties) + after);
  }

  /**
   * Ignore-`@Mapping`s after modifiers drawn from a new `@Mappings` and the
   * method's own, and before the moved annotation, are the only targets.
   */
  lemma TargetsAroundIgnoreMappings(modifiers: seq<Entry>, m: MarkedMethod, properties: seq<string>, moved: Option<Node>)
    requires multiset(modifiers) <= multiset([NewMappings] + Presents(m.modifiers))
    ensures GeneratedTargets(modifiers + (IgnoreMappings(properties) + (if moved.Some? then [Present(moved.value)] else [])))
            == properties
  {
    var from := [NewMappings] + Presents(m.modifiers);
    var rest := if moved.Some? then [Present(moved.value)] else [];
    IgnoreMappingsTargets(properties);
    NoNewMappingIn(modifiers, from);
    PresentsHaveNoTargets(rest);
    GeneratedTargetsAppend(IgnoreMappings(properties), rest);
    GeneratedTargetsAppend(modifiers, IgnoreMappings(properties) + rest);
  }

  /**
   * Whatever the placement, the rewrite holds exactly one ignore-`@Mapping`
   * per property, in property order, and no other generated one.
   */
  lemma EachPropertyIgnoredOnce(properties: seq<string>, lookup: MappingTypeLookup, imports: seq<string>, m: MarkedMethod)
    requires IgnoreRewriteOf(properties, lookup, imports, m).Some?
    ensures GeneratedTargets(AllEntries(IgnoreRewriteOf(properties, lookup, imports, m).value)) == properties
  {
    RewriteTargets(PlacementOf(properties, lookup, m), properties, imports, m);
  }

  /** The entries of a rewrite into a new `@Mappings`, with `moved` taken off the modifiers. */
  lemma NewMappingsEntries(moved: Option<Node>, properties: seq<string>, imports: seq<string>, m: MarkedMethod)
    requires moved.Some? ==> moved.value in m.modifiers
    ensures var r := RewriteFor(IntoNewMappings(moved), properties, imports, m).value;
            && r.modifiers[0] == NewMappings
            && r.mappingsArray.Some?
            && (moved.None? ==> r.mappingsArray.value == IgnoreMappings(properties))
            && (moved.Some? ==>
                  |r.mappingsArray.value| == |properties| + 1 && r.mappingsArray.value[|properties|] == Present(moved.value)
                  && multiset(r.modifiers) + multiset{Present(moved.value)} == multiset{NewMappings} + multiset(Presents(m.modifiers)))
  {
    var r := RewriteFor(IntoNewMappings(moved), properties, imports, m).value;
    var mods := [NewMappings] + Presents(m.modifiers);
    if moved.Some? {
      var x := Present(moved.value);
      var j := IndexOf(m.modifiers, moved.value);
      assert mods[1 + j] == x;
      RemovedFirstKeepsHead(mods, x);
      assert r.modifiers == RemovedFirst(mods, x);
      assert r.mappingsArray.value == IgnoreMappings(properties) + [x];
    } else {
      assert r.modifiers == mods;
    }
  }

  /** `ExistingEntriesKept`, for any placement. */
  lemma RewriteEntries(placement: Placement, properties: seq<string>, imports: seq<string>, m: MarkedMethod)
    requires placement.IntoNewMappings? && placement.moved.Some? ==> placement.moved.value in m.modifiers
    requires RewriteFor(placement, properties, imports, m).Some?
    ensures placement.IntoMappings? ==>
              multiset(AllEntries(RewriteFor(placement, properties, imports, m).value))
              == multiset(IgnoreMappings(properties)) + multiset(Presents(m.modifiers)) + multiset(Presents(placement.elements))
    ensures placement.IntoModifiers? ==>
              multiset(AllEntries(RewriteFor(placement, properties, imports, m).value))
              == multiset(IgnoreMappings(properties)) + multiset(Presents(m.modifiers))
    ensures placement.IntoNewMappings? ==>
              multiset(AllEntries(RewriteFor(placement, properties, imports, m).value))
              == multiset(IgnoreMappings(properties)) + multiset(Presents(m.modifiers)) + multiset{NewMappings}
  {
    match placement {
      case IntoMappings(elements) =>
        var r := RewriteFor(placement, properties, imports, m).value;
        assert AllEntries(r) == Presents(m.modifiers) + (IgnoreMappings(properties) + Presents(elements));
      case IntoModifiers =>
        var r := RewriteFor(placement, properties, imports, m).value;
        assert AllEntries(r) == r.modifiers;
      case IntoNewMappings(moved) =>
        NewMappingsAllEntries(moved, properties, imports, m);
    }
  }

  lemma NewMappingsAllEntries(moved: Option<Node>, properties: seq<string>, imports: seq<string>, m: MarkedMethod)
    requires moved.Some? ==> moved.value in m.modifiers
    ensures multiset(AllEntries(RewriteFor(IntoNewMappings(moved), properties, imports, m).value))
            == multiset(IgnoreMappings(properties)) + multiset(Presents(m.modifiers)) + multiset{NewMappings}
  {
    var r := RewriteFor(IntoNewMappings(moved), properties, imports, m).value;
    NewMappingsEntries(moved, properties, imports, m);
    assert AllEntries(r) == r.modifiers + r.mappingsArray.value;
    if moved.Some? {
      assert r.mappingsArray.value == IgnoreMappings(properties) + [Present(moved.value)];
      Regroup(r.modifiers, IgnoreMappings(properties), Presents(m.modifiers), Present(moved.value));
    } else {
      assert r.modifiers == [NewMappings] + Presents(m.modifiers);
      assert r.mappingsArray.value == IgnoreMappings(properties);
    }
  }

  lemma Regroup(modifiers: seq<Entry>, added: seq<Entry>, presents: seq<Entry>, moved: Entry)
    requires multiset(modifiers) + multiset{moved} == multiset{NewMappings} + multiset(presents)
    ensures multiset(modifiers + (added + [moved])) == multiset(added) + multiset(presents) + multiset{NewMappings}
  {
    calc {
      multiset(modifiers + (added + [moved]));
      multiset(modifiers) + multiset(added) + multiset{moved};
      multiset(added) + (multiset(modifiers) + multiset{moved});
      multiset(added) + multiset(presents) + multiset{NewMappings};
    }
  }

  /**
   * Nothing already in the method is lost or duplicated: the entries of the
   * rewrite are the new `@Mapping`s, the method's modifiers, the elements of
   * an existing `@Mappings` array and a new `@Mappings`, each as often as
   * before (a moved single `@Mapping` changes list, not number).
   */
  lemma ExistingEntriesKept(properties: seq<string>, lookup: MappingTypeLookup, imports: seq<string>, m: MarkedMethod)
    requires IgnoreRewriteOf(properties, lookup, imports, m).Some?
    ensures PlacementOf(properties, lookup, m).IntoMappings? ==>
              multiset(AllEntries(IgnoreRewriteOf(properties, lookup, imports, m).value))
              == multiset(IgnoreMappings(properties)) + multiset(Presents(m.modifiers))
                 + multiset(Presents(PlacementOf(properties, lookup, m).elements))
    ensures PlacementOf(properties, lookup, m).IntoModifiers? ==>
              multiset(AllEntries(IgnoreRewriteOf(properties, lookup, imports, m).value))
              == multiset(IgnoreMappings(properties)) + multiset(Presents(m.modifiers))
    ensures PlacementOf(properties, lookup, m).IntoNewMappings? ==>
              multiset(AllEntries(IgnoreRewriteOf(properties, lookup, imports, m).value))
              == multiset(IgnoreMappings(properties)) + multiset(Presents(m.modifiers)) + multiset{NewMappings}
  {
    RewriteEntries(PlacementOf(properties, lookup, m), properties, imports, m);
  }

  /**
   * When a new `@Mappings` is created, it goes first among the modifiers, and
   * a single `@Mapping` found on the method leaves the modifiers for the end
   * of the new array.
   */
  lemma SingleMappingMoved(properties: seq<string>, lookup: MappingTypeLookup, imports: seq<string>, m: MarkedMethod)
    requires PlacementOf(properties, lookup, m).IntoNewMappings?
    ensures IgnoreRewriteOf(properties, lookup, imports, m).Some?
    ensures var r := IgnoreRewriteOf(properties, lookup, imports, m).value;
            var moved := PlacementOf(properties, lookup, m).moved;
            && r.modifiers[0] == NewMappings
            && r.mappingsArray.Some?
            && (moved.None? ==> r.mappingsArray.value == IgnoreMappings(properties))
            && (moved.Some? ==>
                  |r.mappingsArray.value| == |properties| + 1 && r.mappingsArray.value[|properties|] == Present(moved.value)
                  && multiset(r.modifiers) + multiset{Present(moved.value)} == multiset{NewMappings} + multiset(Presents(m.modifiers)))
  {
    NewMappingsEntries(PlacementOf(properties, lookup, m).moved, properties, imports, m);
  }

  /**
   * The new `@Mapping`s open the list they are added to, in property order,
   * and the list's previous contents follow unchanged.
   */
  lemma NewMappingsLeadTheirList(properties: seq<string>, lookup: MappingTypeLookup, imports: seq<string>, m: MarkedMethod)
    requires IgnoreRewriteOf(properties, lookup, imports, m).Some?
    ensures var r := IgnoreRewriteOf(properties, lookup, imports, m).value;
            var list := if r.mappingsArray.Some? then r.mappingsArray.value else r.modifiers;
            && (r.mappingsArray.None? <==> PlacementOf(properties, lookup, m).IntoModifiers?)
            && |properties| <= |list| && GeneratedTargets(list[..|properties|]) == properties
            && (PlacementOf(properties, lookup, m).IntoModifiers? ==> list[|properties|..] == Presents(m.modifiers))
            && (PlacementOf(properties, lookup, m).IntoMappings? ==>
                  list[|properties|..] == Presents(PlacementOf(properties, lookup, m).elements))
  {
    var r := IgnoreRewriteOf(properties, lookup, imports, m).value;
    var list := if r.mappingsArray.Some? then r.mappingsArray.value else r.modifiers;
    assert list[..|properties|] == IgnoreMappings(properties);
    IgnoreMappingsTargets(properties);
  }

  /**
   * Afterwards the unit imports `Mapping`, and `Mappings` when a new one was
   * created; the original imports come first and are not repeated.
   */
  lemma ImportsCoverNewAnnotations(properties: seq<string>, lookup: MappingTypeLookup, imports: seq<string>, m: MarkedMethod)
    requires IgnoreRewriteOf(properties, lookup, imports, m).Some?
    ensures var r := IgnoreRewriteOf(properties, lookup, imports, m).value;
            && MAPPING_FQ_NAME in r.imports
            && (PlacementOf(properties, lookup, m).IntoNewMappings? ==> MAPPINGS_FQ_NAME in r.imports)
            && |imports| <= |r.imports| && r.imports[..|imports|] == imports
            && forall k :: |imports| <= k < |r.imports| ==> r.imports[k] !in imports
  {
    var r := IgnoreRewriteOf(properties, lookup, imports, m).value;
    var names := if PlacementOf(properties, lookup, m).IntoNewMappings? then [MAPPINGS_FQ_NAME, MAPPING_FQ_NAME] else [MAPPING_FQ_NAME];
    assert r.imports == imports + Requested(imports, names);
    var q := Requested(imports, names);
    assert forall k :: |imports| <= k < |r.imports| ==> r.imports[k] == q[k - |imports|];
    if MAPPING_FQ_NAME !in imports {
      assert MAPPING_FQ_NAME in names;
      assert MAPPING_FQ_NAME in q;
    }
    if MAPPINGS_FQ_NAME !in imports && PlacementOf(properties, lookup, m).IntoNewMappings? {
      assert MAPPINGS_FQ_NAME in names;
      assert MAPPINGS_FQ_NAME in q;
    }
  }
}
