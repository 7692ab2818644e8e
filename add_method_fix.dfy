/**
 * quickfix/fixes/AddMethodQuickFix.java: a fix that declares a mapping method
 * `R toR( S s )` right after the marked method, with the marked method's
 * modifiers, and requests imports for both types.
 */
module AddMethodFix {
  import opened JavaLang
  import opened ListRewrites
  import opened MapStructQuickFix

  /**
   * The name helpers the fix calls, whose code is not part of this model:
   * `toSimpleName`, `capitalize`, `uncapitalize` and `isPrimitive`.
   */
  datatype NameHelpers = NameHelpers(
    toSimpleName: string -> string,
    capitalize: string -> string,
    uncapitalize: string -> string,
    isPrimitive: string -> bool)

  /** The fields of an `AddMethodQuickFix`. */
  datatype AddMethodQuickFix = AddMethodQuickFix(
    resultType: string,
    sourceType: string,
    resultTypeSimpleName: string,
    sourceTypeSimpleName: string)

  /** The constructor: both simple names come from `toSimpleName`. */
  function NewAddMethodQuickFix(h: NameHelpers, resultType: string, sourceType: string): (fix: AddMethodQuickFix)
    ensures fix.resultType == resultType && fix.sourceType == sourceType
    ensures fix.resultTypeSimpleName == h.toSimpleName(resultType)
    ensures fix.sourceTypeSimpleName == h.toSimpleName(sourceType)
  {
    AddMethodQuickFix(resultType, sourceType, h.toSimpleName(resultType), h.toSimpleName(sourceType))
  }

  /** A type node of the new method: a primitive type by its keyword, or a simple named type. */
  datatype TypeNode = PrimitiveType(code: string) | SimpleType(name: string)

  /** The source text of a type node. */
  function TypeText(t: TypeNode): string
  {
    match t
    case PrimitiveType(code) => code
    case SimpleType(name) => name
  }

  /**
   * `createType`: a primitive type node exactly for the primitive names, naming
   * `typeName` either way. None where JDT throws `IllegalArgumentException`:
   * a primitive name `PrimitiveType.toCode` does not know, or another name that
   * is no identifier, which `ast.newSimpleName` refuses.
   */
  function CreateType(h: NameHelpers, typeName: string): (r: Option<TypeNode>)
    ensures r.None? <==> if h.isPrimitive(typeName) then typeName !in PRIMITIVE_TYPE_CODES else !IsIdentifier(typeName)
    ensures r.Some? ==> (r.value.PrimitiveType? <==> h.isPrimitive(typeName))
    ensures r.Some? ==> TypeText(r.value) == typeName
  {
    if h.isPrimitive(typeName) then
      if typeName in PRIMITIVE_TYPE_CODES then Some(PrimitiveType(typeName)) else None
    else if IsIdentifier(typeName) then Some(SimpleType(typeName))
    else None
  }

  datatype Parameter = Parameter(parameterType: TypeNode, name: string)

  /** A member of a type's body: one already in the unit, or the method this fix generates. */
  datatype BodyDeclaration =
    | Declared(id: nat)
    | GeneratedMethod(modifiers: int, name: string, returnType: TypeNode, parameters: seq<Parameter>)

  /** `getMethodDeclarationString`. */
  function MethodDeclarationString(fix: AddMethodQuickFix, h: NameHelpers): string
  {
    fix.resultTypeSimpleName + " to" + h.capitalize(fix.resultTypeSimpleName) + "( "
      + fix.sourceTypeSimpleName + " " + h.uncapitalize(fix.sourceTypeSimpleName) + " )"
  }

  const LABEL_PREFIX: string := "Add method: "

  function GetLabel(fix: AddMethodQuickFix, h: NameHelpers): (r: string)
    ensures StartsWith(r, LABEL_PREFIX)
  {
    LABEL_PREFIX + MethodDeclarationString(fix, h)
  }

  function GetDescription(fix: AddMethodQuickFix, h: NameHelpers): (r: string)
    ensures StartsWith(r, "<html><b>")
  {
    "<html><b>" + MethodDeclarationString(fix, h) + "</b></html>"
  }

  /** Label and description show the same declaration, once as plain text and once in bold HTML. */
  lemma LabelAndDescriptionAgree(fix: AddMethodQuickFix, h: NameHelpers)
    ensures GetDescription(fix, h) == "<html><b>" + GetLabel(fix, h)[|LABEL_PREFIX|..] + "</b></html>"
  {
    assert GetLabel(fix, h)[|LABEL_PREFIX|..] == MethodDeclarationString(fix, h);
  }

  /**
   * Whether JDT builds every node of the new method: its name and its
   * parameter's name are identifiers, and both types can be created.
   */
  predicate NewMethodBuilds(fix: AddMethodQuickFix, h: NameHelpers)
  {
    && IsIdentifier("to" + h.capitalize(fix.resultTypeSimpleName))
    && CreateType(h, fix.resultTypeSimpleName).Some?
    && CreateType(h, fix.sourceTypeSimpleName).Some?
    && IsIdentifier(h.uncapitalize(fix.sourceTypeSimpleName))
  }

  /**
   * The method `getASTRewrite` declares for a marked method with modifier
   * flags `modifiers`; None where one of its nodes makes JDT throw.
   */
  method NewMethod(fix: AddMethodQuickFix, h: NameHelpers, modifiers: int) returns (r: Option<BodyDeclaration>)
    ensures r.None? <==> !NewMethodBuilds(fix, h)
    ensures r.Some? ==> r.value.GeneratedMethod? && r.value.modifiers == modifiers
    ensures r.Some? ==> r.value.name == "to" + h.capitalize(fix.resultTypeSimpleName)
    ensures r.Some? ==> Some(r.value.returnType) == CreateType(h, fix.resultTypeSimpleName)
    ensures r.Some? ==> |r.value.parameters| == 1
    ensures r.Some? ==> Some(r.value.parameters[0].parameterType) == CreateType(h, fix.sourceTypeSimpleName)
    ensures r.Some? ==> r.value.parameters[0].name == h.uncapitalize(fix.sourceTypeSimpleName)
    // the declaration shown in label and description is the source text of this method
    ensures r.Some? ==>
              (MethodDeclarationString(fix, h)
               == TypeText(r.value.returnType) + " " + r.value.name + "( "
                  + TypeText(r.value.parameters[0].parameterType) + " " + r.value.parameters[0].name + " )")
  {
    var name := "to" + h.capitalize(fix.resultTypeSimpleName);
    if !IsIdentifier(name) {
      return None;
    }
    var returnType := CreateType(h, fix.resultTypeSimpleName);
    if returnType.None? {
      return None;
    }
    var parameterType := CreateType(h, fix.sourceTypeSimpleName);
    if parameterType.None? {
      return None;
    }
    var parameterName := h.uncapitalize(fix.sourceTypeSimpleName);
    if !IsIdentifier(parameterName) {
      return None;
    }
    var parameters: seq<Parameter> := [];
    parameters := parameters + [Parameter(parameterType.value, parameterName)];
    r := Some(GeneratedMethod(modifiers, name, returnType.value, parameters));
  }

  /** What the rewrite of this fix changes: the enclosing type's body declarations and the unit's imports. */
  datatype MethodRewrite = MethodRewrite(bodyDeclarations: seq<BodyDeclaration>, imports: seq<string>)

  /**
   * Whether `getASTRewrite` returns: the new method builds and each import it
   * requests is a name `ast.newName` accepts. Otherwise JDT's
   * `IllegalArgumentException` escapes, since `run` catches only
   * `CoreException`.
   */
  predicate RewriteBuilds(fix: AddMethodQuickFix, h: NameHelpers, imports: seq<string>)
  {
    && NewMethodBuilds(fix, h)
    && forall n :: n in Requested(imports, [fix.resultType, fix.sourceType]) ==> IsName(n)
  }

  /**
   * `getASTRewrite` for the marked method `marked`, which has modifier flags
   * `modifiers` and is one of `bodyDeclarations`, those of its type; None
   * where JDT throws.
   */
  method GetASTRewrite(fix: AddMethodQuickFix, h: NameHelpers, imports: seq<string>,
                       bodyDeclarations: seq<BodyDeclaration>, marked: BodyDeclaration, modifiers: int)
    returns (r: Option<MethodRewrite>)
    requires marked in bodyDeclarations
    ensures r.None? <==> !RewriteBuilds(fix, h, imports)
    ensures r.Some? ==> |r.value.bodyDeclarations| == |bodyDeclarations| + 1
    ensures r.Some? ==>
              r.value.bodyDeclarations[..IndexOf(bodyDeclarations, marked) + 1]
              == bodyDeclarations[..IndexOf(bodyDeclarations, marked) + 1]
    ensures r.Some? ==>
              r.value.bodyDeclarations[IndexOf(bodyDeclarations, marked) + 2..]
              == bodyDeclarations[IndexOf(bodyDeclarations, marked) + 1..]
    ensures r.Some? ==>
              var m := r.value.bodyDeclarations[IndexOf(bodyDeclarations, marked) + 1];
              && m.GeneratedMethod? && m.modifiers == modifiers && m.name == "to" + h.capitalize(fix.resultTypeSimpleName)
              && Some(m.returnType) == CreateType(h, fix.resultTypeSimpleName) && |m.parameters| == 1
              && Some(m.parameters[0].parameterType) == CreateType(h, fix.sourceTypeSimpleName)
              && m.parameters[0].name == h.uncapitalize(fix.sourceTypeSimpleName)
    ensures r.Some? ==> r.value.imports == imports + Requested(imports, [fix.resultType, fix.sourceType])
  {
    var newMethod := NewMethod(fix, h, modifiers);
    if newMethod.None? {
      return None;
    }
    var listRewrite := new ListRewrite(bodyDeclarations);
    var _ := listRewrite.InsertAfter(newMethod.value, marked);
    var ok, newImports := AddImports(imports, fix.resultType, fix.sourceType);
    if !ok {
      return None;
    }
    r := Some(MethodRewrite(listRewrite.entries, newImports));
  }

  /** The two `addImportIfRequired` calls of `getASTRewrite`, on a fresh import rewrite. */
  method AddImports(imports: seq<string>, resultType: string, sourceType: string) returns (ok: bool, newImports: seq<string>)
    ensures ok <==> forall n :: n in Requested(imports, [resultType, sourceType]) ==> IsName(n)
    ensures ok ==> newImports == imports + Requested(imports, [resultType, sourceType])
  {
    var importRewrite := new ListRewrite(imports);
    assert [resultType, sourceType][1..] == [sourceType];
    assert Requested(imports, [sourceType]) == (if sourceType in imports then [] else [sourceType]) by {
      assert [sourceType][1..] == [];
    }
    ok := AddImportIfRequired(imports, importRewrite, resultType);
    if !ok {
      assert resultType in Requested(imports, [resultType, sourceType]);
      return false, [];
    }
    ok := AddImportIfRequired(imports, importRewrite, sourceType);
    if !ok {
      assert sourceType in Requested(imports, [resultType, sourceType]);
      return false, [];
    }
    newImports := importRewrite.entries;
  }

  /**
   * A primitive result type the unit does not import makes the fix throw:
   * `addImportIfRequired` hands the keyword to `ast.newName`.
   */
  lemma PrimitiveResultTypeThrows(fix: AddMethodQuickFix, h: NameHelpers, imports: seq<string>)
    requires fix.resultType in PRIMITIVE_TYPE_CODES && fix.resultType !in imports
    ensures !RewriteBuilds(fix, h, imports)
  {
    PrimitiveTypeCodeNotName(fix.resultType);
    assert fix.resultType in Requested(imports, [fix.resultType, fix.sourceType]);
  }

  /**
   * A source type whose simple name `uncapitalize` leaves a keyword (a
   * primitive type, say) makes the fix throw: the parameter is named by it.
   */
  lemma ReservedParameterNameThrows(fix: AddMethodQuickFix, h: NameHelpers, imports: seq<string>)
    requires IsReservedWord(h.uncapitalize(fix.sourceTypeSimpleName))
    ensures !RewriteBuilds(fix, h, imports)
  {
  }
}
