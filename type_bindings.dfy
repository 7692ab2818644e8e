/**
 * An abstract stand-in for the JDT binding model: a finite table of types,
 * indexed by `TypeId`, holding for each type what the plug-in reads from an
 * `ITypeBinding` (qualified name, whether it is an enum, declared methods and
 * fields, super interfaces, superclass) together with the method list that
 * `util.Bindings.findAllMethods` returns for it, which is not part of this model.
 */
module TypeBindings {
  import opened JavaLang

  type TypeId = nat

  /** An `IMethodBinding`: its name, return type and parameter types. */
  datatype MethodBinding = MethodBinding(name: string, returnType: TypeId, parameterTypes: seq<TypeId>)

  /** An `IVariableBinding` of a declared field. */
  datatype FieldBinding = FieldBinding(name: string, fieldType: TypeId)

  /** The `IVariableBinding` of a parameter: its type and the annotations on it. */
  datatype VariableBinding = VariableBinding(variableType: TypeId, annotations: seq<AnnotationBinding>)

  /** An `ITypeBinding`. */
  datatype TypeBinding = TypeBinding(
    qualifiedName: string,
    isEnum: bool,
    declaredMethods: seq<MethodBinding>,
    declaredFields: seq<FieldBinding>,
    interfaces: seq<TypeId>,
    superclass: Option<TypeId>,
    allMethods: seq<MethodBinding>)

  type TypeTable = map<TypeId, TypeBinding>

  predicate MethodWellFormed(T: TypeTable, m: MethodBinding)
  {
    m.returnType in T && forall i :: 0 <= i < |m.parameterTypes| ==> m.parameterTypes[i] in T
  }

  /** Every type the binding `b` refers to is in the table. */
  predicate BindingWellFormed(T: TypeTable, b: TypeBinding)
  {
    && (forall i :: 0 <= i < |b.interfaces| ==> b.interfaces[i] in T)
    && (b.superclass.Some? ==> b.superclass.value in T)
    && (forall i :: 0 <= i < |b.declaredMethods| ==> MethodWellFormed(T, b.declaredMethods[i]))
    && (forall i :: 0 <= i < |b.allMethods| ==> MethodWellFormed(T, b.allMethods[i]))
    && (forall i :: 0 <= i < |b.declaredFields| ==> b.declaredFields[i].fieldType in T)
  }

  /** Every type a binding refers to is itself in the table, as JDT guarantees for resolved bindings. */
  predicate WellFormed(T: TypeTable)
  {
    forall t :: t in T ==> BindingWellFormed(T, T[t])
  }

  /** An `IAnnotationBinding`, seen through the qualified name of its annotation type. */
  datatype AnnotationBinding = AnnotationBinding(annotationTypeName: string)

  /** The method binding of an annotation member: its declaring class's qualified name, or null. */
  datatype AnnotationMemberBinding = AnnotationMemberBinding(declaringClass: Option<string>)

  /** An `IMemberValuePairBinding`: its method binding, or null. */
  datatype MemberValuePairBinding = MemberValuePairBinding(methodBinding: Option<AnnotationMemberBinding>)
}

/**
 * The part of a JDT syntax tree that the plug-in's visitors look at. A visitor
 * is driven over these nodes in document order by `ASTNode.accept`: `visit`,
 * then the children if `visit` returned true, then `endVisit`.
 */
module Ast {
  import opened JavaLang
  import opened TypeBindings

  datatype AnnotationKind = NormalAnnotation | SingleMemberAnnotation | MarkerAnnotation

  /** The type name of an annotation: qualified or simple, and the binary name its binding resolves to (null if unresolved). */
  datatype TypeName = TypeName(fullyQualifiedName: string, isQualified: bool, resolvedBinaryName: Option<string>)

  /**
   * The nodes of the tree. Each `Option` binding is what `resolveBinding()` or
   * `resolveMemberValuePairBinding()` returns: `None` where JDT cannot resolve
   * it (a missing or misspelt type while the user is typing) and returns null.
   */
  datatype Node =
    /** A method declaration, its source range and its `IMethodBinding`. */
    | MethodDeclaration(start: int, length: int, methodBinding: Option<MethodBinding>, children: seq<Node>)
    /** A parameter (or other single variable), its name and its `IVariableBinding`. */
    | SingleVariableDeclaration(name: string, variableBinding: Option<VariableBinding>, children: seq<Node>)
    /** `name = value` inside an annotation, its `IMemberValuePairBinding` and the source range of the value. */
    | MemberValuePair(pairBinding: Option<MemberValuePairBinding>, name: string, valueStart: int, valueLength: int, children: seq<Node>)
    | Annotation(kind: AnnotationKind, typeName: TypeName, children: seq<Node>)
    /** An array initializer `{ ... }`, the value of an array-valued annotation member. */
    | ArrayInitializer(children: seq<Node>)
    /** Every other kind of node (compilation unit, type declaration, block, ...). */
    | Other(children: seq<Node>)

  /** Every type a node of the tree refers to is in the table. */
  ghost predicate NodeTypesIn(T: TypeTable, n: Node)
  {
    match n
    case MethodDeclaration(_, _, methodBinding, children) =>
      (methodBinding.Some? ==> MethodWellFormed(T, methodBinding.value))
      && forall c :: c in children ==> NodeTypesIn(T, c)
    case SingleVariableDeclaration(_, variableBinding, children) =>
      (variableBinding.Some? ==> variableBinding.value.variableType in T)
      && forall c :: c in children ==> NodeTypesIn(T, c)
    case MemberValuePair(_, _, _, _, children) => forall c :: c in children ==> NodeTypesIn(T, c)
    case Annotation(_, _, children) => forall c :: c in children ==> NodeTypesIn(T, c)
    case ArrayInitializer(children) => forall c :: c in children ==> NodeTypesIn(T, c)
    case Other(children) => forall c :: c in children ==> NodeTypesIn(T, c)
  }
}
