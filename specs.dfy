/**
 * The value types of the code model. They refer to one another (a type name carries
 * annotations, an annotation carries code blocks, a code block carries type names and
 * specs as arguments), so they are declared together here; the operations on each live in
 * the module named after it.
 */
module Specs {
  import opened Wrappers
  import opened Jdk

  /**
   * A class name: the package ("" for the default package) followed by the simple names from
   * the outermost class inwards, like ["java.util", "Map", "Entry"].
   */
  datatype ClassName = ClassName(names: seq<string>, annotations: seq<AnnotationSpec>)

  /** A generic type applied to arguments, possibly nested in another parameterized type. */
  datatype ParameterizedTypeName = ParameterizedTypeName(
    enclosingType: Option<ParameterizedTypeName>,
    rawType: ClassName,
    typeArguments: seq<TypeName>,
    annotations: seq<AnnotationSpec>)

  /** A type variable with its declared bounds. */
  datatype TypeVariableName = TypeVariableName(
    name: string, bounds: seq<TypeName>, annotations: seq<AnnotationSpec>)

  /**
   * Every kind of type name. `Primitive` is the base class carrying a keyword (`void` and the
   * eight primitives); `constant` tells the shared companion instances (`TypeName.INT`, ...)
   * apart from equal-looking copies, because `box` and `isPrimitive` test identity.
   */
  datatype TypeName =
    | Primitive(keyword: string, annotations: seq<AnnotationSpec>, constant: bool)
    | Class(cls: ClassName)
    | Parameterized(ptn: ParameterizedTypeName)
    | Array(componentType: TypeName, annotations: seq<AnnotationSpec>)
    | Variable(tv: TypeVariableName)
    | Wildcard(upperBounds: seq<TypeName>, lowerBounds: seq<TypeName>, annotations: seq<AnnotationSpec>)

  /** An annotation: its type and its members, each a name with one or more values. */
  datatype AnnotationSpec = AnnotationSpec(annotationType: TypeName, members: seq<Member>)

  datatype Member = Member(name: string, values: seq<CodeBlock>)

  /**
   * A code block: literal chunks and two-character `$` tokens, and the arguments consumed by
   * the `$L`, `$N`, `$S` and `$T` tokens, in order.
   */
  datatype CodeBlock = CodeBlock(formatParts: seq<string>, args: seq<Arg>)

  /**
   * An argument to a format: the objects a caller may pass. `Other` is any object that is
   * none of the others (a number, a boolean), known by its `toString()`. `Rendered(a)` is the
   * `toString()` of `a`, which `$S` stores for arguments that are not character sequences.
   */
  datatype Arg =
    | Null
    | Chars(s: string)
    | Other(text: string)
    | TypeArg(t: TypeName)
    | Block(block: CodeBlock)
    | AnnotationArg(annotationSpec: AnnotationSpec)
    | TypeSpecArg(typeSpec: TypeSpec)
    | ParamArg(parameterSpec: ParameterSpec)
    | FieldArg(fieldSpec: FieldSpec)
    | MethodArg(methodSpec: MethodSpec)
    | Rendered(of: Arg)

  datatype ParameterSpec = ParameterSpec(
    name: string, annotations: seq<AnnotationSpec>, modifiers: set<Modifier>, paramType: TypeName)

  /** A field, known only by its name, its modifiers and the text it renders to. */
  datatype FieldSpec = FieldSpec(name: string, modifiers: set<Modifier>, text: string)

  datatype MethodSpec = MethodSpec(
    name: string,
    javadoc: CodeBlock,
    annotations: seq<AnnotationSpec>,
    modifiers: set<Modifier>,
    typeVariables: seq<TypeVariableName>,
    returnType: Option<TypeName>,
    parameters: seq<ParameterSpec>,
    varargs: bool,
    exceptions: seq<TypeName>,
    code: CodeBlock,
    defaultValue: Option<CodeBlock>)

  /** The kinds of type declaration, with the modifiers each implies for its members. */
  datatype Kind = CLASS | INTERFACE | ENUM | ANNOTATION
  {
    function ImplicitFieldModifiers(): set<Modifier>
    {
      if this == INTERFACE || this == ANNOTATION then {PUBLIC, STATIC, FINAL} else {}
    }

    function ImplicitMethodModifiers(): set<Modifier>
    {
      if this == INTERFACE || this == ANNOTATION then {PUBLIC, ABSTRACT} else {}
    }

    function ImplicitTypeModifiers(): set<Modifier>
    {
      if this == INTERFACE || this == ANNOTATION then {PUBLIC, STATIC} else {}
    }

    function AsMemberModifiers(): set<Modifier>
    {
      if this == CLASS then {} else {STATIC}
    }

    /** The word that opens a declaration of this kind. */
    function Keyword(): string
    {
      match this
      case CLASS => "class"
      case INTERFACE => "interface"
      case ENUM => "enum"
      case ANNOTATION => "@interface"
    }
  }

  datatype EnumConstant = EnumConstant(name: string, body: TypeSpec)

  datatype TypeSpec = TypeSpec(
    kind: Kind,
    name: Option<string>,
    anonymousTypeArguments: Option<CodeBlock>,
    javadoc: CodeBlock,
    annotations: seq<AnnotationSpec>,
    modifiers: set<Modifier>,
    typeVariables: seq<TypeVariableName>,
    superclass: TypeName,
    superinterfaces: seq<TypeName>,
    enumConstants: seq<EnumConstant>,
    fieldSpecs: seq<FieldSpec>,
    staticBlock: CodeBlock,
    initializerBlock: CodeBlock,
    methodSpecs: seq<MethodSpec>,
    typeSpecs: seq<TypeSpec>)

  /** The constructor name a method spec carries. */
  const Constructor: string := "<init>"

  /** `ClassName.OBJECT`. */
  const Object: ClassName := ClassName(["java.lang", "Object"], [])

  /** The annotations every kind of type name carries. */
  function Annotations(t: TypeName): seq<AnnotationSpec>
  {
    match t
    case Class(c) => c.annotations
    case Parameterized(p) => p.annotations
    case Variable(v) => v.annotations
    case Primitive(_, annotations, _) => annotations
    case Array(_, annotations) => annotations
    case Wildcard(_, _, annotations) => annotations
  }

  /** `CodeBlock.isEmpty`. */
  predicate IsEmpty(block: CodeBlock)
  {
    |block.formatParts| == 0
  }
}
