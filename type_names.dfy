/**
 * The type-name family as values: the primitive constants and boxing, annotations, and the
 * construction rules of array, type-variable, wildcard and parameterized type names.
 *
 * Equality with a fixed class (`Object`, the wrapper classes) is, in the library, equality of
 * rendered text; for a class name without annotations that text is its canonical name, so
 * those comparisons are stated on canonical names here.
 */
module TypeNames {
  import opened Wrappers
  import opened Specs
  import ClassNames
  import Strings
  import Jdk

  const VOID: TypeName := Primitive("void", [], true)
  const BOOLEAN: TypeName := Primitive("boolean", [], true)
  const BYTE: TypeName := Primitive("byte", [], true)
  const SHORT: TypeName := Primitive("short", [], true)
  const INT: TypeName := Primitive("int", [], true)
  const LONG: TypeName := Primitive("long", [], true)
  const CHAR: TypeName := Primitive("char", [], true)
  const FLOAT: TypeName := Primitive("float", [], true)
  const DOUBLE: TypeName := Primitive("double", [], true)

  /** The shared keyword instances, `void` first. */
  const Constants: seq<TypeName> := [VOID, BOOLEAN, BYTE, SHORT, INT, LONG, CHAR, FLOAT, DOUBLE]

  /** The `java.lang` class each constant boxes to, position by position. */
  const WrapperNames: seq<string> :=
    ["Void", "Boolean", "Byte", "Short", "Integer", "Long", "Character", "Float", "Double"]

  /** The canonical name of the `i`-th wrapper class. */
  function Boxed(i: nat): string
    requires i < |WrapperNames|
  {
    "java.lang." + WrapperNames[i]
  }

  const OBJECT: TypeName := Class(Object)

  function JavaLang(simpleName: string): TypeName
  {
    Class(ClassName(["java.lang", simpleName], []))
  }

  /** Equality with the unannotated class `canonical`, as the library decides it. */
  predicate IsClassNamed(t: TypeName, canonical: string)
  {
    t.Class? && t.cls.annotations == [] && ClassNames.CanonicalName(t.cls) == canonical
  }

  predicate IsAnnotated(t: TypeName)
  {
    |Annotations(t)| > 0
  }

  /** `isPrimitive`: a keyword is set and the value is not the `VOID` instance itself. */
  predicate IsPrimitive(t: TypeName)
  {
    t.Primitive? && t != VOID
  }

  /** `isBoxedPrimitive`: equal to one of the eight primitive wrapper classes. */
  predicate IsBoxedPrimitive(t: TypeName)
  {
    exists i :: 1 <= i < |WrapperNames| && IsClassNamed(t, Boxed(i))
  }

  /**
   * `box()` as written: keyword-less types are returned as they are; each shared keyword
   * instance maps to its wrapper, tested by identity; any other keyword value fails with an
   * assertion error.
   */
  function BoxAsWritten(t: TypeName): (r: Result<TypeName>)
    ensures !t.Primitive? ==> r == Ok(t)
    ensures forall i :: 0 <= i < |Constants| && t == Constants[i] ==> r == Ok(JavaLang(WrapperNames[i]))
    ensures r.Err? <==> t.Primitive? && t !in Constants
    ensures r.Err? ==> r.error == Assertion
  {
    if !t.Primitive? then Ok(t)
    else if t == VOID then Ok(JavaLang("Void"))
    else if t == BOOLEAN then Ok(JavaLang("Boolean"))
    else if t == BYTE then Ok(JavaLang("Byte"))
    else if t == SHORT then Ok(JavaLang("Short"))
    else if t == INT then Ok(JavaLang("Integer"))
    else if t == LONG then Ok(JavaLang("Long"))
    else if t == CHAR then Ok(JavaLang("Character"))
    else if t == FLOAT then Ok(JavaLang("Float"))
    else if t == DOUBLE then Ok(JavaLang("Double"))
    else Err(Assertion)
  }

  /**
   * `int.withoutAnnotations()` is a primitive type, but not the shared `INT` instance, so boxing
   * it as written fails instead of giving `Integer`.
   */
  lemma BoxAsWrittenRejectsCopies()
    ensures IsPrimitive(WithoutAnnotations(INT)) && BoxAsWritten(WithoutAnnotations(INT)) == Err(Assertion)
  {
  }

  /** The position of `keyword` among the shared keyword instances, if it is one of theirs. */
  function KeywordIndex(keyword: string): (r: Option<nat>)
    ensures r.Some? ==> r.value < |Constants| && Constants[r.value].keyword == keyword
    ensures r.None? ==> forall i :: 0 <= i < |Constants| ==> Constants[i].keyword != keyword
  {
    if keyword == "void" then Some(0)
    else if keyword == "boolean" then Some(1)
    else if keyword == "byte" then Some(2)
    else if keyword == "short" then Some(3)
    else if keyword == "int" then Some(4)
    else if keyword == "long" then Some(5)
    else if keyword == "char" then Some(6)
    else if keyword == "float" then Some(7)
    else if keyword == "double" then Some(8)
    else None
  }

  /**
   * `box()` as its documentation describes it: every value carrying one of the nine keywords
   * boxes to that keyword's wrapper class, keeping its annotations; keyword-less types are
   * returned as they are.
   */
  function Box(t: TypeName): (r: Result<TypeName>)
    ensures !t.Primitive? ==> r == Ok(t)
    ensures t.Primitive? && KeywordIndex(t.keyword).Some? ==>
      r == Ok(Annotated(JavaLang(WrapperNames[KeywordIndex(t.keyword).value]), t.annotations))
    ensures r.Err? <==> t.Primitive? && KeywordIndex(t.keyword).None?
    ensures r.Err? ==> r.error == Assertion
  {
    if !t.Primitive? then Ok(t)
    else match KeywordIndex(t.keyword)
      case Some(i) => Ok(Annotated(JavaLang(WrapperNames[i]), t.annotations))
      case None => Err(Assertion)
  }

  /** On the shared keyword instances the corrected `box()` agrees with the one as written. */
  lemma BoxAgreesOnConstants(i: nat)
    requires i < |Constants|
    ensures Box(Constants[i]) == BoxAsWritten(Constants[i])
  {
    var t := Constants[i];
    var w := JavaLang(WrapperNames[i]);
    assert KeywordIndex(t.keyword) == Some(i);
    assert t.annotations == [] && w.cls.annotations + [] == w.cls.annotations;
    assert Box(t) == Ok(w);
  }

  /**
   * The corrected `box()` depends on the keyword only: any copy of a shared instance boxes to
   * the shared instance's wrapper with the copy's annotations.
   */
  lemma BoxIgnoresIdentity(t: TypeName, i: nat)
    requires i < |Constants| && t.Primitive? && t.keyword == Constants[i].keyword
    ensures Box(t).Ok? && Box(Constants[i]).Ok?
    ensures Box(t).value == Annotated(Box(Constants[i]).value, t.annotations)
    ensures Annotations(Box(t).value) == Annotations(t)
  {
  }

  /**
   * `unbox()`: keyword types are returned as they are; each wrapper class (including `Void`)
   * maps back to its keyword instance; anything else is unsupported.
   */
  function Unbox(t: TypeName): (r: Result<TypeName>)
    ensures t.Primitive? ==> r == Ok(t)
    ensures forall i :: 0 <= i < |WrapperNames| && IsClassNamed(t, Boxed(i)) ==> r == Ok(Constants[i])
    ensures r.Err? <==> !t.Primitive? && forall i :: 0 <= i < |WrapperNames| ==> !IsClassNamed(t, Boxed(i))
    ensures r.Err? ==> r.error == Unsupported
  {
    WrapperNamesDistinct();
    if t.Primitive? then Ok(t)
    else if IsClassNamed(t, Boxed(0)) then Ok(VOID)
    else if IsClassNamed(t, Boxed(1)) then Ok(BOOLEAN)
    else if IsClassNamed(t, Boxed(2)) then Ok(BYTE)
    else if IsClassNamed(t, Boxed(3)) then Ok(SHORT)
    else if IsClassNamed(t, Boxed(4)) then Ok(INT)
    else if IsClassNamed(t, Boxed(5)) then Ok(LONG)
    else if IsClassNamed(t, Boxed(6)) then Ok(CHAR)
    else if IsClassNamed(t, Boxed(7)) then Ok(FLOAT)
    else if IsClassNamed(t, Boxed(8)) then Ok(DOUBLE)
    else Err(Unsupported)
  }

  lemma WrapperCanonicalName(i: nat)
    requires i < |WrapperNames|
    ensures IsClassNamed(JavaLang(WrapperNames[i]), Boxed(i))
  {
    var c := JavaLang(WrapperNames[i]).cls;
    assert c.names[1..] == [WrapperNames[i]];
    assert Strings.Join(".", c.names) == "java.lang" + "." + WrapperNames[i];
  }

  /** The wrapper class names are pairwise distinct. */
  lemma WrapperNamesDistinct()
    ensures forall i, j :: 0 <= i < j < |WrapperNames| ==> Boxed(i) != Boxed(j)
  {
    forall i, j | 0 <= i < j < |WrapperNames|
      ensures Boxed(i) != Boxed(j)
    {
      var a := Boxed(i);
      var b := Boxed(j);
      assert a[10..] == WrapperNames[i] && b[10..] == WrapperNames[j];
    }
  }

  /** Unboxing undoes boxing for `void` and each primitive constant. */
  lemma UnboxBox(i: nat)
    requires i < |Constants|
    ensures Box(Constants[i]).Ok? && Unbox(Box(Constants[i]).value) == Ok(Constants[i])
  {
    BoxAgreesOnConstants(i);
    WrapperCanonicalName(i);
    assert Box(Constants[i]) == Ok(JavaLang(WrapperNames[i]));
  }

  /** Boxing undoes unboxing for every wrapper class. */
  lemma BoxUnbox(t: TypeName, i: nat)
    requires i < |WrapperNames| && IsClassNamed(t, Boxed(i))
    ensures Unbox(t).Ok? && Box(Unbox(t).value) == Ok(JavaLang(WrapperNames[i]))
  {
    assert Unbox(t) == Ok(Constants[i]);
    assert KeywordIndex(Constants[i].keyword) == Some(i);
  }

  /** The boxed primitives are the wrapper classes that unbox to a primitive other than `void`. */
  lemma BoxedPrimitiveUnboxes(t: TypeName)
    ensures IsBoxedPrimitive(t) <==> !t.Primitive? && Unbox(t).Ok? && Unbox(t).value != VOID
  {
    WrapperNamesDistinct();
    if !t.Primitive? && Unbox(t).Ok? && Unbox(t).value != VOID {
      var i :| 0 <= i < |WrapperNames| && IsClassNamed(t, Boxed(i));
      assert i != 0;
    }
  }

  /**
   * `annotated(annotations)`: the annotations are appended after the existing ones, except on a
   * type variable, which takes the given list in place of its own. The result is never one of
   * the shared keyword instances.
   */
  function Annotated(t: TypeName, annotations: seq<AnnotationSpec>): (r: TypeName)
    ensures t.Variable? ==> Annotations(r) == annotations
    ensures !t.Variable? ==> Annotations(r) == Annotations(t) + annotations
    ensures WithoutAnnotations(r) == WithoutAnnotations(t)
    ensures r.Primitive? ==> !r.constant
  {
    match t
    case Primitive(keyword, a, _) => Primitive(keyword, a + annotations, false)
    case Class(c) => Class(ClassName(c.names, c.annotations + annotations))
    case Parameterized(p) =>
      Parameterized(ParameterizedTypeName(p.enclosingType, p.rawType, p.typeArguments, p.annotations + annotations))
    case Array(component, a) => Array(component, a + annotations)
    case Variable(v) => Variable(TypeVariableName(v.name, v.bounds, annotations))
    case Wildcard(upper, lower, a) => Wildcard(upper, lower, a + annotations)
  }

  /** `withoutAnnotations()`: the same type with no annotations, never a shared instance. */
  function WithoutAnnotations(t: TypeName): (r: TypeName)
    ensures Annotations(r) == []
    ensures r.Primitive? <==> t.Primitive?
    ensures r.Primitive? ==> r.keyword == t.keyword && !r.constant
  {
    match t
    case Primitive(keyword, _, _) => Primitive(keyword, [], false)
    case Class(c) => Class(ClassName(c.names, []))
    case Parameterized(p) => Parameterized(ParameterizedTypeName(p.enclosingType, p.rawType, p.typeArguments, []))
    case Array(component, _) => Array(component, [])
    case Variable(v) => Variable(TypeVariableName(v.name, v.bounds, []))
    case Wildcard(upper, lower, _) => Wildcard(upper, lower, [])
  }

  /** Dropping annotations keeps everything else: the kind of type and all its parts. */
  lemma WithoutAnnotationsKeepsParts(t: TypeName)
    ensures var r := WithoutAnnotations(t);
      && (t.Class? ==> r.Class? && r.cls.names == t.cls.names)
      && (t.Parameterized? ==>
           r.Parameterized? && r.ptn.enclosingType == t.ptn.enclosingType
           && r.ptn.rawType == t.ptn.rawType && r.ptn.typeArguments == t.ptn.typeArguments)
      && (t.Array? ==> r.Array? && r.componentType == t.componentType)
      && (t.Variable? ==> r.Variable? && r.tv.name == t.tv.name && r.tv.bounds == t.tv.bounds)
      && (t.Wildcard? ==> r.Wildcard? && r.upperBounds == t.upperBounds && r.lowerBounds == t.lowerBounds)
  {
  }

  /**
   * The bound check shared by type variables, wildcards and type arguments: not primitive and
   * not the `VOID` instance. Together these exclude every keyword type.
   */
  predicate ValidBound(t: TypeName)
  {
    !IsPrimitive(t) && t != VOID
  }

  lemma ValidBoundIsReference(t: TypeName)
    ensures ValidBound(t) <==> !t.Primitive?
  {
  }

  /** `TypeName.arrayComponent(type)`. */
  function ArrayComponent(t: TypeName): (r: Option<TypeName>)
    ensures r.Some? <==> t.Array?
    ensures r.Some? ==> Array(r.value, Annotations(t)) == t
  {
    if t.Array? then Some(t.componentType) else None
  }

  // ArrayTypeName

  /** `ArrayTypeName.of(componentType)`: any component is allowed. */
  function ArrayOf(component: TypeName): (r: TypeName)
    ensures ArrayComponent(r) == Some(component) && Annotations(r) == []
  {
    Array(component, [])
  }

  // TypeVariableName

  /** The private constructor: every bound must be a reference type. */
  function NewTypeVariable(name: string, bounds: seq<TypeName>, annotations: seq<AnnotationSpec>): (r: Result<TypeVariableName>)
    ensures r.Ok? <==> forall i :: 0 <= i < |bounds| ==> ValidBound(bounds[i])
    ensures r.Ok? ==> r.value == TypeVariableName(name, bounds, annotations)
    ensures r.Err? ==> r.error == IllegalArgument
  {
    if forall i :: 0 <= i < |bounds| ==> ValidBound(bounds[i]) then Ok(TypeVariableName(name, bounds, annotations))
    else Err(IllegalArgument)
  }

  /** The bounds with the first one equal to `Object` removed. */
  function RemoveObject(bounds: seq<TypeName>): (r: seq<TypeName>)
    ensures (forall i :: 0 <= i < |bounds| ==> !IsClassNamed(bounds[i], "java.lang.Object")) ==> r == bounds
    ensures (exists i :: 0 <= i < |bounds| && IsClassNamed(bounds[i], "java.lang.Object")) ==> |r| == |bounds| - 1
    ensures forall i :: 0 <= i < |r| ==> r[i] in bounds
    ensures forall i :: 0 <= i < |bounds| && !IsClassNamed(bounds[i], "java.lang.Object") ==> bounds[i] in r
  {
    if bounds == [] then []
    else if IsClassNamed(bounds[0], "java.lang.Object") then bounds[1..]
    else [bounds[0]] + RemoveObject(bounds[1..])
  }

  /** `TypeVariableName.get(name, bounds...)`: `Object` is stripped before the bound check. */
  function TypeVariable(name: string, bounds: seq<TypeName>): (r: Result<TypeName>)
    ensures r.Ok? ==> r.value == Variable(TypeVariableName(name, RemoveObject(bounds), []))
    ensures r.Ok? <==> forall i :: 0 <= i < |bounds| ==> ValidBound(bounds[i])
    ensures r.Err? ==> r.error == IllegalArgument
  {
    var v :- NewTypeVariable(name, RemoveObject(bounds), []);
    Ok(Variable(v))
  }

  /** `withBounds(bounds)`: the old bounds followed by the new ones, name and annotations kept. */
  function WithBounds(v: TypeVariableName, bounds: seq<TypeName>): (r: Result<TypeVariableName>)
    ensures r.Ok? ==>
      r.value.name == v.name && r.value.bounds == v.bounds + bounds && r.value.annotations == v.annotations
    ensures (forall i :: 0 <= i < |v.bounds| ==> ValidBound(v.bounds[i])) ==>
      (r.Ok? <==> forall i :: 0 <= i < |bounds| ==> ValidBound(bounds[i]))
  {
    var all := v.bounds + bounds;
    assert forall i :: 0 <= i < |bounds| ==> all[|v.bounds| + i] == bounds[i];
    NewTypeVariable(v.name, all, v.annotations)
  }

  // WildcardTypeName

  /** The private constructor: exactly one upper bound, every bound a reference type. */
  function NewWildcard(upper: seq<TypeName>, lower: seq<TypeName>, annotations: seq<AnnotationSpec>): (r: Result<TypeName>)
    ensures r.Ok? <==> |upper| == 1 && ValidBound(upper[0]) && forall i :: 0 <= i < |lower| ==> ValidBound(lower[i])
    ensures r.Ok? ==> r.value == Wildcard(upper, lower, annotations)
    ensures r.Err? ==> r.error == IllegalArgument
  {
    if |upper| == 1 && ValidBound(upper[0]) && forall i :: 0 <= i < |lower| ==> ValidBound(lower[i]) then
      Ok(Wildcard(upper, lower, annotations))
    else Err(IllegalArgument)
  }

  /** `subtypeOf(bound)`: `? extends bound`. */
  function SubtypeOf(bound: TypeName): (r: Result<TypeName>)
    ensures r.Ok? <==> !bound.Primitive?
    ensures r.Ok? ==> r.value.Wildcard? && r.value.upperBounds == [bound] && r.value.lowerBounds == []
  {
    ValidBoundIsReference(bound);
    NewWildcard([bound], [], [])
  }

  /** `supertypeOf(bound)`: `? super bound`, with `Object` as the upper bound. */
  function SupertypeOf(bound: TypeName): (r: Result<TypeName>)
    ensures r.Ok? <==> !bound.Primitive?
    ensures r.Ok? ==> r.value.Wildcard? && r.value.upperBounds == [OBJECT] && r.value.lowerBounds == [bound]
  {
    ValidBoundIsReference(bound);
    ValidBoundIsReference(OBJECT);
    assert [bound][0] == bound;
    NewWildcard([OBJECT], [bound], [])
  }

  // ParameterizedTypeName

  /**
   * The constructor: at least one type argument unless nested in another parameterized type,
   * and every argument a reference type.
   */
  function NewParameterized(enclosing: Option<ParameterizedTypeName>, raw: ClassName,
                            arguments: seq<TypeName>, annotations: seq<AnnotationSpec>): (r: Result<ParameterizedTypeName>)
    ensures r.Ok? <==> (|arguments| > 0 || enclosing.Some?) && forall i :: 0 <= i < |arguments| ==> ValidBound(arguments[i])
    ensures r.Ok? ==> r.value == ParameterizedTypeName(enclosing, raw, arguments, annotations)
    ensures r.Err? ==> r.error == IllegalArgument
  {
    if (|arguments| > 0 || enclosing.Some?) && forall i :: 0 <= i < |arguments| ==> ValidBound(arguments[i]) then
      Ok(ParameterizedTypeName(enclosing, raw, arguments, annotations))
    else Err(IllegalArgument)
  }

  /** `ParameterizedTypeName.get(rawType, typeArguments...)`. */
  function GetParameterized(raw: ClassName, arguments: seq<TypeName>): (r: Result<TypeName>)
    ensures r.Ok? <==> |arguments| > 0 && forall i :: 0 <= i < |arguments| ==> !arguments[i].Primitive?
    ensures r.Ok? ==> r.value == Parameterized(ParameterizedTypeName(None, raw, arguments, []))
  {
    var p :- NewParameterized(None, raw, arguments, []);
    Ok(Parameterized(p))
  }

  /** `nestedClass(name, typeArguments)` (no arguments for the one-argument overload). */
  function NestedParameterized(p: ParameterizedTypeName, name: string, arguments: seq<TypeName>): (r: Result<TypeName>)
    ensures r.Ok? ==>
      r.value.Parameterized? && r.value.ptn.enclosingType == Some(p)
      && r.value.ptn.typeArguments == arguments && Annotations(r.value) == []
      && ClassNames.NestedClass(p.rawType, name) == Ok(r.value.ptn.rawType)
    ensures ClassNames.Valid(p.rawType) ==>
      (r.Ok? <==> Jdk.IsName(name) && forall i :: 0 <= i < |arguments| ==> !arguments[i].Primitive?)
  {
    var raw :- ClassNames.NestedClass(p.rawType, name);
    var nested :- NewParameterized(Some(p), raw, arguments, []);
    Ok(Parameterized(nested))
  }
}
