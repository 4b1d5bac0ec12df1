/**
 * `MethodSpec` and its builder. The builder owns two code block builders, one for the javadoc
 * and one for the body, and delegates the code-writing calls to them.
 *
 * How a method is written is `Emission.EmitMethod`; this module also holds the same emit as
 * the library writes it, with the method's and the parameters' names pasted into format
 * strings (a constructor's enclosing type name is written verbatim).
 */
module MethodSpecs {
  import opened Wrappers
  import opened Jdk
  import opened Specs
  import TypeNames
  import CodeBlocks
  import ParameterSpecs
  import Emission
  import Strings

  // ---------------------------------------------------------------------------------------
  // The exceptions: a linked hash set

  /** `LinkedHashSet.add`: a type already present is not added again. */
  function AddDistinct<T(==)>(exceptions: seq<T>, t: T): seq<T>
  {
    if t in exceptions then exceptions else exceptions + [t]
  }

  /** `add` for each type in turn. */
  function AddAllDistinct<T(==)>(exceptions: seq<T>, more: seq<T>): seq<T>
    decreases |more|
  {
    if more == [] then exceptions
    else AddAllDistinct(AddDistinct(exceptions, more[0]), more[1..])
  }

  predicate Distinct<T(==)>(s: seq<T>)
  {
    forall i, j :: 0 <= i < j < |s| ==> s[i] != s[j]
  }

  /**
   * Adding to a linked hash set keeps what was there in front, holds each type once, and
   * holds exactly the types of both lists.
   */
  lemma {:induction false} AddAllDistinctSpec<T>(exceptions: seq<T>, more: seq<T>)
    requires Distinct(exceptions)
    ensures var r := AddAllDistinct(exceptions, more);
      && Distinct(r)
      && |exceptions| <= |r| && r[..|exceptions|] == exceptions
      && forall t :: t in r <==> t in exceptions || t in more
    decreases |more|
  {
    if more != [] {
      var next := AddDistinct(exceptions, more[0]);
      AddDistinctSpec(exceptions, more[0]);
      AddAllDistinctSpec(next, more[1..]);
      var r := AddAllDistinct(next, more[1..]);
      assert r[..|exceptions|] == next[..|exceptions|] by {
        assert r[..|next|] == next;
      }
      assert forall t :: t in more <==> t == more[0] || t in more[1..] by {
        assert more == [more[0]] + more[1..];
      }
    }
  }

  /** One `add`: the set grows by the type alone, at the end, if it was not there. */
  lemma AddDistinctSpec<T>(exceptions: seq<T>, t: T)
    requires Distinct(exceptions)
    ensures var r := AddDistinct(exceptions, t);
      && Distinct(r)
      && |exceptions| <= |r| && r[..|exceptions|] == exceptions
      && forall u :: u in r <==> u in exceptions || u == t
  {
    var r := AddDistinct(exceptions, t);
    assert r[..|exceptions|] == exceptions;
  }

  /** Adding a list without repeats to a set it does not meet appends the list. */
  lemma {:induction false} AddAllDistinctOfDistinct<T>(exceptions: seq<T>, more: seq<T>)
    requires Distinct(exceptions + more)
    ensures AddAllDistinct(exceptions, more) == exceptions + more
    decreases |more|
  {
    if more != [] {
      var all := exceptions + more;
      forall k | 0 <= k < |exceptions|
        ensures exceptions[k] != more[0]
      {
        assert all[k] == exceptions[k] && all[|exceptions|] == more[0];
      }
      assert (exceptions + [more[0]]) + more[1..] == all;
      AddAllDistinctOfDistinct(exceptions + [more[0]], more[1..]);
    }
  }

  // ---------------------------------------------------------------------------------------
  // The spec

  /** `isConstructor`. */
  predicate IsConstructor(m: MethodSpec)
  {
    m.name == Constructor
  }

  /** `hasModifier(modifier)`. */
  predicate HasModifier(m: MethodSpec, modifier: Modifier)
  {
    modifier in m.modifiers
  }

  /** `lastParameterIsArray`: there is a last parameter and its type is an array. */
  predicate LastParameterIsArray(parameters: seq<ParameterSpec>)
  {
    |parameters| > 0 && TypeNames.ArrayComponent(parameters[|parameters| - 1].paramType).Some?
  }

  /**
   * The checks of the spec's constructor: an abstract method has no code, and the last
   * parameter of a varargs method is an array.
   */
  function BuildCheck(code: CodeBlock, modifiers: set<Modifier>, varargs: bool, parameters: seq<ParameterSpec>): (r: Outcome)
    ensures r.Pass? <==> (IsEmpty(code) || ABSTRACT !in modifiers) && (!varargs || LastParameterIsArray(parameters))
    ensures r.Fail? ==> r.error == IllegalArgument
  {
    if !IsEmpty(code) && ABSTRACT in modifiers then Fail(IllegalArgument)
    else if varargs && !LastParameterIsArray(parameters) then Fail(IllegalArgument)
    else Pass
  }

  /** The name check of the builder: the constructor name, or a valid Java name. */
  predicate ValidMethodName(name: string)
  {
    name == Constructor || IsName(name)
  }

  /** The fields of the builder that its methods reassign. */
  datatype Fields = Fields(
    annotations: seq<AnnotationSpec>,
    modifiers: seq<Modifier>,
    typeVariables: seq<TypeVariableName>,
    returnType: Option<TypeName>,
    parameters: seq<ParameterSpec>,
    exceptions: seq<TypeName>,
    varargs: bool,
    defaultValue: Option<CodeBlock>)

  // ---------------------------------------------------------------------------------------
  // The builder

  /** `MethodSpec.Builder`. */
  class Builder {
    const name: string
    const javadoc: CodeBlocks.Builder
    const code: CodeBlocks.Builder
    var annotations: seq<AnnotationSpec>
    var modifiers: seq<Modifier>
    var typeVariables: seq<TypeVariableName>
    var returnType: Option<TypeName>
    var parameters: seq<ParameterSpec>
    var exceptions: seq<TypeName>
    var varargs: bool
    var defaultValue: Option<CodeBlock>

    /** The two code builders are distinct objects, and the exceptions a set. */
    predicate Valid()
      reads this
    {
      javadoc != code && Distinct(exceptions)
    }

    function Current(): Fields
      reads this
    {
      Fields(annotations, modifiers, typeVariables, returnType, parameters, exceptions, varargs, defaultValue)
    }

    /** The builder's initial state; the name is checked by `NewBuilder`. */
    constructor (name: string)
      ensures Valid() && fresh(javadoc) && fresh(code)
      ensures this.name == name
      ensures javadoc.formatParts == [] && javadoc.args == [] && code.formatParts == [] && code.args == []
      ensures Current() == Fields([], [], [], if name == Constructor then None else Some(TypeNames.VOID), [], [], false, None)
    {
      this.name := name;
      javadoc := new CodeBlocks.Builder();
      code := new CodeBlocks.Builder();
      annotations := [];
      modifiers := [];
      typeVariables := [];
      returnType := if name == Constructor then None else Some(TypeNames.VOID);
      parameters := [];
      exceptions := [];
      varargs := false;
      defaultValue := None;
    }

    /** `addJavadoc(format, *args)`. */
    method AddJavadoc(format: string, inputs: seq<Arg>) returns (outcome: Outcome)
      modifies javadoc
      ensures CodeBlocks.Added(javadoc.formatParts, javadoc.args, outcome)
           == CodeBlocks.AddSpec(old(javadoc.formatParts), old(javadoc.args), format, inputs)
    {
      outcome := javadoc.Add(format, inputs);
    }

    /** `addJavadoc(block)`. */
    method AddJavadocBlock(block: CodeBlock)
      modifies javadoc
      ensures javadoc.formatParts == old(javadoc.formatParts) + block.formatParts
      ensures javadoc.args == old(javadoc.args) + block.args
    {
      javadoc.AddBlock(block);
    }

    /** `addAnnotations(annotationSpecs)`. */
    method AddAnnotations(annotationSpecs: seq<AnnotationSpec>)
      modifies this
      ensures Current() == old(Current()).(annotations := old(annotations) + annotationSpecs)
    {
      for i := 0 to |annotationSpecs|
        invariant Current() == old(Current()).(annotations := old(annotations) + annotationSpecs[..i])
      {
        annotations := annotations + [annotationSpecs[i]];
      }
    }

    /** `addAnnotation(annotationSpec)`. */
    method AddAnnotation(annotationSpec: AnnotationSpec)
      modifies this
      ensures Current() == old(Current()).(annotations := old(annotations) + [annotationSpec])
    {
      annotations := annotations + [annotationSpec];
    }

    /** `addAnnotation(className)`: an annotation of that class without members. */
    method AddAnnotationOfClass(annotation: ClassName)
      modifies this
      ensures Current() == old(Current()).(annotations := old(annotations) + [AnnotationSpec(Class(annotation), [])])
    {
      AddAnnotation(AnnotationSpec(Class(annotation), []));
    }

    /** `addModifiers(modifiers)`: appended in order, repeats included. */
    method AddModifiers(more: seq<Modifier>)
      modifies this
      ensures Current() == old(Current()).(modifiers := old(modifiers) + more)
    {
      for i := 0 to |more|
        invariant Current() == old(Current()).(modifiers := old(modifiers) + more[..i])
      {
        modifiers := modifiers + [more[i]];
      }
    }

    /** `addTypeVariables(typeVariables)`. */
    method AddTypeVariables(more: seq<TypeVariableName>)
      modifies this
      ensures Current() == old(Current()).(typeVariables := old(typeVariables) + more)
    {
      for i := 0 to |more|
        invariant Current() == old(Current()).(typeVariables := old(typeVariables) + more[..i])
      {
        typeVariables := typeVariables + [more[i]];
      }
    }

    /** `addTypeVariable(typeVariable)`. */
    method AddTypeVariable(typeVariable: TypeVariableName)
      modifies this
      ensures Current() == old(Current()).(typeVariables := old(typeVariables) + [typeVariable])
    {
      typeVariables := typeVariables + [typeVariable];
    }

    /** `returns(returnType)`: a constructor cannot have one. */
    method Returns(t: TypeName) returns (outcome: Outcome)
      modifies this
      ensures outcome.Pass? <==> name != Constructor
      ensures outcome.Fail? ==> outcome.error == IllegalState && Current() == old(Current())
      ensures outcome.Pass? ==> Current() == old(Current()).(returnType := Some(t))
    {
      if name == Constructor {
        return Fail(IllegalState);
      }
      returnType := Some(t);
      return Pass;
    }

    /** `addParameters(parameterSpecs)`. */
    method AddParameters(parameterSpecs: seq<ParameterSpec>)
      modifies this
      ensures Current() == old(Current()).(parameters := old(parameters) + parameterSpecs)
    {
      for i := 0 to |parameterSpecs|
        invariant Current() == old(Current()).(parameters := old(parameters) + parameterSpecs[..i])
      {
        parameters := parameters + [parameterSpecs[i]];
      }
    }

    /** `addParameter(parameterSpec)`. */
    method AddParameter(parameterSpec: ParameterSpec)
      modifies this
      ensures Current() == old(Current()).(parameters := old(parameters) + [parameterSpec])
    {
      parameters := parameters + [parameterSpec];
    }

    /**
     * `addParameter(type, name, *modifiers)`: the parameter `ParameterSpec.builder` builds,
     * which fails on an invalid name.
     */
    method AddParameterOf(t: TypeName, parameterName: string, parameterModifiers: seq<Modifier>)
      returns (outcome: Outcome)
      modifies this
      ensures outcome.Pass? <==> IsName(parameterName)
      ensures outcome.Fail? ==> outcome.error == IllegalArgument && Current() == old(Current())
      ensures outcome.Pass? ==>
        && |parameters| == |old(parameters)| + 1 && parameters[..|old(parameters)|] == old(parameters)
        && Current() == old(Current()).(parameters := parameters)
        && parameters[|old(parameters)|].name == parameterName
        && parameters[|old(parameters)|].paramType == t
        && parameters[|old(parameters)|].annotations == []
        && forall m :: m in parameters[|old(parameters)|].modifiers <==> m in parameterModifiers
    {
      var b := ParameterSpecs.NewBuilder(t, parameterName, parameterModifiers);
      if b.Err? {
        return Fail(b.error);
      }
      var p := b.value.Build();
      AddParameter(p);
      return Pass;
    }

    /** `varargs(varargs)`. */
    method Varargs(value: bool)
      modifies this
      ensures Current() == old(Current()).(varargs := value)
    {
      varargs := value;
    }

    /** `addExceptions(exceptions)`: each type added to the linked hash set. */
    method AddExceptions(more: seq<TypeName>)
      modifies this
      ensures Current() == old(Current()).(exceptions := AddAllDistinct(old(exceptions), more))
    {
      for i := 0 to |more|
        invariant Current() == old(Current()).(exceptions := AddAllDistinct(old(exceptions), more[..i]))
      {
        AddAllDistinctSnoc(old(exceptions), more, i);
        exceptions := AddDistinct(exceptions, more[i]);
      }
      assert more[..|more|] == more;
    }

    /** `addException(exception)`. */
    method AddException(exception: TypeName)
      modifies this
      ensures Current() == old(Current()).(exceptions := AddDistinct(old(exceptions), exception))
    {
      exceptions := AddDistinct(exceptions, exception);
    }

    /** `add(format, *args)` on the body. */
    method Add(format: string, inputs: seq<Arg>) returns (outcome: Outcome)
      modifies code
      ensures CodeBlocks.Added(code.formatParts, code.args, outcome)
           == CodeBlocks.AddSpec(old(code.formatParts), old(code.args), format, inputs)
    {
      outcome := code.Add(format, inputs);
    }

    /** `addNamed(format, args)` on the body. */
    method AddNamed(format: string, named: map<string, Arg>) returns (outcome: Outcome)
      modifies code
      ensures CodeBlocks.Added(code.formatParts, code.args, outcome)
           == CodeBlocks.AddNamedSpec(old(code.formatParts), old(code.args), format, named)
    {
      outcome := code.AddNamed(format, named);
    }

    /** `add(codeBlock)` on the body. */
    method AddBlock(block: CodeBlock)
      modifies code
      ensures code.formatParts == old(code.formatParts) + block.formatParts
      ensures code.args == old(code.args) + block.args
    {
      code.AddBlock(block);
    }

    /** `addComment(format, *args)` on the body. */
    method AddComment(format: string, inputs: seq<Arg>) returns (outcome: Outcome)
      modifies code
      ensures CodeBlocks.Added(code.formatParts, code.args, outcome)
           == CodeBlocks.AddCommentSpec(old(code.formatParts), old(code.args), format, inputs)
    {
      outcome := code.AddComment(format, inputs);
    }

    /** `beginControlFlow(controlFlow, *args)` on the body. */
    method BeginControlFlow(controlFlow: string, inputs: seq<Arg>) returns (outcome: Outcome)
      modifies code
      ensures CodeBlocks.Added(code.formatParts, code.args, outcome)
           == CodeBlocks.BeginControlFlowSpec(old(code.formatParts), old(code.args), controlFlow, inputs)
    {
      outcome := code.BeginControlFlow(controlFlow, inputs);
    }

    /** `nextControlFlow(controlFlow, *args)` on the body. */
    method NextControlFlow(controlFlow: string, inputs: seq<Arg>) returns (outcome: Outcome)
      modifies code
      ensures CodeBlocks.Added(code.formatParts, code.args, outcome)
           == CodeBlocks.NextControlFlowSpec(old(code.formatParts), old(code.args), controlFlow, inputs)
    {
      outcome := code.NextControlFlow(controlFlow, inputs);
    }

    /** `endControlFlow()` on the body. */
    method EndControlFlow() returns (outcome: Outcome)
      modifies code
      ensures CodeBlocks.Added(code.formatParts, code.args, outcome)
           == CodeBlocks.EndControlFlowSpec(old(code.formatParts), old(code.args))
    {
      outcome := code.EndControlFlow();
    }

    /** `endControlFlow(controlFlow, *args)` on the body. */
    method EndControlFlowWith(controlFlow: string, inputs: seq<Arg>) returns (outcome: Outcome)
      modifies code
      ensures CodeBlocks.Added(code.formatParts, code.args, outcome)
           == CodeBlocks.EndControlFlowWithSpec(old(code.formatParts), old(code.args), controlFlow, inputs)
    {
      outcome := code.EndControlFlowWith(controlFlow, inputs);
    }

    /** `addStatement(format, *args)` on the body. */
    method AddStatement(format: string, inputs: seq<Arg>) returns (outcome: Outcome)
      modifies code
      ensures CodeBlocks.Added(code.formatParts, code.args, outcome)
           == CodeBlocks.AddStatementSpec(old(code.formatParts), old(code.args), format, inputs)
    {
      outcome := code.AddStatement(format, inputs);
    }

    /** `defaultValue(codeBlock)`: it can be set once. */
    method DefaultValue(block: CodeBlock) returns (outcome: Outcome)
      modifies this
      ensures outcome.Pass? <==> old(defaultValue).None?
      ensures outcome.Fail? ==> outcome.error == IllegalState && Current() == old(Current())
      ensures outcome.Pass? ==> Current() == old(Current()).(defaultValue := Some(block))
    {
      if defaultValue.Some? {
        return Fail(IllegalState);
      }
      defaultValue := Some(block);
      return Pass;
    }

    /** `defaultValue(format, *args)`: the value `CodeBlock.of` builds. */
    method DefaultValueFormat(format: string, inputs: seq<Arg>) returns (outcome: Outcome)
      modifies this
      ensures outcome.Pass? <==> CodeBlocks.Of(format, inputs).Ok? && old(defaultValue).None?
      ensures outcome.Fail? ==> Current() == old(Current())
      ensures outcome.Fail? && CodeBlocks.Of(format, inputs).Err? ==> outcome.error == CodeBlocks.Of(format, inputs).error
      ensures outcome.Pass? ==> Current() == old(Current()).(defaultValue := Some(CodeBlocks.Of(format, inputs).value))
    {
      var block := CodeBlocks.Of(format, inputs);
      if block.Err? {
        return Fail(block.error);
      }
      outcome := DefaultValue(block.value);
    }

    /**
     * `build()`: the spec, with the modifiers as a set; an abstract method with code, or a
     * varargs method whose last parameter is not an array, is refused.
     */
    function Build(): (r: Result<MethodSpec>)
      reads this, javadoc, code
      ensures r.Ok? <==> BuildCheck(code.Build(), (set m | m in modifiers), varargs, parameters).Pass?
      ensures r.Err? ==> r.error == IllegalArgument
      ensures r.Ok? ==>
        && r.value.name == name && r.value.javadoc == javadoc.Build() && r.value.code == code.Build()
        && r.value.annotations == annotations && r.value.typeVariables == typeVariables
        && r.value.returnType == returnType && r.value.parameters == parameters
        && r.value.exceptions == exceptions && r.value.varargs == varargs
        && r.value.defaultValue == defaultValue
        && forall m :: m in r.value.modifiers <==> m in modifiers
    {
      var modifierSet := set m | m in modifiers;
      var checked := BuildCheck(code.Build(), modifierSet, varargs, parameters);
      if checked.Fail? then Err(checked.error)
      else Ok(MethodSpec(name, javadoc.Build(), annotations, modifierSet, typeVariables, returnType,
                         parameters, varargs, exceptions, code.Build(), defaultValue))
    }
  }

  lemma AddAllDistinctSnoc<T>(exceptions: seq<T>, more: seq<T>, i: nat)
    requires i < |more|
    ensures AddAllDistinct(exceptions, more[..i + 1]) == AddDistinct(AddAllDistinct(exceptions, more[..i]), more[i])
  {
    AddAllDistinctAppend(exceptions, more[..i], [more[i]]);
    assert more[..i] + [more[i]] == more[..i + 1];
  }

  lemma {:induction false} AddAllDistinctAppend<T>(exceptions: seq<T>, a: seq<T>, b: seq<T>)
    ensures AddAllDistinct(exceptions, a + b) == AddAllDistinct(AddAllDistinct(exceptions, a), b)
    decreases |a|
  {
    if a == [] {
      assert a + b == b;
    } else {
      assert (a + b)[0] == a[0] && (a + b)[1..] == a[1..] + b;
      AddAllDistinctAppend(AddDistinct(exceptions, a[0]), a[1..], b);
    }
  }

  /** `methodBuilder(name)`: the name must be the constructor name or a valid name. */
  method NewBuilder(name: string) returns (r: Result<Builder>)
    ensures r.Ok? <==> ValidMethodName(name)
    ensures r.Err? ==> r.error == IllegalArgument
    ensures r.Ok? ==>
      && fresh(r.value) && fresh(r.value.javadoc) && fresh(r.value.code) && r.value.Valid()
      && r.value.name == name
      && r.value.javadoc.formatParts == [] && r.value.javadoc.args == []
      && r.value.code.formatParts == [] && r.value.code.args == []
      && r.value.Current() == Fields([], [], [], if name == Constructor then None else Some(TypeNames.VOID), [], [], false, None)
  {
    if !ValidMethodName(name) {
      return Err(IllegalArgument);
    }
    var b := new Builder(name);
    return Ok(b);
  }

  /** `constructorBuilder()`: no return type. */
  method ConstructorBuilder() returns (b: Builder)
    ensures fresh(b) && fresh(b.javadoc) && fresh(b.code) && b.Valid()
    ensures b.name == Constructor && b.returnType == None
  {
    b := new Builder(Constructor);
  }

  /**
   * `toBuilder()`: a builder for the spec's name holding all of its parts; building it gives
   * the spec back when the spec passes the checks of `build()` and lists each exception once.
   */
  method ToBuilder(m: MethodSpec) returns (r: Result<Builder>)
    ensures r.Ok? <==> ValidMethodName(m.name)
    ensures r.Err? ==> r.error == IllegalArgument
    ensures r.Ok? ==> fresh(r.value) && fresh(r.value.javadoc) && fresh(r.value.code) && r.value.Valid()
    ensures r.Ok? ==> r.value.exceptions == AddAllDistinct([], m.exceptions)
    ensures r.Ok? && BuildCheck(m.code, m.modifiers, m.varargs, m.parameters).Pass? && Distinct(m.exceptions) ==>
      r.value.Build() == Ok(m)
  {
    r := NewBuilder(m.name);
    if r.Err? {
      return;
    }
    var b := r.value;
    CopyParts(b, m);
    ListedSet(m.modifiers);
    if Distinct(m.exceptions) {
      AddAllDistinctOfDistinct([], m.exceptions);
      assert [] + m.exceptions == m.exceptions;
    }
  }

  /** The part of `toBuilder()` that copies the spec's parts into a fresh builder. */
  method CopyParts(b: Builder, m: MethodSpec)
    requires b.Valid() && b.name == m.name
    requires b.javadoc.formatParts == [] && b.javadoc.args == [] && b.code.formatParts == [] && b.code.args == []
    requires b.Current().annotations == [] && b.Current().modifiers == [] && b.Current().typeVariables == []
    requires b.Current().parameters == [] && b.Current().exceptions == []
    modifies b, b.javadoc, b.code
    ensures b.Valid()
    ensures b.Current() == Fields(m.annotations, Listed(m.modifiers), m.typeVariables, m.returnType,
                                  m.parameters, AddAllDistinct([], m.exceptions), m.varargs, m.defaultValue)
    ensures b.javadoc.Build() == m.javadoc && b.code.Build() == m.code
  {
    b.AddJavadocBlock(m.javadoc);
    b.AddAnnotations(m.annotations);
    b.AddModifiers(Listed(m.modifiers));
    b.AddTypeVariables(m.typeVariables);
    b.returnType := m.returnType;
    b.AddParameters(m.parameters);
    b.AddExceptions(m.exceptions);
    b.AddBlock(m.code);
    b.Varargs(m.varargs);
    b.defaultValue := m.defaultValue;
    AddAllDistinctSpec([], m.exceptions);
  }

  // ---------------------------------------------------------------------------------------
  // How a method is written, as the library writes it

  /**
   * `MethodSpec.emit` as written: a constructor's opening is the enclosing type's name and `(`,
   * written verbatim; a method's is the format `$T name(` with the return type, and each
   * parameter is written by `ParameterSpec.emit` as written. The scanner of `CodeBlock.of` reads
   * any `$` in the method's or a parameter's name as a placeholder.
   */
  function EmitMethodAsWritten(c: Emission.Config, s: Emission.WriterState, m: MethodSpec, enclosingName: string, implicit: set<Modifier>)
    : (r: Result<Emission.WriterState>)
    ensures m.name != Constructor && m.returnType.None? ==> r.Err?
    ensures Emission.BadVarargs(m) ==> r.Err?
    ensures m.name == Constructor && (forall k :: 0 <= k < |m.parameters| ==> '$' !in m.parameters[k].name)
            ==> r == Emission.EmitMethod(c, s, m, enclosingName, implicit)
  {
    var s4 :- Emission.EmitMethodHead(c, s, m, implicit);
    var s5 :- EmitOpeningAsWritten(c, s4, m, enclosingName);
    assert m.name == Constructor && (forall k :: 0 <= k < |m.parameters| ==> '$' !in m.parameters[k].name)
           ==> EmitParametersAsWritten(c, s5, m, 0) == Emission.EmitParameters(c, s5, m, 0) by {
      if m.name == Constructor && (forall k :: 0 <= k < |m.parameters| ==> '$' !in m.parameters[k].name) {
        ParametersAgree(c, s5, m, 0);
      }
    }
    var s6 :- EmitParametersAsWritten(c, s5, m, 0);
    Emission.EmitMethodEnd(c, s6, m)
  }

  /** The argument the emit passes for `$T`: the return type, or null when there is none. */
  function ReturnArgument(m: MethodSpec): Arg
  {
    match m.returnType
    case Some(t) => TypeArg(t)
    case None => Null
  }

  /** The format of a method's opening: `$T name(`. */
  function OpeningFormat(m: MethodSpec): string
  {
    "$T " + m.name + "("
  }

  /**
   * The opening: `enclosingName(` verbatim for a constructor, the format `$T name(` with the
   * return type otherwise; a method without a return type hands null to `$T`, which fails.
   */
  function EmitOpeningAsWritten(c: Emission.Config, s: Emission.WriterState, m: MethodSpec, enclosingName: string)
    : (r: Result<Emission.WriterState>)
    ensures m.name == Constructor ==> r == Ok(Emission.EmitAndIndent(c, s, enclosingName + "("))
    ensures m.name != Constructor && m.returnType.None? ==> r == Err(IllegalArgument)
  {
    if m.name == Constructor then Ok(Emission.EmitAndIndent(c, s, enclosingName + "("))
    else
      assert m.returnType.None? ==> CodeBlocks.Of(OpeningFormat(m), [ReturnArgument(m)]) == Err(IllegalArgument) by {
        if m.returnType.None? {
          assert OpeningFormat(m) == "$T" + (" " + m.name + "(");
          ParameterSpecs.OfNonTypeFails(" " + m.name + "(", Null);
        }
      }
      var block :- CodeBlocks.Of(OpeningFormat(m), [ReturnArgument(m)]);
      Emission.EmitBlock(c, s, block)
  }

  /** The parameters from the `k`-th on, as written: a comma and a wrapping space between them. */
  function EmitParametersAsWritten(c: Emission.Config, s: Emission.WriterState, m: MethodSpec, k: nat)
    : (r: Result<Emission.WriterState>)
    ensures Emission.BadVarargs(m) && k < |m.parameters| ==> r.Err?
    decreases |m.parameters| - k
  {
    if k >= |m.parameters| then Ok(s)
    else
      var s1 := if k > 0 then Emission.WrappingSpace(Emission.EmitAndIndent(c, s, ",")) else s;
      var s2 :- ParameterSpecs.EmitParameterAsWritten(c, s1, m.parameters[k], k == |m.parameters| - 1 && m.varargs);
      EmitParametersAsWritten(c, s2, m, k + 1)
  }

  /** No name the method's emit pastes into a format holds a `$`. */
  predicate DollarFree(m: MethodSpec)
  {
    && (m.name != Constructor ==> '$' !in m.name)
    && forall k :: 0 <= k < |m.parameters| ==> '$' !in m.parameters[k].name
  }

  /** Without a `$` in the names, the emit as written and `Emission.EmitMethod` agree. */
  lemma AsWrittenAgrees(c: Emission.Config, s: Emission.WriterState, m: MethodSpec, enclosingName: string, implicit: set<Modifier>)
    requires DollarFree(m)
    ensures EmitMethodAsWritten(c, s, m, enclosingName, implicit) == Emission.EmitMethod(c, s, m, enclosingName, implicit)
  {
    match Emission.EmitMethodHead(c, s, m, implicit)
    case Err(_) =>
    case Ok(s4) =>
      OpeningAgrees(c, s4, m, enclosingName);
      var o := EmitOpeningAsWritten(c, s4, m, enclosingName);
      if o.Ok? {
        ParametersAgree(c, o.value, m, 0);
      }
  }

  /** The opening as written is the corrected opening, for a method name without `$`. */
  lemma OpeningAgrees(c: Emission.Config, s: Emission.WriterState, m: MethodSpec, enclosingName: string)
    requires m.name != Constructor ==> '$' !in m.name
    ensures EmitOpeningAsWritten(c, s, m, enclosingName)
         == if m.name == Constructor then Ok(Emission.EmitAndIndent(c, s, enclosingName + "("))
            else match m.returnType
              case None => Err(IllegalArgument)
              case Some(returnType) => Emission.EmitTypeToken(c, s, returnType, Some(" " + m.name + "("))
  {
    if m.name != Constructor {
      var literal := " " + m.name + "(";
      MethodOpening(m.name);
      var arg := ReturnArgument(m);
      ParameterSpecs.OfTypeThenLiteral(literal, arg);
      if arg.TypeArg? {
        ParameterSpecs.TypeThenLiteral(c, s, CodeBlock(["$T", literal], [arg]), arg.t, literal);
      }
    }
  }

  lemma MethodOpening(name: string)
    requires '$' !in name
    ensures "$T " + name + "(" == "$T" + (" " + name + "(")
    ensures CodeBlocks.IsLiteral(" " + name + "(")
  {
  }

  /** The parameters as written are the corrected parameters, for names without `$`. */
  lemma {:induction false} ParametersAgree(c: Emission.Config, s: Emission.WriterState, m: MethodSpec, k: nat)
    requires forall j :: 0 <= j < |m.parameters| ==> '$' !in m.parameters[j].name
    ensures EmitParametersAsWritten(c, s, m, k) == Emission.EmitParameters(c, s, m, k)
    decreases |m.parameters| - k
  {
    if k < |m.parameters| {
      var s1 := if k > 0 then Emission.WrappingSpace(Emission.EmitAndIndent(c, s, ",")) else s;
      var varargs := k == |m.parameters| - 1 && m.varargs;
      ParameterSpecs.AsWrittenAgrees(c, s1, m.parameters[k], varargs);
      var e := Emission.EmitParameter(c, s1, m.parameters[k], varargs);
      if e.Ok? {
        ParametersAgree(c, e.value, m, k + 1);
      }
    }
  }

  /** A method `void a$b()` with nothing else: no javadoc, annotations, modifiers, parameters or code. */
  function DollarMethod(): MethodSpec
  {
    MethodSpec("a$b", CodeBlock([], []), [], {}, [], Some(TypeNames.VOID), [], false, [], CodeBlock([], []), None)
  }

  /**
   * With the name `a$b`, which `methodBuilder` accepts, the format `$T a$b(` reads `$b` as a
   * second relative placeholder for which there is no argument: the emit as written throws,
   * where the method should have been written as `void a$b() {` and `}`.
   */
  lemma DollarMethodBreaksEmit(c: Emission.Config, s: Emission.WriterState)
    ensures IsName("a$b")
    ensures EmitMethodAsWritten(c, s, DollarMethod(), "X", {}) == Err(IllegalArgument)
    ensures Emission.EmitMethod(c, s, DollarMethod(), "X", {}) == Ok(Emission.EmitAndIndent(c, s, "void a$b() {\n}\n"))
  {
    DollarIdentifierIsName();
    DollarMethodAsWrittenFails(c, s);
    DollarMethodEmitted(c, s);
  }

  lemma DollarMethodAsWrittenFails(c: Emission.Config, s: Emission.WriterState)
    ensures EmitMethodAsWritten(c, s, DollarMethod(), "X", {}) == Err(IllegalArgument)
  {
    BareHead(c, s, DollarMethod(), {});
    DollarOpeningFormat();
    DollarOpeningFails();
  }

  lemma DollarOpeningFormat()
    ensures OpeningFormat(DollarMethod()) == "$T a$b("
    ensures ReturnArgument(DollarMethod()) == TypeArg(TypeNames.VOID)
  {
  }

  /** The corrected emit writes the bare method as one text. */
  lemma DollarMethodEmitted(c: Emission.Config, s: Emission.WriterState)
    ensures Emission.EmitMethod(c, s, DollarMethod(), "X", {}) == Ok(Emission.EmitAndIndent(c, s, "void a$b() {\n}\n"))
  {
    var s5 := Emission.EmitAndIndent(c, s, "void a$b(");
    DollarMethodOpening(c, s);
    BareEnd(c, s5, DollarMethod());
    DollarMethodText();
    Emission.EmitAndIndentAppend(c, s, "void a$b(", ") {\n");
    Emission.EmitAndIndentAppend(c, s, "void a$b() {\n", "}\n");
  }

  /** The corrected emit opens the bare method with `void a$b(`. */
  lemma DollarMethodOpening(c: Emission.Config, s: Emission.WriterState)
    ensures Emission.EmitMethod(c, s, DollarMethod(), "X", {})
         == Emission.EmitMethodTail(c, Emission.EmitAndIndent(c, s, "void a$b("), DollarMethod())
  {
    var m := DollarMethod();
    DollarMethodName();
    BareMethodOpening(c, s, m, "X", {});
    VoidToken(c, s, " a$b(");
    Emission.EmitAndIndentAppend(c, s, "void", " a$b(");
    DollarMethodText();
  }

  lemma DollarMethodName()
    ensures DollarMethod().name != Constructor && " " + DollarMethod().name + "(" == " a$b("
  {
  }

  /** A method without a head opens with its return type and name. */
  lemma BareMethodOpening(c: Emission.Config, s: Emission.WriterState, m: MethodSpec, enclosingName: string, implicit: set<Modifier>)
    requires IsEmpty(m.javadoc) && m.annotations == [] && m.modifiers == {} && m.typeVariables == []
    requires m.name != Constructor && m.returnType.Some?
    ensures Emission.EmitMethod(c, s, m, enclosingName, implicit)
         == (var o := Emission.EmitTypeToken(c, s, m.returnType.value, Some(" " + m.name + "("));
             if o.Err? then o else Emission.EmitMethodTail(c, o.value, m))
  {
    BareHead(c, s, m, implicit);
  }

  lemma DollarMethodText()
    ensures "void" + " a$b(" == "void a$b(" && "void a$b(" + ") {\n" == "void a$b() {\n"
    ensures "void a$b() {\n" + "}\n" == "void a$b() {\n}\n"
  {
  }

  /** A method without javadoc, annotations, modifiers or type variables writes no head. */
  lemma BareHead(c: Emission.Config, s: Emission.WriterState, m: MethodSpec, implicit: set<Modifier>)
    requires IsEmpty(m.javadoc) && m.annotations == [] && m.modifiers == {} && m.typeVariables == []
    ensures Emission.EmitMethodHead(c, s, m, implicit) == Ok(s)
  {
    assert Emission.EmitAnnotationList(c, s, [], 0, false) == Ok(s);
    Emission.NoModifiers(c, s, implicit, 0);
  }

  /** `void` followed by a literal chunk. */
  lemma VoidToken(c: Emission.Config, s: Emission.WriterState, next: string)
    ensures Emission.EmitTypeToken(c, s, TypeNames.VOID, Some(next))
         == Ok(Emission.EmitAndIndent(c, Emission.EmitAndIndent(c, s, "void"), next))
  {
    assert Emission.EmitTypeAnnotations(c, s, TypeNames.VOID) == Ok(s);
  }

  /**
   * A method with no parameters, default value, exceptions, modifiers or code: `) {`, a line
   * break, and the closing brace on its own line at the starting level.
   */
  lemma BareEnd(c: Emission.Config, s: Emission.WriterState, m: MethodSpec)
    requires m.parameters == [] && m.defaultValue.None? && m.exceptions == [] && m.modifiers == {} && IsEmpty(m.code)
    ensures Emission.EmitMethodTail(c, s, m)
         == Ok(Emission.EmitAndIndent(c, Emission.EmitAndIndent(c, s, ") {\n"), "}\n"))
  {
    var s7 := Emission.EmitAndIndent(c, s, ")");
    Emission.EmitAndIndentAppend(c, s, ")", " {\n");
    var s8 := Emission.EmitAndIndent(c, s7, " {\n");
    assert Emission.EmitBlock(c, Emission.Indent(s8, 1), m.code) == Ok(Emission.Indent(s8, 1));
    assert Emission.Unindent(Emission.Indent(s8, 1), 1) == Ok(s8);
  }

  /** The scan of `$T a$b(` with one argument: `$T`, the chunk ` a`, then `$b` finds no argument left. */
  lemma DollarOpeningFails()
    ensures CodeBlocks.Of("$T a$b(", [TypeArg(TypeNames.VOID)]) == Err(IllegalArgument)
  {
    var format := "$T a$b(";
    var inputs := [TypeArg(TypeNames.VOID)];
    var s0 := CodeBlocks.Start([], [], inputs);
    assert format[0] == '$' && format[1] == 'T' && format[2] == ' ' && format[4] == '$' && format[5] == 'b';
    assert CodeBlocks.DigitsEnd(format, 1) == 1;
    var s1 := s0.(hasRelative := true, relativeCount := 1, parts := ["$T"], args := inputs);
    assert "$" + ['T'] == "$T";
    assert CodeBlocks.AddArgument('T', inputs[0]) == Ok(inputs[0]);
    assert CodeBlocks.StepAt(format, inputs, 0, s0) == CodeBlocks.Next(2, s1);
    assert Strings.IndexOf(format, '$', 3) == 4;
    assert format[2..4] == " a";
    var s2 := s1.(parts := ["$T", " a"]);
    assert CodeBlocks.StepAt(format, inputs, 2, s1) == CodeBlocks.Next(4, s2);
    CodeBlocks.RelativeBeyondFails(format, inputs, 4, s2);
    var failed := CodeBlocks.Added(s2.parts, s2.args, Fail(IllegalArgument));
    CodeBlocks.AddFromNext(format, inputs, 2, s1, 4, s2, failed);
    CodeBlocks.AddFromNext(format, inputs, 0, s0, 2, s1, failed);
  }
}
