/**
 * `TypeSpec` and its builder. The builder owns three code block builders (the javadoc, the
 * static block and the instance initializer) and keeps its enum constants in a linked map from
 * constant name to body: here a sequence of `EnumConstant`s with distinct names, in the order
 * the names were first put.
 *
 * Every `add...` that the library guards with `checkArgument`, `checkState` or a thrown
 * `UnsupportedOperationException` returns the `Outcome` of that guard and changes nothing when
 * it fails. How a type is written is `Emission.EmitTypeSpec`.
 */
module TypeSpecs {
  import opened Wrappers
  import opened Jdk
  import opened Specs
  import Util
  import ClassNames
  import TypeNames
  import CodeBlocks

  // ---------------------------------------------------------------------------------------
  // The enum constants: a linked map

  function ConstantNames(constants: seq<EnumConstant>): (r: seq<string>)
    ensures |r| == |constants| && forall i :: 0 <= i < |constants| ==> r[i] == constants[i].name
  {
    seq(|constants|, i requires 0 <= i < |constants| => constants[i].name)
  }

  /** A linked map holds each key once. */
  predicate DistinctConstantNames(constants: seq<EnumConstant>)
  {
    forall i, j :: 0 <= i < j < |constants| ==> constants[i].name != constants[j].name
  }

  /**
   * `enumConstants.put(name, body)`: the entries afterwards are the new one and every old one
   * under another name; a known name keeps its place, a new one goes last.
   */
  function PutConstant(constants: seq<EnumConstant>, name: string, body: TypeSpec): (r: seq<EnumConstant>)
    ensures forall n, b :: EnumConstant(n, b) in r <==>
      (n == name && b == body) || (n != name && EnumConstant(n, b) in constants)
    ensures ConstantNames(r) == if name in ConstantNames(constants) then ConstantNames(constants)
                                else ConstantNames(constants) + [name]
    ensures DistinctConstantNames(constants) ==> DistinctConstantNames(r)
  {
    if name in ConstantNames(constants) then
      var r := seq(|constants|, i requires 0 <= i < |constants| =>
        if constants[i].name == name then EnumConstant(name, body) else constants[i]);
      assert ConstantNames(r) == ConstantNames(constants);
      var k :| 0 <= k < |constants| && constants[k].name == name;
      assert r[k] == EnumConstant(name, body);
      forall n, b | n != name && EnumConstant(n, b) in constants
        ensures EnumConstant(n, b) in r
      {
        var j :| 0 <= j < |constants| && constants[j] == EnumConstant(n, b);
        assert r[j] == constants[j];
      }
      r
    else
      constants + [EnumConstant(name, body)]
  }

  /** `putAll(other)` from the first entry of `more` on. */
  function PutAllConstants(constants: seq<EnumConstant>, more: seq<EnumConstant>): seq<EnumConstant>
    decreases |more|
  {
    if more == [] then constants
    else PutAllConstants(PutConstant(constants, more[0].name, more[0].body), more[1..])
  }

  /** Copying a map with distinct keys after a map with none of them appends it unchanged. */
  lemma {:induction false} PutAllNewConstants(constants: seq<EnumConstant>, more: seq<EnumConstant>)
    requires DistinctConstantNames(constants + more)
    ensures PutAllConstants(constants, more) == constants + more
    decreases |more|
  {
    if more == [] {
      assert constants + more == constants;
    } else {
      var c := more[0];
      forall i | 0 <= i < |constants|
        ensures ConstantNames(constants)[i] != c.name
      {
        assert (constants + more)[i] == constants[i] && (constants + more)[|constants|] == c;
      }
      assert PutConstant(constants, c.name, c.body) == constants + [c];
      assert (constants + [c]) + more[1..] == constants + more;
      PutAllNewConstants(constants + [c], more[1..]);
    }
  }

  // ---------------------------------------------------------------------------------------
  // The checks of the builder

  /** The first `n` items pass `check` and the next one, if any, fails it. */
  function Accepted<T>(kind: Kind, items: seq<T>, check: (Kind, T) -> Outcome): (n: nat)
    ensures n <= |items|
    ensures forall i :: 0 <= i < n ==> check(kind, items[i]).Pass?
    ensures n < |items| ==> check(kind, items[n]).Fail?
    decreases |items|
  {
    if items == [] || check(kind, items[0]).Fail? then 0
    else 1 + Accepted(kind, items[1..], check)
  }

  /** A loop that stops at the first failing item has added exactly the accepted ones. */
  lemma {:induction false} AcceptedIs<T>(kind: Kind, items: seq<T>, check: (Kind, T) -> Outcome, n: nat)
    requires n <= |items| && forall i :: 0 <= i < n ==> check(kind, items[i]).Pass?
    requires n < |items| ==> check(kind, items[n]).Fail?
    ensures Accepted(kind, items, check) == n
    decreases n
  {
    if n > 0 {
      AcceptedIs(kind, items[1..], check, n - 1);
    }
  }

  /**
   * What `addField` demands: an interface or annotation field is either public or private
   * (`IllegalArgumentException` otherwise) and is static and final (`IllegalStateException`).
   */
  function FieldCheck(kind: Kind, f: FieldSpec): (r: Outcome)
    ensures r.Pass? <==> (kind == INTERFACE || kind == ANNOTATION) ==>
      Util.ExactlyOneListed(f.modifiers, [PUBLIC, PRIVATE]) && STATIC in f.modifiers && FINAL in f.modifiers
    ensures r.Fail? ==> r.error == if Util.ExactlyOneListed(f.modifiers, [PUBLIC, PRIVATE]) then IllegalState else IllegalArgument
  {
    Util.RequireExactlyOneOfPasses(f.modifiers, [PUBLIC, PRIVATE]);
    if kind != INTERFACE && kind != ANNOTATION then Pass
    else
      var exclusive := Util.RequireExactlyOneOf(f.modifiers, [PUBLIC, PRIVATE]);
      if exclusive.Fail? then exclusive
      else Util.CheckState({STATIC, FINAL} <= f.modifiers)
  }

  /** Exactly one of `abstract`, `static` and `default`, and exactly one of `public` and `private`. */
  predicate InterfaceMethodModifiers(modifiers: set<Modifier>)
  {
    Util.ExactlyOneListed(modifiers, [ABSTRACT, STATIC, DEFAULT]) && Util.ExactlyOneListed(modifiers, [PUBLIC, PRIVATE])
  }

  /**
   * What `addMethod` demands: an interface method has exclusive modifiers
   * (`IllegalArgumentException`); an annotation method has exactly the implicit modifiers,
   * only an annotation method has a default value, and only an interface method is `default`
   * (each an `IllegalStateException`).
   */
  function MethodCheck(kind: Kind, m: MethodSpec): (r: Outcome)
    ensures r.Pass? <==>
      && (kind == INTERFACE ==> InterfaceMethodModifiers(m.modifiers))
      && (kind == ANNOTATION ==> m.modifiers == {PUBLIC, ABSTRACT})
      && (kind != ANNOTATION ==> m.defaultValue.None?)
      && (kind != INTERFACE ==> DEFAULT !in m.modifiers)
    ensures r.Fail? ==> r.error == if kind == INTERFACE && !InterfaceMethodModifiers(m.modifiers) then IllegalArgument else IllegalState
  {
    Util.RequireExactlyOneOfPasses(m.modifiers, [ABSTRACT, STATIC, DEFAULT]);
    Util.RequireExactlyOneOfPasses(m.modifiers, [PUBLIC, PRIVATE]);
    var exclusive :=
      if kind != INTERFACE then Pass
      else
        var first := Util.RequireExactlyOneOf(m.modifiers, [ABSTRACT, STATIC, DEFAULT]);
        if first.Fail? then first else Util.RequireExactlyOneOf(m.modifiers, [PUBLIC, PRIVATE]);
    if exclusive.Fail? then exclusive
    else if kind == ANNOTATION && m.modifiers != kind.ImplicitMethodModifiers() then Fail(IllegalState)
    else if kind != ANNOTATION && m.defaultValue.Some? then Fail(IllegalState)
    else if kind != INTERFACE && DEFAULT in m.modifiers then Fail(IllegalState)
    else Pass
  }

  /** What `addType` demands: a nested type carries the modifiers its enclosing kind implies. */
  function TypeCheck(kind: Kind, t: TypeSpec): (r: Outcome)
    ensures r.Pass? <==> kind.ImplicitTypeModifiers() <= t.modifiers
    ensures r.Fail? ==> r.error == IllegalArgument
  {
    Util.CheckArgument(kind.ImplicitTypeModifiers() <= t.modifiers)
  }

  /**
   * What `addEnumConstant` demands: an enum (`IllegalStateException`), a body that is an
   * anonymous class and a valid constant name (each an `IllegalArgumentException`).
   */
  function EnumConstantCheck(kind: Kind, name: string, body: TypeSpec): (r: Outcome)
    ensures r.Pass? <==> kind == ENUM && body.anonymousTypeArguments.Some? && IsName(name)
    ensures r.Fail? ==> r.error == if kind != ENUM then IllegalState else IllegalArgument
  {
    if kind != ENUM then Fail(IllegalState)
    else if body.anonymousTypeArguments.None? then Fail(IllegalArgument)
    else Util.CheckArgument(IsName(name))
  }

  /**
   * What `superclass` demands: a class (`IllegalStateException`) whose superclass is still
   * `Object` (`IllegalStateException`), and a superclass that is not primitive
   * (`IllegalArgumentException`).
   */
  function SuperclassCheck(kind: Kind, current: TypeName, superclass: TypeName): (r: Outcome)
    ensures r.Pass? <==> kind == CLASS && current == TypeNames.OBJECT && !TypeNames.IsPrimitive(superclass)
    ensures r.Fail? ==> r.error == if kind == CLASS && current == TypeNames.OBJECT then IllegalArgument else IllegalState
  {
    if kind != CLASS || current != TypeNames.OBJECT then Fail(IllegalState)
    else Util.CheckArgument(!TypeNames.IsPrimitive(superclass))
  }

  /** The supertypes of a type other than `Object`. */
  function InterestingSupertypes(superclass: TypeName, superinterfaces: seq<TypeName>): nat
  {
    (if TypeNames.IsClassNamed(superclass, "java.lang.Object") then 0 else 1) + |superinterfaces|
  }

  /**
   * What `build` demands: an enum has a constant; only an abstract class, or a type that is not
   * a class, declares abstract methods; an anonymous class has at most one supertype besides
   * `Object`. Each failure is an `IllegalArgumentException`.
   */
  function BuildCheck(kind: Kind, modifiers: set<Modifier>, anonymous: bool, superclass: TypeName,
                      superinterfaces: seq<TypeName>, constantCount: nat, methodSpecs: seq<MethodSpec>): (r: Outcome)
    ensures r.Pass? <==>
      && (kind == ENUM ==> constantCount > 0)
      && (kind == CLASS && ABSTRACT !in modifiers ==>
            forall i :: 0 <= i < |methodSpecs| ==> ABSTRACT !in methodSpecs[i].modifiers)
      && (anonymous ==> InterestingSupertypes(superclass, superinterfaces) <= 1)
    ensures r.Fail? ==> r.error == IllegalArgument
  {
    var isAbstract := ABSTRACT in modifiers || kind != CLASS;
    Util.CheckArgument(
      && (kind != ENUM || constantCount > 0)
      && (forall i :: 0 <= i < |methodSpecs| ==> isAbstract || ABSTRACT !in methodSpecs[i].modifiers)
      && (!anonymous || InterestingSupertypes(superclass, superinterfaces) <= 1))
  }

  /** The `init` check of the builder: no name, or a valid one. */
  predicate ValidTypeName(name: Option<string>)
  {
    name.None? || IsName(name.value)
  }

  /** `hasModifier(modifier)`. */
  predicate HasModifier(t: TypeSpec, modifier: Modifier)
  {
    modifier in t.modifiers
  }

  /** A code block between an opening line and a closing line, indented one level. */
  function Braced(opening: string, block: seq<string>, closing: string): seq<string>
  {
    [opening, "$>"] + block + ["$<", closing]
  }

  /** Bracing a block leaves its indentation balance as it was. */
  lemma BracedBalance(parts: seq<string>, opening: string, block: seq<string>, closing: string)
    requires CodeBlocks.IsLiteral(opening) && CodeBlocks.IsLiteral(closing)
    ensures CodeBlocks.Balance(parts + Braced(opening, block, closing)) == CodeBlocks.Balance(parts) + CodeBlocks.Balance(block)
  {
    assert opening[0] in opening && closing[0] in closing;
    var head := [opening, "$>"];
    var tail := ["$<", closing];
    assert head[1..] == ["$>"] && tail[1..] == [closing] && [closing][1..] == [] && ["$>"][1..] == [];
    assert CodeBlocks.Balance(head) == 1;
    assert CodeBlocks.Balance(tail) == -1;
    CodeBlocks.BalanceAppend(head, block);
    CodeBlocks.BalanceAppend(head + block, tail);
    CodeBlocks.BalanceAppend(parts, Braced(opening, block, closing));
  }

  /** The state of a builder besides its name, kind, type arguments and code builders. */
  datatype Fields = Fields(
    annotations: seq<AnnotationSpec>,
    modifiers: seq<Modifier>,
    typeVariables: seq<TypeVariableName>,
    superclass: TypeName,
    superinterfaces: seq<TypeName>,
    enumConstants: seq<EnumConstant>,
    fieldSpecs: seq<FieldSpec>,
    methodSpecs: seq<MethodSpec>,
    typeSpecs: seq<TypeSpec>)

  const EmptyFields: Fields := Fields([], [], [], TypeNames.OBJECT, [], [], [], [], [])

  /** `TypeSpec.Builder`. */
  class Builder {
    const kind: Kind
    const name: Option<string>
    const anonymousTypeArguments: Option<CodeBlock>
    const javadoc: CodeBlocks.Builder
    const staticBlock: CodeBlocks.Builder
    const initializerBlock: CodeBlocks.Builder
    var annotations: seq<AnnotationSpec>
    var modifiers: seq<Modifier>
    var typeVariables: seq<TypeVariableName>
    var superclass: TypeName
    var superinterfaces: seq<TypeName>
    var enumConstants: seq<EnumConstant>
    var fieldSpecs: seq<FieldSpec>
    var methodSpecs: seq<MethodSpec>
    var typeSpecs: seq<TypeSpec>

    /** The three code builders are distinct objects, and the enum constants a map. */
    predicate Valid()
      reads this
    {
      javadoc != staticBlock && javadoc != initializerBlock && staticBlock != initializerBlock
      && DistinctConstantNames(enumConstants)
    }

    function Current(): Fields
      reads this
    {
      Fields(annotations, modifiers, typeVariables, superclass, superinterfaces, enumConstants,
             fieldSpecs, methodSpecs, typeSpecs)
    }

    /** The builder's initial state; the name is checked by `NewBuilder`. */
    constructor (kind: Kind, name: Option<string>, anonymousTypeArguments: Option<CodeBlock>)
      ensures Valid() && fresh(javadoc) && fresh(staticBlock) && fresh(initializerBlock)
      ensures this.kind == kind && this.name == name && this.anonymousTypeArguments == anonymousTypeArguments
      ensures javadoc.formatParts == [] && javadoc.args == []
      ensures staticBlock.formatParts == [] && staticBlock.args == []
      ensures initializerBlock.formatParts == [] && initializerBlock.args == []
      ensures Current() == EmptyFields
    {
      this.kind := kind;
      this.name := name;
      this.anonymousTypeArguments := anonymousTypeArguments;
      javadoc := new CodeBlocks.Builder();
      staticBlock := new CodeBlocks.Builder();
      initializerBlock := new CodeBlocks.Builder();
      annotations := [];
      modifiers := [];
      typeVariables := [];
      superclass := TypeNames.OBJECT;
      superinterfaces := [];
      enumConstants := [];
      fieldSpecs := [];
      methodSpecs := [];
      typeSpecs := [];
    }

    /** `addJavadoc(format, *args)`. */
    method AddJavadoc(format: string, inputs: seq<Arg>) returns (outcome: Outcome)
      modifies javadoc
      ensures CodeBlocks.Added(javadoc.formatParts, javadoc.args, outcome)
           == CodeBlocks.AddSpec(old(javadoc.formatParts), old(javadoc.args), format, inputs)
    {
      outcome := javadoc.Add(format, inputs);
    }

    /** `addJavadoc(block)`. */
    method AddJavadocBlock(block: CodeBlock)
      modifies javadoc
      ensures javadoc.formatParts == old(javadoc.formatParts) + block.formatParts
      ensures javadoc.args == old(javadoc.args) + block.args
    {
      javadoc.AddBlock(block);
    }

    /** `addAnnotations(annotationSpecs)`. */
    method AddAnnotations(annotationSpecs: seq<AnnotationSpec>)
      modifies this
      ensures Current() == old(Current()).(annotations := old(annotations) + annotationSpecs)
    {
      for i := 0 to |annotationSpecs|
        invariant Current() == old(Current()).(annotations := old(annotations) + annotationSpecs[..i])
      {
        annotations := annotations + [annotationSpecs[i]];
      }
    }

    /** `addAnnotation(annotationSpec)`. */
    method AddAnnotation(annotationSpec: AnnotationSpec)
      modifies this
      ensures Current() == old(Current()).(annotations := old(annotations) + [annotationSpec])
    {
      annotations := annotations + [annotationSpec];
    }

    /** `addAnnotation(className)`: an annotation of that class without members. */
    method AddAnnotationOfClass(annotation: ClassName)
      modifies this
      ensures Current() == old(Current()).(annotations := old(annotations) + [AnnotationSpec(Class(annotation), [])])
    {
      AddAnnotation(AnnotationSpec(Class(annotation), []));
    }

    /** `addModifiers(modifiers)`: forbidden on an anonymous class; appended in order otherwise. */
    method AddModifiers(more: seq<Modifier>) returns (outcome: Outcome)
      modifies this
      ensures outcome.Pass? <==> anonymousTypeArguments.None?
      ensures outcome.Fail? ==> outcome.error == IllegalState && Current() == old(Current())
      ensures outcome.Pass? ==> Current() == old(Current()).(modifiers := old(modifiers) + more)
    {
      if anonymousTypeArguments.Some? {
        return Fail(IllegalState);
      }
      for i := 0 to |more|
        invariant Current() == old(Current()).(modifiers := old(modifiers) + more[..i])
      {
        modifiers := modifiers + [more[i]];
      }
      return Pass;
    }

    /** `addTypeVariables(typeVariables)`: forbidden on an anonymous class. */
    method AddTypeVariables(more: seq<TypeVariableName>) returns (outcome: Outcome)
      modifies this
      ensures outcome.Pass? <==> anonymousTypeArguments.None?
      ensures outcome.Fail? ==> outcome.error == IllegalState && Current() == old(Current())
      ensures outcome.Pass? ==> Current() == old(Current()).(typeVariables := old(typeVariables) + more)
    {
      if anonymousTypeArguments.Some? {
        return Fail(IllegalState);
      }
      for i := 0 to |more|
        invariant Current() == old(Current()).(typeVariables := old(typeVariables) + more[..i])
      {
        typeVariables := typeVariables + [more[i]];
      }
      return Pass;
    }

    /** `addTypeVariable(typeVariable)`: forbidden on an anonymous class. */
    method AddTypeVariable(typeVariable: TypeVariableName) returns (outcome: Outcome)
      modifies this
      ensures outcome.Pass? <==> anonymousTypeArguments.None?
      ensures outcome.Fail? ==> outcome.error == IllegalState && Current() == old(Current())
      ensures outcome.Pass? ==> Current() == old(Current()).(typeVariables := old(typeVariables) + [typeVariable])
    {
      if anonymousTypeArguments.Some? {
        return Fail(IllegalState);
      }
      typeVariables := typeVariables + [typeVariable];
      return Pass;
    }

    /** `superclass(superclass)`: set once, on a class, to a type that is not primitive. */
    method Superclass(t: TypeName) returns (outcome: Outcome)
      modifies this
      ensures outcome == SuperclassCheck(kind, old(superclass), t)
      ensures outcome.Fail? ==> Current() == old(Current())
      ensures outcome.Pass? ==> Current() == old(Current()).(superclass := t)
    {
      outcome := SuperclassCheck(kind, superclass, t);
      if outcome.Pass? {
        superclass := t;
      }
    }

    /** `addSuperinterfaces(superinterfaces)`. */
    method AddSuperinterfaces(more: seq<TypeName>)
      modifies this
      ensures Current() == old(Current()).(superinterfaces := old(superinterfaces) + more)
    {
      for i := 0 to |more|
        invariant Current() == old(Current()).(superinterfaces := old(superinterfaces) + more[..i])
      {
        AddSuperinterface(more[i]);
      }
    }

    /** `addSuperinterface(superinterface)`. */
    method AddSuperinterface(t: TypeName)
      modifies this
      ensures Current() == old(Current()).(superinterfaces := old(superinterfaces) + [t])
    {
      superinterfaces := superinterfaces + [t];
    }

    /** `addEnumConstant(name, typeSpec)`: the constant is put into the map. */
    method AddEnumConstant(constantName: string, body: TypeSpec) returns (outcome: Outcome)
      modifies this
      ensures outcome == EnumConstantCheck(kind, constantName, body)
      ensures outcome.Fail? ==> Current() == old(Current())
      ensures outcome.Pass? ==>
        Current() == old(Current()).(enumConstants := PutConstant(old(enumConstants), constantName, body))
      ensures old(Valid()) ==> Valid()
    {
      outcome := EnumConstantCheck(kind, constantName, body);
      if outcome.Pass? {
        enumConstants := PutConstant(enumConstants, constantName, body);
      }
    }

    /** `addEnumConstant(name)`: the body is an empty anonymous class. */
    method AddPlainEnumConstant(constantName: string) returns (outcome: Outcome)
      modifies this
      ensures outcome.Pass? <==> kind == ENUM && IsName(constantName)
      ensures outcome.Fail? ==> outcome.error == (if kind != ENUM then IllegalState else IllegalArgument)
      ensures outcome.Fail? ==> Current() == old(Current())
      ensures outcome.Pass? ==>
        Current() == old(Current()).(enumConstants := PutConstant(old(enumConstants), constantName, EmptyAnonymousClass))
      ensures old(Valid()) ==> Valid()
    {
      EmptyAnonymousClassBuilds();
      var anonymous := AnonymousClassBuilder("", []);
      var b := anonymous.value;
      assert b.anonymousTypeArguments == Some(EmptyBlock);
      assert (set m | m in b.modifiers) == {};
      var body := b.Build();
      assert body == Ok(EmptyAnonymousClass);
      outcome := AddEnumConstant(constantName, body.value);
    }

    /** `addFields(fieldSpecs)`: the fields are added one by one up to the first refused. */
    method AddFields(more: seq<FieldSpec>) returns (outcome: Outcome)
      modifies this
      ensures var n := Accepted(kind, more, FieldCheck);
        && Current() == old(Current()).(fieldSpecs := old(fieldSpecs) + more[..n])
        && outcome == if n == |more| then Pass else FieldCheck(kind, more[n])
    {
      for i := 0 to |more|
        invariant Current() == old(Current()).(fieldSpecs := old(fieldSpecs) + more[..i])
        invariant forall j :: 0 <= j < i ==> FieldCheck(kind, more[j]).Pass?
      {
        outcome := AddField(more[i]);
        if outcome.Fail? {
          AcceptedIs(kind, more, FieldCheck, i);
          return;
        }
      }
      AcceptedIs(kind, more, FieldCheck, |more|);
      assert more[..|more|] == more;
      return Pass;
    }

    /** `addField(fieldSpec)`. */
    method AddField(f: FieldSpec) returns (outcome: Outcome)
      modifies this
      ensures outcome == FieldCheck(kind, f)
      ensures outcome.Fail? ==> Current() == old(Current())
      ensures outcome.Pass? ==> Current() == old(Current()).(fieldSpecs := old(fieldSpecs) + [f])
    {
      outcome := FieldCheck(kind, f);
      if outcome.Pass? {
        fieldSpecs := fieldSpecs + [f];
      }
    }

    /** `addStaticBlock(block)`: the block inside `static { ... }`. */
    method AddStaticBlock(block: CodeBlock)
      modifies staticBlock
      ensures staticBlock.formatParts == old(staticBlock.formatParts) + Braced("static {\n", block.formatParts, "}\n")
      ensures staticBlock.args == old(staticBlock.args) + block.args
      ensures CodeBlocks.Balance(staticBlock.formatParts) == CodeBlocks.Balance(old(staticBlock.formatParts)) + CodeBlocks.Balance(block.formatParts)
    {
      CodeBlocks.BeginControlFlowShape(staticBlock.formatParts, staticBlock.args, "static", []);
      assert "static" + " {\n" == "static {\n";
      var began := staticBlock.BeginControlFlow("static", []);
      staticBlock.AddBlock(block);
      CodeBlocks.EndControlFlowShape(staticBlock.formatParts, staticBlock.args);
      var ended := staticBlock.EndControlFlow();
      assert staticBlock.formatParts == old(staticBlock.formatParts) + ["static {\n", "$>"] + block.formatParts + ["$<", "}\n"];
      BracedBalance(old(staticBlock.formatParts), "static {\n", block.formatParts, "}\n");
    }

    /** `addInitializerBlock(block)`: only classes and enums have one; the block inside `{ ... }`. */
    method AddInitializerBlock(block: CodeBlock) returns (outcome: Outcome)
      modifies initializerBlock
      ensures outcome.Pass? <==> kind == CLASS || kind == ENUM
      ensures outcome.Fail? ==> outcome.error == Unsupported && initializerBlock.formatParts == old(initializerBlock.formatParts)
      ensures outcome.Fail? ==> initializerBlock.args == old(initializerBlock.args)
      ensures outcome.Pass? ==>
        initializerBlock.formatParts == old(initializerBlock.formatParts) + Braced("{\n", block.formatParts, "}\n")
      ensures outcome.Pass? ==> initializerBlock.args == old(initializerBlock.args) + block.args
      ensures CodeBlocks.Balance(initializerBlock.formatParts) ==
        CodeBlocks.Balance(old(initializerBlock.formatParts)) + if outcome.Pass? then CodeBlocks.Balance(block.formatParts) else 0
    {
      if kind != CLASS && kind != ENUM {
        return Fail(Unsupported);
      }
      CodeBlocks.AddLiteral(initializerBlock.formatParts, initializerBlock.args, "{\n", []);
      var o1 := initializerBlock.Add("{\n", []);
      initializerBlock.Indent();
      initializerBlock.AddBlock(block);
      initializerBlock.Unindent();
      CodeBlocks.AddLiteral(initializerBlock.formatParts, initializerBlock.args, "}\n", []);
      var o2 := initializerBlock.Add("}\n", []);
      BracedBalance(old(initializerBlock.formatParts), "{\n", block.formatParts, "}\n");
      return Pass;
    }

    /** `addMethods(methodSpecs)`: the methods are added one by one up to the first refused. */
    method AddMethods(more: seq<MethodSpec>) returns (outcome: Outcome)
      modifies this
      ensures var n := Accepted(kind, more, MethodCheck);
        && Current() == old(Current()).(methodSpecs := old(methodSpecs) + more[..n])
        && outcome == if n == |more| then Pass else MethodCheck(kind, more[n])
    {
      for i := 0 to |more|
        invariant Current() == old(Current()).(methodSpecs := old(methodSpecs) + more[..i])
        invariant forall j :: 0 <= j < i ==> MethodCheck(kind, more[j]).Pass?
      {
        outcome := AddMethod(more[i]);
        if outcome.Fail? {
          AcceptedIs(kind, more, MethodCheck, i);
          return;
        }
      }
      AcceptedIs(kind, more, MethodCheck, |more|);
      assert more[..|more|] == more;
      return Pass;
    }

    /** `addMethod(methodSpec)`. */
    method AddMethod(m: MethodSpec) returns (outcome: Outcome)
      modifies this
      ensures outcome == MethodCheck(kind, m)
      ensures outcome.Fail? ==> Current() == old(Current())
      ensures outcome.Pass? ==> Current() == old(Current()).(methodSpecs := old(methodSpecs) + [m])
    {
      outcome := MethodCheck(kind, m);
      if outcome.Pass? {
        methodSpecs := methodSpecs + [m];
      }
    }

    /** `addTypes(typeSpecs)`: the types are added one by one up to the first refused. */
    method AddTypes(more: seq<TypeSpec>) returns (outcome: Outcome)
      modifies this
      ensures var n := Accepted(kind, more, TypeCheck);
        && Current() == old(Current()).(typeSpecs := old(typeSpecs) + more[..n])
        && outcome == if n == |more| then Pass else TypeCheck(kind, more[n])
    {
      for i := 0 to |more|
        invariant Current() == old(Current()).(typeSpecs := old(typeSpecs) + more[..i])
        invariant forall j :: 0 <= j < i ==> TypeCheck(kind, more[j]).Pass?
      {
        outcome := AddType(more[i]);
        if outcome.Fail? {
          AcceptedIs(kind, more, TypeCheck, i);
          return;
        }
      }
      AcceptedIs(kind, more, TypeCheck, |more|);
      assert more[..|more|] == more;
      return Pass;
    }

    /** `addType(typeSpec)`. */
    method AddType(t: TypeSpec) returns (outcome: Outcome)
      modifies this
      ensures outcome == TypeCheck(kind, t)
      ensures outcome.Fail? ==> Current() == old(Current())
      ensures outcome.Pass? ==> Current() == old(Current()).(typeSpecs := old(typeSpecs) + [t])
    {
      outcome := TypeCheck(kind, t);
      if outcome.Pass? {
        typeSpecs := typeSpecs + [t];
      }
    }

    /** `build()`: the spec, with the modifiers as a set, once the checks of `BuildCheck` pass. */
    function Build(): (r: Result<TypeSpec>)
      reads this, javadoc, staticBlock, initializerBlock
      ensures r.Ok? <==> BuildCheck(kind, (set m | m in modifiers), anonymousTypeArguments.Some?, superclass,
                                    superinterfaces, |enumConstants|, methodSpecs).Pass?
      ensures r.Err? ==> r.error == IllegalArgument
      ensures r.Ok? ==>
        && r.value.kind == kind && r.value.name == name && r.value.anonymousTypeArguments == anonymousTypeArguments
        && r.value.javadoc == javadoc.Build() && r.value.staticBlock == staticBlock.Build()
        && r.value.initializerBlock == initializerBlock.Build()
        && r.value.annotations == annotations && r.value.typeVariables == typeVariables
        && r.value.superclass == superclass && r.value.superinterfaces == superinterfaces
        && r.value.enumConstants == enumConstants && r.value.fieldSpecs == fieldSpecs
        && r.value.methodSpecs == methodSpecs && r.value.typeSpecs == typeSpecs
        && forall m :: m in r.value.modifiers <==> m in modifiers
    {
      var modifierSet := set m | m in modifiers;
      var checked := BuildCheck(kind, modifierSet, anonymousTypeArguments.Some?, superclass,
                                superinterfaces, |enumConstants|, methodSpecs);
      if checked.Fail? then Err(checked.error)
      else Ok(TypeSpec(kind, name, anonymousTypeArguments, javadoc.Build(), annotations, modifierSet,
                       typeVariables, superclass, superinterfaces, enumConstants, fieldSpecs,
                       staticBlock.Build(), initializerBlock.Build(), methodSpecs, typeSpecs))
    }
  }

  /** `TypeSpec.Builder(kind, name, anonymousTypeArguments)`: a name, if any, must be valid. */
  method NewBuilder(kind: Kind, name: Option<string>, anonymousTypeArguments: Option<CodeBlock>) returns (r: Result<Builder>)
    ensures r.Ok? <==> ValidTypeName(name)
    ensures r.Err? ==> r.error == IllegalArgument
    ensures r.Ok? ==>
      && fresh(r.value) && fresh(r.value.javadoc) && fresh(r.value.staticBlock) && fresh(r.value.initializerBlock)
      && r.value.Valid() && r.value.kind == kind && r.value.name == name
      && r.value.anonymousTypeArguments == anonymousTypeArguments
      && r.value.javadoc.formatParts == [] && r.value.javadoc.args == []
      && r.value.staticBlock.formatParts == [] && r.value.staticBlock.args == []
      && r.value.initializerBlock.formatParts == [] && r.value.initializerBlock.args == []
      && r.value.Current() == EmptyFields
  {
    if !ValidTypeName(name) {
      return Err(IllegalArgument);
    }
    var b := new Builder(kind, name, anonymousTypeArguments);
    return Ok(b);
  }

  /** `classBuilder`, `interfaceBuilder`, `enumBuilder` and `annotationBuilder` of a name. */
  method NamedBuilder(kind: Kind, name: string) returns (r: Result<Builder>)
    ensures r.Ok? <==> IsName(name)
    ensures r.Err? ==> r.error == IllegalArgument
    ensures r.Ok? ==>
      && fresh(r.value) && r.value.Valid() && r.value.kind == kind && r.value.name == Some(name)
      && r.value.anonymousTypeArguments == None && r.value.Current() == EmptyFields
  {
    r := NewBuilder(kind, Some(name), None);
  }

  /** The same factories given a class name: the builder is named after its simple name. */
  method NamedBuilderOf(kind: Kind, className: ClassName) returns (r: Result<Builder>)
    ensures r.Ok? <==> IsName(ClassNames.SimpleName(className))
    ensures r.Err? ==> r.error == IllegalArgument
    ensures r.Ok? ==> fresh(r.value) && r.value.Valid() && r.value.kind == kind
    ensures r.Ok? ==> r.value.name == Some(ClassNames.SimpleName(className)) && r.value.Current() == EmptyFields
  {
    r := NamedBuilder(kind, ClassNames.SimpleName(className));
  }

  /** `anonymousClassBuilder(format, *args)`: a class without a name, given its constructor arguments. */
  method AnonymousClassBuilder(format: string, inputs: seq<Arg>) returns (r: Result<Builder>)
    ensures r.Ok? <==> CodeBlocks.Of(format, inputs).Ok?
    ensures r.Err? ==> r.error == CodeBlocks.Of(format, inputs).error
    ensures r.Ok? ==>
      && fresh(r.value) && r.value.Valid() && r.value.kind == CLASS && r.value.name == None
      && r.value.anonymousTypeArguments == Some(CodeBlocks.Of(format, inputs).value)
      && r.value.javadoc.Build() == EmptyBlock && r.value.staticBlock.Build() == EmptyBlock
      && r.value.initializerBlock.Build() == EmptyBlock && r.value.Current() == EmptyFields
  {
    var arguments := CodeBlocks.Of(format, inputs);
    if arguments.Err? {
      return Err(arguments.error);
    }
    r := NewBuilder(CLASS, None, Some(arguments.value));
  }

  const EmptyBlock: CodeBlock := CodeBlock([], [])

  /** `anonymousClassBuilder("").build()`: the body of an enum constant given none. */
  const EmptyAnonymousClass: TypeSpec :=
    TypeSpec(CLASS, None, Some(EmptyBlock), EmptyBlock, [], {}, [], TypeNames.OBJECT, [], [], [],
             EmptyBlock, EmptyBlock, [], [])

  /** An anonymous class with empty arguments and nothing else builds to `EmptyAnonymousClass`. */
  lemma EmptyAnonymousClassBuilds()
    ensures CodeBlocks.Of("", []) == Ok(EmptyBlock)
    ensures EmptyAnonymousClass.anonymousTypeArguments.Some?
    ensures BuildCheck(CLASS, {}, true, TypeNames.OBJECT, [], 0, []).Pass?
  {
    assert TypeNames.IsClassNamed(TypeNames.OBJECT, "java.lang.Object") by {
      assert ClassNames.CanonicalName(Object) == "java.lang.Object";
    }
  }

  /**
   * `toBuilder()`: a builder of the same kind, name and type arguments holding all of the
   * spec's parts; building it gives the spec back when the spec passes the checks of `build()`
   * and names each enum constant once.
   */
  method ToBuilder(t: TypeSpec) returns (r: Result<Builder>)
    ensures r.Ok? <==> ValidTypeName(t.name)
    ensures r.Err? ==> r.error == IllegalArgument
    ensures r.Ok? ==> fresh(r.value) && r.value.Valid()
    ensures r.Ok? ==> r.value.enumConstants == PutAllConstants([], t.enumConstants)
    ensures r.Ok? && DistinctConstantNames(t.enumConstants)
      && BuildCheck(t.kind, t.modifiers, t.anonymousTypeArguments.Some?, t.superclass, t.superinterfaces,
                    |t.enumConstants|, t.methodSpecs).Pass?
      ==> r.value.Build() == Ok(t)
  {
    r := NewBuilder(t.kind, t.name, t.anonymousTypeArguments);
    if r.Err? {
      return;
    }
    var b := r.value;
    CopyParts(b, t);
    ListedSet(t.modifiers);
    if DistinctConstantNames(t.enumConstants) {
      assert [] + t.enumConstants == t.enumConstants;
      PutAllNewConstants([], t.enumConstants);
    }
  }

  /** The part of `toBuilder()` that copies the spec's parts into a fresh builder. */
  method CopyParts(b: Builder, t: TypeSpec)
    requires b.Valid() && b.Current() == EmptyFields
    requires b.javadoc.formatParts == [] && b.javadoc.args == []
    requires b.staticBlock.formatParts == [] && b.staticBlock.args == []
    requires b.initializerBlock.formatParts == [] && b.initializerBlock.args == []
    modifies b, b.javadoc, b.staticBlock, b.initializerBlock
    ensures b.Valid()
    ensures b.Current() == Fields(t.annotations, Listed(t.modifiers), t.typeVariables, t.superclass,
                                  t.superinterfaces, PutAllConstants([], t.enumConstants), t.fieldSpecs,
                                  t.methodSpecs, t.typeSpecs)
    ensures b.javadoc.Build() == t.javadoc && b.staticBlock.Build() == t.staticBlock
    ensures b.initializerBlock.Build() == t.initializerBlock
  {
    b.AddJavadocBlock(t.javadoc);
    CopyFields(b, t);
    b.initializerBlock.AddBlock(t.initializerBlock);
    b.staticBlock.AddBlock(t.staticBlock);
  }

  /** The lists, the modifiers, the superclass and the enum constants of `toBuilder()`. */
  method CopyFields(b: Builder, t: TypeSpec)
    requires b.Valid() && b.Current() == EmptyFields
    modifies b
    ensures b.Valid()
    ensures b.Current() == Fields(t.annotations, Listed(t.modifiers), t.typeVariables, t.superclass,
                                  t.superinterfaces, PutAllConstants([], t.enumConstants), t.fieldSpecs,
                                  t.methodSpecs, t.typeSpecs)
  {
    CopyDeclaration(b, t);
    PutAllConstantsInto(b, t.enumConstants);
    b.fieldSpecs := t.fieldSpecs;
    b.methodSpecs := t.methodSpecs;
    b.typeSpecs := t.typeSpecs;
  }

  /** The annotations, modifiers, type variables and supertypes of `toBuilder()`. */
  method CopyDeclaration(b: Builder, t: TypeSpec)
    requires b.Valid() && b.Current() == EmptyFields
    modifies b
    ensures b.Valid()
    ensures b.Current() == EmptyFields.(annotations := t.annotations, modifiers := Listed(t.modifiers),
                                        typeVariables := t.typeVariables, superclass := t.superclass,
                                        superinterfaces := t.superinterfaces)
  {
    b.AddAnnotations(t.annotations);
    b.modifiers := Listed(t.modifiers);
    b.typeVariables := t.typeVariables;
    b.superclass := t.superclass;
    b.AddSuperinterfaces(t.superinterfaces);
  }

  /** `enumConstants.putAll(other)` on a builder. */
  method PutAllConstantsInto(b: Builder, more: seq<EnumConstant>)
    requires b.Valid()
    modifies b
    ensures b.Valid()
    ensures b.Current() == old(b.Current()).(enumConstants := PutAllConstants(old(b.enumConstants), more))
  {
    for i := 0 to |more|
      invariant b.Valid()
      invariant PutAllConstants(b.enumConstants, more[i..]) == PutAllConstants(old(b.enumConstants), more)
      invariant b.Current() == old(b.Current()).(enumConstants := b.enumConstants)
    {
      assert more[i..][1..] == more[i + 1..];
      b.enumConstants := PutConstant(b.enumConstants, more[i].name, more[i].body);
    }
  }
}
