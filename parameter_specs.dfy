/**
 * `ParameterSpec` and its builder: the builder collects annotations and modifiers in lists,
 * and the built spec keeps the annotations in order and the modifiers as a set.
 *
 * How a parameter is written is `Emission.EmitParameter`; this module also holds the same
 * emit as the library writes it, with the name spliced into a format string.
 */
module ParameterSpecs {
  import opened Wrappers
  import opened Strings
  import opened Jdk
  import opened Specs
  import TypeNames
  import CodeBlocks
  import Emission

  /** `ParameterSpec.Builder`: a type and a name fixed at creation, and two growing lists. */
  class Builder {
    const paramType: TypeName
    const name: string
    var annotations: seq<AnnotationSpec>
    var modifiers: seq<Modifier>

    constructor (paramType: TypeName, name: string)
      ensures this.paramType == paramType && this.name == name
      ensures annotations == [] && modifiers == []
    {
      this.paramType := paramType;
      this.name := name;
      annotations := [];
      modifiers := [];
    }

    /** `addAnnotations(annotationSpecs)`: each one appended, in order. */
    method AddAnnotations(annotationSpecs: seq<AnnotationSpec>)
      modifies this
      ensures annotations == old(annotations) + annotationSpecs
      ensures modifiers == old(modifiers)
    {
      for i := 0 to |annotationSpecs|
        invariant annotations == old(annotations) + annotationSpecs[..i]
        invariant modifiers == old(modifiers)
      {
        annotations := annotations + [annotationSpecs[i]];
      }
    }

    /** `addAnnotation(annotationSpec)`. */
    method AddAnnotation(annotationSpec: AnnotationSpec)
      modifies this
      ensures annotations == old(annotations) + [annotationSpec]
      ensures modifiers == old(modifiers)
    {
      annotations := annotations + [annotationSpec];
    }

    /** `addAnnotation(className)`: an annotation of that class with no members. */
    method AddAnnotationOfClass(annotation: ClassName)
      modifies this
      ensures annotations == old(annotations) + [AnnotationSpec(Class(annotation), [])]
      ensures modifiers == old(modifiers)
    {
      AddAnnotation(AnnotationSpec(Class(annotation), []));
    }

    /** `addModifiers(modifiers)`: each one appended, in order, duplicates included. */
    method AddModifiers(more: seq<Modifier>)
      modifies this
      ensures modifiers == old(modifiers) + more
      ensures annotations == old(annotations)
    {
      for i := 0 to |more|
        invariant modifiers == old(modifiers) + more[..i]
        invariant annotations == old(annotations)
      {
        modifiers := modifiers + [more[i]];
      }
    }

    /** `build()`: the annotations as they are, the modifiers as a set. */
    function Build(): (p: ParameterSpec)
      reads this
      ensures p.name == name && p.paramType == paramType && p.annotations == annotations
      ensures forall m :: m in p.modifiers <==> m in modifiers
    {
      ParameterSpec(name, annotations, (set m | m in modifiers), paramType)
    }
  }

  /** `ParameterSpec.builder(type, name, *modifiers)`: the name must be a valid name. */
  method NewBuilder(paramType: TypeName, name: string, modifiers: seq<Modifier>) returns (r: Result<Builder>)
    ensures r.Ok? <==> IsName(name)
    ensures r.Err? ==> r.error == IllegalArgument
    ensures r.Ok? ==>
      && fresh(r.value) && r.value.paramType == paramType && r.value.name == name
      && r.value.annotations == [] && r.value.modifiers == modifiers
  {
    if !IsName(name) {
      return Err(IllegalArgument);
    }
    var b := new Builder(paramType, name);
    b.AddModifiers(modifiers);
    return Ok(b);
  }

  /**
   * `toBuilder(type, name)`: a builder for another type and name that carries the spec's
   * annotations and modifiers, so that building it changes only the type and the name.
   */
  method ToBuilder(p: ParameterSpec, paramType: TypeName, name: string) returns (b: Builder)
    ensures fresh(b)
    ensures b.paramType == paramType && b.name == name && b.annotations == p.annotations
    ensures b.Build() == p.(paramType := paramType, name := name)
  {
    b := new Builder(paramType, name);
    b.AddAnnotations(p.annotations);
    b.AddModifiers(Listed(p.modifiers));
  }

  /** `hasModifier(modifier)`. */
  predicate HasModifier(p: ParameterSpec, modifier: Modifier)
  {
    modifier in p.modifiers
  }

  /** Every modifier handed to `builder` or `addModifiers` is one the built spec has. */
  lemma BuiltHasModifiers(p: ParameterSpec, first: seq<Modifier>, later: seq<Modifier>, modifier: Modifier)
    requires forall m :: m in p.modifiers <==> m in first + later
    ensures HasModifier(p, modifier) <==> modifier in first || modifier in later
  {
  }

  // ---------------------------------------------------------------------------------------
  // The emit as the library writes it
  // ---------------------------------------------------------------------------------------

  /**
   * `ParameterSpec.emit` as written: the name is pasted into the format string, so the
   * scanner of `CodeBlock.of` reads any `$` in it as a placeholder. A varargs parameter whose
   * type is not an array hands null to `$T`, which fails.
   */
  function EmitParameterAsWritten(c: Emission.Config, s: Emission.WriterState, p: ParameterSpec, varargs: bool)
    : (r: Result<Emission.WriterState>)
    ensures varargs && !p.paramType.Array? ==> r.Err?
  {
    var s1 :- Emission.EmitAnnotationList(c, s, p.annotations, 0, true);
    EmitParameterNameAsWritten(c, Emission.EmitModifiers(c, s1, p.modifiers, {}), p, varargs)
  }

  /** The argument the emit passes for `$T`: the array's component type for varargs, else the type (null for a varargs non-array). */
  function TypeArgument(p: ParameterSpec, varargs: bool): Arg
  {
    if !varargs then TypeArg(p.paramType)
    else match TypeNames.ArrayComponent(p.paramType)
      case Some(component) => TypeArg(component)
      case None => Null
  }

  /** The format the emit builds: `$T` followed by the name, with `...` for varargs. */
  function NameFormat(p: ParameterSpec, varargs: bool): string
  {
    if varargs then "$T... " + p.name else "$T " + p.name
  }

  function EmitParameterNameAsWritten(c: Emission.Config, s: Emission.WriterState, p: ParameterSpec, varargs: bool)
    : (r: Result<Emission.WriterState>)
    ensures varargs && !p.paramType.Array? ==> r == Err(IllegalArgument)
  {
    assert varargs && !p.paramType.Array? ==> CodeBlocks.Of(NameFormat(p, varargs), [TypeArgument(p, varargs)]) == Err(IllegalArgument) by {
      if varargs && !p.paramType.Array? {
        assert NameFormat(p, varargs) == "$T" + ("... " + p.name);
        OfNonTypeFails("... " + p.name, Null);
      }
    }
    var block :- CodeBlocks.Of(NameFormat(p, varargs), [TypeArgument(p, varargs)]);
    Emission.EmitBlock(c, s, block)
  }

  /** For a name without `$`, the emit as written and `Emission.EmitParameter` agree. */
  lemma AsWrittenAgrees(c: Emission.Config, s: Emission.WriterState, p: ParameterSpec, varargs: bool)
    requires '$' !in p.name
    ensures EmitParameterAsWritten(c, s, p, varargs) == Emission.EmitParameter(c, s, p, varargs)
  {
    match Emission.EmitAnnotationList(c, s, p.annotations, 0, true)
    case Err(_) =>
    case Ok(s1) =>
      NameAgrees(c, Emission.EmitModifiers(c, s1, p.modifiers, {}), p, varargs);
  }

  /** What the format carries after its `$T`: the name, with `...` in front for varargs. */
  function NameLiteral(p: ParameterSpec, varargs: bool): string
  {
    if varargs then "... " + p.name else " " + p.name
  }

  /** For a name without `$`, the format is `$T` followed by one literal chunk. */
  lemma NameFormatSplits(p: ParameterSpec, varargs: bool)
    requires '$' !in p.name
    ensures NameFormat(p, varargs) == "$T" + NameLiteral(p, varargs)
    ensures CodeBlocks.IsLiteral(NameLiteral(p, varargs))
  {
  }

  /**
   * For a name without `$`, emitting the format as written writes the type followed by the
   * name, as `Emission.EmitParameterName` does.
   */
  lemma NameAgrees(c: Emission.Config, s: Emission.WriterState, p: ParameterSpec, varargs: bool)
    requires '$' !in p.name
    ensures EmitParameterNameAsWritten(c, s, p, varargs) == Emission.EmitParameterName(c, s, p, varargs)
  {
    var arg := TypeArgument(p, varargs);
    var literal := NameLiteral(p, varargs);
    NameFormatSplits(p, varargs);
    OfTypeThenLiteral(literal, arg);
    if arg.TypeArg? {
      TypeThenLiteral(c, s, CodeBlock(["$T", literal], [arg]), arg.t, literal);
    }
  }

  /** `CodeBlock.of("$T" + literal, arg)`: the two parts when `arg` is a type, else the failure of `$T`. */
  lemma OfTypeThenLiteral(literal: string, arg: Arg)
    requires CodeBlocks.IsLiteral(literal)
    ensures arg.TypeArg? ==> CodeBlocks.Of("$T" + literal, [arg]) == Ok(CodeBlock(["$T", literal], [arg]))
    ensures !arg.TypeArg? ==> CodeBlocks.Of("$T" + literal, [arg]) == Err(IllegalArgument)
  {
    var format := "$T" + literal;
    var tokens := ["$T", literal];
    if arg.TypeArg? {
      assert CodeBlocks.Concat(tokens) == format by {
        assert tokens[1..] == [literal];
        assert CodeBlocks.Concat(tokens[1..]) == literal + CodeBlocks.Concat([]);
      }
      assert CodeBlocks.ArgTokens(tokens) == 1 by {
        assert tokens[1..] == [literal];
        CodeBlocks.ArgTokensOne(literal);
      }
      CoerceOne(literal, arg);
      CodeBlocks.ParseCanonical([], [], tokens, [arg]);
      assert [] + tokens == tokens && [] + [arg] == [arg];
      assert CodeBlocks.AddSpec([], [], format, [arg]) == CodeBlocks.Added(tokens, [arg], Pass);
    } else {
      OfNonTypeFails(literal, arg);
    }
  }

  /** `CodeBlock.of("$T" + rest, arg)` fails when `arg` is not a type, whatever follows the `$T`. */
  lemma OfNonTypeFails(rest: string, arg: Arg)
    requires !arg.TypeArg?
    ensures CodeBlocks.Of("$T" + rest, [arg]) == Err(IllegalArgument)
  {
    var format := "$T" + rest;
    var s0 := CodeBlocks.Start([], [], [arg]);
    assert format[0] == '$' && format[1] == 'T';
    assert CodeBlocks.DigitsEnd(format, 1) == 1;
    CodeBlocks.AddFromStep(format, [arg], 0, s0);
  }

  /** `$T` then a literal chunk takes exactly the type argument. */
  lemma CoerceOne(literal: string, arg: Arg)
    requires CodeBlocks.IsLiteral(literal) && arg.TypeArg?
    ensures CodeBlocks.CoerceAll(["$T", literal], [arg], 0) == Ok([arg])
  {
    var tokens := ["$T", literal];
    assert CodeBlocks.IsArgToken("$T");
    assert !CodeBlocks.IsArgToken(literal) by {
      assert literal[0] in literal;
    }
    assert tokens[0][1] == 'T';
    assert CodeBlocks.AddArgument('T', arg) == Ok(arg);
    assert tokens[1..] == [literal] && tokens[1..][1..] == [];
    assert CodeBlocks.CoerceAll([literal], [arg], 1) == Ok([]) by {
      assert CodeBlocks.CoerceAll([literal], [arg], 1) == CodeBlocks.CoerceAll([], [arg], 1);
    }
    assert [arg] + [] == [arg];
  }

  /** Emitting the block `$T` + literal is emitting the type token with that literal after it. */
  lemma TypeThenLiteral(c: Emission.Config, s: Emission.WriterState, block: CodeBlock, t: TypeName, literal: string)
    requires CodeBlocks.IsLiteral(literal)
    requires |block.formatParts| == 2 && block.formatParts[0] == "$T" && block.formatParts[1] == literal
    requires |block.args| == 1 && block.args[0] == TypeArg(t)
    ensures Emission.EmitBlock(c, s, block) == Emission.EmitTypeToken(c, s, t, Some(literal))
  {
    LiteralNotPlaceholder(literal);
    TypeTokenStep(c, s, block, t, literal);
    var r := Emission.EmitTypeToken(c, s, t, Some(literal));
    if r.Ok? {
      PartsDone(c, r.value, block, 2, 1);
    }
  }

  lemma LiteralNotPlaceholder(literal: string)
    requires CodeBlocks.IsLiteral(literal)
    ensures !StartsWith(literal, "$")
  {
    assert literal[0] in literal;
  }

  lemma PartsDone(c: Emission.Config, s: Emission.WriterState, block: CodeBlock, i: nat, a: nat)
    requires |block.formatParts| <= i
    ensures Emission.EmitParts(c, s, block, i, a) == Ok(s)
  {
  }

  /** One step of the emit loop over `$T` followed by a literal chunk. */
  lemma TypeTokenStep(c: Emission.Config, s: Emission.WriterState, block: CodeBlock, t: TypeName, literal: string)
    requires |block.formatParts| == 2 && block.formatParts[0] == "$T" && block.formatParts[1] == literal
    requires |block.args| == 1 && block.args[0] == TypeArg(t)
    requires !StartsWith(literal, "$")
    ensures Emission.EmitParts(c, s, block, 0, 0)
         == (var r := Emission.EmitTypeToken(c, s, t, Some(literal));
             if r.Err? then r else Emission.EmitParts(c, r.value, block, 2, 1))
  {
  }

  /**
   * With the name `a$b`, which the builder accepts, the format `$T a$b` reads `$b` as a
   * second relative placeholder for which there is no argument: the emit as written throws
   * where the parameter should have been written as `int a$b`.
   */
  lemma DollarNameBreaksEmit(c: Emission.Config, s: Emission.WriterState)
    ensures IsName("a$b")
    ensures var p := ParameterSpec("a$b", [], {}, TypeNames.INT);
      && EmitParameterAsWritten(c, s, p, false) == Err(IllegalArgument)
      && Emission.EmitParameter(c, s, p, false) == Ok(Emission.EmitAndIndent(c, s, "int a$b"))
  {
    DollarIdentifierIsName();
    DollarAsWrittenFails(c, s);
    DollarNameEmitted(c, s);
  }

  lemma DollarAsWrittenFails(c: Emission.Config, s: Emission.WriterState)
    ensures EmitParameterAsWritten(c, s, ParameterSpec("a$b", [], {}, TypeNames.INT), false) == Err(IllegalArgument)
  {
    var p := ParameterSpec("a$b", [], {}, TypeNames.INT);
    BareParameter(c, s, p, false);
    DollarFormatFails();
    DollarNameFormat(p);
  }

  lemma DollarNameEmitted(c: Emission.Config, s: Emission.WriterState)
    ensures Emission.EmitParameter(c, s, ParameterSpec("a$b", [], {}, TypeNames.INT), false)
         == Ok(Emission.EmitAndIndent(c, s, "int a$b"))
  {
    var p := ParameterSpec("a$b", [], {}, TypeNames.INT);
    BareParameter(c, s, p, false);
    DollarNameText();
    IntToken(c, s, " a$b");
    Emission.EmitAndIndentAppend(c, s, "int", " a$b");
  }

  lemma DollarNameText()
    ensures " " + "a$b" == " a$b" && "int" + " a$b" == "int a$b"
  {
  }

  lemma DollarNameFormat(p: ParameterSpec)
    requires p.name == "a$b"
    ensures NameFormat(p, false) == "$T a$b"
  {
  }

  /** A parameter without annotations or modifiers emits only its type and name. */
  lemma BareParameter(c: Emission.Config, s: Emission.WriterState, p: ParameterSpec, varargs: bool)
    requires p.annotations == [] && p.modifiers == {}
    ensures Emission.EmitParameter(c, s, p, varargs) == Emission.EmitParameterName(c, s, p, varargs)
    ensures EmitParameterAsWritten(c, s, p, varargs) == EmitParameterNameAsWritten(c, s, p, varargs)
  {
    assert Emission.EmitAnnotationList(c, s, [], 0, true) == Ok(s);
    Emission.NoModifiers(c, s, {}, 0);
  }

  /** `int` followed by a literal chunk. */
  lemma IntToken(c: Emission.Config, s: Emission.WriterState, next: string)
    ensures Emission.EmitTypeToken(c, s, TypeNames.INT, Some(next))
         == Ok(Emission.EmitAndIndent(c, Emission.EmitAndIndent(c, s, "int"), next))
  {
    assert Emission.EmitTypeAnnotations(c, s, TypeNames.INT) == Ok(s);
  }

  /** The scan of `$T a$b` with one argument: `$T`, the chunk ` a`, then `$b` finds no argument left. */
  lemma DollarFormatFails()
    ensures CodeBlocks.Of("$T a$b", [TypeArg(TypeNames.INT)]) == Err(IllegalArgument)
  {
    var format := "$T a$b";
    var inputs := [TypeArg(TypeNames.INT)];
    var s0 := CodeBlocks.Start([], [], inputs);
    assert format[0] == '$' && format[1] == 'T' && format[2] == ' ' && format[4] == '$';
    assert CodeBlocks.DigitsEnd(format, 1) == 1;
    var s1 := s0.(hasRelative := true, relativeCount := 1, parts := ["$T"], args := inputs);
    assert "$" + ['T'] == "$T";
    assert CodeBlocks.AddArgument('T', inputs[0]) == Ok(inputs[0]);
    assert CodeBlocks.StepAt(format, inputs, 0, s0) == CodeBlocks.Next(2, s1);
    assert IndexOf(format, '$', 3) == 4;
    assert format[2..4] == " a";
    var s2 := s1.(parts := ["$T", " a"]);
    assert CodeBlocks.StepAt(format, inputs, 2, s1) == CodeBlocks.Next(4, s2);
    CodeBlocks.RelativeBeyondFails(format, inputs, 4, s2);
    var failed := CodeBlocks.Added(s2.parts, s2.args, Fail(IllegalArgument));
    CodeBlocks.AddFromNext(format, inputs, 2, s1, 4, s2, failed);
    CodeBlocks.AddFromNext(format, inputs, 0, s0, 2, s1, failed);
  }
}
