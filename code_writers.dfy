/**
 * The `CodeWriter` class: a writer whose fields change as code is written. Each method does
 * in place what the function of the same name in module `Emission` computes, and says so in
 * its postcondition; the properties of the output are proved about those functions.
 *
 * The `emit` methods of the other specs (`TypeSpec.emit`, `AnnotationSpec.emit`, ...) and the
 * `$T` and `$L` placeholders, which call back into this class, are delegated to the functions
 * of module `Emission` and their result is stored with `SetState`.
 */
module CodeWriters {
  import opened Wrappers
  import opened Strings
  import opened Jdk
  import opened Specs
  import ClassNames
  import Emission

  /** Once the class name of a stacked type fails, so does that of every type nested in it. */
  lemma {:induction false} StackedFailure(s: Emission.WriterState, depth: nat, failed: nat)
    requires failed <= depth < |s.typeSpecStack|
    requires Emission.StackedClassName(s, failed).Err?
    ensures Emission.StackedClassName(s, depth) == Emission.StackedClassName(s, failed)
    decreases depth
  {
    if depth > failed {
      StackedFailure(s, depth - 1, failed);
    }
  }

  /** The class name of a stacked type is its outer one's, nested once more. */
  lemma StackedNext(s: Emission.WriterState, i: nat)
    requires 0 < i < |s.typeSpecStack| && Emission.StackedClassName(s, i - 1).Ok?
    ensures Emission.StackedClassName(s, i)
      == if s.typeSpecStack[i].name.None? then Err(NullPointer)
         else ClassNames.NestedClass(Emission.StackedClassName(s, i - 1).value, s.typeSpecStack[i].name.value)
  {
  }

  class CodeWriter {
    const indent: string
    const importedTypes: map<string, ClassName>
    const staticImports: set<string>
    const staticImportClassNames: set<string>

    var out: string
    var indentLevel: nat
    var javadoc: bool
    var comment: bool
    var packageName: Option<string>
    var typeSpecStack: seq<TypeSpec>
    var importableTypes: map<string, ClassName>
    var referencedNames: set<string>
    var trailingNewline: bool
    var statementLine: int

    /** The settings fixed at construction. */
    function Config(): Emission.Config
    {
      Emission.Config(indent, importedTypes, staticImports, staticImportClassNames)
    }

    /** The fields that change as code is written. */
    function State(): Emission.WriterState
      reads this
    {
      Emission.WriterState(out, indentLevel, javadoc, comment, packageName, typeSpecStack,
        importableTypes, referencedNames, trailingNewline, statementLine)
    }

    /** The method passed exactly when `r` succeeded, and the writer now holds its state. */
    predicate Reached(outcome: Outcome, r: Result<Emission.WriterState>)
      reads this
    {
      && (outcome.Pass? <==> r.Ok?)
      && (r.Ok? ==> State() == r.value)
      && (r.Err? ==> outcome == Fail(r.error))
    }

    /**
     * `CodeWriter(out, indent, importedTypes, staticImports)`: the class of each static import
     * is recorded. An undotted static import makes the library's constructor throw; the
     * function `Emission.NewConfig` models that case.
     */
    constructor (indent: string, importedTypes: map<string, ClassName>, staticImports: set<string>)
      requires Emission.Qualified(staticImports)
      ensures Emission.NewConfig(indent, importedTypes, staticImports) == Ok(Config())
      ensures State() == Emission.Fresh
    {
      this.indent := indent;
      this.importedTypes := importedTypes;
      this.staticImports := staticImports;
      this.staticImportClassNames := set m | m in staticImports :: Emission.StaticImportOwner(m).value;
      out := "";
      indentLevel := 0;
      javadoc := false;
      comment := false;
      packageName := None;
      typeSpecStack := [];
      importableTypes := map[];
      referencedNames := {};
      trailingNewline := false;
      statementLine := -1;
    }

    /** Stores a state computed by one of the `Emission` functions. */
    method SetState(s: Emission.WriterState)
      modifies this
      ensures State() == s
    {
      out := s.out;
      indentLevel := s.indentLevel;
      javadoc := s.javadoc;
      comment := s.comment;
      packageName := s.packageName;
      typeSpecStack := s.typeSpecStack;
      importableTypes := s.importableTypes;
      referencedNames := s.referencedNames;
      trailingNewline := s.trailingNewline;
      statementLine := s.statementLine;
    }

    /** `indent(levels)`. */
    method Indent(levels: nat)
      modifies this
      ensures State() == Emission.Indent(old(State()), levels)
    {
      indentLevel := indentLevel + levels;
    }

    /** `unindent(levels)`: fails rather than go below level zero. */
    method Unindent(levels: nat) returns (outcome: Outcome)
      modifies this
      ensures Reached(outcome, Emission.Unindent(old(State()), levels))
    {
      if indentLevel < levels {
        return Fail(IllegalArgument);
      }
      indentLevel := indentLevel - levels;
      return Pass;
    }

    /** `pushPackage(packageName)`: only when no package is set. */
    method PushPackage(name: string) returns (outcome: Outcome)
      modifies this
      ensures Reached(outcome, Emission.PushPackage(old(State()), name))
    {
      if packageName.Some? {
        return Fail(IllegalState);
      }
      packageName := Some(name);
      return Pass;
    }

    /** `popPackage()`: only when a package is set. */
    method PopPackage() returns (outcome: Outcome)
      modifies this
      ensures Reached(outcome, Emission.PopPackage(old(State())))
    {
      if packageName.None? {
        return Fail(IllegalState);
      }
      packageName := None;
      return Pass;
    }

    /** `pushType(type)`. */
    method PushType(t: TypeSpec)
      modifies this
      ensures State() == Emission.PushType(old(State()), t)
    {
      typeSpecStack := typeSpecStack + [t];
    }

    /** `popType()`: removing from an empty stack fails. */
    method PopType() returns (outcome: Outcome)
      modifies this
      ensures Reached(outcome, Emission.PopType(old(State())))
    {
      if |typeSpecStack| == 0 {
        return Fail(IndexOutOfBounds);
      }
      typeSpecStack := typeSpecStack[..|typeSpecStack| - 1];
      return Pass;
    }

    /** `emitIndentation()`: the indent unit, once per level. */
    method EmitIndentation()
      modifies this
      ensures State() == old(State()).(out := old(out) + Emission.Indentation(Config(), old(State())))
    {
      for j := 0 to indentLevel
        invariant out == old(out) + Repeat(indent, j)
        invariant State() == old(State()).(out := out)
      {
        RepeatGrows(indent, j);
        out := out + indent;
      }
    }

    /** The line break of `emitAndIndent` between two lines. */
    method BreakLine()
      modifies this
      ensures State() == Emission.Newline(Config(), old(State()))
    {
      if (javadoc || comment) && trailingNewline {
        EmitIndentation();
        out := out + (if javadoc then " *" else "//");
      }
      out := out + "\n";
      trailingNewline := true;
      if statementLine != -1 {
        if statementLine == 0 {
          Indent(2);
        }
        statementLine := statementLine + 1;
      }
    }

    /** One line of `emitAndIndent`: an empty line writes nothing. */
    method PutLine(line: string)
      modifies this
      ensures State() == Emission.Line(Config(), old(State()), line)
    {
      if line == [] {
        return;
      }
      if trailingNewline {
        EmitIndentation();
        if javadoc {
          out := out + " * ";
        } else if comment {
          out := out + "// ";
        }
      }
      out := out + line;
      trailingNewline := false;
    }

    /** `emitAndIndent(s)`: line by line, indenting lazily and prefixing comment lines. */
    method EmitAndIndent(text: string)
      modifies this
      ensures State() == Emission.EmitAndIndent(Config(), old(State()), text)
    {
      var lines := Split(text, '\n');
      var first := true;
      for k := 0 to |lines|
        invariant first <==> k == 0
        invariant Emission.Lines(Config(), State(), lines[k..], first) == Emission.EmitAndIndent(Config(), old(State()), text)
      {
        assert lines[k..][1..] == lines[k + 1..];
        if !first {
          BreakLine();
        }
        first := false;
        PutLine(lines[k]);
      }
    }

    /** `emitWrappingSpace()`, without line wrapping. */
    method EmitWrappingSpace()
      modifies this
      ensures State() == Emission.WrappingSpace(old(State()))
    {
      out := out + " ";
    }

    /** `emitModifiers(modifiers, implicitModifiers)`: declaration order, implicit ones skipped. */
    method EmitModifiers(modifiers: set<Modifier>, implicit: set<Modifier>)
      modifies this
      ensures State() == Emission.EmitModifiers(Config(), old(State()), modifiers, implicit)
    {
      if modifiers == {} {
        Emission.NoModifiers(Config(), State(), implicit, 0);
        return;
      }
      for i := 0 to |AllModifiers|
        invariant Emission.ModifiersFrom(Config(), State(), modifiers, implicit, i)
          == Emission.EmitModifiers(Config(), old(State()), modifiers, implicit)
      {
        var m := AllModifiers[i];
        if m in modifiers && m !in implicit {
          EmitAndIndent(m.Keyword());
          EmitAndIndent(" ");
        }
      }
    }

    /** `stackClassName(stackDepth, simpleName)`: the nested class, built from the outermost type in. */
    method StackClassName(depth: nat, simpleName: string) returns (r: Result<ClassName>)
      requires depth < |typeSpecStack|
      ensures r == Emission.StackClassName(State(), depth, simpleName)
    {
      var s := State();
      var className := if typeSpecStack[0].name.Some?
        then ClassNames.Get(Emission.PackageText(s), typeSpecStack[0].name.value, [])
        else Err(NullPointer);
      var i := 1;
      while i <= depth && className.Ok?
        invariant 1 <= i <= depth + 1
        invariant className == Emission.StackedClassName(s, i - 1)
      {
        StackedNext(s, i);
        className := if typeSpecStack[i].name.Some?
          then ClassNames.NestedClass(className.value, typeSpecStack[i].name.value)
          else Err(NullPointer);
        i := i + 1;
      }
      if className.Err? {
        StackedFailure(s, depth, i - 1);
        return className;
      }
      r := ClassNames.NestedClass(className.value, simpleName);
    }

    /**
     * `resolve(simpleName)`: a type nested in one of the types being written (innermost
     * first), then the outermost type, then an imported type; `None` when nothing matches.
     */
    method Resolve(simpleName: string) returns (r: Result<Option<ClassName>>)
      ensures r == Emission.Resolve(Config(), State(), simpleName)
    {
      var i := |typeSpecStack|;
      while i > 0
        invariant 0 <= i <= |typeSpecStack|
        invariant Emission.InnermostWithChild(typeSpecStack, simpleName, i)
          == Emission.InnermostWithChild(typeSpecStack, simpleName, |typeSpecStack|)
      {
        i := i - 1;
        var children := typeSpecStack[i].typeSpecs;
        for j := 0 to |children|
          invariant forall j' :: 0 <= j' < j ==> children[j'].name != Some(simpleName)
        {
          if children[j].name == Some(simpleName) {
            assert Emission.HasChild(typeSpecStack[i], simpleName);
            var cn := StackClassName(i, simpleName);
            if cn.Err? {
              return Err(cn.error);
            }
            return Ok(Some(cn.value));
          }
        }
      }
      if |typeSpecStack| > 0 && typeSpecStack[0].name == Some(simpleName) {
        var cn := ClassNames.Get(Emission.PackageText(State()), simpleName, []);
        if cn.Err? {
          return Err(cn.error);
        }
        return Ok(Some(cn.value));
      }
      if simpleName in importedTypes {
        return Ok(Some(importedTypes[simpleName]));
      }
      return Ok(None);
    }

    /** `importableType(className)`: the first class seen under a simple name keeps it. */
    method ImportableType(cls: ClassName)
      requires |cls.names| >= 2
      modifies this
      ensures State() == Emission.ImportableType(old(State()), cls)
    {
      if ClassNames.PackageName(cls) == "" {
        return;
      }
      var topLevelClassName := ClassNames.TopLevelClassName(cls);
      var simpleName := ClassNames.SimpleName(topLevelClassName);
      if simpleName !in importableTypes {
        importableTypes := importableTypes[simpleName := topLevelClassName];
      }
    }

    /**
     * The loop of `lookupName`: from the class itself outwards, the first enclosing class whose
     * simple name resolves to it, or whether the last name tried resolved at all.
     */
    method LookupLoop(cls: ClassName) returns (r: Result<Emission.Match>)
      requires |cls.names| >= 2
      ensures r == Emission.LookupFrom(Config(), State(), cls, |cls.names|)
    {
      var k := |cls.names|;
      ghost var c, s := Config(), State();
      while true
        invariant 2 <= k <= |cls.names|
        invariant Emission.LookupFrom(c, s, cls, k) == Emission.LookupFrom(c, s, cls, |cls.names|)
        decreases k
      {
        var resolved := Resolve(cls.names[k - 1]);
        assert resolved == Emission.Resolve(c, s, cls.names[k - 1]);
        Emission.LookupFromStep(c, s, cls, k);
        if resolved.Err? {
          return Err(resolved.error);
        }
        if resolved.value.Some? && Emission.SameClass(resolved.value.value, Emission.Enclosing(cls, k)) {
          return Ok(Emission.Matched(Join(".", cls.names[k - 1..])));
        }
        if k == 2 {
          return Ok(Emission.Unmatched(resolved.value.Some?));
        }
        k := k - 1;
      }
    }

    /**
     * `lookupName(className)`: the shortest suffix of the simple names that resolves to the
     * class; failing that the canonical name, or the simple names within the same package.
     */
    method LookupName(cls: ClassName) returns (r: Result<string>)
      modifies this
      ensures var spec := Emission.LookupName(Config(), old(State()), cls);
        && (r.Ok? <==> spec.Ok?)
        && (r.Ok? ==> r.value == spec.value.0 && State() == spec.value.1)
        && (r.Err? ==> r.error == spec.error)
    {
      if |cls.names| < 2 {
        return Err(IndexOutOfBounds);
      }
      var m := LookupLoop(cls);
      if m.Err? {
        return Err(m.error);
      }
      if m.value.Matched? {
        return Ok(m.value.name);
      }
      if m.value.nameResolved {
        return Ok(ClassNames.CanonicalName(cls));
      }
      if Emission.PackageText(State()) == ClassNames.PackageName(cls) {
        referencedNames := referencedNames + {ClassNames.SimpleName(ClassNames.TopLevelClassName(cls))};
        return Ok(Join(".", ClassNames.SimpleNames(cls)));
      }
      if !javadoc {
        ImportableType(cls);
      }
      return Ok(ClassNames.CanonicalName(cls));
    }

    /** `suggestedImports()`: the importable types whose simple name was never written bare. */
    method SuggestedImports() returns (r: map<string, ClassName>)
      ensures r.Keys == importableTypes.Keys - referencedNames
      ensures forall k :: k in r ==> r[k] == importableTypes[k]
    {
      r := map k | k in importableTypes && k !in referencedNames :: importableTypes[k];
    }

    /**
     * `emit(codeBlock)`: each format part in turn, consuming an argument for each of `$L`,
     * `$N`, `$S` and `$T`. A class that is statically imported and followed by `.member` is
     * written as the member alone.
     */
    method Emit(b: CodeBlock) returns (outcome: Outcome)
      modifies this
      ensures Reached(outcome, Emission.EmitBlock(Config(), old(State()), b))
    {
      var i, a := 0, 0;
      while i < |b.formatParts|
        invariant i <= |b.formatParts|
        invariant Emission.EmitParts(Config(), State(), b, i, a) == Emission.EmitBlock(Config(), old(State()), b)
        decreases |b.formatParts| - i
      {
        var part := b.formatParts[i];
        if part == "$L" || part == "$N" || part == "$S" || part == "$T" {
          var next;
          next, outcome := EmitPlaceholder(b, i, a);
          if outcome.Fail? {
            return;
          }
          i, a := next, a + 1;
        } else {
          outcome := EmitToken(part);
          if outcome.Fail? {
            return;
          }
          i := i + 1;
        }
      }
      return Pass;
    }

    /**
     * A placeholder of `emit(codeBlock)` that consumes the `a`-th argument: `$T` emits a type
     * together with the literal part after it when that part is a candidate for a static
     * import, so the loop goes on at `next`.
     */
    method EmitPlaceholder(b: CodeBlock, i: nat, a: nat) returns (next: nat, outcome: Outcome)
      requires i < |b.formatParts|
      requires b.formatParts[i] in ["$L", "$N", "$S", "$T"]
      modifies this
      ensures i < next <= |b.formatParts|
      ensures outcome.Pass? ==> Emission.EmitParts(Config(), old(State()), b, i, a) == Emission.EmitParts(Config(), State(), b, next, a + 1)
      ensures outcome.Fail? ==> Emission.EmitParts(Config(), old(State()), b, i, a) == Err(outcome.error)
    {
      var part := b.formatParts[i];
      next := i + 1;
      if a >= |b.args| {
        return next, Fail(IndexOutOfBounds);
      }
      var arg := b.args[a];
      var r;
      if part == "$T" {
        if !arg.TypeArg? {
          return next, Fail(ClassCast);
        }
        if i + 1 < |b.formatParts| && !StartsWith(b.formatParts[i + 1], "$") {
          next := i + 2;
          r := Emission.EmitTypeToken(Config(), State(), arg.t, Some(b.formatParts[i + 1]));
        } else {
          r := Emission.EmitTypeToken(Config(), State(), arg.t, None);
        }
      } else {
        r := Emission.EmitArgument(Config(), State(), part, arg);
      }
      if r.Err? {
        return next, Fail(r.error);
      }
      SetState(r.value);
      outcome := Pass;
    }

    /** The parts of `emit(codeBlock)` that take no argument, and literal text. */
    method EmitToken(part: string) returns (outcome: Outcome)
      modifies this
      ensures Reached(outcome, Emission.EmitToken(Config(), old(State()), part))
    {
      outcome := Pass;
      if part == "$$" {
        EmitAndIndent("$");
      } else if part == "$>" {
        Indent(1);
      } else if part == "$<" {
        outcome := Unindent(1);
      } else if part == "$[" {
        if statementLine != -1 {
          return Fail(IllegalState);
        }
        statementLine := 0;
      } else if part == "$]" {
        if statementLine == -1 {
          return Fail(IllegalState);
        }
        if statementLine > 0 {
          outcome := Unindent(2);
          if outcome.Fail? {
            return;
          }
        }
        statementLine := -1;
      } else if part == "$W" {
        EmitWrappingSpace();
      } else {
        EmitAndIndent(part);
      }
    }

    /** `emitComment(codeBlock)`: the block as `//` lines, then a line break. */
    method EmitComment(b: CodeBlock) returns (outcome: Outcome)
      modifies this
      ensures Reached(outcome, Emission.EmitComment(Config(), old(State()), b))
    {
      trailingNewline := true;
      comment := true;
      outcome := Emit(b);
      if outcome.Pass? {
        EmitAndIndent("\n");
      }
      comment := false;
    }

    /** `emitJavadoc(javadocCodeBlock)`: nothing for an empty block, else a doc comment. */
    method EmitJavadoc(b: CodeBlock) returns (outcome: Outcome)
      modifies this
      ensures Reached(outcome, Emission.EmitJavadoc(Config(), old(State()), b))
    {
      if IsEmpty(b) {
        return Pass;
      }
      EmitAndIndent("/**\n");
      javadoc := true;
      outcome := Emit(b);
      javadoc := false;
      if outcome.Pass? {
        EmitAndIndent(" */\n");
      }
    }

    /** `emitAnnotations(annotations, inline)`: each followed by a space, or by a line break. */
    method EmitAnnotations(annotations: seq<AnnotationSpec>, inline: bool) returns (outcome: Outcome)
      modifies this
      ensures Reached(outcome, Emission.EmitAnnotationList(Config(), old(State()), annotations, 0, inline))
    {
      for i := 0 to |annotations|
        invariant Emission.EmitAnnotationList(Config(), State(), annotations, i, inline)
          == Emission.EmitAnnotationList(Config(), old(State()), annotations, 0, inline)
      {
        var r := Emission.EmitAnnotation(Config(), State(), annotations[i], inline);
        if r.Err? {
          return Fail(r.error);
        }
        SetState(r.value);
        EmitAndIndent(if inline then " " else "\n");
      }
      return Pass;
    }

    /** The bounds of one type variable in `emitTypeVariables`: ` extends A & B`. */
    method EmitBounds(v: TypeVariableName) returns (outcome: Outcome)
      modifies this
      ensures Reached(outcome, Emission.EmitBounds(Config(), old(State()), v, 0))
    {
      for j := 0 to |v.bounds|
        invariant Emission.EmitBounds(Config(), State(), v, j) == Emission.EmitBounds(Config(), old(State()), v, 0)
      {
        EmitAndIndent(if j == 0 then " extends " else " & ");
        var r := Emission.EmitTypeToken(Config(), State(), v.bounds[j], None);
        if r.Err? {
          return Fail(r.error);
        }
        SetState(r.value);
      }
      return Pass;
    }

    /** `emitTypeVariables(typeVariables)`: names and bounds in angle brackets; nothing for none. */
    method EmitTypeVariables(variables: seq<TypeVariableName>) returns (outcome: Outcome)
      modifies this
      ensures Reached(outcome, Emission.EmitTypeVariables(Config(), old(State()), variables))
    {
      if |variables| == 0 {
        return Pass;
      }
      EmitAndIndent("<");
      ghost var start := State();
      for k := 0 to |variables|
        invariant Emission.EmitTypeVariableList(Config(), State(), variables, k)
          == Emission.EmitTypeVariableList(Config(), start, variables, 0)
      {
        ghost var before := State();
        if k > 0 {
          EmitAndIndent(", ");
        }
        var v := variables[k];
        EmitAndIndent(v.name);
        outcome := EmitBounds(v);
        if outcome.Fail? {
          return;
        }
        assert Emission.EmitTypeVariableList(Config(), before, variables, k)
          == Emission.EmitTypeVariableList(Config(), State(), variables, k + 1);
      }
      EmitAndIndent(">");
      return Pass;
    }
  }
}
