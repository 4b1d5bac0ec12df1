/**
 * What a `CodeWriter` does, as functions from one writer state to the next. Every `emit`
 * of the library (of a code block, a type name, an annotation, a parameter, a method, a type
 * declaration) is a function here; they call one another exactly as the `emit` methods do, so
 * they form one recursive family. The `CodeWriter` class in module `CodeWriters` performs the
 * same steps in place and is proved against these functions.
 *
 * Line wrapping is not modelled: a wrapping space is a plain space.
 */
module Emission {
  import opened Wrappers
  import opened Strings
  import opened Jdk
  import opened Specs
  import ClassNames
  import TypeNames
  import Util
  import CodeBlocks

  /**
   * The parts of a writer fixed at construction: the indent unit, the types the file imports,
   * the static imports, and the classes those static imports belong to.
   */
  datatype Config = Config(
    indent: string,
    importedTypes: map<string, ClassName>,
    staticImports: set<string>,
    staticImportClassNames: set<string>)

  /**
   * The mutable parts of a writer. `packageName` is `None` while no package has been pushed
   * (the library's `NO_PACKAGE` sentinel); `statementLine` is -1 outside a statement.
   */
  datatype WriterState = WriterState(
    out: string,
    indentLevel: nat,
    javadoc: bool,
    comment: bool,
    packageName: Option<string>,
    typeSpecStack: seq<TypeSpec>,
    importableTypes: map<string, ClassName>,
    referencedNames: set<string>,
    trailingNewline: bool,
    statementLine: int)

  /** A new writer over an empty output. */
  const Fresh: WriterState := WriterState("", 0, false, false, None, [], map[], {}, false, -1)

  /** `CodeWriter(out)`: two-space indent, no imports. */
  const DefaultConfig: Config := Config("  ", map[], {}, {})

  /** The class part of a static import, everything before its last dot. */
  function StaticImportOwner(member: string): (r: Result<string>)
    ensures r.Ok? <==> '.' in member
    ensures r.Ok? ==> (|r.value| < |member| && member == r.value + "." + member[|r.value| + 1..]
      && '.' !in member[|r.value| + 1..])
    ensures r.Err? ==> r.error == IndexOutOfBounds
  {
    var i := LastIndexOf(member, '.');
    if i == -1 then Err(IndexOutOfBounds)
    else
      assert member == member[..i] + "." + member[i + 1..];
      Ok(member[..i])
  }

  /** All static imports name a member of some class. */
  predicate Qualified(staticImports: set<string>)
  {
    forall m :: m in staticImports ==> '.' in m
  }

  /** The constructor: the class of every static import is recorded; an undotted one fails. */
  function NewConfig(indent: string, importedTypes: map<string, ClassName>, staticImports: set<string>): (r: Result<Config>)
    ensures r.Ok? <==> Qualified(staticImports)
    ensures r.Ok? ==> (r.value.indent == indent && r.value.importedTypes == importedTypes
      && r.value.staticImports == staticImports)
    ensures r.Ok? ==> forall m :: m in staticImports ==> StaticImportOwner(m).value in r.value.staticImportClassNames
    ensures r.Ok? ==> forall o :: o in r.value.staticImportClassNames ==>
      exists m :: m in staticImports && StaticImportOwner(m) == Ok(o)
    ensures r.Err? ==> r.error == IndexOutOfBounds
  {
    if Qualified(staticImports) then
      Ok(Config(indent, importedTypes, staticImports, set m | m in staticImports :: StaticImportOwner(m).value))
    else Err(IndexOutOfBounds)
  }

  // Indentation, packages and the type stack

  function Indent(s: WriterState, levels: nat): (r: WriterState)
    ensures r.indentLevel == s.indentLevel + levels
    ensures r == s.(indentLevel := r.indentLevel)
  {
    s.(indentLevel := s.indentLevel + levels)
  }

  function Unindent(s: WriterState, levels: nat): (r: Result<WriterState>)
    ensures r.Ok? <==> levels <= s.indentLevel
    ensures r.Ok? ==> r.value == s.(indentLevel := s.indentLevel - levels)
    ensures r.Err? ==> r.error == IllegalArgument
  {
    if s.indentLevel < levels then Err(IllegalArgument)
    else Ok(s.(indentLevel := s.indentLevel - levels))
  }

  function PushPackage(s: WriterState, packageName: string): (r: Result<WriterState>)
    ensures r.Ok? <==> s.packageName.None?
    ensures r.Ok? ==> r.value == s.(packageName := Some(packageName))
    ensures r.Err? ==> r.error == IllegalState
  {
    if s.packageName.Some? then Err(IllegalState) else Ok(s.(packageName := Some(packageName)))
  }

  function PopPackage(s: WriterState): (r: Result<WriterState>)
    ensures r.Ok? <==> s.packageName.Some?
    ensures r.Ok? ==> r.value == s.(packageName := None)
    ensures r.Err? ==> r.error == IllegalState
  {
    if s.packageName.None? then Err(IllegalState) else Ok(s.(packageName := None))
  }

  function PushType(s: WriterState, t: TypeSpec): (r: WriterState)
    ensures r == s.(typeSpecStack := s.typeSpecStack + [t])
  {
    s.(typeSpecStack := s.typeSpecStack + [t])
  }

  function PopType(s: WriterState): (r: Result<WriterState>)
    ensures r.Ok? <==> |s.typeSpecStack| > 0
    ensures r.Ok? ==> (r.value.typeSpecStack + [s.typeSpecStack[|s.typeSpecStack| - 1]] == s.typeSpecStack
      && r.value == s.(typeSpecStack := r.value.typeSpecStack))
    ensures r.Err? ==> r.error == IndexOutOfBounds
  {
    if |s.typeSpecStack| == 0 then Err(IndexOutOfBounds)
    else Ok(s.(typeSpecStack := s.typeSpecStack[..|s.typeSpecStack| - 1]))
  }

  /** Pushing a type and popping it again leaves the stack as it was. */
  lemma PushPopType(s: WriterState, t: TypeSpec)
    ensures PopType(PushType(s, t)) == Ok(s)
  {
    assert (s.typeSpecStack + [t])[..|s.typeSpecStack|] == s.typeSpecStack;
  }

  /** `emitWrappingSpace()`, without line wrapping. */
  function WrappingSpace(s: WriterState): (r: WriterState)
    ensures r == s.(out := s.out + " ")
  {
    s.(out := s.out + " ")
  }

  /**
   * What every emit preserves: output is only ever appended to, the package and the stack of
   * types being written come back as they were, names once referenced stay referenced, and a
   * simple name once claimed for import keeps the class it was first claimed for.
   */
  predicate Extends(s: WriterState, s': WriterState)
  {
    && s.out <= s'.out
    && s'.packageName == s.packageName
    && s'.typeSpecStack == s.typeSpecStack
    && s.referencedNames <= s'.referencedNames
    && forall k :: k in s.importableTypes ==> k in s'.importableTypes && s'.importableTypes[k] == s.importableTypes[k]
  }

  // emitAndIndent

  /** `indentLevel` copies of the indent unit. */
  function Indentation(c: Config, s: WriterState): string
  {
    Repeat(c.indent, s.indentLevel)
  }

  /**
   * The line break between two lines of `emitAndIndent`: an empty javadoc or comment line gets
   * its ` *` or `//`, and a statement's second line starts the double indent of its
   * continuation lines.
   */
  function Newline(c: Config, s: WriterState): WriterState
  {
    var prefix := if (s.javadoc || s.comment) && s.trailingNewline
      then Indentation(c, s) + (if s.javadoc then " *" else "//") else "";
    var s1 := s.(out := s.out + prefix + "\n", trailingNewline := true);
    if s1.statementLine == -1 then s1
    else if s1.statementLine == 0 then s1.(indentLevel := s1.indentLevel + 2, statementLine := 1)
    else s1.(statementLine := s1.statementLine + 1)
  }

  /** One line of `emitAndIndent`: nothing if empty, else indented and prefixed after a newline. */
  function Line(c: Config, s: WriterState, line: string): WriterState
  {
    if line == [] then s
    else
      var prefix := if s.trailingNewline
        then Indentation(c, s) + (if s.javadoc then " * " else if s.comment then "// " else "")
        else "";
      s.(out := s.out + prefix + line, trailingNewline := false)
  }

  /** The loop of `emitAndIndent` over the lines of its argument. */
  function Lines(c: Config, s: WriterState, lines: seq<string>, first: bool): WriterState
    decreases |lines|
  {
    if |lines| == 0 then s
    else
      var s1 := if first then s else Newline(c, s);
      Lines(c, Line(c, s1, lines[0]), lines[1..], false)
  }

  /** `emitAndIndent(text)`: the text line by line, indenting lazily. */
  function EmitAndIndent(c: Config, s: WriterState, text: string): WriterState
  {
    Lines(c, s, Split(text, '\n'), true)
  }

  /**
   * The same output character by character: a newline is a line break, any other character
   * a one-character line. This is the reference `emitAndIndent` is proved against.
   */
  function PutChar(c: Config, s: WriterState, ch: char): WriterState
  {
    if ch == '\n' then Newline(c, s) else Line(c, s, [ch])
  }

  function PutAll(c: Config, s: WriterState, text: string): WriterState
    decreases |text|
  {
    if text == [] then s else PutAll(c, PutChar(c, s, text[0]), text[1..])
  }

  /** At the left margin, outside javadoc, comments and statements, text is written as it is. */
  lemma {:induction false} PutAllAtMargin(c: Config, s: WriterState, text: string)
    requires s.indentLevel == 0 && !s.javadoc && !s.comment && s.statementLine == -1
    ensures var s' := PutAll(c, s, text);
      s'.out == s.out + text && s'.indentLevel == 0 && !s'.javadoc && !s'.comment && s'.statementLine == -1
    decreases |text|
  {
    if text != [] {
      var s1 := PutChar(c, s, text[0]);
      assert Indentation(c, s) == "";
      assert s1.out == s.out + [text[0]];
      PutAllAtMargin(c, s1, text[1..]);
      assert s.out + [text[0]] + text[1..] == s.out + text;
    }
  }

  /** Writing two texts one after the other is writing their concatenation. */
  lemma {:induction false} PutAllAppend(c: Config, s: WriterState, a: string, b: string)
    ensures PutAll(c, PutAll(c, s, a), b) == PutAll(c, s, a + b)
    decreases |a|
  {
    if a == [] {
      assert a + b == b;
    } else {
      PutAllAppend(c, PutChar(c, s, a[0]), a[1..], b);
      assert (a + b)[1..] == a[1..] + b;
    }
  }

  /** Mid-line, text without line breaks is appended as it is. */
  lemma {:induction false} PutAllMidLine(c: Config, s: WriterState, text: string)
    requires !s.trailingNewline && '\n' !in text
    ensures PutAll(c, s, text) == s.(out := s.out + text)
    decreases |text|
  {
    if text != [] {
      var s1 := PutChar(c, s, text[0]);
      assert s1 == s.(out := s.out + [text[0]]);
      assert text[0] !in text[1..] || text[0] in text;
      PutAllMidLine(c, s1, text[1..]);
      assert s.out + [text[0]] + text[1..] == s.out + text;
    }
  }

  /** One line of `emitAndIndent` is its characters written one by one. */
  lemma LineIsPutAll(c: Config, s: WriterState, line: string)
    requires '\n' !in line
    ensures Line(c, s, line) == PutAll(c, s, line)
  {
    if line != [] {
      var s1 := PutChar(c, s, line[0]);
      assert line[0] in line;
      assert '\n' !in line[1..] by {
        forall k | 0 <= k < |line[1..]| ensures line[1..][k] != '\n' {
          assert line[1..][k] == line[k + 1];
        }
      }
      PutAllMidLine(c, s1, line[1..]);
      assert [line[0]] + line[1..] == line;
    }
  }

  /** The line break `emitAndIndent` writes before every line but the first. */
  lemma PutAllPrefix(c: Config, s: WriterState, first: bool)
    ensures PutAll(c, s, if first then "" else "\n") == if first then s else Newline(c, s)
  {
    if !first {
      assert PutAll(c, s, "\n") == PutAll(c, Newline(c, s), []);
    }
  }

  /** The loop of `emitAndIndent` writes its lines joined by line breaks. */
  lemma {:induction false} LinesIsPutAll(c: Config, s: WriterState, lines: seq<string>, first: bool)
    requires |lines| >= 1
    requires forall i :: 0 <= i < |lines| ==> '\n' !in lines[i]
    ensures Lines(c, s, lines, first) == PutAll(c, s, (if first then "" else "\n") + Join("\n", lines))
    decreases |lines|
  {
    var prefix := if first then "" else "\n";
    var s1 := if first then s else Newline(c, s);
    PutAllPrefix(c, s, first);
    LineIsPutAll(c, s1, lines[0]);
    var s2 := Line(c, s1, lines[0]);
    if |lines| == 1 {
      PutAllAppend(c, s, prefix, lines[0]);
    } else {
      var tail := lines[1..];
      assert forall i :: 0 <= i < |tail| ==> '\n' !in tail[i] by {
        forall i | 0 <= i < |tail| ensures '\n' !in tail[i] {
          assert tail[i] == lines[i + 1];
        }
      }
      LinesIsPutAll(c, s2, tail, false);
      var rest := "\n" + Join("\n", tail);
      assert Join("\n", lines) == lines[0] + rest;
      PutAllAppend(c, s1, lines[0], rest);
      PutAllAppend(c, s, prefix, lines[0] + rest);
    }
  }

  /** `emitAndIndent` agrees with writing its text character by character. */
  lemma EmitAndIndentIsPutAll(c: Config, s: WriterState, text: string)
    ensures EmitAndIndent(c, s, text) == PutAll(c, s, text)
  {
    JoinSplit(text, '\n');
    LinesIsPutAll(c, s, Split(text, '\n'), true);
    assert "" + text == text;
  }

  /** Emitting two texts in turn is emitting them at once: literal chunks may be split anywhere. */
  lemma EmitAndIndentAppend(c: Config, s: WriterState, a: string, b: string)
    ensures EmitAndIndent(c, EmitAndIndent(c, s, a), b) == EmitAndIndent(c, s, a + b)
  {
    EmitAndIndentIsPutAll(c, s, a);
    EmitAndIndentIsPutAll(c, EmitAndIndent(c, s, a), b);
    EmitAndIndentIsPutAll(c, s, a + b);
    PutAllAppend(c, s, a, b);
  }

  // Name lookup

  /** The package as `==` sees it: the sentinel reads as the empty string. */
  function PackageText(s: WriterState): string
  {
    if s.packageName.Some? then s.packageName.value else ""
  }

  predicate HasChild(t: TypeSpec, simpleName: string)
  {
    exists j :: 0 <= j < |t.typeSpecs| && t.typeSpecs[j].name == Some(simpleName)
  }

  /** The innermost of the first `n` stacked types with a nested type called `simpleName`. */
  function InnermostWithChild(stack: seq<TypeSpec>, simpleName: string, n: nat): (r: Option<nat>)
    requires n <= |stack|
    ensures r.Some? ==> (r.value < n && HasChild(stack[r.value], simpleName)
      && forall j :: r.value < j < n ==> !HasChild(stack[j], simpleName))
    ensures r.None? ==> forall j :: 0 <= j < n ==> !HasChild(stack[j], simpleName)
  {
    if n == 0 then None
    else if HasChild(stack[n - 1], simpleName) then Some(n - 1)
    else InnermostWithChild(stack, simpleName, n - 1)
  }

  /** The class name of the stacked type at `depth`, built outwards-in. */
  function StackedClassName(s: WriterState, depth: nat): Result<ClassName>
    requires depth < |s.typeSpecStack|
  {
    if depth == 0 then
      var name :- if s.typeSpecStack[0].name.Some? then Ok(s.typeSpecStack[0].name.value) else Err(NullPointer);
      ClassNames.Get(PackageText(s), name, [])
    else
      var outer :- StackedClassName(s, depth - 1);
      var name :- if s.typeSpecStack[depth].name.Some? then Ok(s.typeSpecStack[depth].name.value) else Err(NullPointer);
      ClassNames.NestedClass(outer, name)
  }

  /** `stackClassName(depth, simpleName)`. */
  function StackClassName(s: WriterState, depth: nat, simpleName: string): Result<ClassName>
    requires depth < |s.typeSpecStack|
  {
    var outer :- StackedClassName(s, depth);
    ClassNames.NestedClass(outer, simpleName)
  }

  /**
   * `resolve(simpleName)`: a type nested in one of the types being written (innermost first),
   * then the outermost type itself, then an imported type.
   */
  function Resolve(c: Config, s: WriterState, simpleName: string): Result<Option<ClassName>>
  {
    var inner := InnermostWithChild(s.typeSpecStack, simpleName, |s.typeSpecStack|);
    if inner.Some? then
      var cn :- StackClassName(s, inner.value, simpleName);
      Ok(Some(cn))
    else if |s.typeSpecStack| > 0 && s.typeSpecStack[0].name == Some(simpleName) then
      var cn :- ClassNames.Get(PackageText(s), simpleName, []);
      Ok(Some(cn))
    else if simpleName in c.importedTypes then Ok(Some(c.importedTypes[simpleName]))
    else Ok(None)
  }

  /** Equality of class names as the library decides it, by what they print as. */
  predicate SameClass(a: ClassName, b: ClassName)
  {
    a.annotations == b.annotations && ClassNames.CanonicalName(a) == ClassNames.CanonicalName(b)
  }

  /** The class `lookupName` inspects with `k` names kept: the class itself, then its enclosers. */
  function Enclosing(cls: ClassName, k: nat): ClassName
    requires 2 <= k <= |cls.names|
  {
    if k == |cls.names| then cls else ClassName(cls.names[..k], [])
  }

  datatype Match = Matched(name: string) | Unmatched(nameResolved: bool)

  /** The `k`-th simple name of `cls`, written alone, would name the class it stands for. */
  predicate ResolvesTo(c: Config, s: WriterState, cls: ClassName, k: nat)
    requires 2 <= k <= |cls.names|
  {
    var resolved := Resolve(c, s, cls.names[k - 1]);
    resolved.Ok? && resolved.value.Some? && SameClass(resolved.value.value, Enclosing(cls, k))
  }

  /**
   * The loop of `lookupName`: the shortest suffix of the class's simple names whose first
   * name resolves to the enclosing class it stands for.
   */
  function LookupFrom(c: Config, s: WriterState, cls: ClassName, k: nat): Result<Match>
    requires 2 <= k <= |cls.names|
    decreases k
  {
    if ResolvesTo(c, s, cls, k) then Ok(Matched(Join(".", cls.names[k - 1..])))
    else
      var resolved :- Resolve(c, s, cls.names[k - 1]);
      if k == 2 then Ok(Unmatched(resolved.Some?)) else LookupFrom(c, s, cls, k - 1)
  }

  /** One turn of the loop of `lookupName`, with the name resolved once. */
  lemma LookupFromStep(c: Config, s: WriterState, cls: ClassName, k: nat)
    requires 2 <= k <= |cls.names|
    ensures var resolved := Resolve(c, s, cls.names[k - 1]);
      LookupFrom(c, s, cls, k)
      == if resolved.Err? then Err(resolved.error)
         else if resolved.value.Some? && SameClass(resolved.value.value, Enclosing(cls, k))
         then Ok(Matched(Join(".", cls.names[k - 1..])))
         else if k == 2 then Ok(Unmatched(resolved.value.Some?))
         else LookupFrom(c, s, cls, k - 1)
  {
  }

  /** The last position from `k` down to 2 where `p` holds, or 1 when there is none. */
  function LastHolding(p: nat -> bool, k: nat): (j: nat)
    requires k >= 2
    ensures 1 <= j <= k
    decreases k
  {
    if p(k) then k
    else if k == 2 then 1
    else LastHolding(p, k - 1)
  }

  /** A position above 1 that `LastHolding` finds is one where `p` holds. */
  lemma {:induction false} LastHoldingHolds(p: nat -> bool, k: nat)
    requires k >= 2
    ensures LastHolding(p, k) >= 2 ==> p(LastHolding(p, k))
    decreases k
  {
    if !p(k) && k > 2 {
      LastHoldingHolds(p, k - 1);
    }
  }

  /** `p` holds nowhere after the position `LastHolding` finds, up to `k`. */
  lemma {:induction false} LastHoldingIsLast(p: nat -> bool, k: nat, i: nat)
    requires 2 <= i <= k && p(i)
    ensures i <= LastHolding(p, k)
    decreases k
  {
    if !p(k) {
      LastHoldingIsLast(p, k - 1, i);
    }
  }

  /**
   * The position of the shortest suffix `lookupName` may write, looking from the `k`-th simple
   * name down: the last simple name that stands for its class, or 1 when there is none.
   */
  function ShortestIndex(c: Config, s: WriterState, cls: ClassName, k: nat): (j: nat)
    requires 2 <= k <= |cls.names|
  {
    LastHolding(i => 2 <= i <= |cls.names| && ResolvesTo(c, s, cls, i), k)
  }

  /** A position above 1 that `ShortestIndex` finds stands for its class. */
  lemma ShortestIndexResolves(c: Config, s: WriterState, cls: ClassName, k: nat)
    requires 2 <= k <= |cls.names|
    ensures var j := ShortestIndex(c, s, cls, k);
      1 <= j <= k && (j >= 2 ==> ResolvesTo(c, s, cls, j))
  {
    LastHoldingHolds(i => 2 <= i <= |cls.names| && ResolvesTo(c, s, cls, i), k);
  }

  /** No position after the one `ShortestIndex` finds, up to the `k`-th, stands for its class. */
  lemma ShortestIndexIsLast(c: Config, s: WriterState, cls: ClassName, k: nat, i: nat)
    requires 2 <= i <= k <= |cls.names| && ResolvesTo(c, s, cls, i)
    ensures i <= ShortestIndex(c, s, cls, k)
  {
    LastHoldingIsLast(i => 2 <= i <= |cls.names| && ResolvesTo(c, s, cls, i), k, i);
  }

  /** `lookupName` finds a suffix to shorten to exactly when some simple name stands for its class. */
  lemma {:induction false} LookupFromMatches(c: Config, s: WriterState, cls: ClassName, k: nat)
    requires 2 <= k <= |cls.names|
    ensures var r := LookupFrom(c, s, cls, k);
      r.Ok? ==> (r.value.Matched? <==> ShortestIndex(c, s, cls, k) >= 2)
    decreases k
  {
    if !ResolvesTo(c, s, cls, k) && k > 2 {
      LookupFromMatches(c, s, cls, k - 1);
    }
  }

  /** The suffix `lookupName` writes is the shortest one whose first name stands for its class. */
  lemma {:induction false} LookupFromShortest(c: Config, s: WriterState, cls: ClassName, k: nat)
    requires 2 <= k <= |cls.names|
    ensures var r := LookupFrom(c, s, cls, k);
      r.Ok? && r.value.Matched? ==> r.value.name == Join(".", cls.names[ShortestIndex(c, s, cls, k) - 1..])
    decreases k
  {
    if !ResolvesTo(c, s, cls, k) && k > 2 {
      LookupFromShortest(c, s, cls, k - 1);
    }
  }

  /** Without a suffix to shorten to, the loop reports whether the top-level name resolved at all. */
  lemma {:induction false} LookupFromUnmatched(c: Config, s: WriterState, cls: ClassName, k: nat)
    requires 2 <= k <= |cls.names|
    ensures var r := LookupFrom(c, s, cls, k);
      r.Ok? && r.value.Unmatched? ==> r.value.nameResolved == (Resolve(c, s, cls.names[1]) != Ok(None))
    decreases k
  {
    if !ResolvesTo(c, s, cls, k) && k > 2 {
      LookupFromUnmatched(c, s, cls, k - 1);
    }
  }

  /** `importableType(className)`: the first class seen under a simple name keeps it. */
  function ImportableType(s: WriterState, cls: ClassName): (r: WriterState)
    requires |cls.names| >= 2
    ensures ClassNames.PackageName(cls) == "" ==> r == s
    ensures ClassNames.PackageName(cls) != "" ==>
      r == s.(importableTypes := r.importableTypes)
      && r.importableTypes.Keys == s.importableTypes.Keys + {cls.names[1]}
      && (forall k :: k in s.importableTypes ==> r.importableTypes[k] == s.importableTypes[k])
      && (cls.names[1] !in s.importableTypes ==>
            r.importableTypes[cls.names[1]] == ClassNames.TopLevelClassName(cls))
  {
    if ClassNames.PackageName(cls) == "" then s
    else
      var top := ClassNames.TopLevelClassName(cls);
      var simpleName := ClassNames.SimpleName(top);
      if simpleName in s.importableTypes then s
      else s.(importableTypes := s.importableTypes[simpleName := top])
  }

  /** `lookupName(className)`: the text to write for the class, and the state afterwards. */
  function LookupName(c: Config, s: WriterState, cls: ClassName): (r: Result<(string, WriterState)>)
    ensures |cls.names| < 2 ==> r == Err(IndexOutOfBounds)
    ensures r.Ok? ==> (Extends(s, r.value.1)
      && r.value.1 == s.(referencedNames := r.value.1.referencedNames, importableTypes := r.value.1.importableTypes))
  {
    if |cls.names| < 2 then Err(IndexOutOfBounds)
    else
      var m :- LookupFrom(c, s, cls, |cls.names|);
      if m.Matched? then Ok((m.name, s))
      else if m.nameResolved then Ok((ClassNames.CanonicalName(cls), s))
      else if PackageText(s) == ClassNames.PackageName(cls) then
        Ok((Join(".", ClassNames.SimpleNames(cls)),
            s.(referencedNames := s.referencedNames + {ClassNames.SimpleName(ClassNames.TopLevelClassName(cls))})))
      else if !s.javadoc then Ok((ClassNames.CanonicalName(cls), ImportableType(s, cls)))
      else Ok((ClassNames.CanonicalName(cls), s))
  }

  /** No simple name resolves to the class it stands for: `lookupName` cannot shorten. */
  predicate Unresolvable(c: Config, s: WriterState, cls: ClassName)
    requires |cls.names| >= 2
  {
    forall i :: 2 <= i <= |cls.names| ==> !ResolvesTo(c, s, cls, i)
  }

  /** When some simple name resolves to the class it stands for, `lookupName` shortens. */
  lemma LookupNameShortens(c: Config, s: WriterState, cls: ClassName)
    requires |cls.names| >= 2 && !Unresolvable(c, s, cls)
    ensures ShortestIndex(c, s, cls, |cls.names|) >= 2
    ensures var r := LookupName(c, s, cls);
      r.Ok? ==> r.value == (Join(".", cls.names[ShortestIndex(c, s, cls, |cls.names|) - 1..]), s)
  {
    var i :| 2 <= i <= |cls.names| && ResolvesTo(c, s, cls, i);
    ShortestIndexIsLast(c, s, cls, |cls.names|, i);
    LookupFromMatches(c, s, cls, |cls.names|);
    LookupFromShortest(c, s, cls, |cls.names|);
  }

  /**
   * When no simple name can stand for the class: the canonical name if the top-level name
   * resolves to another class; else the simple names in the current package, recording the
   * top-level name as referenced; else the canonical name, the top-level class becoming
   * importable outside javadoc.
   */
  lemma LookupNameUnshortened(c: Config, s: WriterState, cls: ClassName)
    requires |cls.names| >= 2 && Unresolvable(c, s, cls)
    ensures var r := LookupName(c, s, cls);
      r.Ok? && Resolve(c, s, cls.names[1]) != Ok(None) ==> r.value == (ClassNames.CanonicalName(cls), s)
    ensures var r := LookupName(c, s, cls);
      r.Ok? && Resolve(c, s, cls.names[1]) == Ok(None) && PackageText(s) == ClassNames.PackageName(cls) ==>
        r.value == (Join(".", ClassNames.SimpleNames(cls)),
          s.(referencedNames := s.referencedNames + {ClassNames.SimpleName(ClassNames.TopLevelClassName(cls))}))
    ensures var r := LookupName(c, s, cls);
      r.Ok? && Resolve(c, s, cls.names[1]) == Ok(None) && PackageText(s) != ClassNames.PackageName(cls) ==>
        r.value == (ClassNames.CanonicalName(cls), if s.javadoc then s else ImportableType(s, cls))
  {
    var n := |cls.names|;
    ShortestIndexResolves(c, s, cls, n);
    LookupFromMatches(c, s, cls, n);
    LookupFromUnmatched(c, s, cls, n);
    var m := LookupFrom(c, s, cls, n);
    assert m.Ok? ==> m.value == Unmatched(Resolve(c, s, cls.names[1]) != Ok(None));
  }

  /** `ClassName.emit`: the looked-up name, written. */
  function EmitClassName(c: Config, s: WriterState, cls: ClassName): (r: Result<WriterState>)
  {
    var (name, s1) :- LookupName(c, s, cls);
    Ok(EmitAndIndent(c, s1, name))
  }

  /** `suggestedImports()`: the importable types whose simple name was not used unqualified. */
  function SuggestedImports(s: WriterState): (r: map<string, ClassName>)
    ensures r.Keys == s.importableTypes.Keys - s.referencedNames
    ensures forall k :: k in r ==> r[k] == s.importableTypes[k]
  {
    map k | k in s.importableTypes && k !in s.referencedNames :: s.importableTypes[k]
  }

  // Statements

  /**
   * Inside a statement begun at indent level `base`: on its first line the level is still
   * `base`, from its second line on it is two deeper.
   */
  predicate InStatement(s: WriterState, base: nat)
  {
    (s.statementLine == 0 && s.indentLevel == base) || (s.statementLine > 0 && s.indentLevel == base + 2)
  }

  /** Writing text inside a statement keeps it inside the statement. */
  lemma {:induction false} PutAllInStatement(c: Config, s: WriterState, text: string, base: nat)
    requires InStatement(s, base)
    ensures InStatement(PutAll(c, s, text), base)
    decreases |text|
  {
    if text != [] {
      PutAllInStatement(c, PutChar(c, s, text[0]), text[1..], base);
    }
  }

  /**
   * A statement `$[ text $]` leaves the indent level where it found it, whether or not the
   * text broke the line, and closes the statement.
   */
  lemma StatementRestoresIndent(c: Config, s: WriterState, text: string)
    requires s.statementLine == -1
    ensures EmitToken(c, s, "$[") == Ok(s.(statementLine := 0))
    ensures var inside := EmitAndIndent(c, s.(statementLine := 0), text);
      var r := EmitToken(c, inside, "$]");
      r.Ok? && r.value.indentLevel == s.indentLevel && r.value.statementLine == -1
  {
    EmitAndIndentIsPutAll(c, s.(statementLine := 0), text);
    PutAllInStatement(c, s.(statementLine := 0), text, s.indentLevel);
  }

  // Static imports

  /** `extractMemberName(part)`: the longest prefix that is still an identifier. */
  function ExtractMemberName(part: string): (r: Result<string>)
    ensures r.Ok? <==> |part| > 0 && IsJavaIdentifierStart(part[0])
    ensures |part| > 0 && r.Err? ==> r.error == IllegalArgument
  {
    if |part| == 0 then Err(IndexOutOfBounds)
    else if !IsJavaIdentifierStart(part[0]) then Err(IllegalArgument)
    else Ok(MemberFrom(part, 1))
  }

  function MemberFrom(part: string, i: nat): string
    requires 1 <= i
    decreases |part| + 1 - i
  {
    if i > |part| then part
    else if !IsIdentifier(part[..i]) then part[..i - 1]
    else MemberFrom(part, i + 1)
  }

  /**
   * `emitStaticImportMember(canonical, part)`: when `part` continues a statically imported
   * class with `.member`, the class is dropped and only the member is written.
   */
  function StaticImportMember(c: Config, s: WriterState, canonical: string, part: string): Option<WriterState>
    requires StartsWith(part, ".")
  {
    var rest := part[1..];
    if rest == [] || !IsJavaIdentifierStart(rest[0]) then None
    else
      var explicit := canonical + "." + ExtractMemberName(rest).value;
      if explicit in c.staticImports || canonical + ".*" in c.staticImports then Some(EmitAndIndent(c, s, rest))
      else None
  }

  /** `emitModifiers(modifiers, implicitModifiers)`, from the `i`-th modifier in declaration order. */
  function ModifiersFrom(c: Config, s: WriterState, modifiers: set<Modifier>, implicit: set<Modifier>, i: nat): (r: WriterState)
    requires i <= |AllModifiers|
    decreases |AllModifiers| - i
  {
    if i == |AllModifiers| then s
    else
      var m := AllModifiers[i];
      var s1 := if m in modifiers && m !in implicit then EmitAndIndent(c, EmitAndIndent(c, s, m.Keyword()), " ") else s;
      ModifiersFrom(c, s1, modifiers, implicit, i + 1)
  }

  /** Writing no modifiers writes nothing. */
  lemma {:induction false} NoModifiers(c: Config, s: WriterState, implicit: set<Modifier>, i: nat)
    requires i <= |AllModifiers|
    ensures ModifiersFrom(c, s, {}, implicit, i) == s
    decreases |AllModifiers| - i
  {
    if i < |AllModifiers| {
      NoModifiers(c, s, implicit, i + 1);
    }
  }

  function EmitModifiers(c: Config, s: WriterState, modifiers: set<Modifier>, implicit: set<Modifier>): (r: WriterState)
  {
    ModifiersFrom(c, s, modifiers, implicit, 0)
  }

  // The recursive family of `emit` methods

  /** The literal `toString()` of an argument, as `$L` and `$S` print it. */
  function Render(arg: Arg): (r: Result<string>)
    ensures arg.Null? ==> r == Ok("null")
    ensures arg.Chars? ==> r == Ok(arg.s)
    ensures arg.Other? ==> r == Ok(arg.text)
    decreases arg, 1
  {
    match arg
    case Null => Ok("null")
    case Chars(text) => Ok(text)
    case Other(text) => Ok(text)
    case Rendered(o) => Render(o)
    case FieldArg(f) => Ok(f.text)
    case AnnotationArg(a) =>
      var s1 :- EmitAnnotation(DefaultConfig, Fresh, a, true);
      Ok(s1.out)
    case TypeArg(t) =>
      var s1 :- EmitTypeAnnotations(DefaultConfig, Fresh, t);
      var s2 :- EmitType(DefaultConfig, s1, t);
      Ok(s2.out)
    case Block(b) =>
      var s1 :- EmitBlock(DefaultConfig, Fresh, b);
      Ok(s1.out)
    case TypeSpecArg(ts) =>
      var s1 :- EmitTypeSpec(DefaultConfig, Fresh, ts, None, {});
      Ok(s1.out)
    case ParamArg(p) =>
      var s1 :- EmitParameter(DefaultConfig, Fresh, p, false);
      Ok(s1.out)
    case MethodArg(m) =>
      var s1 :- EmitMethod(DefaultConfig, Fresh, m, "Constructor", {});
      Ok(s1.out)
  }

  /** `emitLiteral(o)`: a type, an annotation or a code block is emitted in place. */
  function EmitLiteral(c: Config, s: WriterState, arg: Arg): (r: Result<WriterState>)
    ensures arg.Chars? ==> r == Ok(EmitAndIndent(c, s, arg.s))
    ensures arg.Other? ==> r == Ok(EmitAndIndent(c, s, arg.text))
    decreases arg, 3
  {
    match arg
    case TypeSpecArg(ts) => EmitTypeSpec(c, s, ts, None, {})
    case AnnotationArg(a) => EmitAnnotation(c, s, a, true)
    case Block(b) => EmitBlock(c, s, b)
    case Null => EmitRendered(c, s, arg)
    case Chars(_) => EmitRendered(c, s, arg)
    case Other(_) => EmitRendered(c, s, arg)
    case Rendered(_) => EmitRendered(c, s, arg)
    case FieldArg(_) => EmitRendered(c, s, arg)
    case TypeArg(_) => EmitRendered(c, s, arg)
    case ParamArg(_) => EmitRendered(c, s, arg)
    case MethodArg(_) => EmitRendered(c, s, arg)
  }

  /** The `toString()` of an argument, written. */
  function EmitRendered(c: Config, s: WriterState, arg: Arg): (r: Result<WriterState>)
    decreases arg, 2
  {
    var text :- Render(arg);
    Ok(EmitAndIndent(c, s, text))
  }

  /** `emit(codeBlock)`. */
  function EmitBlock(c: Config, s: WriterState, b: CodeBlock): (r: Result<WriterState>)
    ensures IsEmpty(b) ==> r == Ok(s)
    decreases b, 1
  {
    EmitParts(c, s, b, 0, 0)
  }

  /** The loop of `emit(codeBlock)` from part `i`, with `a` arguments consumed. */
  function EmitParts(c: Config, s: WriterState, b: CodeBlock, i: nat, a: nat): (r: Result<WriterState>)
    ensures i < |b.formatParts| && a >= |b.args| && CodeBlocks.IsArgToken(b.formatParts[i]) ==> r == Err(IndexOutOfBounds)
    ensures i < |b.formatParts| && a < |b.args| && b.formatParts[i] == "$T" && !b.args[a].TypeArg? ==> r == Err(ClassCast)
    decreases b, 0, |b.formatParts| - i
  {
    if i >= |b.formatParts| then Ok(s)
    else
      var part := b.formatParts[i];
      if part == "$L" || part == "$N" || part == "$S" || part == "$T" then
        if a >= |b.args| then Err(IndexOutOfBounds)
        else if part == "$T" then
          match b.args[a]
          case TypeArg(t) =>
            if i + 1 < |b.formatParts| && !StartsWith(b.formatParts[i + 1], "$") then
              var s1 :- EmitTypeToken(c, s, t, Some(b.formatParts[i + 1]));
              EmitParts(c, s1, b, i + 2, a + 1)
            else
              var s1 :- EmitTypeToken(c, s, t, None);
              EmitParts(c, s1, b, i + 1, a + 1)
          case _ => Err(ClassCast)
        else
          var s1 :- EmitArgument(c, s, part, b.args[a]);
          EmitParts(c, s1, b, i + 1, a + 1)
      else
        var s1 :- EmitToken(c, s, part);
        EmitParts(c, s1, b, i + 1, a)
  }

  /** The `$L`, `$N` and `$S` cases of `emit(codeBlock)`. */
  function EmitArgument(c: Config, s: WriterState, part: string, arg: Arg): (r: Result<WriterState>)
    ensures part == "$N" && !arg.Chars? && !arg.Rendered? ==> r == Err(ClassCast)
    ensures part == "$S" && arg.Null? ==> r == Ok(EmitAndIndent(c, s, "null"))
    ensures part == "$S" && arg.Chars? ==> r == Ok(EmitAndIndent(c, s, Util.StringLiteral(arg.s, c.indent)))
    decreases arg, 4
  {
    if part == "$L" then EmitLiteral(c, s, arg)
    else if part == "$N" then
      match arg
      case Chars(text) => Ok(EmitAndIndent(c, s, text))
      case Rendered(o) =>
        var text :- Render(o);
        Ok(EmitAndIndent(c, s, text))
      case _ => Err(ClassCast)
    else
      match arg
      case Null => Ok(EmitAndIndent(c, s, "null"))
      case Chars(text) => Ok(EmitAndIndent(c, s, Util.StringLiteral(text, c.indent)))
      case Rendered(o) =>
        var text :- Render(o);
        Ok(EmitAndIndent(c, s, Util.StringLiteral(text, c.indent)))
      case _ => Err(ClassCast)
  }

  /** The cases of `emit(codeBlock)` that take no argument, and literal text. */
  function EmitToken(c: Config, s: WriterState, part: string): (r: Result<WriterState>)
    ensures part == "$[" ==> (r.Ok? <==> s.statementLine == -1)
    ensures part == "$]" ==> (r.Ok? <==> s.statementLine != -1 && (s.statementLine > 0 ==> s.indentLevel >= 2))
    ensures part == "$<" ==> (r.Ok? <==> s.indentLevel >= 1)
    ensures r.Err? && (part == "$[" || part == "$]") ==> r.error == IllegalState || r.error == IllegalArgument
  {
    if part == "$$" then Ok(EmitAndIndent(c, s, "$"))
    else if part == "$>" then Ok(Indent(s, 1))
    else if part == "$<" then Unindent(s, 1)
    else if part == "$[" then
      if s.statementLine != -1 then Err(IllegalState) else Ok(s.(statementLine := 0))
    else if part == "$]" then
      if s.statementLine == -1 then Err(IllegalState)
      else
        var s1 :- if s.statementLine > 0 then Unindent(s, 2) else Ok(s);
        Ok(s1.(statementLine := -1))
    else if part == "$W" then Ok(WrappingSpace(s))
    else Ok(EmitAndIndent(c, s, part))
  }

  /**
   * A `$T` token, with the literal part after it when there is one: the type's annotations,
   * then the type; a statically imported class followed by `.member` is written as the member
   * alone.
   */
  function EmitTypeToken(c: Config, s: WriterState, t: TypeName, next: Option<string>): (r: Result<WriterState>)
    ensures !t.Class? && Annotations(t) == [] && next.None? ==> r == EmitType(c, s, t)
    decreases t, 3
  {
    var s1 :- EmitTypeAnnotations(c, s, t);
    if next.Some? && t.Class? && ClassNames.CanonicalName(t.cls) in c.staticImportClassNames then
      var member := if StartsWith(next.value, ".")
        then StaticImportMember(c, s1, ClassNames.CanonicalName(t.cls), next.value) else None;
      if member.Some? then Ok(member.value)
      else
        var s2 :- EmitClassName(c, s1, ClassName(t.cls.names, []));
        Ok(EmitAndIndent(c, s2, next.value))
    else
      var s2 :- EmitBare(c, s1, t);
      if next.Some? then Ok(EmitAndIndent(c, s2, next.value)) else Ok(s2)
  }

  /** `withoutAnnotations().emit(out)`: only a class name's own annotations affect the emit. */
  function EmitBare(c: Config, s: WriterState, t: TypeName): (r: Result<WriterState>)
    decreases t, 2
  {
    if t.Class? then EmitClassName(c, s, ClassName(t.cls.names, [])) else EmitType(c, s, t)
  }

  /** `TypeName.emitAnnotations(out)`: each annotation inline, followed by a space. */
  function EmitTypeAnnotations(c: Config, s: WriterState, t: TypeName): (r: Result<WriterState>)
    ensures Annotations(t) == [] ==> r == Ok(s)
    decreases t, 1
  {
    match t
    case Primitive(_, annotations, _) => EmitAnnotationList(c, s, annotations, 0, true)
    case Class(cls) => EmitAnnotationList(c, s, cls.annotations, 0, true)
    case Parameterized(p) => EmitAnnotationList(c, s, p.annotations, 0, true)
    case Array(_, annotations) => EmitAnnotationList(c, s, annotations, 0, true)
    case Variable(v) => EmitAnnotationList(c, s, v.annotations, 0, true)
    case Wildcard(_, _, annotations) => EmitAnnotationList(c, s, annotations, 0, true)
  }

  /** `TypeName.emit(out)` of each kind of type name. */
  function EmitType(c: Config, s: WriterState, t: TypeName): (r: Result<WriterState>)
    ensures t.Wildcard? && |t.lowerBounds| != 1 && |t.upperBounds| == 0 ==> r == Err(IndexOutOfBounds)
    ensures (t.Wildcard? && |t.lowerBounds| != 1 && |t.upperBounds| > 0
      && TypeNames.IsClassNamed(t.upperBounds[0], "java.lang.Object")) ==> r == Ok(EmitAndIndent(c, s, "?"))
    decreases t, 1
  {
    match t
    case Primitive(keyword, _, _) => Ok(EmitAndIndent(c, s, keyword))
    case Class(cls) => EmitClassName(c, s, cls)
    case Parameterized(p) => EmitParameterized(c, s, p)
    case Array(component, _) => EmitTypeToken(c, s, component, Some("[]"))
    case Variable(v) => Ok(EmitAndIndent(c, s, v.name))
    case Wildcard(upper, lower, _) =>
      if |lower| == 1 then EmitTypeToken(c, EmitAndIndent(c, s, "? super "), lower[0], None)
      else if |upper| == 0 then Err(IndexOutOfBounds)
      else if TypeNames.IsClassNamed(upper[0], "java.lang.Object") then Ok(EmitAndIndent(c, s, "?"))
      else EmitTypeToken(c, EmitAndIndent(c, s, "? extends "), upper[0], None)
  }

  /** `ParameterizedTypeName.emit(out)`. */
  function EmitParameterized(c: Config, s: WriterState, p: ParameterizedTypeName): (r: Result<WriterState>)
    ensures p.enclosingType.None? && p.rawType.annotations == [] && |p.typeArguments| == 0 ==> r == EmitClassName(c, s, p.rawType)
    decreases p, 2
  {
    var s1 :- match p.enclosingType
      case Some(e) =>
        var s0 :- EmitAnnotationList(c, s, e.annotations, 0, true);
        var s0' :- EmitParameterized(c, s0, e);
        if |p.rawType.names| == 0 then Err(IndexOutOfBounds)
        else Ok(EmitAndIndent(c, s0', "." + ClassNames.SimpleName(p.rawType)))
      case None =>
        var s0 :- EmitAnnotationList(c, s, p.rawType.annotations, 0, true);
        EmitClassName(c, s0, p.rawType);
    if |p.typeArguments| == 0 then Ok(s1)
    else
      var s2 :- EmitTypeArguments(c, EmitAndIndent(c, s1, "<"), p, 0);
      Ok(EmitAndIndent(c, s2, ">"))
  }

  function EmitTypeArguments(c: Config, s: WriterState, p: ParameterizedTypeName, k: nat): (r: Result<WriterState>)
    decreases p, 1, |p.typeArguments| - k
  {
    if k >= |p.typeArguments| then Ok(s)
    else
      var s1 := if k > 0 then EmitAndIndent(c, s, ", ") else s;
      var s2 :- EmitTypeAnnotations(c, s1, p.typeArguments[k]);
      var s3 :- EmitType(c, s2, p.typeArguments[k]);
      EmitTypeArguments(c, s3, p, k + 1)
  }

  /** `emitAnnotations(annotations, inline)` from the `i`-th annotation. */
  function EmitAnnotationList(c: Config, s: WriterState, annotations: seq<AnnotationSpec>, i: nat, inline: bool): (r: Result<WriterState>)
    decreases annotations, 0, |annotations| - i
  {
    if i >= |annotations| then Ok(s)
    else
      var s1 :- EmitAnnotation(c, s, annotations[i], inline);
      EmitAnnotationList(c, EmitAndIndent(c, s1, if inline then " " else "\n"), annotations, i + 1, inline)
  }

  /** `AnnotationSpec.emit(codeWriter, inline)`. */
  function EmitAnnotation(c: Config, s: WriterState, a: AnnotationSpec, inline: bool): (r: Result<WriterState>)
    ensures |a.members| == 0 ==> r == EmitTypeToken(c, EmitAndIndent(c, s, "@"), a.annotationType, None)
    decreases a, 3
  {
    var whitespace := if inline then "" else "\n";
    var separator := if inline then ", " else ",\n";
    if |a.members| == 0 then
      EmitTypeToken(c, EmitAndIndent(c, s, "@"), a.annotationType, None)
    else if |a.members| == 1 && a.members[0].name == "value" then
      var s1 :- EmitTypeToken(c, EmitAndIndent(c, s, "@"), a.annotationType, Some("("));
      var s2 :- EmitAnnotationValues(c, s1, a.members[0].values, whitespace, separator);
      Ok(EmitAndIndent(c, s2, ")"))
    else
      var s1 :- EmitTypeToken(c, EmitAndIndent(c, s, "@"), a.annotationType, Some("(" + whitespace));
      var s2 :- EmitMembers(c, Indent(s1, 2), a, 0, whitespace, separator);
      var s3 :- Unindent(s2, 2);
      Ok(EmitAndIndent(c, s3, whitespace + ")"))
  }

  function EmitMembers(c: Config, s: WriterState, a: AnnotationSpec, k: nat, whitespace: string, separator: string): (r: Result<WriterState>)
    decreases a, 2, |a.members| - k
  {
    if k >= |a.members| then Ok(s)
    else
      var s1 := EmitAndIndent(c, EmitAndIndent(c, s, a.members[k].name), " = ");
      var s2 :- EmitAnnotationValues(c, s1, a.members[k].values, whitespace, separator);
      var s3 := if k + 1 < |a.members| then EmitAndIndent(c, s2, separator) else s2;
      EmitMembers(c, s3, a, k + 1, whitespace, separator)
  }

  /** `emitAnnotationValues`: one value bare, several in braces. */
  function EmitAnnotationValues(c: Config, s: WriterState, values: seq<CodeBlock>, whitespace: string, separator: string): (r: Result<WriterState>)
    ensures |values| == 0 ==> r == Ok(EmitAndIndent(c, EmitAndIndent(c, s, "{" + whitespace), whitespace + "}"))
    decreases values, 2
  {
    if |values| == 1 then
      var s1 :- EmitBlock(c, Indent(s, 2), values[0]);
      Unindent(s1, 2)
    else
      var s1 :- EmitValueList(c, Indent(EmitAndIndent(c, s, "{" + whitespace), 2), values, 0, separator);
      var s2 :- Unindent(s1, 2);
      Ok(EmitAndIndent(c, s2, whitespace + "}"))
  }

  function EmitValueList(c: Config, s: WriterState, values: seq<CodeBlock>, j: nat, separator: string): (r: Result<WriterState>)
    decreases values, 1, |values| - j
  {
    if j >= |values| then Ok(s)
    else
      var s1 := if j > 0 then EmitAndIndent(c, s, separator) else s;
      var s2 :- EmitBlock(c, s1, values[j]);
      EmitValueList(c, s2, values, j + 1, separator)
  }

  /** `emitTypeVariables(typeVariables)`: names with their bounds, in angle brackets. */
  function EmitTypeVariables(c: Config, s: WriterState, variables: seq<TypeVariableName>): (r: Result<WriterState>)
    decreases variables, 2
  {
    if |variables| == 0 then Ok(s)
    else
      var s1 :- EmitTypeVariableList(c, EmitAndIndent(c, s, "<"), variables, 0);
      Ok(EmitAndIndent(c, s1, ">"))
  }

  function EmitTypeVariableList(c: Config, s: WriterState, variables: seq<TypeVariableName>, k: nat): (r: Result<WriterState>)
    decreases variables, 1, |variables| - k
  {
    if k >= |variables| then Ok(s)
    else
      var s1 := if k > 0 then EmitAndIndent(c, s, ", ") else s;
      var s2 :- EmitBounds(c, EmitAndIndent(c, s1, variables[k].name), variables[k], 0);
      EmitTypeVariableList(c, s2, variables, k + 1)
  }

  function EmitBounds(c: Config, s: WriterState, v: TypeVariableName, j: nat): (r: Result<WriterState>)
    decreases v, 0, |v.bounds| - j
  {
    if j >= |v.bounds| then Ok(s)
    else
      var s1 :- EmitTypeToken(c, EmitAndIndent(c, s, if j == 0 then " extends " else " & "), v.bounds[j], None);
      EmitBounds(c, s1, v, j + 1)
  }

  /** `emitJavadoc(block)`: nothing for an empty block, else a `/** ... */` comment. */
  function EmitJavadoc(c: Config, s: WriterState, b: CodeBlock): (r: Result<WriterState>)
    decreases b, 2
  {
    if IsEmpty(b) then Ok(s)
    else
      var s1 :- EmitBlock(c, EmitAndIndent(c, s, "/**\n").(javadoc := true), b);
      Ok(EmitAndIndent(c, s1.(javadoc := false), " */\n"))
  }

  /** `ParameterSpec.emit(codeWriter, varargs)`: inline annotations, modifiers, type and name. */
  function EmitParameter(c: Config, s: WriterState, p: ParameterSpec, varargs: bool): (r: Result<WriterState>)
    ensures varargs && !p.paramType.Array? ==> r.Err?
    decreases p, 2
  {
    var s1 :- EmitAnnotationList(c, s, p.annotations, 0, true);
    EmitParameterName(c, EmitModifiers(c, s1, p.modifiers, {}), p, varargs)
  }

  /**
   * The type of a parameter followed by its name as literal text; a varargs parameter writes
   * its array's component type and `...`, and one whose type is not an array fails.
   */
  function EmitParameterName(c: Config, s: WriterState, p: ParameterSpec, varargs: bool): (r: Result<WriterState>)
    decreases p, 1
  {
    if varargs then
      if p.paramType.Array? then EmitTypeToken(c, s, p.paramType.componentType, Some("... " + p.name))
      else Err(IllegalArgument)
    else EmitTypeToken(c, s, p.paramType, Some(" " + p.name))
  }

  /** A varargs method whose last parameter is not an array: its parameters cannot be written. */
  predicate BadVarargs(m: MethodSpec)
  {
    m.varargs && |m.parameters| > 0 && !m.parameters[|m.parameters| - 1].paramType.Array?
  }

  /** `MethodSpec.emit(codeWriter, enclosingName, implicitModifiers)`. */
  function EmitMethod(c: Config, s: WriterState, m: MethodSpec, enclosingName: string, implicit: set<Modifier>): (r: Result<WriterState>)
    ensures m.name != Constructor && m.returnType.None? ==> r.Err?
    ensures BadVarargs(m) ==> r.Err?
    decreases m, 4
  {
    var s4 :- EmitMethodHead(c, s, m, implicit);
    var s5 :- if m.name == Constructor then Ok(EmitAndIndent(c, s4, enclosingName + "("))
      else
        match m.returnType
        case None => Err(IllegalArgument)
        case Some(returnType) => EmitTypeToken(c, s4, returnType, Some(" " + m.name + "("));
    EmitMethodTail(c, s5, m)
  }

  /** Javadoc, annotations, modifiers and type variables of a method. */
  function EmitMethodHead(c: Config, s: WriterState, m: MethodSpec, implicit: set<Modifier>): (r: Result<WriterState>)
    decreases m, 3
  {
    var s1 :- EmitJavadoc(c, s, m.javadoc);
    var s2 :- EmitAnnotationList(c, s1, m.annotations, 0, false);
    var s3 := EmitModifiers(c, s2, m.modifiers, implicit);
    if |m.typeVariables| > 0 then
      var u :- EmitTypeVariables(c, s3, m.typeVariables);
      Ok(EmitAndIndent(c, u, " "))
    else Ok(s3)
  }

  /** Everything after a method's opening parenthesis: parameters, default value, exceptions and body. */
  function EmitMethodTail(c: Config, s5: WriterState, m: MethodSpec): (r: Result<WriterState>)
    ensures BadVarargs(m) ==> r.Err?
    decreases m, 3
  {
    var s6 :- EmitParameters(c, s5, m, 0);
    EmitMethodEnd(c, s6, m)
  }

  /** Everything after a method's parameters: the closing parenthesis, default value, exceptions and body. */
  function EmitMethodEnd(c: Config, s6: WriterState, m: MethodSpec): (r: Result<WriterState>)
    decreases m, 2
  {
    var s7 := EmitAndIndent(c, s6, ")");
    var s8 :- match m.defaultValue
      case Some(d) =>
        if IsEmpty(d) then Ok(s7) else EmitBlock(c, EmitAndIndent(c, s7, " default "), d)
      case None => Ok(s7);
    var s9 :- if |m.exceptions| > 0 then EmitExceptions(c, EmitAndIndent(c, WrappingSpace(s8), "throws"), m, 0)
      else Ok(s8);
    if ABSTRACT in m.modifiers then Ok(EmitAndIndent(c, s9, ";\n"))
    else if NATIVE in m.modifiers then
      var s10 :- EmitBlock(c, s9, m.code);
      Ok(EmitAndIndent(c, s10, ";\n"))
    else
      var s10 :- EmitBlock(c, Indent(EmitAndIndent(c, s9, " {\n"), 1), m.code);
      var s11 :- Unindent(s10, 1);
      Ok(EmitAndIndent(c, s11, "}\n"))
  }

  function EmitParameters(c: Config, s: WriterState, m: MethodSpec, k: nat): (r: Result<WriterState>)
    ensures BadVarargs(m) && k < |m.parameters| ==> r.Err?
    decreases m, 1, |m.parameters| - k
  {
    if k >= |m.parameters| then Ok(s)
    else
      var s1 := if k > 0 then WrappingSpace(EmitAndIndent(c, s, ",")) else s;
      var s2 :- EmitParameter(c, s1, m.parameters[k], k == |m.parameters| - 1 && m.varargs);
      EmitParameters(c, s2, m, k + 1)
  }

  function EmitExceptions(c: Config, s: WriterState, m: MethodSpec, k: nat): (r: Result<WriterState>)
    decreases m, 0, |m.exceptions| - k
  {
    if k >= |m.exceptions| then Ok(s)
    else
      var s1 := if k > 0 then EmitAndIndent(c, s, ",") else s;
      var s2 :- EmitTypeToken(c, WrappingSpace(s1), m.exceptions[k], None);
      EmitExceptions(c, s2, m, k + 1)
  }

  /** Where a type declaration stands after its header: closed already, or open for members. */
  datatype Header = Done(state: WriterState) | Open(state: WriterState)

  /** The part of `TypeSpec.emit` before the members: enum constant, anonymous class or declaration. */
  function EmitTypeHeader(c: Config, s: WriterState, t: TypeSpec, enumName: Option<string>, implicit: set<Modifier>): (r: Result<Header>)
    ensures enumName.Some? && t.anonymousTypeArguments.None? ==> r.Err?
    decreases t, 2
  {
    if enumName.Some? then
      var s1 :- EmitJavadoc(c, s, t.javadoc);
      var s2 :- EmitAnnotationList(c, s1, t.annotations, 0, false);
      var s3 := EmitAndIndent(c, s2, enumName.value);
      match t.anonymousTypeArguments
      case None => Err(NullPointer)
      case Some(arguments) =>
        var s4 :- if IsEmpty(arguments) then Ok(s3)
          else
            var u :- EmitBlock(c, EmitAndIndent(c, s3, "("), arguments);
            Ok(EmitAndIndent(c, u, ")"));
        if |t.fieldSpecs| == 0 && |t.methodSpecs| == 0 && |t.typeSpecs| == 0 then Ok(Done(s4))
        else Ok(Open(EmitAndIndent(c, s4, " {\n")))
    else if t.anonymousTypeArguments.Some? then
      var s1 :- if |t.superinterfaces| > 0
        then EmitTypeToken(c, EmitAndIndent(c, s, "new "), t.superinterfaces[0], Some("("))
        else EmitTypeToken(c, EmitAndIndent(c, s, "new "), t.superclass, Some("("));
      var s2 :- EmitBlock(c, s1, t.anonymousTypeArguments.value);
      Ok(Open(EmitAndIndent(c, s2, ") {\n")))
    else
      var s1 :- EmitJavadoc(c, s, t.javadoc);
      var s2 :- EmitAnnotationList(c, s1, t.annotations, 0, false);
      var s3 := EmitModifiers(c, s2, t.modifiers, implicit + t.kind.AsMemberModifiers());
      var s4 := EmitAndIndent(c, EmitAndIndent(c, EmitAndIndent(c, s3, t.kind.Keyword()), " "),
        if t.name.Some? then t.name.value else "null");
      var s5 :- EmitTypeVariables(c, s4, t.typeVariables);
      var s6 :- if t.kind == INTERFACE then EmitSupertypes(c, s5, " extends", t.superinterfaces, 0)
        else
          var u :- if TypeNames.IsClassNamed(t.superclass, "java.lang.Object") then Ok(s5)
            else EmitTypeToken(c, EmitAndIndent(c, EmitAndIndent(c, s5, " extends"), " "), t.superclass, None);
          EmitSupertypes(c, u, " implements", t.superinterfaces, 0);
      Ok(Open(EmitAndIndent(c, s6, " {\n")))
  }

  /** A clause like ` implements A, B`, from the `k`-th type on; nothing for no types. */
  function EmitSupertypes(c: Config, s: WriterState, keyword: string, types: seq<TypeName>, k: nat): (r: Result<WriterState>)
    decreases types, |types| - k
  {
    if k >= |types| then Ok(s)
    else
      var s1 := if k == 0 then EmitAndIndent(c, s, keyword) else EmitAndIndent(c, s, ",");
      var s2 :- EmitTypeToken(c, EmitAndIndent(c, s1, " "), types[k], None);
      EmitSupertypes(c, s2, keyword, types, k + 1)
  }

  predicate HasField(t: TypeSpec, isStatic: bool)
  {
    exists k :: 0 <= k < |t.fieldSpecs| && (STATIC in t.fieldSpecs[k].modifiers) == isStatic
  }

  predicate HasMethod(t: TypeSpec, isConstructor: bool)
  {
    exists k :: 0 <= k < |t.methodSpecs| && (t.methodSpecs[k].name == Constructor) == isConstructor
  }

  /** `TypeSpec.emit(codeWriter, enumName, implicitModifiers)`. */
  function EmitTypeSpec(c: Config, s: WriterState, t: TypeSpec, enumName: Option<string>, implicit: set<Modifier>): (r: Result<WriterState>)
    ensures r.Ok? ==> r.value.statementLine == s.statementLine
    decreases t, 3
  {
    var header :- EmitTypeHeader(c, s.(statementLine := -1), t, enumName, implicit);
    if header.Done? then Ok(header.state.(statementLine := s.statementLine))
    else
      var s1 :- EmitEnumConstants(c, Indent(PushType(header.state, t), 1), t, 0);
      var first1 := |t.enumConstants| == 0;
      var s2 := EmitFields(c, s1, t, 0, true, first1);
      var first2 := first1 && !HasField(t, true);
      var s3 :- if IsEmpty(t.staticBlock) then Ok(s2)
        else EmitBlock(c, if first2 then s2 else EmitAndIndent(c, s2, "\n"), t.staticBlock);
      var first3 := first2 && IsEmpty(t.staticBlock);
      var s4 := EmitFields(c, s3, t, 0, false, first3);
      var first4 := first3 && !HasField(t, false);
      var s5 :- if IsEmpty(t.initializerBlock) then Ok(s4)
        else EmitBlock(c, if first4 then s4 else EmitAndIndent(c, s4, "\n"), t.initializerBlock);
      var first5 := first4 && IsEmpty(t.initializerBlock);
      var s6 :- EmitMethodSection(c, s5, t, 0, true, first5);
      var first6 := first5 && !HasMethod(t, true);
      var s7 :- EmitMethodSection(c, s6, t, 0, false, first6);
      var first7 := first6 && !HasMethod(t, false);
      var s8 :- EmitNestedTypes(c, s7, t, 0, first7);
      var s9 :- Unindent(s8, 1);
      var s10 :- PopType(s9);
      var s11 := EmitAndIndent(c, s10, "}");
      var s12 := if enumName.None? && t.anonymousTypeArguments.None? then EmitAndIndent(c, s11, "\n") else s11;
      Ok(s12.(statementLine := s.statementLine))
  }

  /** The enum constants, each followed by `,`, or by `;` when members follow the last. */
  function EmitEnumConstants(c: Config, s: WriterState, t: TypeSpec, k: nat): (r: Result<WriterState>)
    decreases t, 1, |t.enumConstants| - k
  {
    if k >= |t.enumConstants| then Ok(s)
    else
      var s1 := if k > 0 then EmitAndIndent(c, s, "\n") else s;
      var s2 :- EmitTypeSpec(c, s1, t.enumConstants[k].body, Some(t.enumConstants[k].name), {});
      var s3 := if k + 1 < |t.enumConstants| then EmitAndIndent(c, s2, ",\n")
        else if |t.fieldSpecs| > 0 || |t.methodSpecs| > 0 || |t.typeSpecs| > 0 then EmitAndIndent(c, s2, ";\n")
        else EmitAndIndent(c, s2, "\n");
      EmitEnumConstants(c, s3, t, k + 1)
  }

  /** The static (or the instance) fields from the `k`-th on, a blank line before all but the first member. */
  function EmitFields(c: Config, s: WriterState, t: TypeSpec, k: nat, isStatic: bool, first: bool): (r: WriterState)
    decreases |t.fieldSpecs| - k
  {
    if k >= |t.fieldSpecs| then s
    else if (STATIC in t.fieldSpecs[k].modifiers) != isStatic then EmitFields(c, s, t, k + 1, isStatic, first)
    else
      var s1 := if first then s else EmitAndIndent(c, s, "\n");
      EmitFields(c, EmitAndIndent(c, s1, t.fieldSpecs[k].text), t, k + 1, isStatic, false)
  }

  /**
   * The constructors (or the other methods) from the `k`-th on. Only a constructor needs the
   * name of its type; an anonymous class fails on a constructor alone.
   */
  function EmitMethodSection(c: Config, s: WriterState, t: TypeSpec, k: nat, constructors: bool, first: bool): (r: Result<WriterState>)
    ensures t.name.None? && constructors && (exists j :: k <= j < |t.methodSpecs| && t.methodSpecs[j].name == Constructor)
      ==> r == Err(NullPointer)
    decreases t, 1, |t.methodSpecs| - k
  {
    if k >= |t.methodSpecs| then Ok(s)
    else if (t.methodSpecs[k].name == Constructor) != constructors then EmitMethodSection(c, s, t, k + 1, constructors, first)
    else
      var s1 := if first then s else EmitAndIndent(c, s, "\n");
      var s2 :- if t.name.Some? then EmitMethod(c, s1, t.methodSpecs[k], t.name.value, t.kind.ImplicitMethodModifiers())
        else if constructors then Err(NullPointer)
        else EmitMethod(c, s1, t.methodSpecs[k], "", t.kind.ImplicitMethodModifiers());
      EmitMethodSection(c, s2, t, k + 1, constructors, false)
  }

  /**
   * The method sections as `TypeSpec.emit` writes them: the type's name is demanded for every
   * method, so an anonymous class with any method fails.
   */
  function EmitMethodSectionAsWritten(c: Config, s: WriterState, t: TypeSpec, k: nat, constructors: bool, first: bool): (r: Result<WriterState>)
    ensures t.name.None? && (exists j :: k <= j < |t.methodSpecs| && (t.methodSpecs[j].name == Constructor) == constructors)
      ==> r == Err(NullPointer)
    decreases |t.methodSpecs| - k
  {
    if k >= |t.methodSpecs| then Ok(s)
    else if (t.methodSpecs[k].name == Constructor) != constructors then EmitMethodSectionAsWritten(c, s, t, k + 1, constructors, first)
    else
      var s1 := if first then s else EmitAndIndent(c, s, "\n");
      match t.name
      case None => Err(NullPointer)
      case Some(name) =>
        var s2 :- EmitMethod(c, s1, t.methodSpecs[k], name, t.kind.ImplicitMethodModifiers());
        EmitMethodSectionAsWritten(c, s2, t, k + 1, constructors, false)
  }

  /** A method that is not a constructor is written the same whatever its type is called. */
  lemma MethodIgnoresEnclosingName(c: Config, s: WriterState, m: MethodSpec, a: string, b: string, implicit: set<Modifier>)
    requires m.name != Constructor
    ensures EmitMethod(c, s, m, a, implicit) == EmitMethod(c, s, m, b, implicit)
  {
  }

  /** The non-constructor methods of a type are written the same whether it has a name or not. */
  lemma {:induction false} MethodsIgnoreTypeName(c: Config, s: WriterState, t: TypeSpec, name: string, k: nat, first: bool)
    ensures EmitMethodSection(c, s, t, k, false, first) == EmitMethodSection(c, s, t.(name := Some(name)), k, false, first)
    decreases |t.methodSpecs| - k
  {
    var t' := t.(name := Some(name));
    if k < |t.methodSpecs| {
      if t.methodSpecs[k].name != Constructor {
        var s1 := if first then s else EmitAndIndent(c, s, "\n");
        var m := t.methodSpecs[k];
        MethodIgnoresEnclosingName(c, s1, m, if t.name.Some? then t.name.value else "", name, t.kind.ImplicitMethodModifiers());
        var e := EmitMethod(c, s1, m, name, t.kind.ImplicitMethodModifiers());
        if e.Ok? {
          MethodsIgnoreTypeName(c, e.value, t, name, k + 1, false);
        }
      } else {
        MethodsIgnoreTypeName(c, s, t, name, k + 1, first);
      }
    }
  }

  /** As written, an anonymous class whose first method is an ordinary method cannot be written. */
  lemma AnonymousMethodFailsAsWritten(c: Config, s: WriterState, t: TypeSpec, first: bool)
    requires t.name.None? && |t.methodSpecs| > 0 && t.methodSpecs[0].name != Constructor
    ensures EmitMethodSectionAsWritten(c, s, t, 0, false, first) == Err(NullPointer)
  {
  }

  /** Where the type has a name, the written and the corrected sections agree. */
  lemma {:induction false} NamedSectionsAgree(c: Config, s: WriterState, t: TypeSpec, k: nat, constructors: bool, first: bool)
    requires t.name.Some?
    ensures EmitMethodSectionAsWritten(c, s, t, k, constructors, first) == EmitMethodSection(c, s, t, k, constructors, first)
    decreases |t.methodSpecs| - k
  {
    if k < |t.methodSpecs| {
      if (t.methodSpecs[k].name == Constructor) != constructors {
        NamedSectionsAgree(c, s, t, k + 1, constructors, first);
      } else {
        var s1 := if first then s else EmitAndIndent(c, s, "\n");
        var e := EmitMethod(c, s1, t.methodSpecs[k], t.name.value, t.kind.ImplicitMethodModifiers());
        if e.Ok? {
          NamedSectionsAgree(c, e.value, t, k + 1, constructors, false);
        }
      }
    }
  }

  function EmitNestedTypes(c: Config, s: WriterState, t: TypeSpec, k: nat, first: bool): (r: Result<WriterState>)
    decreases t, 1, |t.typeSpecs| - k
  {
    if k >= |t.typeSpecs| then Ok(s)
    else
      var s1 := if first then s else EmitAndIndent(c, s, "\n");
      var s2 :- EmitTypeSpec(c, s1, t.typeSpecs[k], None, t.kind.ImplicitTypeModifiers());
      EmitNestedTypes(c, s2, t, k + 1, false)
  }

  /** `emitComment(block)`: the block as `//` lines. */
  function EmitComment(c: Config, s: WriterState, b: CodeBlock): (r: Result<WriterState>)
  {
    var s1 :- EmitBlock(c, s.(trailingNewline := true, comment := true), b);
    Ok(EmitAndIndent(c, s1, "\n").(comment := false))
  }

  // Facts about emitting code blocks

  /** Literal chunks are written as their concatenated text. */
  lemma {:induction false} LiteralPartsEmitText(c: Config, s: WriterState, b: CodeBlock, i: nat, a: nat)
    requires i <= |b.formatParts|
    requires forall k :: i <= k < |b.formatParts| ==> CodeBlocks.IsLiteral(b.formatParts[k])
    ensures EmitParts(c, s, b, i, a) == Ok(EmitAndIndent(c, s, CodeBlocks.Concat(b.formatParts[i..])))
    decreases |b.formatParts| - i
  {
    if i < |b.formatParts| {
      var part := b.formatParts[i];
      assert part[0] in part;
      var s1 := EmitAndIndent(c, s, part);
      assert EmitToken(c, s, part) == Ok(s1);
      LiteralPartsEmitText(c, s1, b, i + 1, a);
      EmitAndIndentAppend(c, s, part, CodeBlocks.Concat(b.formatParts[i + 1..]));
      assert b.formatParts[i..][1..] == b.formatParts[i + 1..];
    } else {
      EmitAndIndentIsPutAll(c, s, []);
    }
  }

  /** `emit(CodeBlock.of(text))` for text without `$` writes exactly that text. */
  lemma OfLiteralEmitsText(c: Config, s: WriterState, text: string)
    requires CodeBlocks.IsLiteral(text)
    ensures CodeBlocks.Of(text, []) == Ok(CodeBlock([text], []))
    ensures EmitBlock(c, s, CodeBlock([text], [])) == Ok(EmitAndIndent(c, s, text))
  {
    OfLiteral(text);
    LiteralPartsEmitText(c, s, CodeBlock([text], []), 0, 0);
    assert CodeBlocks.Concat([text]) == text + CodeBlocks.Concat([]);
  }

  /** `CodeBlock.of(text)` for text without `$` is that one literal part. */
  lemma OfLiteral(text: string)
    requires CodeBlocks.IsLiteral(text)
    ensures CodeBlocks.Of(text, []) == Ok(CodeBlock([text], []))
  {
    CodeBlocks.AddLiteral([], [], text, []);
    assert [] + [text] == [text];
  }

  /** `$S` with a null argument writes the bare word `null`. */
  lemma NullStringPlaceholder(c: Config, s: WriterState)
    ensures EmitBlock(c, s, CodeBlock(["$S"], [Null])) == Ok(EmitAndIndent(c, s, "null"))
  {
    var s1 := EmitAndIndent(c, s, "null");
    assert EmitArgument(c, s, "$S", Null) == Ok(s1);
    assert EmitParts(c, s1, CodeBlock(["$S"], [Null]), 1, 1) == Ok(s1);
  }

  /** `$S` with a string argument writes it as a Java string literal. */
  lemma StringPlaceholder(c: Config, s: WriterState, text: string)
    ensures EmitBlock(c, s, CodeBlock(["$S"], [Chars(text)])) == Ok(EmitAndIndent(c, s, Util.StringLiteral(text, c.indent)))
  {
    var s1 := EmitAndIndent(c, s, Util.StringLiteral(text, c.indent));
    assert EmitArgument(c, s, "$S", Chars(text)) == Ok(s1);
    assert EmitParts(c, s1, CodeBlock(["$S"], [Chars(text)]), 1, 1) == Ok(s1);
  }

  /** `$$` writes one dollar sign and consumes no argument. */
  lemma DollarPlaceholder(c: Config, s: WriterState, args: seq<Arg>)
    ensures EmitBlock(c, s, CodeBlock(["$$"], args)) == Ok(EmitAndIndent(c, s, "$"))
  {
    var s1 := EmitAndIndent(c, s, "$");
    assert EmitParts(c, s1, CodeBlock(["$$"], args), 1, 0) == Ok(s1);
  }

  // Facts about emitting type names

  /**
   * A type name written without looking anything up: an unannotated keyword or type
   * variable, or an unannotated array or wildcard built from such types (a wildcard may also
   * be bounded by `Object`).
   */
  predicate Plain(t: TypeName)
  {
    match t
    case Primitive(_, annotations, _) => annotations == []
    case Variable(v) => v.annotations == []
    case Array(component, annotations) => annotations == [] && Plain(component)
    case Wildcard(upper, lower, annotations) =>
      && annotations == []
      && (|lower| == 1 ==> Plain(lower[0]))
      && (|lower| != 1 ==> |upper| > 0 && (TypeNames.IsClassNamed(upper[0], "java.lang.Object") || Plain(upper[0])))
    case Class(_) => false
    case Parameterized(_) => false
  }

  /**
   * The Java text of a plain type name, independently of the writer: `T[]` for an array,
   * `? super T` for a wildcard with a lower bound, `?` for one bounded by `Object`, and
   * `? extends T` otherwise.
   */
  function PlainText(t: TypeName): string
    requires Plain(t)
  {
    match t
    case Primitive(keyword, _, _) => keyword
    case Variable(v) => v.name
    case Array(component, _) => PlainText(component) + "[]"
    case Wildcard(upper, lower, _) =>
      if |lower| == 1 then "? super " + PlainText(lower[0])
      else if TypeNames.IsClassNamed(upper[0], "java.lang.Object") then "?"
      else "? extends " + PlainText(upper[0])
  }

  /** A type name without annotations writes none. */
  lemma NoTypeAnnotations(c: Config, s: WriterState, t: TypeName)
    requires Annotations(t) == []
    ensures EmitTypeAnnotations(c, s, t) == Ok(s)
  {
  }

  /**
   * In any writer state, a plain type name is written as its text, both by `emit` and as a
   * `$T` token: arrays as their component followed by `[]`, wildcards as `? super T`, `?` or
   * `? extends T`.
   */
  lemma {:induction false} EmitPlainType(c: Config, s: WriterState, t: TypeName)
    requires Plain(t)
    ensures EmitType(c, s, t) == Ok(EmitAndIndent(c, s, PlainText(t)))
    ensures EmitTypeToken(c, s, t, None) == Ok(EmitAndIndent(c, s, PlainText(t)))
    decreases t, 1
  {
    NoTypeAnnotations(c, s, t);
    match t
    case Primitive(_, _, _) =>
    case Variable(_) =>
    case Array(component, _) =>
      EmitPlainArray(c, s, component);
    case Wildcard(upper, lower, _) =>
      if |lower| == 1 {
        EmitPlainBound(c, s, "? super ", lower[0]);
      } else if !TypeNames.IsClassNamed(upper[0], "java.lang.Object") {
        EmitPlainBound(c, s, "? extends ", upper[0]);
      }
  }

  /** The string form of a plain type name (its `toString()`) is its text. */
  lemma RenderPlainType(t: TypeName)
    requires Plain(t)
    ensures Render(TypeArg(t)) == Ok(PlainText(t))
  {
    NoTypeAnnotations(DefaultConfig, Fresh, t);
    EmitPlainType(DefaultConfig, Fresh, t);
    EmitAndIndentIsPutAll(DefaultConfig, Fresh, PlainText(t));
    PutAllAtMargin(DefaultConfig, Fresh, PlainText(t));
    assert "" + PlainText(t) == PlainText(t);
  }

  /** An array of a plain component: the component's text, then `[]`. */
  lemma {:induction false} EmitPlainArray(c: Config, s: WriterState, component: TypeName)
    requires Plain(component)
    ensures EmitTypeToken(c, s, component, Some("[]")) == Ok(EmitAndIndent(c, s, PlainText(component) + "[]"))
    decreases component, 2
  {
    EmitPlainType(c, s, component);
    NoTypeAnnotations(c, s, component);
    EmitAndIndentAppend(c, s, PlainText(component), "[]");
  }

  /** A wildcard's keyword followed by a plain bound. */
  lemma {:induction false} EmitPlainBound(c: Config, s: WriterState, keyword: string, bound: TypeName)
    requires Plain(bound)
    ensures EmitTypeToken(c, EmitAndIndent(c, s, keyword), bound, None) == Ok(EmitAndIndent(c, s, keyword + PlainText(bound)))
    decreases bound, 2
  {
    EmitPlainType(c, EmitAndIndent(c, s, keyword), bound);
    EmitAndIndentAppend(c, s, keyword, PlainText(bound));
  }

  /** The texts of plain type names, in order. */
  function PlainTexts(types: seq<TypeName>): (r: seq<string>)
    requires forall j :: 0 <= j < |types| ==> Plain(types[j])
    ensures |r| == |types| && forall j :: 0 <= j < |types| ==> r[j] == PlainText(types[j])
  {
    seq(|types|, j requires 0 <= j < |types| => PlainText(types[j]))
  }

  /** Joining from position `k`, after `sep`: the `k`-th text, then the rest after a separator. */
  lemma JoinFrom(texts: seq<string>, k: nat, sep: string)
    requires k < |texts|
    ensures k + 1 < |texts| ==> sep + texts[k] + (", " + Join(", ", texts[k + 1..])) == sep + Join(", ", texts[k..])
    ensures k + 1 == |texts| ==> sep + texts[k] == sep + Join(", ", texts[k..])
  {
    assert texts[k..][0] == texts[k];
    assert texts[k..][1..] == texts[k + 1..];
  }

  /** One type argument: its separator and text, then the arguments after it. */
  lemma PlainArgumentStep(c: Config, s: WriterState, p: ParameterizedTypeName, k: nat)
    requires k < |p.typeArguments| && Plain(p.typeArguments[k])
    ensures EmitTypeArguments(c, s, p, k)
         == EmitTypeArguments(c, EmitAndIndent(c, s, (if k > 0 then ", " else "") + PlainText(p.typeArguments[k])), p, k + 1)
  {
    var sep := if k > 0 then ", " else "";
    var s1 := if k > 0 then EmitAndIndent(c, s, ", ") else s;
    assert s1 == EmitAndIndent(c, s, sep) by {
      if k == 0 {
        EmitAndIndentIsPutAll(c, s, "");
      }
    }
    NoTypeAnnotations(c, s1, p.typeArguments[k]);
    EmitPlainType(c, s1, p.typeArguments[k]);
    EmitAndIndentAppend(c, s, sep, PlainText(p.typeArguments[k]));
  }

  /** The type arguments from the `k`-th on, separated by `, `. */
  lemma {:induction false} EmitPlainArguments(c: Config, s: WriterState, p: ParameterizedTypeName, k: nat)
    requires k < |p.typeArguments|
    requires forall j :: 0 <= j < |p.typeArguments| ==> Plain(p.typeArguments[j])
    ensures EmitTypeArguments(c, s, p, k)
         == Ok(EmitAndIndent(c, s, (if k > 0 then ", " else "") + Join(", ", PlainTexts(p.typeArguments)[k..])))
    decreases |p.typeArguments| - k
  {
    var texts := PlainTexts(p.typeArguments);
    var sep := if k > 0 then ", " else "";
    PlainArgumentStep(c, s, p, k);
    var s3 := EmitAndIndent(c, s, sep + texts[k]);
    JoinFrom(texts, k, sep);
    if k + 1 < |p.typeArguments| {
      EmitPlainArguments(c, s3, p, k + 1);
      EmitAndIndentAppend(c, s, sep + texts[k], ", " + Join(", ", texts[k + 1..]));
    } else {
      assert EmitTypeArguments(c, s3, p, k + 1) == Ok(s3);
    }
  }

  /**
   * A parameterized type writes its raw part, then `<a, b>` when it has type arguments and
   * nothing more when it has none.
   */
  lemma EmitParameterizedArguments(c: Config, s: WriterState, p: ParameterizedTypeName)
    requires forall j :: 0 <= j < |p.typeArguments| ==> Plain(p.typeArguments[j])
    ensures var head := EmitParameterized(c, s, p.(typeArguments := []));
      EmitParameterized(c, s, p)
      == if head.Err? || |p.typeArguments| == 0 then head
         else Ok(EmitAndIndent(c, head.value, "<" + Join(", ", PlainTexts(p.typeArguments)) + ">"))
  {
    ParameterizedHead(c, s, p);
    var head := EmitParameterized(c, s, p.(typeArguments := []));
    if head.Ok? && |p.typeArguments| > 0 {
      var texts := PlainTexts(p.typeArguments);
      EmitPlainArguments(c, EmitAndIndent(c, head.value, "<"), p, 0);
      WholeJoin(texts);
      AngleText(c, head.value, Join(", ", texts));
    }
  }

  lemma WholeJoin(texts: seq<string>)
    ensures "" + Join(", ", texts[0..]) == Join(", ", texts)
  {
    assert texts[0..] == texts;
  }

  /** Text written between `<` and `>` in three steps is written at once. */
  lemma AngleText(c: Config, s: WriterState, body: string)
    ensures EmitAndIndent(c, EmitAndIndent(c, EmitAndIndent(c, s, "<"), body), ">") == EmitAndIndent(c, s, "<" + body + ">")
  {
    EmitAndIndentAppend(c, s, "<", body);
    EmitAndIndentAppend(c, s, "<" + body, ">");
  }

  /** The raw part of a parameterized type does not depend on its arguments. */
  lemma ParameterizedHead(c: Config, s: WriterState, p: ParameterizedTypeName)
    ensures var head := EmitParameterized(c, s, p.(typeArguments := []));
      EmitParameterized(c, s, p)
      == if head.Err? || |p.typeArguments| == 0 then head
         else
           var s2 := EmitTypeArguments(c, EmitAndIndent(c, head.value, "<"), p, 0);
           if s2.Err? then s2 else Ok(EmitAndIndent(c, s2.value, ">"))
  {
  }

  // Facts about emitting annotations

  /** Outside a statement, writing text never changes the indent level. */
  lemma {:induction false} PutAllKeepsLevel(c: Config, s: WriterState, text: string)
    requires s.statementLine == -1
    ensures PutAll(c, s, text).indentLevel == s.indentLevel && PutAll(c, s, text).statementLine == -1
    decreases |text|
  {
    if text != [] {
      PutAllKeepsLevel(c, PutChar(c, s, text[0]), text[1..]);
    }
  }

  lemma EmitAndIndentKeepsLevel(c: Config, s: WriterState, text: string)
    requires s.statementLine == -1
    ensures EmitAndIndent(c, s, text).indentLevel == s.indentLevel && EmitAndIndent(c, s, text).statementLine == -1
  {
    EmitAndIndentIsPutAll(c, s, text);
    PutAllKeepsLevel(c, s, text);
  }

  /** The writer is outside a statement at indent level `level`. */
  predicate AtLevel(s: WriterState, level: nat)
  {
    s.indentLevel == level && s.statementLine == -1
  }

  /** A class name is written without changing the level. */
  lemma ClassNameKeepsLevel(c: Config, s: WriterState, cls: ClassName)
    requires s.statementLine == -1
    ensures var r := EmitClassName(c, s, cls); r.Ok? ==> AtLevel(r.value, s.indentLevel)
  {
    var l := LookupName(c, s, cls);
    if l.Ok? {
      EmitAndIndentKeepsLevel(c, l.value.1, l.value.0);
    }
  }

  /** An unannotated class as a `$T` token, with or without text after it, keeps the level. */
  lemma ClassTokenKeepsLevel(c: Config, s: WriterState, t: TypeName, next: Option<string>)
    requires t.Class? && t.cls.annotations == [] && s.statementLine == -1
    ensures var r := EmitTypeToken(c, s, t, next); r.Ok? ==> AtLevel(r.value, s.indentLevel)
  {
    NoTypeAnnotations(c, s, t);
    var cls := ClassName(t.cls.names, []);
    ClassNameKeepsLevel(c, s, cls);
    var e := EmitClassName(c, s, cls);
    if next.Some? && e.Ok? {
      EmitAndIndentKeepsLevel(c, e.value, next.value);
    }
    if next.Some? && ClassNames.CanonicalName(t.cls) in c.staticImportClassNames && StartsWith(next.value, ".") {
      var rest := next.value[1..];
      EmitAndIndentKeepsLevel(c, s, rest);
    }
  }

  /** An argument that is written as its text: null, a character sequence, or another object. */
  predicate SimpleArg(arg: Arg)
  {
    arg.Null? || arg.Chars? || arg.Other?
  }

  /** A part that neither changes the indentation nor opens or closes a statement nor takes a type. */
  predicate NeutralPart(part: string)
  {
    part != "$>" && part != "$<" && part != "$[" && part != "$]" && part != "$T"
  }

  /** A code block of text and simple arguments, such as an annotation value `$S` or `$L`. */
  predicate PlainBlock(b: CodeBlock)
  {
    && (forall k :: 0 <= k < |b.formatParts| ==> NeutralPart(b.formatParts[k]))
    && (forall j :: 0 <= j < |b.args| ==> SimpleArg(b.args[j]))
  }

  lemma ArgumentKeepsLevel(c: Config, s: WriterState, part: string, arg: Arg)
    requires SimpleArg(arg) && s.statementLine == -1
    ensures var r := EmitArgument(c, s, part, arg); r.Ok? ==> AtLevel(r.value, s.indentLevel)
  {
    if part == "$L" {
      var text := match arg
        case Null => "null"
        case Chars(x) => x
        case Other(x) => x;
      assert Render(arg) == Ok(text);
      assert EmitArgument(c, s, part, arg) == Ok(EmitAndIndent(c, s, text));
      EmitAndIndentKeepsLevel(c, s, text);
    } else if part == "$N" {
      if arg.Chars? {
        EmitAndIndentKeepsLevel(c, s, arg.s);
      }
    } else if arg.Null? {
      EmitAndIndentKeepsLevel(c, s, "null");
    } else if arg.Chars? {
      EmitAndIndentKeepsLevel(c, s, Util.StringLiteral(arg.s, c.indent));
    }
  }

  lemma TokenKeepsLevel(c: Config, s: WriterState, part: string)
    requires NeutralPart(part) && s.statementLine == -1
    ensures var r := EmitToken(c, s, part); r.Ok? ==> AtLevel(r.value, s.indentLevel)
  {
    EmitAndIndentKeepsLevel(c, s, "$");
    EmitAndIndentKeepsLevel(c, s, part);
  }

  /** A plain block is written without changing the level. */
  lemma {:induction false} PlainPartsKeepLevel(c: Config, s: WriterState, b: CodeBlock, i: nat, a: nat)
    requires PlainBlock(b) && s.statementLine == -1
    ensures var r := EmitParts(c, s, b, i, a); r.Ok? ==> AtLevel(r.value, s.indentLevel)
    decreases |b.formatParts| - i
  {
    if i < |b.formatParts| {
      var part := b.formatParts[i];
      assert NeutralPart(part);
      if part == "$L" || part == "$N" || part == "$S" {
        if a < |b.args| {
          ArgumentKeepsLevel(c, s, part, b.args[a]);
          var e := EmitArgument(c, s, part, b.args[a]);
          if e.Ok? {
            PlainPartsKeepLevel(c, e.value, b, i + 1, a + 1);
          }
        }
      } else {
        TokenKeepsLevel(c, s, part);
        var e := EmitToken(c, s, part);
        if e.Ok? {
          PlainPartsKeepLevel(c, e.value, b, i + 1, a);
        }
      }
    }
  }

  predicate PlainValues(values: seq<CodeBlock>)
  {
    forall j :: 0 <= j < |values| ==> PlainBlock(values[j])
  }

  /** The values from the `j`-th on, with separators between them. */
  lemma {:induction false} ValueListKeepsLevel(c: Config, s: WriterState, values: seq<CodeBlock>, j: nat, separator: string)
    requires PlainValues(values) && s.statementLine == -1
    ensures var r := EmitValueList(c, s, values, j, separator); r.Ok? ==> AtLevel(r.value, s.indentLevel)
    decreases |values| - j
  {
    if j < |values| {
      var s1 := if j > 0 then EmitAndIndent(c, s, separator) else s;
      EmitAndIndentKeepsLevel(c, s, separator);
      PlainPartsKeepLevel(c, s1, values[j], 0, 0);
      var e := EmitBlock(c, s1, values[j]);
      if e.Ok? {
        ValueListKeepsLevel(c, e.value, values, j + 1, separator);
      }
    }
  }

  /**
   * `emitAnnotationValues`: the `indent(2)` before the values and the `unindent(2)` after
   * them cancel, one value or several.
   */
  lemma AnnotationValuesKeepLevel(c: Config, s: WriterState, values: seq<CodeBlock>, whitespace: string, separator: string)
    requires PlainValues(values) && s.statementLine == -1
    ensures var r := EmitAnnotationValues(c, s, values, whitespace, separator); r.Ok? ==> AtLevel(r.value, s.indentLevel)
  {
    if |values| == 1 {
      PlainPartsKeepLevel(c, Indent(s, 2), values[0], 0, 0);
    } else {
      var s0 := EmitAndIndent(c, s, "{" + whitespace);
      EmitAndIndentKeepsLevel(c, s, "{" + whitespace);
      ValueListKeepsLevel(c, Indent(s0, 2), values, 0, separator);
      var e := EmitValueList(c, Indent(s0, 2), values, 0, separator);
      if e.Ok? {
        var u := Unindent(e.value, 2);
        if u.Ok? {
          EmitAndIndentKeepsLevel(c, u.value, whitespace + "}");
        }
      }
    }
  }

  /** An annotation whose type is an unannotated class and whose values are plain blocks. */
  predicate PlainAnnotation(a: AnnotationSpec)
  {
    && a.annotationType.Class? && a.annotationType.cls.annotations == []
    && forall k :: 0 <= k < |a.members| ==> PlainValues(a.members[k].values)
  }

  /** The members from the `k`-th on, each `name = values`, with separators between them. */
  lemma {:induction false} MembersKeepLevel(c: Config, s: WriterState, a: AnnotationSpec, k: nat, whitespace: string, separator: string)
    requires PlainAnnotation(a) && s.statementLine == -1
    ensures var r := EmitMembers(c, s, a, k, whitespace, separator); r.Ok? ==> AtLevel(r.value, s.indentLevel)
    decreases |a.members| - k
  {
    if k < |a.members| {
      var s0 := EmitAndIndent(c, s, a.members[k].name);
      EmitAndIndentKeepsLevel(c, s, a.members[k].name);
      var s1 := EmitAndIndent(c, s0, " = ");
      EmitAndIndentKeepsLevel(c, s0, " = ");
      AnnotationValuesKeepLevel(c, s1, a.members[k].values, whitespace, separator);
      var e := EmitAnnotationValues(c, s1, a.members[k].values, whitespace, separator);
      if e.Ok? {
        EmitAndIndentKeepsLevel(c, e.value, separator);
        var s3 := if k + 1 < |a.members| then EmitAndIndent(c, e.value, separator) else e.value;
        MembersKeepLevel(c, s3, a, k + 1, whitespace, separator);
      }
    }
  }

  /**
   * `AnnotationSpec.emit`, inline or not, outside a statement: every `indent(2)` is matched
   * by its `unindent(2)`, so the writer ends at the indent level it started at.
   */
  lemma EmitAnnotationKeepsLevel(c: Config, s: WriterState, a: AnnotationSpec, inline: bool)
    requires PlainAnnotation(a) && s.statementLine == -1
    ensures var r := EmitAnnotation(c, s, a, inline); r.Ok? ==> AtLevel(r.value, s.indentLevel)
  {
    var whitespace := if inline then "" else "\n";
    var separator := if inline then ", " else ",\n";
    var at := EmitAndIndent(c, s, "@");
    EmitAndIndentKeepsLevel(c, s, "@");
    if |a.members| == 0 {
      ClassTokenKeepsLevel(c, at, a.annotationType, None);
    } else if |a.members| == 1 && a.members[0].name == "value" {
      ClassTokenKeepsLevel(c, at, a.annotationType, Some("("));
      var e := EmitTypeToken(c, at, a.annotationType, Some("("));
      if e.Ok? {
        AnnotationValuesKeepLevel(c, e.value, a.members[0].values, whitespace, separator);
        var v := EmitAnnotationValues(c, e.value, a.members[0].values, whitespace, separator);
        if v.Ok? {
          EmitAndIndentKeepsLevel(c, v.value, ")");
        }
      }
    } else {
      ClassTokenKeepsLevel(c, at, a.annotationType, Some("(" + whitespace));
      var e := EmitTypeToken(c, at, a.annotationType, Some("(" + whitespace));
      if e.Ok? {
        MembersKeepLevel(c, Indent(e.value, 2), a, 0, whitespace, separator);
        var m := EmitMembers(c, Indent(e.value, 2), a, 0, whitespace, separator);
        if m.Ok? {
          var u := Unindent(m.value, 2);
          if u.Ok? {
            EmitAndIndentKeepsLevel(c, u.value, whitespace + ")");
          }
        }
      }
    }
  }
}
