/**
 * `JavaFile`: a top-level type with its package, file comment and imports. Writing a file
 * emits it twice: a first pass into a writer with no imports collects the classes the code
 * can import, and a second pass writes the code with those classes imported.
 */
module JavaFiles {
  import opened Wrappers
  import opened Strings
  import opened Specs
  import ClassNames
  import CodeBlocks
  import Emission
  import CodeWriters

  /** A built file. The static imports are the builder's `TreeSet` of member signatures. */
  datatype JavaFile = JavaFile(
    fileComment: CodeBlock,
    packageName: string,
    typeSpec: TypeSpec,
    skipJavaLangImports: bool,
    staticImports: set<string>,
    indent: string)

  // ---------------------------------------------------------------------------------------
  // The imported classes, in `TreeSet<ClassName>` order

  /** Strictly ascending by `ClassName.compareTo`, that is by canonical name. */
  predicate ByCanonicalName(classes: seq<ClassName>)
  {
    forall i, j :: 0 <= i < j < |classes| ==>
      Compare(ClassNames.CanonicalName(classes[i]), ClassNames.CanonicalName(classes[j])) < 0
  }

  /** The canonical names of the imported classes. */
  function ImportedNames(importedTypes: map<string, ClassName>): set<string>
  {
    set k | k in importedTypes :: ClassNames.CanonicalName(importedTypes[k])
  }

  /**
   * The simple name under which the class kept for canonical name `n` is imported: the
   * least of those whose class has that name.
   */
  function KeptKey(importedTypes: map<string, ClassName>, n: string): (k: string)
    requires n in ImportedNames(importedTypes)
    ensures k in importedTypes && ClassNames.CanonicalName(importedTypes[k]) == n
  {
    var keys := set k | k in importedTypes && ClassNames.CanonicalName(importedTypes[k]) == n;
    assert keys != {} by {
      var k :| k in importedTypes && ClassNames.CanonicalName(importedTypes[k]) == n;
      assert k in keys;
    }
    Least(keys)
  }

  /**
   * `TreeSet(codeWriter.importedTypes.values)`: the imported classes ascending by canonical
   * name, one per canonical name.
   */
  function ImportOrder(importedTypes: map<string, ClassName>): (r: seq<ClassName>)
    ensures ByCanonicalName(r)
    ensures forall c :: c in r ==> c in importedTypes.Values
    ensures forall k :: k in importedTypes ==>
      exists i :: 0 <= i < |r| && ClassNames.CanonicalName(r[i]) == ClassNames.CanonicalName(importedTypes[k])
  {
    var names := SortedSet(ImportedNames(importedTypes));
    var r := seq(|names|, i requires 0 <= i < |names| => importedTypes[KeptKey(importedTypes, names[i])]);
    assert forall i :: 0 <= i < |r| ==> ClassNames.CanonicalName(r[i]) == names[i];
    assert forall k :: k in importedTypes ==> ClassNames.CanonicalName(importedTypes[k]) in names;
    r
  }

  /** A class gets an import line unless `java.lang` imports are skipped and it is in `java.lang`. */
  predicate Imported(c: ClassName, skipJavaLangImports: bool)
  {
    !(skipJavaLangImports && ClassNames.PackageName(c) == "java.lang")
  }

  /** The classes the loop of `emit` writes an import line for, in the order it meets them. */
  function ImportLines(classes: seq<ClassName>, skipJavaLangImports: bool): (r: seq<ClassName>)
    ensures |r| <= |classes|
    decreases |classes|
  {
    if classes == [] then []
    else
      var last := classes[|classes| - 1];
      ImportLines(classes[..|classes| - 1], skipJavaLangImports)
        + (if Imported(last, skipJavaLangImports) then [last] else [])
  }

  /** Exactly the classes not skipped get a line. */
  lemma {:induction false} ImportLinesMembers(classes: seq<ClassName>, skipJavaLangImports: bool)
    ensures forall c :: c in ImportLines(classes, skipJavaLangImports) <==> c in classes && Imported(c, skipJavaLangImports)
    decreases |classes|
  {
    if classes != [] {
      var init := classes[..|classes| - 1];
      assert classes == init + [classes[|classes| - 1]];
      ImportLinesMembers(init, skipJavaLangImports);
    }
  }

  /** Skipping classes keeps the others in ascending order. */
  lemma {:induction false} ImportLinesAscending(classes: seq<ClassName>, skipJavaLangImports: bool)
    requires ByCanonicalName(classes)
    ensures ByCanonicalName(ImportLines(classes, skipJavaLangImports))
    decreases |classes|
  {
    if classes != [] {
      var init := classes[..|classes| - 1];
      var last := classes[|classes| - 1];
      ImportLinesAscending(init, skipJavaLangImports);
      ImportLinesMembers(init, skipJavaLangImports);
      if Imported(last, skipJavaLangImports) {
        var lines := ImportLines(init, skipJavaLangImports);
        forall c | c in lines
          ensures Compare(ClassNames.CanonicalName(c), ClassNames.CanonicalName(last)) < 0
        {
          var k :| 0 <= k < |init| && init[k] == c;
          assert classes[k] == c;
        }
        AscendingAppend(lines, last);
      }
    }
  }

  /** A class above all of an ascending sequence extends it. */
  lemma AscendingAppend(classes: seq<ClassName>, last: ClassName)
    requires ByCanonicalName(classes)
    requires forall c :: c in classes ==>
      Compare(ClassNames.CanonicalName(c), ClassNames.CanonicalName(last)) < 0
    ensures ByCanonicalName(classes + [last])
  {
    var r := classes + [last];
    forall i, j | 0 <= i < j < |r|
      ensures Compare(ClassNames.CanonicalName(r[i]), ClassNames.CanonicalName(r[j])) < 0
    {
      if j == |classes| {
        assert r[i] in classes;
      }
    }
  }

  /** The lines written for a prefix of the classes are a prefix of those written for all. */
  lemma {:induction false} ImportLinesPrefix(classes: seq<ClassName>, k: nat, skipJavaLangImports: bool)
    requires k <= |classes|
    ensures var lines := ImportLines(classes, skipJavaLangImports);
      var prefix := ImportLines(classes[..k], skipJavaLangImports);
      |prefix| <= |lines| && lines[..|prefix|] == prefix
    decreases |classes|
  {
    if k < |classes| {
      var init := classes[..|classes| - 1];
      assert init[..k] == classes[..k];
      ImportLinesPrefix(init, k, skipJavaLangImports);
    } else {
      assert classes[..k] == classes;
    }
  }

  /** One turn of the import loop: the next class either is skipped or gets the next line. */
  lemma ImportLinesStep(classes: seq<ClassName>, k: nat, count: nat, skipJavaLangImports: bool)
    requires k < |classes|
    requires count <= |ImportLines(classes, skipJavaLangImports)|
    requires ImportLines(classes[..k], skipJavaLangImports) == ImportLines(classes, skipJavaLangImports)[..count]
    ensures !Imported(classes[k], skipJavaLangImports) ==>
      ImportLines(classes[..k + 1], skipJavaLangImports) == ImportLines(classes, skipJavaLangImports)[..count]
    ensures Imported(classes[k], skipJavaLangImports) ==>
      && count < |ImportLines(classes, skipJavaLangImports)|
      && ImportLines(classes, skipJavaLangImports)[count] == classes[k]
      && ImportLines(classes[..k + 1], skipJavaLangImports) == ImportLines(classes, skipJavaLangImports)[..count + 1]
  {
    ImportLinesSnoc(classes, k, skipJavaLangImports);
    ImportLinesPrefix(classes, k + 1, skipJavaLangImports);
    PrefixGrows(ImportLines(classes, skipJavaLangImports), ImportLines(classes[..k + 1], skipJavaLangImports), count,
                if Imported(classes[k], skipJavaLangImports) then [classes[k]] else []);
  }

  /** The lines of one more class: its line, if it gets one, after those of the classes before it. */
  lemma ImportLinesSnoc(classes: seq<ClassName>, k: nat, skipJavaLangImports: bool)
    requires k < |classes|
    ensures ImportLines(classes[..k + 1], skipJavaLangImports)
         == ImportLines(classes[..k], skipJavaLangImports)
            + (if Imported(classes[k], skipJavaLangImports) then [classes[k]] else [])
  {
    var prefix := classes[..k + 1];
    assert prefix[..k] == classes[..k] && prefix[k] == classes[k];
  }

  /** A prefix of `whole` that is extended by `extra` and stays a prefix. */
  lemma PrefixGrows<T>(whole: seq<T>, longer: seq<T>, count: nat, extra: seq<T>)
    requires count <= |whole| && longer == whole[..count] + extra
    requires |longer| <= |whole| && whole[..|longer|] == longer
    ensures |extra| <= |whole| - count
    ensures extra == [] ==> longer == whole[..count]
    ensures |extra| == 1 ==> whole[count] == extra[0] && longer == whole[..count + 1]
  {
    if |extra| == 1 {
      assert whole[count] == whole[..|longer|][count] == longer[count];
    }
  }

  /**
   * The import lines of a file: ascending by canonical name, each for an imported class, and
   * none for `java.lang` when those are skipped.
   */
  lemma ImportLinesOfFile(importedTypes: map<string, ClassName>, skipJavaLangImports: bool)
    ensures ByCanonicalName(ImportLines(ImportOrder(importedTypes), skipJavaLangImports))
    ensures forall c :: c in ImportLines(ImportOrder(importedTypes), skipJavaLangImports) ==>
      c in importedTypes.Values && Imported(c, skipJavaLangImports)
  {
    ImportLinesAscending(ImportOrder(importedTypes), skipJavaLangImports);
    ImportLinesMembers(ImportOrder(importedTypes), skipJavaLangImports);
  }

  /** When `java.lang` imports are not skipped, every class in the order gets its line. */
  lemma {:induction false} NothingSkipped(classes: seq<ClassName>)
    ensures ImportLines(classes, false) == classes
    decreases |classes|
  {
    if classes != [] {
      NothingSkipped(classes[..|classes| - 1]);
      assert classes == classes[..|classes| - 1] + [classes[|classes| - 1]];
    }
  }

  /**
   * The second pass of `writeTo` imports only what the first pass found importable and did
   * not see referenced by its simple name.
   */
  lemma ImportsFromFirstPass(collected: Emission.WriterState, skipJavaLangImports: bool)
    ensures forall c :: c in ImportLines(ImportOrder(Emission.SuggestedImports(collected)), skipJavaLangImports) ==>
      exists k :: (k in collected.importableTypes && k !in collected.referencedNames
        && collected.importableTypes[k] == c)
  {
    var suggested := Emission.SuggestedImports(collected);
    ImportLinesMembers(ImportOrder(suggested), skipJavaLangImports);
    forall c | c in ImportLines(ImportOrder(suggested), skipJavaLangImports)
      ensures exists k :: (k in collected.importableTypes && k !in collected.referencedNames
        && collected.importableTypes[k] == c)
    {
      var k :| k in suggested && suggested[k] == c;
    }
  }

  // ---------------------------------------------------------------------------------------
  // The private `emit(codeWriter)`

  /** `codeWriter.emit(format, *args)`: the format is parsed into a block, which is emitted. */
  function EmitFormat(c: Emission.Config, s: Emission.WriterState, format: string, inputs: seq<Arg>)
    : (r: Result<Emission.WriterState>)
    ensures (CodeBlocks.Of(format, inputs).Err? ==> r == Err(CodeBlocks.Of(format, inputs).error))
    ensures (CodeBlocks.Of(format, inputs).Ok? ==> r == Emission.EmitBlock(c, s, CodeBlocks.Of(format, inputs).value))
  {
    var b :- CodeBlocks.Of(format, inputs);
    Emission.EmitBlock(c, s, b)
  }

  /** One `import static` line per signature, from the `k`-th on. */
  function EmitStaticImports(c: Emission.Config, s: Emission.WriterState, signatures: seq<string>, k: nat)
    : Result<Emission.WriterState>
    decreases |signatures| - k
  {
    if k >= |signatures| then Ok(s)
    else
      var s1 :- EmitFormat(c, s, "import static $L;\n", [Chars(signatures[k])]);
      EmitStaticImports(c, s1, signatures, k + 1)
  }

  /** One emitted line per element, from the `k`-th on, stopping at the first failure. */
  function EachLine<S, T>(line: (S, T) -> Result<S>, s: S, xs: seq<T>, k: nat): Result<S>
    decreases |xs| - k
  {
    if k >= |xs| then Ok(s)
    else
      var s1 :- line(s, xs[k]);
      EachLine(line, s1, xs, k + 1)
  }

  /** `EachLine` over the elements `keep` accepts, walking all of them from the `k`-th on. */
  function EachKept<S, T>(line: (S, T) -> Result<S>, keep: T -> bool, s: S, xs: seq<T>, k: nat): Result<S>
    decreases |xs| - k
  {
    if k >= |xs| then Ok(s)
    else if !keep(xs[k]) then EachKept(line, keep, s, xs, k + 1)
    else
      var s1 :- line(s, xs[k]);
      EachKept(line, keep, s1, xs, k + 1)
  }

  /** How many of the elements before the `k`-th `keep` accepts. */
  function KeptBefore<T>(keep: T -> bool, xs: seq<T>, k: nat): nat
    requires k <= |xs|
  {
    if k == 0 then 0 else KeptBefore(keep, xs, k - 1) + (if keep(xs[k - 1]) then 1 else 0)
  }

  /**
   * Walking all the elements and skipping is emitting the accepted ones, when `lines` lists
   * the accepted ones in order: each accepted element sits at the count of those before it.
   */
  lemma {:induction false} EachKeptFrom<S, T>(line: (S, T) -> Result<S>, keep: T -> bool, s: S, xs: seq<T>,
                                              lines: seq<T>, k: nat)
    requires k <= |xs|
    requires KeptBefore(keep, xs, |xs|) == |lines|
    requires forall j :: k <= j < |xs| && keep(xs[j]) ==>
      KeptBefore(keep, xs, j) < |lines| && lines[KeptBefore(keep, xs, j)] == xs[j]
    ensures EachKept(line, keep, s, xs, k) == EachLine(line, s, lines, KeptBefore(keep, xs, k))
    decreases |xs| - k
  {
    if k < |xs| {
      if keep(xs[k]) {
        var s1 := line(s, xs[k]);
        if s1.Ok? {
          EachKeptFrom(line, keep, s1.value, xs, lines, k + 1);
        }
      } else {
        EachKeptFrom(line, keep, s, xs, lines, k + 1);
      }
    }
  }

  /** The `import` line for one class. */
  function ImportStatement(c: Emission.Config): (Emission.WriterState, ClassName) -> Result<Emission.WriterState>
  {
    (u: Emission.WriterState, x: ClassName) => EmitFormat(c, u, "import $L;\n", [TypeArg(Class(x))])
  }

  /** `Imported`, as the test of `EachKept`. */
  function ImportTest(skipJavaLangImports: bool): ClassName -> bool
  {
    (x: ClassName) => Imported(x, skipJavaLangImports)
  }

  /** One `import` line per class, from the `k`-th on. */
  function EmitImports(c: Emission.Config, s: Emission.WriterState, classes: seq<ClassName>, k: nat)
    : Result<Emission.WriterState>
  {
    EachLine(ImportStatement(c), s, classes, k)
  }

  /** The import loop from the `k`-th class on, skipping the classes that get no line. */
  function EmitImportLoop(c: Emission.Config, s: Emission.WriterState, classes: seq<ClassName>, k: nat,
                          skipJavaLangImports: bool): Result<Emission.WriterState>
    decreases |classes| - k
  {
    if k >= |classes| then Ok(s)
    else if !Imported(classes[k], skipJavaLangImports) then EmitImportLoop(c, s, classes, k + 1, skipJavaLangImports)
    else
      var s1 :- EmitFormat(c, s, "import $L;\n", [TypeArg(Class(classes[k]))]);
      EmitImportLoop(c, s1, classes, k + 1, skipJavaLangImports)
  }

  /** The import loop is `EachKept` with the import line and the `java.lang` test. */
  lemma {:induction false} EmitImportLoopIsEachKept(c: Emission.Config, s: Emission.WriterState, classes: seq<ClassName>,
                                                    k: nat, skipJavaLangImports: bool)
    ensures EmitImportLoop(c, s, classes, k, skipJavaLangImports)
         == EachKept(ImportStatement(c), ImportTest(skipJavaLangImports), s, classes, k)
    decreases |classes| - k
  {
    if k < |classes| {
      var s1 := EmitFormat(c, s, "import $L;\n", [TypeArg(Class(classes[k]))]);
      if !Imported(classes[k], skipJavaLangImports) {
        EmitImportLoopIsEachKept(c, s, classes, k + 1, skipJavaLangImports);
      } else if s1.Ok? {
        EmitImportLoopIsEachKept(c, s1.value, classes, k + 1, skipJavaLangImports);
      }
    }
  }

  /** The number of import lines for the classes before the `k`-th. */
  function LinesBefore(classes: seq<ClassName>, k: nat, skipJavaLangImports: bool): nat
    requires k <= |classes|
  {
    if k == 0 then 0
    else LinesBefore(classes, k - 1, skipJavaLangImports) + (if Imported(classes[k - 1], skipJavaLangImports) then 1 else 0)
  }

  /** `LinesBefore` is `KeptBefore` with the `java.lang` test. */
  lemma {:induction false} LinesBeforeIsKeptBefore(classes: seq<ClassName>, k: nat, skipJavaLangImports: bool)
    requires k <= |classes|
    ensures LinesBefore(classes, k, skipJavaLangImports) == KeptBefore(ImportTest(skipJavaLangImports), classes, k)
  {
    if k > 0 {
      LinesBeforeIsKeptBefore(classes, k - 1, skipJavaLangImports);
    }
  }

  /** `LinesBefore` counts the lines of the prefix. */
  lemma {:induction false} LinesBeforeCounts(classes: seq<ClassName>, k: nat, skipJavaLangImports: bool)
    requires k <= |classes|
    ensures LinesBefore(classes, k, skipJavaLangImports) == |ImportLines(classes[..k], skipJavaLangImports)|
  {
    if k > 0 {
      LinesBeforeCounts(classes, k - 1, skipJavaLangImports);
      ImportLinesSnoc(classes, k - 1, skipJavaLangImports);
    }
  }

  /**
   * The lines for the classes before the `k`-th: all of them at the end; otherwise the `k`-th
   * class's line, if it gets one, comes next.
   */
  lemma ImportCount(classes: seq<ClassName>, k: nat, skipJavaLangImports: bool)
    requires k <= |classes|
    ensures var lines := ImportLines(classes, skipJavaLangImports);
      var count := LinesBefore(classes, k, skipJavaLangImports);
      && count <= |lines|
      && (k == |classes| ==> count == |lines|)
      && (k < |classes| && Imported(classes[k], skipJavaLangImports) ==> count < |lines| && lines[count] == classes[k])
  {
    var count := |ImportLines(classes[..k], skipJavaLangImports)|;
    LinesBeforeCounts(classes, k, skipJavaLangImports);
    ImportLinesPrefix(classes, k, skipJavaLangImports);
    if k == |classes| {
      assert classes[..k] == classes;
    } else {
      ImportLinesStep(classes, k, count, skipJavaLangImports);
    }
  }

  /** The loop over all the classes emits exactly the import lines. */
  lemma EmitImportLoopIsEmitImports(c: Emission.Config, s: Emission.WriterState, classes: seq<ClassName>,
                                    skipJavaLangImports: bool)
    ensures EmitImportLoop(c, s, classes, 0, skipJavaLangImports)
         == EmitImports(c, s, ImportLines(classes, skipJavaLangImports), 0)
  {
    var keep := ImportTest(skipJavaLangImports);
    forall j | 0 <= j < |classes| && keep(classes[j])
      ensures KeptBefore(keep, classes, j) < |ImportLines(classes, skipJavaLangImports)|
      ensures ImportLines(classes, skipJavaLangImports)[KeptBefore(keep, classes, j)] == classes[j]
    {
      ImportCount(classes, j, skipJavaLangImports);
      LinesBeforeIsKeptBefore(classes, j, skipJavaLangImports);
    }
    ImportCount(classes, |classes|, skipJavaLangImports);
    LinesBeforeIsKeptBefore(classes, |classes|, skipJavaLangImports);
    LinesBeforeIsKeptBefore(classes, 0, skipJavaLangImports);
    EachKeptFrom(ImportStatement(c), keep, s, classes, ImportLines(classes, skipJavaLangImports), 0);
    EmitImportLoopIsEachKept(c, s, classes, 0, skipJavaLangImports);
  }

  /**
   * The head of the file, inside its package: the file comment, the package declaration and
   * the static imports, each group followed by a blank line.
   */
  function EmitHeader(c: Emission.Config, s: Emission.WriterState, f: JavaFile): (r: Result<Emission.WriterState>)
    ensures s.packageName.Some? ==> r == Err(IllegalState)
  {
    var s1 :- Emission.PushPackage(s, f.packageName);
    var s2 :- if IsEmpty(f.fileComment) then Ok(s1) else Emission.EmitComment(c, s1, f.fileComment);
    var s3 :- if f.packageName == "" then Ok(s2)
              else
                var u :- EmitFormat(c, s2, "package $L;\n", [Chars(f.packageName)]);
                EmitFormat(c, u, "\n", []);
    if f.staticImports == {} then Ok(s3)
    else
      var u :- EmitStaticImports(c, s3, SortedSet(f.staticImports), 0);
      EmitFormat(c, u, "\n", [])
  }

  /** The import lines for the writer's imported classes, and a blank line if there was one. */
  function EmitImportSection(c: Emission.Config, s: Emission.WriterState, skipJavaLangImports: bool)
    : Result<Emission.WriterState>
  {
    var lines := ImportLines(ImportOrder(c.importedTypes), skipJavaLangImports);
    var s1 :- EmitImports(c, s, lines, 0);
    if |lines| > 0 then EmitFormat(c, s1, "\n", []) else Ok(s1)
  }

  /**
   * The private `emit(codeWriter)`: the header, the imports and the type, between
   * `pushPackage` and `popPackage`. A writer already inside a package refuses the file, and
   * a writer that wrote one is outside any package again, ready for the next.
   */
  function EmitFile(c: Emission.Config, s: Emission.WriterState, f: JavaFile): (r: Result<Emission.WriterState>)
    ensures s.packageName.Some? ==> r == Err(IllegalState)
    ensures r.Ok? ==> s.packageName.None? && r.value.packageName.None?
  {
    var s1 :- EmitHeader(c, s, f);
    var s2 :- EmitImportSection(c, s1, f.skipJavaLangImports);
    var s3 :- Emission.EmitTypeSpec(c, s2, f.typeSpec, None, {});
    Emission.PopPackage(s3)
  }

  /**
   * `toString()`, which is `writeTo` into a string: the first pass collects the importable
   * classes, the second writes the file with them imported. A static import without a dot
   * makes the writer's constructor fail.
   */
  function Rendered(f: JavaFile): (r: Result<string>)
    ensures !Emission.Qualified(f.staticImports) ==> r == Err(IndexOutOfBounds)
  {
    var collecting :- Emission.NewConfig(f.indent, map[], f.staticImports);
    var collected :- EmitFile(collecting, Emission.Fresh, f);
    var writing :- Emission.NewConfig(f.indent, Emission.SuggestedImports(collected), f.staticImports);
    var written :- EmitFile(writing, Emission.Fresh, f);
    Ok(written.out)
  }

  // ---------------------------------------------------------------------------------------
  // The same, on a `CodeWriter`

  /** `codeWriter.emit(format, *args)`. */
  method EmitFormatTo(w: CodeWriters.CodeWriter, format: string, inputs: seq<Arg>) returns (outcome: Outcome)
    modifies w
    ensures w.Reached(outcome, EmitFormat(w.Config(), old(w.State()), format, inputs))
  {
    var b := CodeBlocks.Of(format, inputs);
    if b.Err? {
      return Fail(b.error);
    }
    outcome := w.Emit(b.value);
  }

  /** The `import static` loop. */
  method EmitStaticImportsTo(w: CodeWriters.CodeWriter, signatures: seq<string>) returns (outcome: Outcome)
    modifies w
    ensures w.Reached(outcome, EmitStaticImports(w.Config(), old(w.State()), signatures, 0))
  {
    for k := 0 to |signatures|
      invariant EmitStaticImports(w.Config(), w.State(), signatures, k)
             == EmitStaticImports(w.Config(), old(w.State()), signatures, 0)
    {
      outcome := EmitFormatTo(w, "import static $L;\n", [Chars(signatures[k])]);
      if outcome.Fail? {
        return;
      }
    }
    outcome := Pass;
  }

  /** The head of `emit(codeWriter)`, up to the static imports. */
  method EmitHeaderTo(w: CodeWriters.CodeWriter, f: JavaFile) returns (outcome: Outcome)
    modifies w
    ensures w.Reached(outcome, EmitHeader(w.Config(), old(w.State()), f))
  {
    outcome := w.PushPackage(f.packageName);
    if outcome.Fail? {
      return;
    }
    if !IsEmpty(f.fileComment) {
      outcome := w.EmitComment(f.fileComment);
      if outcome.Fail? {
        return;
      }
    }
    if f.packageName != "" {
      outcome := EmitFormatTo(w, "package $L;\n", [Chars(f.packageName)]);
      if outcome.Fail? {
        return;
      }
      outcome := EmitFormatTo(w, "\n", []);
      if outcome.Fail? {
        return;
      }
    }
    if f.staticImports != {} {
      outcome := EmitStaticImportsTo(w, SortedSet(f.staticImports));
      if outcome.Fail? {
        return;
      }
      outcome := EmitFormatTo(w, "\n", []);
    }
  }

  /** The import loop of `emit(codeWriter)`: skipped classes get no line and are not counted. */
  method EmitImportLinesTo(w: CodeWriters.CodeWriter, classes: seq<ClassName>, skipJavaLangImports: bool)
    returns (outcome: Outcome, importedTypesCount: nat)
    modifies w
    ensures w.Reached(outcome, EmitImports(w.Config(), old(w.State()), ImportLines(classes, skipJavaLangImports), 0))
    ensures outcome.Pass? ==> importedTypesCount == |ImportLines(classes, skipJavaLangImports)|
  {
    ghost var s0 := w.State();
    importedTypesCount := 0;
    for k := 0 to |classes|
      invariant importedTypesCount == LinesBefore(classes, k, skipJavaLangImports)
      invariant EmitImportLoop(w.Config(), w.State(), classes, k, skipJavaLangImports)
             == EmitImportLoop(w.Config(), s0, classes, 0, skipJavaLangImports)
    {
      if !Imported(classes[k], skipJavaLangImports) {
        continue;
      }
      outcome := EmitFormatTo(w, "import $L;\n", [TypeArg(Class(classes[k]))]);
      if outcome.Fail? {
        EmitImportLoopIsEmitImports(w.Config(), s0, classes, skipJavaLangImports);
        return;
      }
      importedTypesCount := importedTypesCount + 1;
    }
    EmitImportLoopIsEmitImports(w.Config(), s0, classes, skipJavaLangImports);
    ImportCount(classes, |classes|, skipJavaLangImports);
    outcome := Pass;
  }

  /** The imports of `emit(codeWriter)`, and the blank line after them. */
  method EmitImportSectionTo(w: CodeWriters.CodeWriter, skipJavaLangImports: bool) returns (outcome: Outcome)
    modifies w
    ensures w.Reached(outcome, EmitImportSection(w.Config(), old(w.State()), skipJavaLangImports))
  {
    var importedTypesCount;
    outcome, importedTypesCount := EmitImportLinesTo(w, ImportOrder(w.importedTypes), skipJavaLangImports);
    if outcome.Fail? {
      return;
    }
    if importedTypesCount > 0 {
      outcome := EmitFormatTo(w, "\n", []);
    }
  }

  /** `emit(codeWriter)`: the type itself is emitted by `Emission.EmitTypeSpec`. */
  method EmitTo(w: CodeWriters.CodeWriter, f: JavaFile) returns (outcome: Outcome)
    modifies w
    ensures w.Reached(outcome, EmitFile(w.Config(), old(w.State()), f))
  {
    outcome := EmitHeaderTo(w, f);
    if outcome.Fail? {
      return;
    }
    outcome := EmitImportSectionTo(w, f.skipJavaLangImports);
    if outcome.Fail? {
      return;
    }
    var typed := Emission.EmitTypeSpec(w.Config(), w.State(), f.typeSpec, None, {});
    if typed.Err? {
      return Fail(typed.error);
    }
    w.SetState(typed.value);
    outcome := w.PopPackage();
  }

  /** `writeTo(out)`, returning what it appends to `out`: the two passes over fresh writers. */
  method WriteTo(f: JavaFile) returns (r: Result<string>)
    ensures r == Rendered(f)
  {
    if !Emission.Qualified(f.staticImports) {
      return Err(IndexOutOfBounds);
    }
    var importsCollector := new CodeWriters.CodeWriter(f.indent, map[], f.staticImports);
    var outcome := EmitTo(importsCollector, f);
    if outcome.Fail? {
      return Err(outcome.error);
    }
    var suggestedImports := importsCollector.SuggestedImports();
    assert suggestedImports == Emission.SuggestedImports(importsCollector.State());
    var codeWriter := new CodeWriters.CodeWriter(f.indent, suggestedImports, f.staticImports);
    outcome := EmitTo(codeWriter, f);
    if outcome.Fail? {
      return Err(outcome.error);
    }
    return Ok(codeWriter.out);
  }

  // ---------------------------------------------------------------------------------------
  // The builder

  /** The static import of member `name` of a class: `canonicalName.name`, which holds a dot. */
  function Signature(className: ClassName, name: string): (r: string)
    ensures '.' in r
    ensures |r| > |name| && r[|r| - |name|..] == name && r[|r| - |name| - 1] == '.'
  {
    var r := ClassNames.CanonicalName(className) + "." + name;
    assert r[|ClassNames.CanonicalName(className)|] == '.';
    r
  }

  /** The static imports `addStaticImport(className, *names)` adds: one per name. */
  function MemberSignatures(className: ClassName, names: seq<string>): (r: set<string>)
    ensures Emission.Qualified(r)
  {
    if names == [] then {}
    else {Signature(className, names[0])} + MemberSignatures(className, names[1..])
  }

  /** No more signatures are added than there are names. */
  lemma {:induction false} MemberSignaturesAtMost(className: ClassName, names: seq<string>)
    ensures |MemberSignatures(className, names)| <= |names|
    decreases |names|
  {
    if names != [] {
      MemberSignaturesAtMost(className, names[1..]);
    }
  }

  /** `JavaFile.Builder`. */
  class Builder {
    const packageName: string
    const typeSpec: TypeSpec
    const fileComment: CodeBlocks.Builder
    var staticImports: set<string>
    var skipJavaLangImports: bool
    var indent: string

    /** Every static import names a member of a class. */
    predicate Valid()
      reads this
    {
      Emission.Qualified(staticImports)
    }

    /** `JavaFile.builder(packageName, typeSpec)`. */
    constructor (packageName: string, typeSpec: TypeSpec)
      ensures Valid() && fresh(fileComment)
      ensures this.packageName == packageName && this.typeSpec == typeSpec
      ensures fileComment.formatParts == [] && fileComment.args == []
      ensures staticImports == {} && !skipJavaLangImports && indent == "  "
    {
      this.packageName := packageName;
      this.typeSpec := typeSpec;
      fileComment := new CodeBlocks.Builder();
      staticImports := {};
      skipJavaLangImports := false;
      indent := "  ";
    }

    /** `addFileComment(format, *args)`. */
    method AddFileComment(format: string, inputs: seq<Arg>) returns (outcome: Outcome)
      modifies fileComment
      ensures CodeBlocks.Added(fileComment.formatParts, fileComment.args, outcome)
           == CodeBlocks.AddSpec(old(fileComment.formatParts), old(fileComment.args), format, inputs)
    {
      outcome := fileComment.Add(format, inputs);
    }

    /**
     * `addStaticImport(className, *names)`: at least one name, and each becomes the member
     * signature `canonicalName.name`.
     */
    method AddStaticImport(className: ClassName, names: seq<string>) returns (outcome: Outcome)
      modifies this
      ensures outcome.Pass? <==> names != []
      ensures outcome.Fail? ==> outcome == Fail(IllegalArgument) && staticImports == old(staticImports)
      ensures outcome.Pass? ==> staticImports == old(staticImports) + MemberSignatures(className, names)
      ensures skipJavaLangImports == old(skipJavaLangImports) && indent == old(indent)
      ensures old(Valid()) ==> Valid()
    {
      if names == [] {
        return Fail(IllegalArgument);
      }
      AddSignatures(className, names);
      outcome := Pass;
    }

    /** The loop of `addStaticImport`: one member signature per name. */
    method AddSignatures(className: ClassName, names: seq<string>)
      modifies this
      ensures staticImports == old(staticImports) + MemberSignatures(className, names)
      ensures skipJavaLangImports == old(skipJavaLangImports) && indent == old(indent)
    {
      for k := 0 to |names|
        invariant staticImports == old(staticImports) + MemberSignatures(className, names[..k])
        invariant skipJavaLangImports == old(skipJavaLangImports) && indent == old(indent)
      {
        MemberSignaturesPrefix(className, names, k);
        staticImports := staticImports + {Signature(className, names[k])};
      }
      assert names[..|names|] == names;
    }

    /** `skipJavaLangImports(skip)`. */
    method SkipJavaLangImports(skip: bool)
      modifies this
      ensures skipJavaLangImports == skip
      ensures staticImports == old(staticImports) && indent == old(indent)
    {
      skipJavaLangImports := skip;
    }

    /** `indent(indent)`. */
    method Indent(indent: string)
      modifies this
      ensures this.indent == indent
      ensures staticImports == old(staticImports) && skipJavaLangImports == old(skipJavaLangImports)
    {
      this.indent := indent;
    }

    /** `build()`: a file from a valid builder renders without the constructor's failure. */
    function Build(): (f: JavaFile)
      reads this, fileComment
      ensures f.fileComment == fileComment.Build() && f.packageName == packageName && f.typeSpec == typeSpec
      ensures f.staticImports == staticImports
      ensures f.skipJavaLangImports == skipJavaLangImports && f.indent == indent
      ensures Valid() ==> Emission.Qualified(f.staticImports)
    {
      JavaFile(fileComment.Build(), packageName, typeSpec, skipJavaLangImports, staticImports, indent)
    }
  }

  /** Each name given to `addStaticImport` becomes a static import, and nothing else does. */
  lemma {:induction false} MemberSignaturesContents(className: ClassName, names: seq<string>, signature: string)
    ensures signature in MemberSignatures(className, names) <==>
      exists i :: 0 <= i < |names| && Signature(className, names[i]) == signature
    decreases |names|
  {
    if names != [] {
      MemberSignaturesContents(className, names[1..], signature);
      if signature in MemberSignatures(className, names[1..]) {
        var i :| 0 <= i < |names[1..]| && Signature(className, names[1..][i]) == signature;
        assert Signature(className, names[i + 1]) == signature;
      }
      if exists i :: 0 <= i < |names| && Signature(className, names[i]) == signature {
        var i :| 0 <= i < |names| && Signature(className, names[i]) == signature;
        if i > 0 {
          assert Signature(className, names[1..][i - 1]) == signature;
        }
      }
    }
  }

  /** The signatures of one more name of the list: one more signature. */
  lemma MemberSignaturesPrefix(className: ClassName, names: seq<string>, k: nat)
    requires k < |names|
    ensures MemberSignatures(className, names[..k + 1])
         == MemberSignatures(className, names[..k]) + {Signature(className, names[k])}
  {
    assert names[..k + 1] == names[..k] + [names[k]];
    MemberSignaturesAppend(className, names[..k], names[k]);
  }

  lemma {:induction false} MemberSignaturesAppend(className: ClassName, names: seq<string>, name: string)
    ensures MemberSignatures(className, names + [name])
         == MemberSignatures(className, names) + {Signature(className, name)}
    decreases |names|
  {
    if names != [] {
      assert (names + [name])[1..] == names[1..] + [name];
      MemberSignaturesAppend(className, names[1..], name);
    }
  }

  /**
   * `toBuilder()` as the library writes it: the comment, the skip flag and the indent are
   * copied, but the static imports are not, so the rebuilt file loses them.
   */
  method ToBuilderAsWritten(f: JavaFile) returns (b: Builder)
    ensures fresh(b) && fresh(b.fileComment) && b.Valid()
    ensures b.Build() == f.(staticImports := {})
    ensures f.staticImports != {} ==> b.Build() != f
  {
    b := new Builder(f.packageName, f.typeSpec);
    b.fileComment.AddBlock(f.fileComment);
    b.skipJavaLangImports := f.skipJavaLangImports;
    b.indent := f.indent;
  }

  /** `toBuilder()` with the static imports copied too: building it gives the file back. */
  method ToBuilder(f: JavaFile) returns (b: Builder)
    ensures fresh(b) && fresh(b.fileComment)
    ensures b.Valid() <==> Emission.Qualified(f.staticImports)
    ensures b.Build() == f
  {
    b := new Builder(f.packageName, f.typeSpec);
    b.fileComment.AddBlock(f.fileComment);
    b.staticImports := f.staticImports;
    b.skipJavaLangImports := f.skipJavaLangImports;
    b.indent := f.indent;
  }
}
