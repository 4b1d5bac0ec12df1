# KPoet core, modelled in Dafny

KPoet is a Kotlin port of JavaPoet. It generates Java source text from an in-memory tree of
declarations. This project models the engine under `kpoet/src/main/java/com/grosner/kpoet/core` and proves what it promises.

- **Values.** The type-name family is one datatype, `Specs.TypeName`: primitives and `void`, class names,
  parameterized types, arrays, type variables and wildcards. Code blocks, annotations, parameters,
  methods, types and the file are datatypes as well. All of these live in `specs.dfy`.
  - `class_names.dfy` holds `ClassName`'s accessors and `bestGuess`.
  - `type_names.dfy` holds the other type names' constructors, `box`/`unbox` and the annotation operations.
- **Template parser.** `CodeBlock.Builder` is a class in `code_blocks.dfy` whose `formatParts`/`args`
  fields are updated by `add`, `addNamed` and the control-flow helpers.
  - Each method is proved against a scanning specification function (`AddSpec`, `AddNamedSpec`, …).
  - That function's invariants are proved as lemmas: placeholders pair with arguments, literal chunks
    hold no `$`, and every token has two characters.
- **Renderer.** `emission.dfy` gives the meaning of every `emit` function as a function from a
  writer state (`Emission.WriterState`: text, indent level, statement line, comment flags, type stack,
  importable types, referenced names) to a new state or an error.
  - Three of these functions write what the source evidently intends rather than what it does:
    `EmitParameter`, `EmitMethod` and `EmitMethodSection` (see "## Findings"). What the source does
    is modelled beside them and proved to agree with them for names without `$` and for named types.
  - `CodeWriters.CodeWriter` in `code_writers.dfy` is the stateful writer.
  - Its methods are proved to reach exactly the states those functions describe.
- **Identifier allocator.** `NameAllocators.NameAllocator` (`name_allocators.dfy`) is a class over the
  allocated-name set and the tag map.
- **Literal escaping.** The escaping and the precondition checks live in `util.dfy`.
  - The character and string literals are proved to read back, under the escape rules of section 3.10.6
    of the Java Language Specification, as the value written.
- **Builders.** The builders of `ParameterSpec`, `AnnotationSpec`, `MethodSpec`, `TypeSpec` and
  `JavaFile` are classes in the files of the same names.
  - Each method states its whole new state and its failure condition.
  - `build` and `toBuilder` are proved to round-trip.
- **Support files.**
  - `wrappers.dfy` holds `Result`/`Option`/`Outcome` and the exception kinds.
  - `jdk.dfy` holds `SourceVersion` and `Character` as ASCII approximations, plus the `Modifier` enum.
  - `strings.dfy` holds the `String` operations the core uses: split, join, prefixes and repetition.

`isPrimitive` and `box` compare with the shared constants (`TypeName.INT`, …) by identity. The model
marks those constants with a flag, so an equal-looking copy made by `withoutAnnotations` is told apart
from them as in the source.

An exception in the source is an `Err`/`Fail` value naming its class (`IllegalArgument`,
`IllegalState`, …). Where an operation changes the builder before it throws, the model makes the same
change.

Two behaviours of the source worth noting:
- `CodeBlock.Builder.addNamed` does not reject a map key that the format never uses.
- `NameAllocator.newName` keeps the freshly allocated name in the allocated set when the tag is
  already bound. It only restores the tag's old binding.

## Model

| member | source | states |
|---|---|---|
| Strings.Split | kpoet/src/main/java/com/grosner/kpoet/core/CodeWriter.kt:372 | `s.split("\n")` yields at least one line and no line holds the separator |
| Strings.JoinSplit | kpoet/src/main/java/com/grosner/kpoet/core/CodeWriter.kt:370-406 | writing the lines of a split with the separator between them gives the original text back |
| Strings.SplitJoin | kpoet/src/main/java/com/grosner/kpoet/core/CodeWriter.kt:372 | splitting lines joined by a separator they do not hold gives the lines back |
| Strings.SplitWithoutSeparator | kpoet/src/main/java/com/grosner/kpoet/core/CodeWriter.kt:372 | text without a newline is a single line |
| Strings.SplitPrefix | kpoet/src/main/java/com/grosner/kpoet/core/CodeWriter.kt:372 | a separator-free prefix joins the first line of what follows it |
| Strings.CompareZero | kpoet/src/main/java/com/grosner/kpoet/core/ClassName.kt:114 | `String.compareTo` is zero exactly for equal strings |
| Strings.CompareAntisymmetric | kpoet/src/main/java/com/grosner/kpoet/core/ClassName.kt:114 | swapping the operands of `compareTo` negates the result |
| Strings.CompareTransitive | kpoet/src/main/java/com/grosner/kpoet/core/ClassName.kt:114 | the strict order of `compareTo` is transitive |
| Strings.CompareAtMostTransitive | kpoet/src/main/java/com/grosner/kpoet/core/ClassName.kt:114 | the non-strict order of `compareTo` is transitive |
| Strings.Repeat | kpoet/src/main/java/com/grosner/kpoet/core/CodeWriter.kt:409-413 | indentation written `n` times has `n` times the indent's length |
| Strings.RepeatGrows | kpoet/src/main/java/com/grosner/kpoet/core/CodeWriter.kt:409-413 | one more level of indentation appends one more indent |
| Strings.IndexOf | kpoet/src/main/java/com/grosner/kpoet/core/CodeBlock.kt:116 | `indexOf(c, from)` is -1 exactly when `c` does not occur from `from` on, and otherwise the first occurrence there |
| Strings.LastIndexOf | kpoet/src/main/java/com/grosner/kpoet/core/CodeWriter.kt:54 | `lastIndexOf(c)` is -1 exactly when `c` is absent, and otherwise an occurrence with none after it |
| Strings.LeastExists | kpoet/src/main/java/com/grosner/kpoet/core/JavaFile.kt:120 | a non-empty set of strings has a least element under `compareTo` |
| Strings.LeastUnique | kpoet/src/main/java/com/grosner/kpoet/core/JavaFile.kt:120 | that least element is unique |
| Strings.Least | kpoet/src/main/java/com/grosner/kpoet/core/JavaFile.kt:120 | the first element a `TreeSet<String>` iterates is at most every member |
| Strings.SortedSet | kpoet/src/main/java/com/grosner/kpoet/core/JavaFile.kt:120 | a `TreeSet<String>` iterates its members exactly once each, in strictly ascending `compareTo` order |
| Jdk.Listed | kpoet/src/main/java/com/grosner/kpoet/core/CodeWriter.kt:117-124 | `EnumSet.copyOf(modifiers)` lists exactly the members of the set |
| Jdk.ListedFrom | kpoet/src/main/java/com/grosner/kpoet/core/CodeWriter.kt:119 | the modifiers listed from a position of the enum on are those of the set declared there or later |
| Jdk.ListedSet | kpoet/src/main/java/com/grosner/kpoet/core/CodeWriter.kt:119 | collecting the listed modifiers gives the set back |
| Jdk.DollarIdentifierIsName | kpoet/src/main/java/com/grosner/kpoet/core/ParameterSpec.kt:121 | `a$b` passes the name check, since `$` is an identifier character |
| Jdk.DollarNotKeyword | kpoet/src/main/java/com/grosner/kpoet/core/ParameterSpec.kt:121 | `a$b` is not a keyword |
| Util.CheckArgument | kpoet/src/main/java/com/grosner/kpoet/core/Util.kt:50-52 | an `IllegalArgumentException` exactly when the condition is false |
| Util.CheckState | kpoet/src/main/java/com/grosner/kpoet/core/Util.kt:54-56 | an `IllegalStateException` exactly when the condition is false |
| Util.RequireExactlyOneOf | kpoet/src/main/java/com/grosner/kpoet/core/Util.kt:58-64 | failure is always `IllegalArgumentException`; passing implies some listed modifier is held |
| Util.RequireExactlyOneOfPasses | kpoet/src/main/java/com/grosner/kpoet/core/Util.kt:58-64 | the check passes if and only if exactly one listed position names a held modifier |
| Util.CountOne | kpoet/src/main/java/com/grosner/kpoet/core/Util.kt:60-62 | a count of one is the same as exactly one held position |
| Util.CountZero | kpoet/src/main/java/com/grosner/kpoet/core/Util.kt:60-62 | a count of zero is the same as no listed modifier being held |
| Util.CountPositive | kpoet/src/main/java/com/grosner/kpoet/core/Util.kt:60-62 | a positive count means some listed modifier is held |
| Util.Hex4 | kpoet/src/main/java/com/grosner/kpoet/core/Util.kt:79 | `%04x` of a value below 0x10000 is four digits |
| Util.Hex4Parses | kpoet/src/main/java/com/grosner/kpoet/core/Util.kt:79 | the four hex digits read back as the value written |
| Util.CharacterLiteralWithoutSingleQuotes | kpoet/src/main/java/com/grosner/kpoet/core/Util.kt:68-81 | a character is written as itself exactly when it is not an ISO control, a single quote or a backslash, and every other escape starts with a backslash |
| Util.CharacterLiteralDecodes | kpoet/src/main/java/com/grosner/kpoet/core/Util.kt:68-81 | each escape is read back as its character whatever follows, in a character literal and (except the bare double quote) in a string literal |
| Util.CharacterLiteralRoundTrip | kpoet/src/main/java/com/grosner/kpoet/core/Util.kt:68-81 | reading the escape of `c` as a Java character literal gives `c` |
| Util.StringLiteral | kpoet/src/main/java/com/grosner/kpoet/core/Util.kt:84-108 | the literal starts and ends with a double quote |
| Util.StringLiteralWithDoubleQuotes | kpoet/src/main/java/com/grosner/kpoet/core/Util.kt:84-108 | the loop writes exactly the literal `StringLiteral` describes |
| Util.StringEscapeDecodes | kpoet/src/main/java/com/grosner/kpoet/core/Util.kt:90-100 | each character's escape inside a string literal is read back as that character |
| Util.DecodeAfterEscape | kpoet/src/main/java/com/grosner/kpoet/core/Util.kt:100-104 | an escape followed by its continuation is read back before the rest of the literal |
| Util.BodyFromDecodes | kpoet/src/main/java/com/grosner/kpoet/core/Util.kt:87-105 | the literal body written from position `i` reads back as `value[i..]` |
| Util.StringLiteralRoundTrip | kpoet/src/main/java/com/grosner/kpoet/core/Util.kt:84-108 | the string literal written for `value` reads back as `value`, continuations included |
| Util.BodyFromSingleLine | kpoet/src/main/java/com/grosner/kpoet/core/Util.kt:102-104 | a value without newlines gives a literal without continuations |
| Util.EscapeSingleLine | kpoet/src/main/java/com/grosner/kpoet/core/Util.kt:68-81 | no escape but the newline's contains a line break |
| Util.ImmutableMultimapAsWritten | kpoet/src/main/java/com/grosner/kpoet/core/Util.kt:41-48 | as written: keeps exactly the entries whose list is empty |
| Util.ImmutableMultimapAsWrittenDropsValues | kpoet/src/main/java/com/grosner/kpoet/core/Util.kt:43 | as written: an entry with a value is lost |
| Util.ImmutableMultimapAsWrittenDropsAll | kpoet/src/main/java/com/grosner/kpoet/core/Util.kt:43 | as written: a map with no empty lists copies to the empty map |
| Util.ImmutableMultimap | kpoet/src/main/java/com/grosner/kpoet/core/Util.kt:41-48 | corrected: keeps exactly the entries whose list is non-empty, no more entries than given |
| Util.ImmutableMultimapKeepsAll | kpoet/src/main/java/com/grosner/kpoet/core/Util.kt:41-48 | corrected: a map with no empty lists copies to itself |
| ClassNames.Of | kpoet/src/main/java/com/grosner/kpoet/core/ClassName.kt:43-51 | an empty list fails on indexing; otherwise the class name is built exactly when every part after the package is a valid name, and fails with `IllegalArgumentException` otherwise |
| ClassNames.Get | kpoet/src/main/java/com/grosner/kpoet/core/ClassName.kt:173-174 | `get(package, simple, nested...)` succeeds exactly when every simple name is a valid name, and the result has that package and those simple names |
| ClassNames.PartsValid | kpoet/src/main/java/com/grosner/kpoet/core/ClassName.kt:44-46 | the parts after the package are valid exactly when each simple name is |
| ClassNames.AppendPartsValid | kpoet/src/main/java/com/grosner/kpoet/core/ClassName.kt:95-98 | appending a name keeps the parts valid exactly when that name is valid |
| ClassNames.EnclosingClassName | kpoet/src/main/java/com/grosner/kpoet/core/ClassName.kt:66 | absent exactly for a top-level class; otherwise the class one level out, valid and in the same package |
| ClassNames.TopLevelClassName | kpoet/src/main/java/com/grosner/kpoet/core/ClassName.kt:71 | a valid top-level class in the same package whose simple name is the outermost one |
| ClassNames.TopLevelIsOutermost | kpoet/src/main/java/com/grosner/kpoet/core/ClassName.kt:66-71 | following `enclosingClassName()` to its end reaches `topLevelClassName()` |
| ClassNames.NestedClass | kpoet/src/main/java/com/grosner/kpoet/core/ClassName.kt:95-98 | defined exactly for a valid name; the result has that simple name, encloses back to the original and keeps the package |
| ClassNames.PeerClass | kpoet/src/main/java/com/grosner/kpoet/core/ClassName.kt:107 | defined exactly for a valid name; same depth and enclosing names, only the last simple name replaced |
| ClassNames.ReflectionNameShape | kpoet/src/main/java/com/grosner/kpoet/core/ClassName.kt:73-89 | both branches give the top-level canonical name followed by `$` and each nested name, without a leading dot in the default package |
| ClassNames.CompareTo | kpoet/src/main/java/com/grosner/kpoet/core/ClassName.kt:114 | zero exactly for equal canonical names, and antisymmetric |
| ClassNames.BestGuess | kpoet/src/main/java/com/grosner/kpoet/core/ClassName.kt:147-167 | the scanning loops compute `BestGuessOf`, and an accepted result is valid and spells the input as its canonical name |
| ClassNames.BestGuessSpells | kpoet/src/main/java/com/grosner/kpoet/core/ClassName.kt:147-167 | whatever `bestGuess` accepts has the input as its canonical name |
| ClassNames.PackageEndAfterDot | kpoet/src/main/java/com/grosner/kpoet/core/ClassName.kt:151-156 | a non-empty package scan stops just past a dot |
| ClassNames.PackageEndSkips | kpoet/src/main/java/com/grosner/kpoet/core/ClassName.kt:151-155 | the package scan walks over lower-case dotted segments and stops at the first class segment |
| ClassNames.BestGuessRoundTrip | kpoet/src/main/java/com/grosner/kpoet/core/ClassName.kt:147-167 | `bestGuess` of the canonical name of a conventionally named class gives that class back |
| ClassNames.BestGuessRoundTripDefault | kpoet/src/main/java/com/grosner/kpoet/core/ClassName.kt:147-167 | the round trip for a class in the default package |
| ClassNames.BestGuessRoundTripPackaged | kpoet/src/main/java/com/grosner/kpoet/core/ClassName.kt:147-167 | the round trip for a class in a named package |
| TypeNames.BoxAsWritten | kpoet/src/main/java/com/grosner/kpoet/core/TypeName.kt:105-117 | as written: only the nine shared keyword instances box, to their wrappers; any other keyword value fails with an `AssertionError` |
| TypeNames.BoxAsWrittenRejectsCopies | kpoet/src/main/java/com/grosner/kpoet/core/TypeName.kt:105-117 | as written: `int.withoutAnnotations()` is primitive, yet boxing it fails |
| TypeNames.KeywordIndex | kpoet/src/main/java/com/grosner/kpoet/core/TypeName.kt:181-190 | finds the shared instance carrying a keyword, or reports that none does |
| TypeNames.Box | kpoet/src/main/java/com/grosner/kpoet/core/TypeName.kt:100-117 | corrected: keyword-less types are unchanged, every value with one of the nine keywords boxes to its wrapper with its own annotations, and only unknown keywords fail |
| TypeNames.BoxAgreesOnConstants | kpoet/src/main/java/com/grosner/kpoet/core/TypeName.kt:105-117 | corrected: agrees with the code as written on the shared instances |
| TypeNames.BoxIgnoresIdentity | kpoet/src/main/java/com/grosner/kpoet/core/TypeName.kt:100-117 | corrected: a copy of a shared instance boxes like the instance, keeping the copy's annotations |
| TypeNames.Unbox | kpoet/src/main/java/com/grosner/kpoet/core/TypeName.kt:124-136 | keyword types are unchanged, each wrapper class maps to its keyword instance, anything else fails with `UnsupportedOperationException` |
| TypeNames.UnboxBox | kpoet/src/main/java/com/grosner/kpoet/core/TypeName.kt:105-136 | unboxing undoes boxing for each shared keyword instance |
| TypeNames.BoxUnbox | kpoet/src/main/java/com/grosner/kpoet/core/TypeName.kt:105-136 | boxing undoes unboxing for each wrapper class |
| TypeNames.WrapperNamesDistinct | kpoet/src/main/java/com/grosner/kpoet/core/TypeName.kt:181-200 | the nine wrapper classes have distinct canonical names |
| TypeNames.BoxedPrimitiveUnboxes | kpoet/src/main/java/com/grosner/kpoet/core/TypeName.kt:91-99 | `isBoxedPrimitive` holds exactly for the reference types that unbox to a keyword other than `void` |
| TypeNames.Annotated | kpoet/src/main/java/com/grosner/kpoet/core/TypeName.kt:65-75 | annotations are appended (a type variable takes the new list in place of its own), the unannotated type is unchanged and the result is never a shared instance |
| TypeNames.WithoutAnnotations | kpoet/src/main/java/com/grosner/kpoet/core/TypeName.kt:67 | no annotations, the same kind and keyword, never a shared instance |
| TypeNames.WithoutAnnotationsKeepsParts | kpoet/src/main/java/com/grosner/kpoet/core/ArrayTypeName.kt:31 | every kind keeps its names, bounds, arguments and component when its annotations are dropped |
| TypeNames.ValidBoundIsReference | kpoet/src/main/java/com/grosner/kpoet/core/TypeVariableName.kt:29 | a bound is accepted exactly when it is not a keyword type (neither primitive nor `void`) |
| TypeNames.ArrayComponent | kpoet/src/main/java/com/grosner/kpoet/core/TypeName.kt:301 | present exactly for an array type, and rebuilding the array from it gives the type back |
| TypeNames.ArrayOf | kpoet/src/main/java/com/grosner/kpoet/core/ArrayTypeName.kt:41 | an unannotated array whose component is the given type |
| TypeNames.NewTypeVariable | kpoet/src/main/java/com/grosner/kpoet/core/TypeVariableName.kt:25-31 | built exactly when every bound is a reference type, failing with `IllegalArgumentException` otherwise |
| TypeNames.RemoveObject | kpoet/src/main/java/com/grosner/kpoet/core/TypeVariableName.kt:51-54 | unchanged without an `Object` bound, one element shorter with one; it never adds a bound and keeps every bound other than `Object` |
| TypeNames.TypeVariable | kpoet/src/main/java/com/grosner/kpoet/core/TypeVariableName.kt:59-64 | the variable carries the bounds with `Object` removed; it succeeds exactly when every bound is a reference type, and fails with `IllegalArgumentException` otherwise |
| TypeNames.WithBounds | kpoet/src/main/java/com/grosner/kpoet/core/TypeVariableName.kt:41-44 | the bounds are appended, name and annotations kept, and new bounds must be reference types |
| TypeNames.NewWildcard | kpoet/src/main/java/com/grosner/kpoet/core/WildcardTypeName.kt:29-39 | built exactly when there is one reference upper bound and every lower bound is a reference type |
| TypeNames.SubtypeOf | kpoet/src/main/java/com/grosner/kpoet/core/WildcardTypeName.kt:67 | `? extends bound` with no lower bound; fails for a keyword type |
| TypeNames.SupertypeOf | kpoet/src/main/java/com/grosner/kpoet/core/WildcardTypeName.kt:74-75 | `? super bound` with `Object` as upper bound; fails for a keyword type |
| TypeNames.NewParameterized | kpoet/src/main/java/com/grosner/kpoet/core/ParameterizedTypeName.kt:35-42 | built exactly when there are type arguments or an enclosing type, and every argument is a reference type |
| TypeNames.GetParameterized | kpoet/src/main/java/com/grosner/kpoet/core/ParameterizedTypeName.kt:99-101 | succeeds exactly for a non-empty list of reference-type arguments |
| TypeNames.NestedParameterized | kpoet/src/main/java/com/grosner/kpoet/core/ParameterizedTypeName.kt:80-92 | the nested type encloses the original, has the nested raw class and the given arguments, and exists exactly for a valid name and reference-type arguments |
| CodeBlocks.ArgToName | kpoet/src/main/java/com/grosner/kpoet/core/CodeBlock.kt:258-265 | accepts exactly character sequences and parameter, field, method and type specs, giving a name; anything else is an `IllegalArgumentException` |
| CodeBlocks.ArgToString | kpoet/src/main/java/com/grosner/kpoet/core/CodeBlock.kt:269 | null stays null and anything else becomes text, rendered when the block is written |
| CodeBlocks.ArgToType | kpoet/src/main/java/com/grosner/kpoet/core/CodeBlock.kt:271-277 | only a type name is accepted, and it is kept as it is |
| CodeBlocks.AddArgument | kpoet/src/main/java/com/grosner/kpoet/core/CodeBlock.kt:247-256 | a character other than `N L S T` is rejected; `$L` keeps the argument and `$S` converts it to a string |
| CodeBlocks.DigitsEnd | kpoet/src/main/java/com/grosner/kpoet/core/CodeBlock.kt:186-193 | the index digits after a `$` end at the first non-digit |
| CodeBlocks.Rem | kpoet/src/main/java/com/grosner/kpoet/core/CodeBlock.kt:208 | Kotlin's `%`: the mathematical remainder for a non-negative index, and `-1 % n` stays negative unless `n` is 1 |
| CodeBlocks.LiteralEnd | kpoet/src/main/java/com/grosner/kpoet/core/CodeBlock.kt:176-181 | a literal chunk runs up to the next `$` or the end of the format |
| CodeBlocks.Consume | kpoet/src/main/java/com/grosner/kpoet/core/CodeBlock.kt:216-223 | a placeholder that goes on moves past its character and leaves the indexed counts alone |
| CodeBlocks.IndexedStep | kpoet/src/main/java/com/grosner/kpoet/core/CodeBlock.kt:204-209 | an indexed placeholder keeps one counter per argument |
| CodeBlocks.PlaceholderStep | kpoet/src/main/java/com/grosner/kpoet/core/CodeBlock.kt:184-223 | a placeholder that goes on ends just after its character |
| CodeBlocks.StepAt | kpoet/src/main/java/com/grosner/kpoet/core/CodeBlock.kt:175-224 | every turn of the loop that goes on advances within the format |
| CodeBlocks.Of | kpoet/src/main/java/com/grosner/kpoet/core/CodeBlock.kt:336 | `CodeBlock.of` yields a block with one argument per consuming placeholder and only well-formed parts |
| CodeBlocks.ReadIndex | kpoet/src/main/java/com/grosner/kpoet/core/CodeBlock.kt:186-193 | the do-while loop stops at the first non-digit after the `$`, or reports the format ending first |
| CodeBlocks.CheckKeys | kpoet/src/main/java/com/grosner/kpoet/core/CodeBlock.kt:110-113 | passes exactly when every key matches `[a-z]+[\w_]*` |
| CodeBlocks.Builder.constructor | kpoet/src/main/java/com/grosner/kpoet/core/CodeBlock.kt:91-93 | a new builder holds no parts and no arguments |
| CodeBlocks.Builder.FromBlock | kpoet/src/main/java/com/grosner/kpoet/core/CodeBlock.kt:86-89 | `toBuilder` copies the block's parts and arguments |
| CodeBlocks.Builder.Add | kpoet/src/main/java/com/grosner/kpoet/core/CodeBlock.kt:167-241 | the scanning loop leaves exactly the parts, arguments and outcome of `AddSpec`, including what it appended before throwing |
| CodeBlocks.Builder.Placeholder | kpoet/src/main/java/com/grosner/kpoet/core/CodeBlock.kt:184-223 | reading one placeholder either throws as `PlaceholderStep` says or continues where it says |
| CodeBlocks.Builder.TakeArgument | kpoet/src/main/java/com/grosner/kpoet/core/CodeBlock.kt:216-223 | the range and mixing checks, then the coerced argument and its part, as `Consume` says |
| CodeBlocks.Builder.AddNamed | kpoet/src/main/java/com/grosner/kpoet/core/CodeBlock.kt:107-151 | the key check and scanning loop leave exactly the parts, arguments and outcome of `AddNamedSpec` |
| CodeBlocks.Builder.NamedPlaceholder | kpoet/src/main/java/com/grosner/kpoet/core/CodeBlock.kt:127-147 | reading one `addNamed` placeholder throws or continues as `NamedToken` says |
| CodeBlocks.Builder.Indent | kpoet/src/main/java/com/grosner/kpoet/core/CodeBlock.kt:325 | appends `$>` and nothing else |
| CodeBlocks.Builder.Unindent | kpoet/src/main/java/com/grosner/kpoet/core/CodeBlock.kt:327 | appends `$<` and nothing else |
| CodeBlocks.Builder.BeginControlFlow | kpoet/src/main/java/com/grosner/kpoet/core/CodeBlock.kt:283-286 | the format followed by ` {` and a newline, then `$>`, unless the format throws |
| CodeBlocks.Builder.NextControlFlow | kpoet/src/main/java/com/grosner/kpoet/core/CodeBlock.kt:292-296 | `$<`, then `} ` with the format and ` {`, then `$>` |
| CodeBlocks.Builder.EndControlFlow | kpoet/src/main/java/com/grosner/kpoet/core/CodeBlock.kt:298-301 | `$<` then a closing brace line |
| CodeBlocks.Builder.EndControlFlowWith | kpoet/src/main/java/com/grosner/kpoet/core/CodeBlock.kt:307-310 | `$<` then `} ` with the format and `;` |
| CodeBlocks.Builder.AddStatement | kpoet/src/main/java/com/grosner/kpoet/core/CodeBlock.kt:312-316 | `$[`, then the format, then `;` with a newline and `$]`, stopping at the first throw |
| CodeBlocks.Builder.AddComment | kpoet/src/main/java/com/grosner/kpoet/core/CodeBlock.kt:323 | the format between `// ` and a newline |
| CodeBlocks.Builder.AddBlock | kpoet/src/main/java/com/grosner/kpoet/core/CodeBlock.kt:318-321 | appends both lists of the block, and appending a valid block keeps the builder valid |
| CodeBlocks.StepKeepsValid | kpoet/src/main/java/com/grosner/kpoet/core/CodeBlock.kt:175-224 | every turn of the `add` loop keeps one argument per consuming part, whether it goes on or throws |
| CodeBlocks.AddFromKeepsValid | kpoet/src/main/java/com/grosner/kpoet/core/CodeBlock.kt:175-239 | the rest of an `add` scan keeps the builder valid on every path |
| CodeBlocks.AddKeepsValid | kpoet/src/main/java/com/grosner/kpoet/core/CodeBlock.kt:167-241 | every `add`, even one that throws part-way, leaves well-formed parts and one argument per `$L $N $S $T` |
| CodeBlocks.NamedFromKeepsValid | kpoet/src/main/java/com/grosner/kpoet/core/CodeBlock.kt:115-148 | the rest of an `addNamed` scan keeps the builder valid |
| CodeBlocks.AddNamedKeepsValid | kpoet/src/main/java/com/grosner/kpoet/core/CodeBlock.kt:107-151 | every `addNamed` keeps the builder valid |
| CodeBlocks.ParseCanonical | kpoet/src/main/java/com/grosner/kpoet/core/CodeBlock.kt:167-241 | scanning the text that well-formed parts spell gives exactly those parts back, with one coerced argument per placeholder in order, when the arguments match the placeholders |
| CodeBlocks.AddLiteral | kpoet/src/main/java/com/grosner/kpoet/core/CodeBlock.kt:176-181 | a `$`-free text is appended as one literal chunk |
| CodeBlocks.DanglingFails | kpoet/src/main/java/com/grosner/kpoet/core/CodeBlock.kt:189-191 | a `$` followed only by digits up to the end throws `IllegalArgumentException` |
| CodeBlocks.IndexedNoArgFails | kpoet/src/main/java/com/grosner/kpoet/core/CodeBlock.kt:196-197 | `$$ $> $< $[ $] $W` with an index in front throw |
| CodeBlocks.IndexOutOfRangeFails | kpoet/src/main/java/com/grosner/kpoet/core/CodeBlock.kt:216-218 | an index outside 1..args.size throws, appending nothing more |
| CodeBlocks.RelativeBeyondFails | kpoet/src/main/java/com/grosner/kpoet/core/CodeBlock.kt:216-218 | a relative placeholder after the last argument throws |
| CodeBlocks.RelativeAfterIndexedFails | kpoet/src/main/java/com/grosner/kpoet/core/CodeBlock.kt:219 | a relative placeholder after an indexed one throws |
| CodeBlocks.IndexedAfterRelativeFails | kpoet/src/main/java/com/grosner/kpoet/core/CodeBlock.kt:219 | an indexed placeholder after a relative one throws |
| CodeBlocks.UnusedRelativeFails | kpoet/src/main/java/com/grosner/kpoet/core/CodeBlock.kt:226-229 | relative placeholders that leave arguments unused make `add` throw |
| CodeBlocks.UnreferencedIndexedFails | kpoet/src/main/java/com/grosner/kpoet/core/CodeBlock.kt:230-239 | an argument no indexed placeholder refers to makes `add` throw |
| CodeBlocks.NamedBadKeyFails | kpoet/src/main/java/com/grosner/kpoet/core/CodeBlock.kt:110-113 | `addNamed` rejects a key that does not start with a lowercase letter, before changing anything |
| CodeBlocks.NamedMissingFails | kpoet/src/main/java/com/grosner/kpoet/core/CodeBlock.kt:133-136 | `$name:X` whose name is not in the map throws |
| CodeBlocks.NamedDanglingFails | kpoet/src/main/java/com/grosner/kpoet/core/CodeBlock.kt:141-144 | a `$` at the end, or before an unknown character, throws in `addNamed` |
| CodeBlocks.BeginControlFlowShape | kpoet/src/main/java/com/grosner/kpoet/core/CodeBlock.kt:283-286 | for a `$`-free control flow, exactly the opening line and `$>` are appended |
| CodeBlocks.NextControlFlowShape | kpoet/src/main/java/com/grosner/kpoet/core/CodeBlock.kt:292-296 | for a `$`-free control flow, exactly `$<`, the joining line and `$>` |
| CodeBlocks.EndControlFlowShape | kpoet/src/main/java/com/grosner/kpoet/core/CodeBlock.kt:298-301 | exactly `$<` and the closing line |
| CodeBlocks.OpenStatement | kpoet/src/main/java/com/grosner/kpoet/core/CodeBlock.kt:313 | `add("$[")` appends one statement-enter token |
| CodeBlocks.CloseStatement | kpoet/src/main/java/com/grosner/kpoet/core/CodeBlock.kt:315 | `add(";\n$]")` appends the terminator chunk and the statement-exit token |
| CodeBlocks.AddStatementShape | kpoet/src/main/java/com/grosner/kpoet/core/CodeBlock.kt:312-316 | a statement is its format's parts between `$[` and the terminator and `$]` |
| CodeBlocks.NextChainBalanced | kpoet/src/main/java/com/grosner/kpoet/core/CodeBlock.kt:292-301 | any number of `nextControlFlow` calls and a closing `endControlFlow` succeed and net one unindent |
| CodeBlocks.ControlFlowNetsZero | kpoet/src/main/java/com/grosner/kpoet/core/CodeBlock.kt:283-301 | a begin, next..., end chain of `$`-free control flows succeeds and nets zero indentation |
| Emission.StaticImportOwner | kpoet/src/main/java/com/grosner/kpoet/core/CodeWriter.kt:54 | defined exactly for a dotted member; the owner is everything before the last dot, and an undotted member fails on `substring` |
| Emission.NewConfig | kpoet/src/main/java/com/grosner/kpoet/core/CodeWriter.kt:28-55 | the writer is built exactly when every static import is dotted; it keeps indent, imports and static imports, and records exactly the owners of the static imports |
| Emission.Indent | kpoet/src/main/java/com/grosner/kpoet/core/CodeWriter.kt:57 | raises the level by `levels` and changes nothing else |
| Emission.Unindent | kpoet/src/main/java/com/grosner/kpoet/core/CodeWriter.kt:59-62 | succeeds exactly when the level stays non-negative; fails with `IllegalArgumentException` |
| Emission.PushPackage | kpoet/src/main/java/com/grosner/kpoet/core/CodeWriter.kt:64-67 | succeeds exactly when no package is set, and sets it |
| Emission.PopPackage | kpoet/src/main/java/com/grosner/kpoet/core/CodeWriter.kt:69-72 | succeeds exactly when a package is set, and clears it |
| Emission.PushType | kpoet/src/main/java/com/grosner/kpoet/core/CodeWriter.kt:74 | pushes the type and changes nothing else |
| Emission.PopType | kpoet/src/main/java/com/grosner/kpoet/core/CodeWriter.kt:76 | succeeds exactly on a non-empty stack and removes its top |
| Emission.PushPopType | kpoet/src/main/java/com/grosner/kpoet/core/CodeWriter.kt:74-76 | popping a pushed type restores the state |
| Emission.WrappingSpace | kpoet/src/main/java/com/grosner/kpoet/core/CodeWriter.kt:242-245 | writes one space |
| Emission.PutAllAppend | kpoet/src/main/java/com/grosner/kpoet/core/CodeWriter.kt:370-406 | writing two texts in turn is writing their concatenation |
| Emission.PutAllMidLine | kpoet/src/main/java/com/grosner/kpoet/core/CodeWriter.kt:393-403 | mid-line, text without line breaks is appended unchanged |
| Emission.LinesIsPutAll | kpoet/src/main/java/com/grosner/kpoet/core/CodeWriter.kt:371-404 | the line loop of `emitAndIndent` writes its lines joined by line breaks, as character-by-character output would |
| Emission.EmitAndIndentIsPutAll | kpoet/src/main/java/com/grosner/kpoet/core/CodeWriter.kt:370-406 | `emitAndIndent` agrees with the character-by-character reference |
| Emission.EmitAndIndentAppend | kpoet/src/main/java/com/grosner/kpoet/core/CodeWriter.kt:370-406 | emitting two texts in turn is emitting them at once, so literal chunks may be cut anywhere |
| Emission.InnermostWithChild | kpoet/src/main/java/com/grosner/kpoet/core/CodeWriter.kt:333-340 | finds the innermost stacked type with a nested type of that name, or shows that none has one |
| Emission.ShortestIndexResolves | kpoet/src/main/java/com/grosner/kpoet/core/CodeWriter.kt:283-293 | the position the loop stops at is 1 or one whose simple name resolves to the class it stands for |
| Emission.ShortestIndexIsLast | kpoet/src/main/java/com/grosner/kpoet/core/CodeWriter.kt:283-293 | no later simple name resolves to the class it stands for: the loop stops at the last one that does |
| Emission.LookupFromMatches | kpoet/src/main/java/com/grosner/kpoet/core/CodeWriter.kt:283-293 | the loop of `lookupName` matches exactly when some simple name resolves to the class it stands for |
| Emission.LookupFromShortest | kpoet/src/main/java/com/grosner/kpoet/core/CodeWriter.kt:287-291 | a match writes the shortest such suffix of the simple names |
| Emission.LookupFromUnmatched | kpoet/src/main/java/com/grosner/kpoet/core/CodeWriter.kt:284-285 | without a match, the loop reports whether the top-level name resolved to anything |
| Emission.ImportableType | kpoet/src/main/java/com/grosner/kpoet/core/CodeWriter.kt:314-324 | a class in the default package is not recorded; otherwise its top-level simple name is claimed, the first class claiming a name keeps it |
| Emission.LookupName | kpoet/src/main/java/com/grosner/kpoet/core/CodeWriter.kt:278-312 | fails on a malformed class name; otherwise only grows the referenced names and the importable types |
| Emission.LookupNameShortens | kpoet/src/main/java/com/grosner/kpoet/core/CodeWriter.kt:283-293 | when some simple name resolves to its class, the shortest such suffix is written and nothing is recorded |
| Emission.LookupNameUnshortened | kpoet/src/main/java/com/grosner/kpoet/core/CodeWriter.kt:295-311 | otherwise: the canonical name when the top-level name means another class; the simple names in the same package, recording the top-level name; else the canonical name, recorded as importable outside javadoc |
| Emission.SuggestedImports | kpoet/src/main/java/com/grosner/kpoet/core/CodeWriter.kt:419-423 | exactly the importable types whose simple name was never written unqualified |
| Emission.PutAllInStatement | kpoet/src/main/java/com/grosner/kpoet/core/CodeWriter.kt:381-386 | writing inside a statement keeps its first line at the base level and later lines double-indented |
| Emission.StatementRestoresIndent | kpoet/src/main/java/com/grosner/kpoet/core/CodeWriter.kt:203-214 | `$[ ... $]` leaves the indent level where it was, whether the statement broke the line or not |
| Emission.ExtractMemberName | kpoet/src/main/java/com/grosner/kpoet/core/CodeWriter.kt:429-437 | succeeds exactly when the part starts with an identifier-start character |
| Emission.NoModifiers | kpoet/src/main/java/com/grosner/kpoet/core/CodeWriter.kt:118 | no modifiers write nothing |
| Emission.EmitToken | kpoet/src/main/java/com/grosner/kpoet/core/CodeWriter.kt:197-216 | `$[` needs no open statement, `$]` an open one, `$<` a positive level; only those checks fail |
| Emission.MethodIgnoresEnclosingName | kpoet/src/main/java/com/grosner/kpoet/core/MethodSpec.kt:66-124 | a method that is not a constructor is written the same whatever the enclosing type is called |
| Emission.EmitMethodSectionAsWritten | kpoet/src/main/java/com/grosner/kpoet/core/TypeSpec.kt:201-215 | as written: in an anonymous class the section fails with a null-pointer error as soon as it holds a method of its kind |
| Emission.AnonymousMethodFailsAsWritten | kpoet/src/main/java/com/grosner/kpoet/core/TypeSpec.kt:213 | as written: an anonymous class whose first method is ordinary fails with a null-pointer error |
| Emission.MethodsIgnoreTypeName | kpoet/src/main/java/com/grosner/kpoet/core/TypeSpec.kt:209-215 | corrected: the ordinary methods of a type are written the same with or without a name |
| Emission.NamedSectionsAgree | kpoet/src/main/java/com/grosner/kpoet/core/TypeSpec.kt:201-215 | corrected: for a named type the corrected sections equal the sections as written |
| Emission.LiteralPartsEmitText | kpoet/src/main/java/com/grosner/kpoet/core/CodeWriter.kt:218-235 | literal parts are written as their concatenated text |
| Emission.OfLiteralEmitsText | kpoet/src/main/java/com/grosner/kpoet/core/CodeWriter.kt:153 | `emit(CodeBlock.of(text))` of `$`-free text writes exactly that text |
| Emission.NullStringPlaceholder | kpoet/src/main/java/com/grosner/kpoet/core/CodeWriter.kt:167-174 | `$S` with null writes the bare word `null` |
| Emission.StringPlaceholder | kpoet/src/main/java/com/grosner/kpoet/core/CodeWriter.kt:167-174 | `$S` with a string writes its Java string literal |
| Emission.DollarPlaceholder | kpoet/src/main/java/com/grosner/kpoet/core/CodeWriter.kt:197 | `$$` writes one dollar sign and consumes no argument |
| Emission.EmitBlock | kpoet/src/main/java/com/grosner/kpoet/core/CodeWriter.kt:156-239 | an empty block writes nothing and leaves the state as it was |
| Emission.EmitParts | kpoet/src/main/java/com/grosner/kpoet/core/CodeWriter.kt:162-176 | a placeholder with no argument left fails with `IndexOutOfBoundsException`; `$T` with an argument that is not a type name fails with `ClassCastException` |
| Emission.EmitArgument | kpoet/src/main/java/com/grosner/kpoet/core/CodeWriter.kt:163-174 | `$N` of anything but a string fails with `ClassCastException`; `$S` writes `null` for null and the Java string literal for a string |
| Emission.EmitLiteral | kpoet/src/main/java/com/grosner/kpoet/core/CodeWriter.kt:263-271 | `$L` of a string or any other plain value writes its text |
| Emission.Render | kpoet/src/main/java/com/grosner/kpoet/core/CodeWriter.kt:263-271 | `toString()` of null is `null`, of a string or a plain value its own text; a type name or an annotation renders through a fresh writer |
| Emission.RenderPlainType | kpoet/src/main/java/com/grosner/kpoet/core/TypeName.kt:147-162 | the `toString()` of an unannotated keyword, type variable, array or wildcard is its Java text |
| Emission.EmitTypeToken | kpoet/src/main/java/com/grosner/kpoet/core/CodeWriter.kt:176-194 | a `$T` of an unannotated type name that is not a class, with nothing deferred, is that type's own `emit` |
| Emission.EmitTypeAnnotations | kpoet/src/main/java/com/grosner/kpoet/core/TypeName.kt:172-178 | a type name without annotations writes nothing |
| Emission.EmitType | kpoet/src/main/java/com/grosner/kpoet/core/WildcardTypeName.kt:50-58 | a wildcard with no lower bound and no upper bound fails on `upperBounds[0]`; one whose upper bound is `Object` is written `?` |
| Emission.EmitPlainType | kpoet/src/main/java/com/grosner/kpoet/core/WildcardTypeName.kt:50-58 | a keyword, a type variable, an array and a wildcard are written as their text: `? super T` for one lower bound, `?` for an `Object` upper bound, `? extends T` otherwise, both by `emit` and as a `$T` token |
| Emission.EmitPlainArray | kpoet/src/main/java/com/grosner/kpoet/core/ArrayTypeName.kt:34 | an array is written as its component followed by `[]` |
| Emission.EmitPlainBound | kpoet/src/main/java/com/grosner/kpoet/core/WildcardTypeName.kt:52-57 | a wildcard keyword followed by a plain bound writes the keyword and the bound's text |
| Emission.NoTypeAnnotations | kpoet/src/main/java/com/grosner/kpoet/core/TypeName.kt:172-178 | a type name without annotations writes no annotation prefix |
| Emission.EmitParameterized | kpoet/src/main/java/com/grosner/kpoet/core/ParameterizedTypeName.kt:53-74 | a top-level parameterized type without annotations or arguments is written as its raw class name alone |
| Emission.EmitPlainArguments | kpoet/src/main/java/com/grosner/kpoet/core/ParameterizedTypeName.kt:62-70 | the argument loop writes the plain arguments from position k joined by `, `, with a leading `, ` after the first |
| Emission.PlainArgumentStep | kpoet/src/main/java/com/grosner/kpoet/core/ParameterizedTypeName.kt:64-69 | one step of the argument loop writes the separator and one plain argument |
| Emission.EmitParameterizedArguments | kpoet/src/main/java/com/grosner/kpoet/core/ParameterizedTypeName.kt:53-74 | a parameterized type is its raw type, followed by `<a, b>` only when it has arguments |
| Emission.ParameterizedHead | kpoet/src/main/java/com/grosner/kpoet/core/ParameterizedTypeName.kt:54-61 | a parameterized type with arguments is its raw type, then `<`, the argument loop from the first argument, then `>` |
| Emission.AngleText | kpoet/src/main/java/com/grosner/kpoet/core/ParameterizedTypeName.kt:62-71 | writing `<`, the arguments and `>` in turn writes them as one text |
| Emission.PutAllAtMargin | kpoet/src/main/java/com/grosner/kpoet/core/CodeWriter.kt:370-406 | at the left margin, outside comments and statements, text is written unchanged |
| Emission.PutAllKeepsLevel | kpoet/src/main/java/com/grosner/kpoet/core/CodeWriter.kt:370-406 | outside a statement, writing text never changes the indent level |
| Emission.EmitAndIndentKeepsLevel | kpoet/src/main/java/com/grosner/kpoet/core/CodeWriter.kt:370-406 | outside a statement, `emitAndIndent` keeps the indent level and opens no statement |
| Emission.ClassNameKeepsLevel | kpoet/src/main/java/com/grosner/kpoet/core/ClassName.kt:117 | writing a class name keeps the indent level |
| Emission.ClassTokenKeepsLevel | kpoet/src/main/java/com/grosner/kpoet/core/CodeWriter.kt:176-194 | a `$T` of an unannotated class keeps the indent level |
| Emission.ArgumentKeepsLevel | kpoet/src/main/java/com/grosner/kpoet/core/CodeWriter.kt:163-174 | a placeholder with a null, string or plain argument keeps the indent level |
| Emission.TokenKeepsLevel | kpoet/src/main/java/com/grosner/kpoet/core/CodeWriter.kt:197-235 | literal text and tokens other than `$>`, `$<`, `$[`, `$]` keep the indent level |
| Emission.PlainPartsKeepLevel | kpoet/src/main/java/com/grosner/kpoet/core/CodeWriter.kt:156-239 | a block of such parts keeps the indent level |
| Emission.ValueListKeepsLevel | kpoet/src/main/java/com/grosner/kpoet/core/AnnotationSpec.kt:90-95 | the loop over an annotation member's values keeps the indent level |
| Emission.AnnotationValuesKeepLevel | kpoet/src/main/java/com/grosner/kpoet/core/AnnotationSpec.kt:80-99 | `emitAnnotationValues` pairs each `indent(2)` with an `unindent(2)`: the level is unchanged |
| Emission.MembersKeepLevel | kpoet/src/main/java/com/grosner/kpoet/core/AnnotationSpec.kt:67-73 | the loop over the members keeps the indent level |
| Emission.EmitAnnotation | kpoet/src/main/java/com/grosner/kpoet/core/AnnotationSpec.kt:45-78 | an annotation without members is `@` followed by its type |
| Emission.EmitAnnotationValues | kpoet/src/main/java/com/grosner/kpoet/core/AnnotationSpec.kt:80-99 | no values are written as `{` and `}` around the whitespace |
| Emission.EmitAnnotationKeepsLevel | kpoet/src/main/java/com/grosner/kpoet/core/AnnotationSpec.kt:45-78 | an annotation with plain values, written outside a statement, leaves the indent level where it found it |
| Emission.EmitParameter | kpoet/src/main/java/com/grosner/kpoet/core/ParameterSpec.kt:39-47 | the varargs parameter must have an array type; otherwise writing it fails |
| Emission.EmitParameters | kpoet/src/main/java/com/grosner/kpoet/core/MethodSpec.kt:83-90 | a varargs method whose last parameter is not an array cannot have its parameters written |
| Emission.EmitMethod | kpoet/src/main/java/com/grosner/kpoet/core/MethodSpec.kt:67-124 | a method other than a constructor without a return type fails, as does a varargs method whose last parameter is not an array |
| Emission.EmitMethodTail | kpoet/src/main/java/com/grosner/kpoet/core/MethodSpec.kt:83-123 | the same varargs failure, from the parameters on |
| Emission.EmitTypeHeader | kpoet/src/main/java/com/grosner/kpoet/core/TypeSpec.kt:88-92 | an enum constant without anonymous-class arguments fails on `anonymousTypeArguments!!` |
| Emission.EmitTypeSpec | kpoet/src/main/java/com/grosner/kpoet/core/TypeSpec.kt:81-85 | writing a type restores the writer's statement line, as the `finally` block does |
| Emission.EmitMethodSection | kpoet/src/main/java/com/grosner/kpoet/core/TypeSpec.kt:201-215 | corrected: in an anonymous class, the constructor section fails with a null-pointer error whenever a constructor is left to write |
| CodeWriters.StackedFailure | kpoet/src/main/java/com/grosner/kpoet/core/CodeWriter.kt:356-362 | once building a stacked class name fails at some depth, every deeper name fails the same way |
| CodeWriters.CodeWriter.constructor | kpoet/src/main/java/com/grosner/kpoet/core/CodeWriter.kt:28-55 | a writer with dotted static imports has the configuration `NewConfig` describes and the fresh state |
| CodeWriters.CodeWriter.Indent | kpoet/src/main/java/com/grosner/kpoet/core/CodeWriter.kt:57 | the state `Emission.Indent` describes |
| CodeWriters.CodeWriter.Unindent | kpoet/src/main/java/com/grosner/kpoet/core/CodeWriter.kt:59-62 | passes or fails with the state and error `Emission.Unindent` describes |
| CodeWriters.CodeWriter.PushPackage | kpoet/src/main/java/com/grosner/kpoet/core/CodeWriter.kt:64-67 | as `Emission.PushPackage` |
| CodeWriters.CodeWriter.PopPackage | kpoet/src/main/java/com/grosner/kpoet/core/CodeWriter.kt:69-72 | as `Emission.PopPackage` |
| CodeWriters.CodeWriter.PushType | kpoet/src/main/java/com/grosner/kpoet/core/CodeWriter.kt:74 | as `Emission.PushType` |
| CodeWriters.CodeWriter.PopType | kpoet/src/main/java/com/grosner/kpoet/core/CodeWriter.kt:76 | as `Emission.PopType` |
| CodeWriters.CodeWriter.EmitIndentation | kpoet/src/main/java/com/grosner/kpoet/core/CodeWriter.kt:409-413 | the loop appends the indent once per level and changes nothing else |
| CodeWriters.CodeWriter.BreakLine | kpoet/src/main/java/com/grosner/kpoet/core/CodeWriter.kt:374-387 | the line break of `emitAndIndent`, with its comment prefix and statement double indent |
| CodeWriters.CodeWriter.PutLine | kpoet/src/main/java/com/grosner/kpoet/core/CodeWriter.kt:389-403 | one line written with lazy indentation and the javadoc or comment prefix |
| CodeWriters.CodeWriter.EmitAndIndent | kpoet/src/main/java/com/grosner/kpoet/core/CodeWriter.kt:370-406 | the loop over the lines leaves the state `Emission.EmitAndIndent` describes, which agrees with character-by-character output |
| CodeWriters.CodeWriter.EmitWrappingSpace | kpoet/src/main/java/com/grosner/kpoet/core/CodeWriter.kt:242-245 | writes one space |
| CodeWriters.CodeWriter.EmitModifiers | kpoet/src/main/java/com/grosner/kpoet/core/CodeWriter.kt:117-124 | the modifiers in declaration order, lower-cased and each followed by a space, skipping the implicit ones |
| CodeWriters.CodeWriter.StackClassName | kpoet/src/main/java/com/grosner/kpoet/core/CodeWriter.kt:356-362 | the loop builds the class name `Emission.StackClassName` describes |
| CodeWriters.CodeWriter.Resolve | kpoet/src/main/java/com/grosner/kpoet/core/CodeWriter.kt:331-353 | the nested loops find the innermost nested type, then the top-level type, then an import, as `Emission.Resolve` describes |
| CodeWriters.CodeWriter.ImportableType | kpoet/src/main/java/com/grosner/kpoet/core/CodeWriter.kt:314-324 | as `Emission.ImportableType`: the first class to claim a simple name keeps it |
| CodeWriters.CodeWriter.LookupLoop | kpoet/src/main/java/com/grosner/kpoet/core/CodeWriter.kt:283-293 | the loop over the class and its enclosing classes ends with the match or failure `Emission.LookupFrom` describes |
| CodeWriters.CodeWriter.LookupName | kpoet/src/main/java/com/grosner/kpoet/core/CodeWriter.kt:278-312 | the loop returns the name and leaves the state `Emission.LookupName` describes, or fails the same way |
| CodeWriters.CodeWriter.SuggestedImports | kpoet/src/main/java/com/grosner/kpoet/core/CodeWriter.kt:419-423 | the importable types minus every simple name referenced unqualified |
| CodeWriters.CodeWriter.Emit | kpoet/src/main/java/com/grosner/kpoet/core/CodeWriter.kt:156-239 | the loop over the parts passes exactly when `Emission.EmitBlock` succeeds, leaving its state |
| CodeWriters.CodeWriter.EmitPlaceholder | kpoet/src/main/java/com/grosner/kpoet/core/CodeWriter.kt:163-195 | one argument-consuming part advances the loop as the specification's next turn, or fails with its error |
| CodeWriters.CodeWriter.EmitToken | kpoet/src/main/java/com/grosner/kpoet/core/CodeWriter.kt:197-235 | the argument-free tokens and literal text, as `Emission.EmitToken` |
| CodeWriters.CodeWriter.EmitComment | kpoet/src/main/java/com/grosner/kpoet/core/CodeWriter.kt:79-88 | the block written as `//` lines, as `Emission.EmitComment` |
| CodeWriters.CodeWriter.EmitJavadoc | kpoet/src/main/java/com/grosner/kpoet/core/CodeWriter.kt:91-102 | nothing for an empty block, else the `/** ... */` comment, as `Emission.EmitJavadoc` |
| CodeWriters.CodeWriter.EmitAnnotations | kpoet/src/main/java/com/grosner/kpoet/core/CodeWriter.kt:105-110 | each annotation followed by a space or a line break, as `Emission.EmitAnnotationList` |
| CodeWriters.CodeWriter.EmitBounds | kpoet/src/main/java/com/grosner/kpoet/core/CodeWriter.kt:139-143 | ` extends` before the first bound and ` &` before the others |
| CodeWriters.CodeWriter.EmitTypeVariables | kpoet/src/main/java/com/grosner/kpoet/core/CodeWriter.kt:131-147 | nothing for no variables, else the names and bounds in angle brackets |
| NameAllocators.Sanitized | kpoet/src/main/java/com/grosner/kpoet/core/NameAllocator.kt:138 | every character becomes an identifier part, and identifier parts are kept |
| NameAllocators.SanitizedIsIdentifier | kpoet/src/main/java/com/grosner/kpoet/core/NameAllocator.kt:128-143 | a non-empty suggestion becomes an identifier, at most one character longer |
| NameAllocators.SanitizedKeepsIdentifier | kpoet/src/main/java/com/grosner/kpoet/core/NameAllocator.kt:128-143 | an identifier is left unchanged |
| NameAllocators.SanitizedIdempotent | kpoet/src/main/java/com/grosner/kpoet/core/NameAllocator.kt:128-143 | sanitizing twice is sanitizing once |
| NameAllocators.ToJavaIdentifier | kpoet/src/main/java/com/grosner/kpoet/core/NameAllocator.kt:128-143 | the loop computes `SanitizedName` |
| NameAllocators.Allocate | kpoet/src/main/java/com/grosner/kpoet/core/NameAllocator.kt:94-96 | the name is free, not a keyword, and the suggestion followed by underscores |
| NameAllocators.FirstFree | kpoet/src/main/java/com/grosner/kpoet/core/NameAllocator.kt:94-96 | the loop stops at the name `Allocate` describes: free, not a keyword, and the sanitized suggestion followed by underscores |
| NameAllocators.UnderscoresKeepIdentifier | kpoet/src/main/java/com/grosner/kpoet/core/NameAllocator.kt:95 | appending underscores to an identifier, or to nothing, keeps it an identifier |
| NameAllocators.NameAllocator.constructor | kpoet/src/main/java/com/grosner/kpoet/core/NameAllocator.kt:82 | no names allocated and no tags |
| NameAllocators.NameAllocator.NewName | kpoet/src/main/java/com/grosner/kpoet/core/NameAllocator.kt:90-106 | the sanitized, de-collided name is allocated in every case; the tag is recorded and the name returned exactly when the tag was new, otherwise `IllegalArgumentException` and the tags unchanged |
| NameAllocators.NameAllocator.Get | kpoet/src/main/java/com/grosner/kpoet/core/NameAllocator.kt:111 | the name recorded for the tag, or `IllegalArgumentException` exactly when there is none |
| NameAllocators.NameAllocator.Clone | kpoet/src/main/java/com/grosner/kpoet/core/NameAllocator.kt:120 | a fresh allocator with the same names and tags |
| ParameterSpecs.Builder.constructor | kpoet/src/main/java/com/grosner/kpoet/core/ParameterSpec.kt:76-80 | a builder with the type and name and no annotations or modifiers |
| ParameterSpecs.Builder.AddAnnotations | kpoet/src/main/java/com/grosner/kpoet/core/ParameterSpec.kt:82-86 | appends the annotations in order, modifiers unchanged |
| ParameterSpecs.Builder.AddAnnotation | kpoet/src/main/java/com/grosner/kpoet/core/ParameterSpec.kt:88-90 | appends one annotation |
| ParameterSpecs.Builder.AddAnnotationOfClass | kpoet/src/main/java/com/grosner/kpoet/core/ParameterSpec.kt:92-94 | appends a member-less annotation of the class |
| ParameterSpecs.Builder.AddModifiers | kpoet/src/main/java/com/grosner/kpoet/core/ParameterSpec.kt:98-106 | appends the modifiers in order, annotations unchanged |
| ParameterSpecs.Builder.Build | kpoet/src/main/java/com/grosner/kpoet/core/ParameterSpec.kt:29-34 | the spec keeps name, type and annotations, and its modifier set holds exactly the listed modifiers |
| ParameterSpecs.NewBuilder | kpoet/src/main/java/com/grosner/kpoet/core/ParameterSpec.kt:120-124 | a builder exactly when the name is a valid name, otherwise `IllegalArgumentException` |
| ParameterSpecs.ToBuilder | kpoet/src/main/java/com/grosner/kpoet/core/ParameterSpec.kt:69-74 | a builder that rebuilds the spec with the given type and name |
| ParameterSpecs.BuiltHasModifiers | kpoet/src/main/java/com/grosner/kpoet/core/ParameterSpec.kt:36 | `hasModifier` holds exactly for modifiers added at construction or later |
| ParameterSpecs.EmitParameterAsWritten | kpoet/src/main/java/com/grosner/kpoet/core/ParameterSpec.kt:39-47 | as written: a varargs parameter whose type is not an array fails, since `arrayComponent` gives null and `$T` rejects it |
| ParameterSpecs.EmitParameterNameAsWritten | kpoet/src/main/java/com/grosner/kpoet/core/ParameterSpec.kt:42-46 | as written: for a varargs parameter whose type is not an array the format `$T... name` fails with `IllegalArgumentException` |
| ParameterSpecs.OfNonTypeFails | kpoet/src/main/java/com/grosner/kpoet/core/CodeBlock.kt:271-277 | `CodeBlock.of` of a format starting with `$T` fails with `IllegalArgumentException` when its argument is not a type, whatever follows |
| ParameterSpecs.AsWrittenAgrees | kpoet/src/main/java/com/grosner/kpoet/core/ParameterSpec.kt:39-47 | corrected: for names without `$` the emit as written and the corrected emit agree |
| ParameterSpecs.NameAgrees | kpoet/src/main/java/com/grosner/kpoet/core/ParameterSpec.kt:42-46 | corrected: the type and name agree with the format as written for names without `$` |
| ParameterSpecs.BareParameter | kpoet/src/main/java/com/grosner/kpoet/core/ParameterSpec.kt:39-47 | without annotations or modifiers a parameter is just its type and name |
| ParameterSpecs.DollarNameBreaksEmit | kpoet/src/main/java/com/grosner/kpoet/core/ParameterSpec.kt:43-45 | as written: `a$b` passes the name check, but emitting it fails, while the corrected emit writes `int a$b` |
| ParameterSpecs.DollarAsWrittenFails | kpoet/src/main/java/com/grosner/kpoet/core/ParameterSpec.kt:45 | as written: the parameter `int a$b` cannot be emitted |
| ParameterSpecs.DollarNameEmitted | kpoet/src/main/java/com/grosner/kpoet/core/ParameterSpec.kt:39-47 | corrected: the parameter `int a$b` is written as such |
| ParameterSpecs.DollarFormatFails | kpoet/src/main/java/com/grosner/kpoet/core/ParameterSpec.kt:45 | as written: the format `$T a$b` is rejected by `CodeBlock.of` |
| AnnotationSpecs.Find | kpoet/src/main/java/com/grosner/kpoet/core/AnnotationSpec.kt:138 | the first member with a name, or proof that none has it |
| AnnotationSpecs.Names | kpoet/src/main/java/com/grosner/kpoet/core/AnnotationSpec.kt:132 | the member names in insertion order |
| AnnotationSpecs.Put | kpoet/src/main/java/com/grosner/kpoet/core/AnnotationSpec.kt:104 | `LinkedHashMap.put`: the key gets the values, others keep theirs, and a new key goes last |
| AnnotationSpecs.FindAppended | kpoet/src/main/java/com/grosner/kpoet/core/AnnotationSpec.kt:138-142 | looking a name up after appending finds the old entry first |
| AnnotationSpecs.AddMemberValues | kpoet/src/main/java/com/grosner/kpoet/core/AnnotationSpec.kt:137-145 | `addMember` appends the block to that member's values, leaves other members alone, and keeps names distinct and non-empty |
| AnnotationSpecs.BuiltAsWrittenLosesMembers | kpoet/src/main/java/com/grosner/kpoet/core/AnnotationSpec.kt:42 | as written: a spec built from members that all have values has none |
| AnnotationSpecs.BuiltKeepsMembers | kpoet/src/main/java/com/grosner/kpoet/core/AnnotationSpec.kt:42 | corrected: a spec built from members that all have values keeps them all |
| AnnotationSpecs.Builder.constructor | kpoet/src/main/java/com/grosner/kpoet/core/AnnotationSpec.kt:130-132 | a builder for the type with no members |
| AnnotationSpecs.Builder.AddMember | kpoet/src/main/java/com/grosner/kpoet/core/AnnotationSpec.kt:137-145 | the members become `AddMemberTo` of the old ones |
| AnnotationSpecs.Builder.AddMemberFormat | kpoet/src/main/java/com/grosner/kpoet/core/AnnotationSpec.kt:134-135 | passes exactly when `CodeBlock.of` succeeds, adding its block; otherwise fails with its error and changes nothing |
| AnnotationSpecs.Builder.BuildAsWritten | kpoet/src/main/java/com/grosner/kpoet/core/AnnotationSpec.kt:39-42 | as written: a valid builder builds a spec with no members |
| AnnotationSpecs.Builder.Build | kpoet/src/main/java/com/grosner/kpoet/core/AnnotationSpec.kt:39-42 | corrected: a valid builder builds a spec with exactly its members |
| AnnotationSpecs.NewBuilder | kpoet/src/main/java/com/grosner/kpoet/core/AnnotationSpec.kt:240 | a valid builder for the class with no members |
| AnnotationSpecs.PutAllDistinct | kpoet/src/main/java/com/grosner/kpoet/core/AnnotationSpec.kt:103-105 | putting distinct members one by one rebuilds them |
| AnnotationSpecs.ToBuilder | kpoet/src/main/java/com/grosner/kpoet/core/AnnotationSpec.kt:101-107 | a builder whose members are the spec's members put one by one |
| AnnotationSpecs.RebuildRoundTrip | kpoet/src/main/java/com/grosner/kpoet/core/AnnotationSpec.kt:101-107 | corrected: `toBuilder` of a built spec gives back the builder's members |
| MethodSpecs.AddAllDistinctSpec | kpoet/src/main/java/com/grosner/kpoet/core/MethodSpec.kt:246-250 | adding exceptions to a `LinkedHashSet` keeps them distinct, keeps the earlier ones first, and holds exactly the old and the new ones |
| MethodSpecs.AddDistinctSpec | kpoet/src/main/java/com/grosner/kpoet/core/MethodSpec.kt:252 | adding one exception keeps the set distinct and in insertion order |
| MethodSpecs.AddAllDistinctOfDistinct | kpoet/src/main/java/com/grosner/kpoet/core/MethodSpec.kt:162 | copying distinct exceptions into an empty set keeps their order |
| MethodSpecs.AddAllDistinctAppend | kpoet/src/main/java/com/grosner/kpoet/core/MethodSpec.kt:246-250 | adding two lists in turn is adding their concatenation |
| MethodSpecs.BuildCheck | kpoet/src/main/java/com/grosner/kpoet/core/MethodSpec.kt:50-63 | passes exactly when an abstract method has no code and a varargs method ends with an array parameter; fails with `IllegalArgumentException` |
| MethodSpecs.Builder.constructor | kpoet/src/main/java/com/grosner/kpoet/core/MethodSpec.kt:169-187 | empty lists and blocks; the return type is `void` except for a constructor, which has none |
| MethodSpecs.Builder.AddJavadoc | kpoet/src/main/java/com/grosner/kpoet/core/MethodSpec.kt:189 | the javadoc builder changes as `add` on it does |
| MethodSpecs.Builder.AddJavadocBlock | kpoet/src/main/java/com/grosner/kpoet/core/MethodSpec.kt:191 | the block is appended to the javadoc |
| MethodSpecs.Builder.AddAnnotations | kpoet/src/main/java/com/grosner/kpoet/core/MethodSpec.kt:193-197 | appends the annotations, nothing else changes |
| MethodSpecs.Builder.AddAnnotation | kpoet/src/main/java/com/grosner/kpoet/core/MethodSpec.kt:199 | appends one annotation |
| MethodSpecs.Builder.AddAnnotationOfClass | kpoet/src/main/java/com/grosner/kpoet/core/MethodSpec.kt:201-203 | appends a member-less annotation of the class |
| MethodSpecs.Builder.AddModifiers | kpoet/src/main/java/com/grosner/kpoet/core/MethodSpec.kt:207-213 | appends the modifiers |
| MethodSpecs.Builder.AddTypeVariables | kpoet/src/main/java/com/grosner/kpoet/core/MethodSpec.kt:215-219 | appends the type variables |
| MethodSpecs.Builder.AddTypeVariable | kpoet/src/main/java/com/grosner/kpoet/core/MethodSpec.kt:221 | appends one type variable |
| MethodSpecs.Builder.Returns | kpoet/src/main/java/com/grosner/kpoet/core/MethodSpec.kt:223-226 | sets the return type exactly when the method is not a constructor; otherwise `IllegalStateException` and no change |
| MethodSpecs.Builder.AddParameters | kpoet/src/main/java/com/grosner/kpoet/core/MethodSpec.kt:230-234 | appends the parameters |
| MethodSpecs.Builder.AddParameter | kpoet/src/main/java/com/grosner/kpoet/core/MethodSpec.kt:236 | appends one parameter |
| MethodSpecs.Builder.AddParameterOf | kpoet/src/main/java/com/grosner/kpoet/core/MethodSpec.kt:238-239 | appends a parameter with that type, name and modifiers exactly when the name is valid; otherwise `IllegalArgumentException` and no change |
| MethodSpecs.Builder.Varargs | kpoet/src/main/java/com/grosner/kpoet/core/MethodSpec.kt:244 | sets the varargs flag |
| MethodSpecs.Builder.AddExceptions | kpoet/src/main/java/com/grosner/kpoet/core/MethodSpec.kt:246-250 | adds each exception to the insertion-ordered set |
| MethodSpecs.Builder.AddException | kpoet/src/main/java/com/grosner/kpoet/core/MethodSpec.kt:252 | adds one exception to the set |
| MethodSpecs.Builder.Add | kpoet/src/main/java/com/grosner/kpoet/core/MethodSpec.kt:256 | the code builder changes as `add` on it does |
| MethodSpecs.Builder.AddNamed | kpoet/src/main/java/com/grosner/kpoet/core/MethodSpec.kt:258 | the code builder changes as `addNamed` on it does |
| MethodSpecs.Builder.AddBlock | kpoet/src/main/java/com/grosner/kpoet/core/MethodSpec.kt:260 | the block is appended to the code |
| MethodSpecs.Builder.AddComment | kpoet/src/main/java/com/grosner/kpoet/core/MethodSpec.kt:262 | as `addComment` on the code |
| MethodSpecs.Builder.BeginControlFlow | kpoet/src/main/java/com/grosner/kpoet/core/MethodSpec.kt:275-277 | as `beginControlFlow` on the code |
| MethodSpecs.Builder.NextControlFlow | kpoet/src/main/java/com/grosner/kpoet/core/MethodSpec.kt:283-285 | as `nextControlFlow` on the code |
| MethodSpecs.Builder.EndControlFlow | kpoet/src/main/java/com/grosner/kpoet/core/MethodSpec.kt:287 | as `endControlFlow()` on the code |
| MethodSpecs.Builder.EndControlFlowWith | kpoet/src/main/java/com/grosner/kpoet/core/MethodSpec.kt:293-295 | as `endControlFlow(controlFlow)` on the code |
| MethodSpecs.Builder.AddStatement | kpoet/src/main/java/com/grosner/kpoet/core/MethodSpec.kt:297-299 | as `addStatement` on the code |
| MethodSpecs.Builder.DefaultValue | kpoet/src/main/java/com/grosner/kpoet/core/MethodSpec.kt:266-269 | sets the default value exactly when none was set; otherwise `IllegalStateException` and no change |
| MethodSpecs.Builder.DefaultValueFormat | kpoet/src/main/java/com/grosner/kpoet/core/MethodSpec.kt:264 | passes exactly when the format is valid and no default was set, setting its block; a failure changes nothing |
| MethodSpecs.Builder.Build | kpoet/src/main/java/com/grosner/kpoet/core/MethodSpec.kt:36-58 | a spec exactly when `BuildCheck` passes, copying every part, the modifier list becoming a set |
| MethodSpecs.NewBuilder | kpoet/src/main/java/com/grosner/kpoet/core/MethodSpec.kt:309-311 | a builder exactly when the name is `<init>` or a valid name |
| MethodSpecs.ConstructorBuilder | kpoet/src/main/java/com/grosner/kpoet/core/MethodSpec.kt:313-315 | a builder named `<init>` with no return type |
| MethodSpecs.ToBuilder | kpoet/src/main/java/com/grosner/kpoet/core/MethodSpec.kt:154-167 | a builder exactly for a valid name; it holds the exceptions as a set, and a spec that passes the build checks with distinct exceptions rebuilds to itself |
| MethodSpecs.CopyParts | kpoet/src/main/java/com/grosner/kpoet/core/MethodSpec.kt:156-165 | the builder holds every part of the spec, modifiers in declaration order |
| MethodSpecs.EmitMethodAsWritten | kpoet/src/main/java/com/grosner/kpoet/core/MethodSpec.kt:67-124 | as written: a method without a return type fails, a varargs method whose last parameter is not an array fails, and a constructor whose parameter names hold no `$` is written exactly as by the corrected emit, whatever the enclosing name |
| MethodSpecs.EmitOpeningAsWritten | kpoet/src/main/java/com/grosner/kpoet/core/MethodSpec.kt:77-81 | as written: a constructor opens with the enclosing name and `(` verbatim; a method without a return type fails with `IllegalArgumentException` |
| MethodSpecs.EmitParametersAsWritten | kpoet/src/main/java/com/grosner/kpoet/core/MethodSpec.kt:83-90 | as written: the parameter loop fails when the method is varargs and its last parameter is not an array |
| MethodSpecs.AsWrittenAgrees | kpoet/src/main/java/com/grosner/kpoet/core/MethodSpec.kt:67-124 | corrected: for a method whose name (unless it is a constructor) and parameter names hold no `$`, the emit as written and the corrected emit agree, for every enclosing name |
| MethodSpecs.OpeningAgrees | kpoet/src/main/java/com/grosner/kpoet/core/MethodSpec.kt:77-81 | the opening as written equals the corrected one: a constructor's enclosing name is written verbatim, and a method's `$T name(` format writes the return type and then `name(` when the name holds no `$` |
| MethodSpecs.MethodOpening | kpoet/src/main/java/com/grosner/kpoet/core/MethodSpec.kt:80 | a `$`-free method name gives the format `$T`, then literal text |
| MethodSpecs.ParametersAgree | kpoet/src/main/java/com/grosner/kpoet/core/MethodSpec.kt:83-90 | the parameter loop as written and corrected agree for `$`-free parameter names |
| MethodSpecs.DollarMethodBreaksEmit | kpoet/src/main/java/com/grosner/kpoet/core/MethodSpec.kt:80 | as written: `a$b` is a valid method name, yet emitting `void a$b()` fails with `IllegalArgumentException`, while the corrected emit writes `void a$b() {}` |
| MethodSpecs.DollarMethodAsWrittenFails | kpoet/src/main/java/com/grosner/kpoet/core/MethodSpec.kt:80 | as written: the method `void a$b()` cannot be emitted |
| MethodSpecs.DollarOpeningFormat | kpoet/src/main/java/com/grosner/kpoet/core/MethodSpec.kt:80 | as written: that method's opening format is `$T a$b(` with `void` as its argument |
| MethodSpecs.DollarOpeningFails | kpoet/src/main/java/com/grosner/kpoet/core/MethodSpec.kt:80 | as written: the format `$T a$b(` is rejected by `CodeBlock.of` |
| MethodSpecs.DollarMethodEmitted | kpoet/src/main/java/com/grosner/kpoet/core/MethodSpec.kt:67-124 | corrected: the method `void a$b()` is written as `void a$b() {` and `}` on two lines |
| MethodSpecs.DollarMethodOpening | kpoet/src/main/java/com/grosner/kpoet/core/MethodSpec.kt:77-81 | corrected: `void a$b()` is written as the text `void a$b(`, then the rest of the method |
| MethodSpecs.BareMethodOpening | kpoet/src/main/java/com/grosner/kpoet/core/MethodSpec.kt:67-81 | a method with no javadoc, annotations, modifiers or type variables starts with its return type and name |
| MethodSpecs.BareHead | kpoet/src/main/java/com/grosner/kpoet/core/MethodSpec.kt:68-75 | no javadoc, annotations, modifiers or type variables write nothing |
| MethodSpecs.VoidToken | kpoet/src/main/java/com/grosner/kpoet/core/MethodSpec.kt:80 | the return type `void` is written as the keyword |
| MethodSpecs.BareEnd | kpoet/src/main/java/com/grosner/kpoet/core/MethodSpec.kt:83-123 | a method with no parameters, default, exceptions, modifiers or code ends `() {`, then `}` |
| TypeSpecs.ConstantNames | kpoet/src/main/java/com/grosner/kpoet/core/TypeSpec.kt:44 | lists the constant names of the ordered map, one per entry, in order |
| TypeSpecs.PutConstant | kpoet/src/main/java/com/grosner/kpoet/core/TypeSpec.kt:373 | `LinkedHashMap.put`: the entry for the name is replaced in place, or appended when the name is new; other entries stay; distinct names stay distinct |
| TypeSpecs.PutAllNewConstants | kpoet/src/main/java/com/grosner/kpoet/core/TypeSpec.kt:70 | putting constants with new, distinct names appends them in order |
| TypeSpecs.Accepted | kpoet/src/main/java/com/grosner/kpoet/core/TypeSpec.kt:376-380 | the number of items a builder loop accepts before the first one whose check throws: all before it pass, the one at it fails |
| TypeSpecs.AcceptedIs | kpoet/src/main/java/com/grosner/kpoet/core/TypeSpec.kt:376-380 | that count is the only index with that property |
| TypeSpecs.FieldCheck | kpoet/src/main/java/com/grosner/kpoet/core/TypeSpec.kt:382-390 | passes exactly when the kind is a class or enum, or the field is exactly one of public/private and static and final; names the exception thrown first |
| TypeSpecs.MethodCheck | kpoet/src/main/java/com/grosner/kpoet/core/TypeSpec.kt:421-437 | passes exactly when an interface method has exactly one of abstract/static/default and of public/private, an annotation method is exactly public abstract, only annotation methods have a default value and only interface methods are default; names the exception thrown first |
| TypeSpecs.TypeCheck | kpoet/src/main/java/com/grosner/kpoet/core/TypeSpec.kt:445-449 | passes exactly when the nested type carries the kind's implicit type modifiers; `IllegalArgumentException` otherwise |
| TypeSpecs.EnumConstantCheck | kpoet/src/main/java/com/grosner/kpoet/core/TypeSpec.kt:366-374 | passes exactly for an enum builder, a body with anonymous type arguments and a valid name; the kind is checked first (`IllegalStateException`) |
| TypeSpecs.SuperclassCheck | kpoet/src/main/java/com/grosner/kpoet/core/TypeSpec.kt:346-352 | passes exactly for a class whose superclass is still `Object` and a non-primitive superclass; names the exception thrown first |
| TypeSpecs.BuildCheck | kpoet/src/main/java/com/grosner/kpoet/core/TypeSpec.kt:453-469 | passes exactly when an enum has a constant, a non-abstract class declares no abstract method and an anonymous class has at most one supertype besides `Object` |
| TypeSpecs.BracedBalance | kpoet/src/main/java/com/grosner/kpoet/core/TypeSpec.kt:400-413 | wrapping a block in an opening and a closing line adds exactly the block's indent balance |
| TypeSpecs.Builder.constructor | kpoet/src/main/java/com/grosner/kpoet/core/TypeSpec.kt:281-300 | a builder of that kind, name and type arguments with empty parts and `Object` as superclass |
| TypeSpecs.Builder.AddJavadoc | kpoet/src/main/java/com/grosner/kpoet/core/TypeSpec.kt:302 | the javadoc builder changes as `add` on it does |
| TypeSpecs.Builder.AddJavadocBlock | kpoet/src/main/java/com/grosner/kpoet/core/TypeSpec.kt:304 | the block is appended to the javadoc |
| TypeSpecs.Builder.AddAnnotations | kpoet/src/main/java/com/grosner/kpoet/core/TypeSpec.kt:306-310 | appends the annotations, nothing else changes |
| TypeSpecs.Builder.AddAnnotation | kpoet/src/main/java/com/grosner/kpoet/core/TypeSpec.kt:312 | appends one annotation |
| TypeSpecs.Builder.AddAnnotationOfClass | kpoet/src/main/java/com/grosner/kpoet/core/TypeSpec.kt:314-315 | appends a member-less annotation of the class |
| TypeSpecs.Builder.AddModifiers | kpoet/src/main/java/com/grosner/kpoet/core/TypeSpec.kt:319-332 | appends the modifiers exactly when the type is not anonymous; otherwise `IllegalStateException` and no change |
| TypeSpecs.Builder.AddTypeVariables | kpoet/src/main/java/com/grosner/kpoet/core/TypeSpec.kt:334-339 | appends the type variables exactly when the type is not anonymous; otherwise `IllegalStateException` and no change |
| TypeSpecs.Builder.AddTypeVariable | kpoet/src/main/java/com/grosner/kpoet/core/TypeSpec.kt:341-344 | appends one type variable under the same condition |
| TypeSpecs.Builder.Superclass | kpoet/src/main/java/com/grosner/kpoet/core/TypeSpec.kt:346-352 | sets the superclass exactly when `SuperclassCheck` passes; a failure changes nothing |
| TypeSpecs.Builder.AddSuperinterfaces | kpoet/src/main/java/com/grosner/kpoet/core/TypeSpec.kt:356-360 | appends the interfaces |
| TypeSpecs.Builder.AddSuperinterface | kpoet/src/main/java/com/grosner/kpoet/core/TypeSpec.kt:362 | appends one interface |
| TypeSpecs.Builder.AddEnumConstant | kpoet/src/main/java/com/grosner/kpoet/core/TypeSpec.kt:366-374 | puts the constant into the ordered map exactly when `EnumConstantCheck` passes; a failure changes nothing; distinct constant names are kept |
| TypeSpecs.Builder.AddPlainEnumConstant | kpoet/src/main/java/com/grosner/kpoet/core/TypeSpec.kt:366-368 | with the default body, passes exactly for an enum and a valid name, putting an empty anonymous class |
| TypeSpecs.Builder.AddFields | kpoet/src/main/java/com/grosner/kpoet/core/TypeSpec.kt:376-380 | appends the fields that pass before the first failing one, and reports that failure |
| TypeSpecs.Builder.AddField | kpoet/src/main/java/com/grosner/kpoet/core/TypeSpec.kt:382-390 | appends the field exactly when `FieldCheck` passes; a failure changes nothing |
| TypeSpecs.Builder.AddStaticBlock | kpoet/src/main/java/com/grosner/kpoet/core/TypeSpec.kt:400-402 | appends `static {`, the block and `}` with its arguments, keeping the indent balance |
| TypeSpecs.Builder.AddInitializerBlock | kpoet/src/main/java/com/grosner/kpoet/core/TypeSpec.kt:404-413 | for a class or enum appends `{`, the block and `}`; otherwise `UnsupportedOperationException` and no change; keeps the indent balance |
| TypeSpecs.Builder.AddMethods | kpoet/src/main/java/com/grosner/kpoet/core/TypeSpec.kt:415-419 | appends the methods that pass before the first failing one, and reports that failure |
| TypeSpecs.Builder.AddMethod | kpoet/src/main/java/com/grosner/kpoet/core/TypeSpec.kt:421-437 | appends the method exactly when `MethodCheck` passes; a failure changes nothing |
| TypeSpecs.Builder.AddTypes | kpoet/src/main/java/com/grosner/kpoet/core/TypeSpec.kt:439-443 | appends the nested types that pass before the first failing one, and reports that failure |
| TypeSpecs.Builder.AddType | kpoet/src/main/java/com/grosner/kpoet/core/TypeSpec.kt:445-449 | appends the nested type exactly when `TypeCheck` passes; a failure changes nothing |
| TypeSpecs.Builder.Build | kpoet/src/main/java/com/grosner/kpoet/core/TypeSpec.kt:34-49 | a spec exactly when `BuildCheck` passes, copying every part, the modifier list becoming a set |
| TypeSpecs.NewBuilder | kpoet/src/main/java/com/grosner/kpoet/core/TypeSpec.kt:298-300 | a builder exactly when the name is absent or valid |
| TypeSpecs.NamedBuilder | kpoet/src/main/java/com/grosner/kpoet/core/TypeSpec.kt:474 | `classBuilder`, `interfaceBuilder`, `enumBuilder`, `annotationBuilder`: a builder of the kind exactly for a valid name |
| TypeSpecs.NamedBuilderOf | kpoet/src/main/java/com/grosner/kpoet/core/TypeSpec.kt:476 | the same for a class name, using its simple name |
| TypeSpecs.AnonymousClassBuilder | kpoet/src/main/java/com/grosner/kpoet/core/TypeSpec.kt:486-490 | a nameless class builder exactly when the type-argument format is valid, holding the formatted arguments |
| TypeSpecs.EmptyAnonymousClassBuilds | kpoet/src/main/java/com/grosner/kpoet/core/TypeSpec.kt:367 | the default enum-constant body `anonymousClassBuilder("").build()` exists and has anonymous type arguments |
| TypeSpecs.ToBuilder | kpoet/src/main/java/com/grosner/kpoet/core/TypeSpec.kt:63-78 | a builder exactly for a valid name; a spec that passes the build checks with distinct constant names rebuilds to itself |
| TypeSpecs.CopyParts | kpoet/src/main/java/com/grosner/kpoet/core/TypeSpec.kt:65-76 | the builder holds every part of the spec, modifiers in declaration order |
| TypeSpecs.CopyFields | kpoet/src/main/java/com/grosner/kpoet/core/TypeSpec.kt:66-74 | the list and map parts of the spec are copied into the builder |
| TypeSpecs.CopyDeclaration | kpoet/src/main/java/com/grosner/kpoet/core/TypeSpec.kt:66-70 | the annotations, modifiers, type variables, superclass and superinterfaces are copied into an empty builder, the rest left empty |
| TypeSpecs.PutAllConstantsInto | kpoet/src/main/java/com/grosner/kpoet/core/TypeSpec.kt:70 | `putAll` puts the constants one after another |
| JavaFiles.KeptKey | kpoet/src/main/java/com/grosner/kpoet/core/JavaFile.kt:120 | a `TreeSet` of imported classes keeps, for each canonical name, a class that some simple-name key maps to |
| JavaFiles.ImportOrder | kpoet/src/main/java/com/grosner/kpoet/core/JavaFile.kt:120 | the imported classes in strictly ascending canonical-name order, each one an imported class, every imported canonical name present once |
| JavaFiles.ImportLines | kpoet/src/main/java/com/grosner/kpoet/core/JavaFile.kt:119-124 | the classes that get an import line, never more than were offered |
| JavaFiles.ImportLinesMembers | kpoet/src/main/java/com/grosner/kpoet/core/JavaFile.kt:121 | a class gets an import line exactly when it is offered and is not skipped as `java.lang` |
| JavaFiles.ImportLinesAscending | kpoet/src/main/java/com/grosner/kpoet/core/JavaFile.kt:120-124 | skipping keeps the ascending order |
| JavaFiles.AscendingAppend | kpoet/src/main/java/com/grosner/kpoet/core/JavaFile.kt:120 | a class greater than all earlier ones extends an ascending list |
| JavaFiles.ImportLinesPrefix | kpoet/src/main/java/com/grosner/kpoet/core/JavaFile.kt:120-124 | the lines of a prefix of the classes are a prefix of the lines |
| JavaFiles.ImportLinesStep | kpoet/src/main/java/com/grosner/kpoet/core/JavaFile.kt:121-123 | one loop step adds the class's line exactly when it is imported |
| JavaFiles.ImportLinesSnoc | kpoet/src/main/java/com/grosner/kpoet/core/JavaFile.kt:121-123 | the lines of one more class are the earlier lines, then that class if it gets a line |
| JavaFiles.LinesBeforeCounts | kpoet/src/main/java/com/grosner/kpoet/core/JavaFile.kt:121-123 | the loop's running count is the number of lines of the classes met so far |
| JavaFiles.ImportCount | kpoet/src/main/java/com/grosner/kpoet/core/JavaFile.kt:119-124 | after every class the count is the number of lines; before a class that gets a line, that line is the next one |
| JavaFiles.EachKeptFrom | kpoet/src/main/java/com/grosner/kpoet/core/JavaFile.kt:120-124 | walking every element and skipping the rejected ones emits exactly the accepted ones, in order, from any point of the walk on |
| JavaFiles.EmitImportLoopIsEmitImports | kpoet/src/main/java/com/grosner/kpoet/core/JavaFile.kt:119-124 | the loop over the sorted classes, skipping `java.lang` ones when asked, emits exactly the import lines, in order |
| JavaFiles.ImportLinesOfFile | kpoet/src/main/java/com/grosner/kpoet/core/JavaFile.kt:119-124 | the import lines of a file are ascending and name only imported, unskipped classes |
| JavaFiles.NothingSkipped | kpoet/src/main/java/com/grosner/kpoet/core/JavaFile.kt:121 | without `skipJavaLangImports` every class gets its line |
| JavaFiles.ImportsFromFirstPass | kpoet/src/main/java/com/grosner/kpoet/core/JavaFile.kt:46-53 | every import line names a class the first pass found importable whose simple name was not otherwise referenced |
| JavaFiles.EmitFormat | kpoet/src/main/java/com/grosner/kpoet/core/JavaFile.kt:108 | `emit(format, args)` fails as `CodeBlock.of` does, and otherwise emits that block |
| JavaFiles.EmitHeader | kpoet/src/main/java/com/grosner/kpoet/core/JavaFile.kt:100-117 | the file header needs a writer with no package pushed; otherwise `IllegalStateException` |
| JavaFiles.EmitFile | kpoet/src/main/java/com/grosner/kpoet/core/JavaFile.kt:100-133 | the package is pushed and popped around the file: it fails on a pushed package and leaves none |
| JavaFiles.Rendered | kpoet/src/main/java/com/grosner/kpoet/core/JavaFile.kt:46-55 | a static import without a dot fails as the writer's constructor does |
| JavaFiles.EmitFormatTo | kpoet/src/main/java/com/grosner/kpoet/core/JavaFile.kt:108 | the writer reaches the state, or the failure, of `EmitFormat` |
| JavaFiles.EmitStaticImportsTo | kpoet/src/main/java/com/grosner/kpoet/core/JavaFile.kt:112-117 | the writer reaches the state of the static-import lines |
| JavaFiles.EmitHeaderTo | kpoet/src/main/java/com/grosner/kpoet/core/JavaFile.kt:101-117 | the writer reaches the state of `EmitHeader` |
| JavaFiles.EmitImportLinesTo | kpoet/src/main/java/com/grosner/kpoet/core/JavaFile.kt:119-124 | the writer reaches the state of the import lines, and the count is the number of lines emitted |
| JavaFiles.EmitImportSectionTo | kpoet/src/main/java/com/grosner/kpoet/core/JavaFile.kt:119-128 | the writer reaches the state of the import section, with its blank line when a line was emitted |
| JavaFiles.EmitTo | kpoet/src/main/java/com/grosner/kpoet/core/JavaFile.kt:100-133 | the writer reaches the state of `EmitFile` |
| JavaFiles.WriteTo | kpoet/src/main/java/com/grosner/kpoet/core/JavaFile.kt:46-55 | the two passes produce exactly `Rendered(f)` |
| JavaFiles.Signature | kpoet/src/main/java/com/grosner/kpoet/core/JavaFile.kt:194 | a static-import signature is the canonical name, a dot and the member name |
| JavaFiles.MemberSignatures | kpoet/src/main/java/com/grosner/kpoet/core/JavaFile.kt:194 | every signature added holds a dot |
| JavaFiles.MemberSignaturesAtMost | kpoet/src/main/java/com/grosner/kpoet/core/JavaFile.kt:194 | no more signatures are added than there are names |
| JavaFiles.MemberSignaturesContents | kpoet/src/main/java/com/grosner/kpoet/core/JavaFile.kt:194 | a signature is added exactly when it is some name's signature |
| JavaFiles.MemberSignaturesAppend | kpoet/src/main/java/com/grosner/kpoet/core/JavaFile.kt:194 | one more name adds its one signature |
| JavaFiles.Builder.constructor | kpoet/src/main/java/com/grosner/kpoet/core/JavaFile.kt:177-182 | a builder of the package and type with no comment, no static imports, `java.lang` imports kept and a two-space indent |
| JavaFiles.Builder.AddFileComment | kpoet/src/main/java/com/grosner/kpoet/core/JavaFile.kt:184 | the comment builder changes as `add` on it does |
| JavaFiles.Builder.AddStaticImport | kpoet/src/main/java/com/grosner/kpoet/core/JavaFile.kt:192-195 | passes exactly for a non-empty name list, adding one signature per name; otherwise `IllegalArgumentException` and no change |
| JavaFiles.Builder.AddSignatures | kpoet/src/main/java/com/grosner/kpoet/core/JavaFile.kt:194 | the `mapTo` loop adds the signature of every name to the static imports and changes nothing else |
| JavaFiles.Builder.SkipJavaLangImports | kpoet/src/main/java/com/grosner/kpoet/core/JavaFile.kt:205 | sets the flag only |
| JavaFiles.Builder.Indent | kpoet/src/main/java/com/grosner/kpoet/core/JavaFile.kt:207 | sets the indent only |
| JavaFiles.Builder.Build | kpoet/src/main/java/com/grosner/kpoet/core/JavaFile.kt:36-43 | the file copies every part; a valid builder's static imports all hold a dot |
| JavaFiles.ToBuilderAsWritten | kpoet/src/main/java/com/grosner/kpoet/core/JavaFile.kt:169-175 | the builder rebuilds the file without its static imports, so a file with static imports does not round-trip |
| JavaFiles.ToBuilder | kpoet/src/main/java/com/grosner/kpoet/core/JavaFile.kt:169-175 | with the static imports copied too, the builder rebuilds exactly the file |

## Left out

- The Kotlin DSL layer: it only forwards to the builders modelled here.
- Reflection and annotation-processing conversions are left out because they call APIs whose meaning is not visible. These are:
  - `TypeName.get(TypeMirror/Type)` and its visitor;
  - `ClassName.get(KClass/TypeElement)`;
  - `TypeVariableName.get(TypeMirror/TypeParameterElement)`;
  - the reflective `WildcardTypeName.get` and `ArrayTypeName.get`;
  - `AnnotationSpec.get`, `addMemberForValue` and its `Visitor`;
  - `MethodSpec.overriding`;
  - `ParameterSpec.get`/`parametersOf`;
  - `JavaFile.Builder.addStaticImport(Enum/KClass)`;
  - the `KClass`/`Type` overloads of `addAnnotation`, `returns`, `addException`, `superclass` and `addSuperinterface`.
- `originatingElements` and `addOriginatingElement`: they only feed the annotation-processing `Filer`.
- `JavaFile.writeTo(Path/File/Filer)` and `toJavaFileObject`: file-system I/O. `writeTo(Appendable)` is modelled as `JavaFiles.WriteTo`, which returns the text instead of appending it.
- Exception messages: only the exception's class is modelled.
- `hashCode` and the cached `toString` of type names are not modelled. `equals`, which compares rendered text, is modelled as structural equality.
- `LineWrapper` is not part of this model. Its output is taken as plain concatenation, with `$W` written as a single space.
- JDK character classes and keyword tables (`SourceVersion.isName`/`isKeyword`, `Character.isJavaIdentifierStart/Part`, `isISOControl`) are ASCII approximations. Within ASCII they agree with the JDK: `Jdk.IsJavaIdentifierPart` includes the identifier-ignorable controls U+0000–U+0008, U+000E–U+001B and U+007F. Non-ASCII letters, digits and currency signs are not identifier characters here.
  - Non-ASCII letters are not identifier characters here.
  - `toJavaIdentifier` works on characters rather than code points.
- `FieldSpec` is not part of this model. It is an opaque record of name, modifiers and rendered text, and `TypeSpec.Builder.addField(type, name, modifiers)` is left out with it.
- `TypeSpecs.Builder.Superclass` compares the current superclass with `Object` by value, where the source uses `===`. A builder whose superclass was set to an equal copy of `Object` is therefore not modelled.
- `Util.DEFAULT` is taken to be present; the source tolerates a JDK without the `default` modifier.
- The iteration order of hash maps and sets is taken to be insertion order, or ascending simple-name order where the model needs a fixed one. This covers `importableTypes` in a `TreeSet` and the modifier sets.
- When two imported classes share a canonical name, the `TreeSet` in `JavaFile.emit` keeps the one under the least simple-name key.
- `NameAllocator.newName(suggestion)` draws a random UUID as its tag. Here the tag is a parameter.
- `NameAllocators.NameAllocator` keys its tags by `string`, where the source accepts any object compared with `equals`. This narrows the tags a caller can use but not what the allocator does with them.
- `CodeBlocks.ArgToString`: a `$S` argument that is not a string keeps the value and renders its `toString()` when the block is written. The source calls `toString()` inside `add`, `addNamed` and `of`. So a `$S` argument whose `toString()` throws, such as a code block holding an unmatched `$<`, makes the model fail when the block is emitted, where the source fails in `add`/`addNamed`/`of`. Text that renders is the same in both, because rendering uses a fresh writer.
- `Integer.parseInt` of an overlong index in a `$nX` placeholder is modelled by the `MaxInt` bound in `CodeBlocks`: an index above it fails with `IllegalArgumentException`, the superclass of the `NumberFormatException` the source raises.
- Writes made by the other specs' `emit` functions are not replayed in place. This covers `TypeSpec`, `MethodSpec`, `AnnotationSpec` and `ParameterSpec`, and the `$T`/`$L` placeholders that call back into the writer. `CodeWriters.CodeWriter` computes their effect with the functions of module `Emission` and stores the resulting state as a whole.
- `JavaFiles.Rendered`, `JavaFiles.WriteTo`, `CodeWriters.CodeWriter` and the `toString()` of `$L`/`$S` arguments (`Emission.Render`, and through it `Emission.EmitLiteral` and `Emission.EmitArgument`) write parameters, methods and method sections with the corrected `Emission.EmitParameter`, `Emission.EmitMethod` and `Emission.EmitMethodSection`. So a file or an argument with a `$` in a parameter or method name, or with a method in an anonymous class, renders where the source throws. The throwing behaviour is modelled only by `ParameterSpecs.EmitParameterAsWritten`, `MethodSpecs.EmitMethodAsWritten` and `Emission.EmitMethodSectionAsWritten`.
- Concurrency: the library is single-threaded and so is the model.

## Findings

| source | as written | input that shows it | evidently intended | confidence | as-written member | corrected member |
|---|---|---|---|---|---|---|
| kpoet/src/main/java/com/grosner/kpoet/core/Util.kt:41-48 | `immutableMultimap` keeps only the entries whose list is empty, so `AnnotationSpec.Builder.build` drops every member that has a value | an annotation builder with `addMember("value", "$L", 1)` builds to an annotation with no members | keep the entries whose list is non-empty, as JavaPoet does | not executed | Util.ImmutableMultimapAsWrittenDropsValues, AnnotationSpecs.BuiltAsWrittenLosesMembers | Util.ImmutableMultimapKeepsAll, AnnotationSpecs.BuiltKeepsMembers |
| kpoet/src/main/java/com/grosner/kpoet/core/TypeName.kt:105-117 | `box` finds the wrapper by identity with the constants, so a primitive that is an equal copy throws `AssertionError` | `int.withoutAnnotations().box()`, or `box` of an annotated `int` | box every primitive by its keyword and keep its annotations | not executed | TypeNames.BoxAsWrittenRejectsCopies | TypeNames.BoxIgnoresIdentity |
| kpoet/src/main/java/com/grosner/kpoet/core/ParameterSpec.kt:43-45 | the parameter name is pasted into the format string of `emit`, so a `$` in a valid Java name is read as a placeholder | a parameter named `a$b` of type `int`: `emit` fails with `IllegalArgumentException` | pass the name as a `$N`/`$L` argument so it is written verbatim | not executed | ParameterSpecs.DollarNameBreaksEmit | ParameterSpecs.DollarNameEmitted |
| kpoet/src/main/java/com/grosner/kpoet/core/MethodSpec.kt:80 | `emit` pastes the method name into the format string, so a `$` in a valid Java name is read as a placeholder (a constructor's enclosing name, on line 78, is written verbatim and is not affected) | `methodBuilder("a$b").build()` emitted: `CodeBlock.of("$T a$b(", void)` fails with `IllegalArgumentException` | pass the name as a `$L`/`$N` argument so it is written verbatim | not executed | MethodSpecs.DollarMethodBreaksEmit | Emission.EmitMethod, MethodSpecs.AsWrittenAgrees |
| kpoet/src/main/java/com/grosner/kpoet/core/TypeSpec.kt:205-213 | `emit` writes every constructor and method with `name!!`, so an anonymous class with any method throws `NullPointerException` | `anonymousClassBuilder("")` with one ordinary method, emitted | demand the name only for constructors, which are the only methods that print it | not executed | Emission.AnonymousMethodFailsAsWritten | Emission.MethodsIgnoreTypeName |
| kpoet/src/main/java/com/grosner/kpoet/core/JavaFile.kt:169-175 | `toBuilder` does not copy the static imports, so the rebuilt file differs | a file with `addStaticImport(className, "member")`, rebuilt with `toBuilder().build()` | copy the static imports as well | not executed | JavaFiles.ToBuilderAsWritten | JavaFiles.ToBuilder |
