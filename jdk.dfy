/**
 * The JDK services the core leans on, restricted to ASCII: the character classes of
 * `java.lang.Character`, the keyword and name tests of `javax.lang.model.SourceVersion`
 * (Java 8 keyword table), and `javax.lang.model.element.Modifier`.
 *
 * A `char` here is a Unicode scalar value; non-ASCII letters are not identifier characters in
 * this approximation.
 */
module Jdk {
  import opened Strings

  predicate IsLowerCase(c: char) { 'a' <= c <= 'z' }

  predicate IsUpperCase(c: char) { 'A' <= c <= 'Z' }

  predicate IsDigit(c: char) { '0' <= c <= '9' }

  /** `Character.isJavaIdentifierStart`: a letter, `_` or `$`. */
  predicate IsJavaIdentifierStart(c: char)
  {
    IsLowerCase(c) || IsUpperCase(c) || c == '_' || c == '$'
  }

  /**
   * `Character.isJavaIdentifierPart`: an identifier start, a digit, or an identifier-ignorable
   * control character (U+0000..U+0008, U+000E..U+001B, U+007F).
   */
  predicate IsJavaIdentifierPart(c: char)
  {
    IsJavaIdentifierStart(c) || IsDigit(c) || IsIdentifierIgnorable(c)
  }

  /** `Character.isIdentifierIgnorable`, restricted to ASCII. */
  predicate IsIdentifierIgnorable(c: char)
  {
    (c as int) <= 0x08 || 0x0E <= (c as int) <= 0x1B || (c as int) == 0x7F
  }

  /** `Character.isISOControl`: U+0000..U+001F and U+007F..U+009F. */
  predicate IsISOControl(c: char)
  {
    (c as int) <= 0x1F || 0x7F <= (c as int) <= 0x9F
  }

  /**
   * The reserved words of Java 8 together with the literals `true`, `false` and `null`, in
   * alphabetical groups (small groups keep membership of a given word easy to decide).
   */
  const Keywords: set<string> := {
    "abstract", "assert", "boolean", "break", "byte", "case", "catch", "char", "class",
    "const", "continue", "default", "do", "double", "else", "enum", "extends", "final",
    "finally", "float", "for", "goto", "if", "implements", "import", "instanceof", "int",
    "interface", "long", "native", "new", "package", "private", "protected", "public", "return",
    "short", "static", "strictfp", "super", "switch", "synchronized", "this",
    "throw", "throws", "transient", "try", "void", "volatile", "while", "true", "false", "null" }

  /** Every keyword lies in one of six alphabetical groups, small enough to search one by one. */
  lemma KeywordsGrouped()
    ensures Keywords <= KeywordsA + KeywordsB + KeywordsC + KeywordsD + KeywordsE + KeywordsF
  {
  }

  const KeywordsA: set<string> := {
    "abstract", "assert", "boolean", "break", "byte", "case", "catch", "char", "class" }
  const KeywordsB: set<string> := {
    "const", "continue", "default", "do", "double", "else", "enum", "extends", "final" }
  const KeywordsC: set<string> := {
    "finally", "float", "for", "goto", "if", "implements", "import", "instanceof", "int" }
  const KeywordsD: set<string> := {
    "interface", "long", "native", "new", "package", "private", "protected", "public", "return" }
  const KeywordsE: set<string> := {
    "short", "static", "strictfp", "super", "switch", "synchronized", "this" }
  const KeywordsF: set<string> := {
    "throw", "throws", "transient", "try", "void", "volatile", "while", "true", "false", "null" }

  /** `SourceVersion.isKeyword`. */
  predicate IsKeyword(s: string) { s in Keywords }

  /** `SourceVersion.isIdentifier`: a non-empty identifier start followed by identifier parts. */
  predicate IsIdentifier(s: string)
  {
    |s| > 0 && IsJavaIdentifierStart(s[0]) && forall i :: 1 <= i < |s| ==> IsJavaIdentifierPart(s[i])
  }

  /** `SourceVersion.isName`: dot-separated identifiers, none of them a keyword. */
  predicate IsName(s: string)
  {
    var ids := Split(s, '.');
    forall i :: 0 <= i < |ids| ==> IsIdentifier(ids[i]) && !IsKeyword(ids[i])
  }

  /** The declaration modifiers, in the declaration order of `javax.lang.model.element.Modifier`. */
  datatype Modifier =
    | PUBLIC | PROTECTED | PRIVATE | ABSTRACT | DEFAULT | STATIC | FINAL | TRANSIENT
    | VOLATILE | SYNCHRONIZED | NATIVE | STRICTFP
  {
    /** `Modifier.toString()`: the keyword as written in source. */
    function Keyword(): string
    {
      match this
      case PUBLIC => "public"
      case PROTECTED => "protected"
      case PRIVATE => "private"
      case ABSTRACT => "abstract"
      case DEFAULT => "default"
      case STATIC => "static"
      case FINAL => "final"
      case TRANSIENT => "transient"
      case VOLATILE => "volatile"
      case SYNCHRONIZED => "synchronized"
      case NATIVE => "native"
      case STRICTFP => "strictfp"
    }
  }

  /** Every modifier once, in the iteration order of an `EnumSet<Modifier>`. */
  const AllModifiers: seq<Modifier> := [
    PUBLIC, PROTECTED, PRIVATE, ABSTRACT, DEFAULT, STATIC, FINAL, TRANSIENT,
    VOLATILE, SYNCHRONIZED, NATIVE, STRICTFP
  ]

  /** Every modifier is listed in `AllModifiers`. */
  lemma AllModifiersComplete(m: Modifier)
    ensures m in AllModifiers
  {
    match m
    case PUBLIC => assert AllModifiers[0] == m;
    case PROTECTED => assert AllModifiers[1] == m;
    case PRIVATE => assert AllModifiers[2] == m;
    case ABSTRACT => assert AllModifiers[3] == m;
    case DEFAULT => assert AllModifiers[4] == m;
    case STATIC => assert AllModifiers[5] == m;
    case FINAL => assert AllModifiers[6] == m;
    case TRANSIENT => assert AllModifiers[7] == m;
    case VOLATILE => assert AllModifiers[8] == m;
    case SYNCHRONIZED => assert AllModifiers[9] == m;
    case NATIVE => assert AllModifiers[10] == m;
    case STRICTFP => assert AllModifiers[11] == m;
  }

  /** The modifiers of `modifiers` among `AllModifiers[i..]`, in declaration order. */
  function ListedFrom(modifiers: set<Modifier>, i: nat): (r: seq<Modifier>)
    requires i <= |AllModifiers|
    ensures forall m :: m in r <==> m in modifiers && m in AllModifiers[i..]
    decreases |AllModifiers| - i
  {
    if i == |AllModifiers| then []
    else
      var rest := ListedFrom(modifiers, i + 1);
      assert AllModifiers[i..] == [AllModifiers[i]] + AllModifiers[i + 1..];
      if AllModifiers[i] in modifiers then [AllModifiers[i]] + rest else rest
  }

  /** A set of modifiers as a list, as `addAll` copies it into a builder. */
  function Listed(modifiers: set<Modifier>): (r: seq<Modifier>)
    ensures forall m :: m in r <==> m in modifiers
  {
    var r := ListedFrom(modifiers, 0);
    assert AllModifiers[0..] == AllModifiers;
    forall m | m in modifiers
      ensures m in r
    {
      AllModifiersComplete(m);
    }
    r
  }

  /** `a$b`: `$` is a legal identifier character, so this is a name. */
  lemma DollarIdentifierIsName()
    ensures IsName("a$b")
  {
    SplitWithoutSeparator("a$b", '.');
    assert IsIdentifier("a$b");
    DollarNotKeyword();
  }

  lemma DollarNotKeyword()
    ensures !IsKeyword("a$b")
  {
    KeywordsGrouped();
    NotInGroupsA();
    NotInGroupsD();
  }

  lemma NotInGroupsA()
    ensures "a$b" !in KeywordsA && "a$b" !in KeywordsB && "a$b" !in KeywordsC
  {
  }

  lemma NotInGroupsD()
    ensures "a$b" !in KeywordsD && "a$b" !in KeywordsE && "a$b" !in KeywordsF
  {
  }

  /** Listing a set of modifiers and collecting the list again gives the set back. */
  lemma ListedSet(modifiers: set<Modifier>)
    ensures (set m | m in Listed(modifiers)) == modifiers
  {
  }
}
