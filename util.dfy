/**
 * `Util`: argument and state checks, the modifier exclusivity check, the character and string
 * literal escapes of section 3.10.6 of the Java Language Specification (SE 7), and the copy of
 * annotation member maps.
 *
 * Each escape comes with an independent decoder (how a Java compiler reads the literal back),
 * and the round trips are proved.
 */
module Util {
  import opened Wrappers
  import opened Jdk
  import opened Strings

  // ---------------------------------------------------------------------------------------
  // Checks

  /** `checkArgument`: throws `IllegalArgumentException` exactly when the condition is false. */
  function CheckArgument(condition: bool): (r: Outcome)
    ensures r.Pass? <==> condition
    ensures r.Fail? ==> r.error == IllegalArgument
  {
    if condition then Pass else Fail(IllegalArgument)
  }

  /** `checkState`: throws `IllegalStateException` exactly when the condition is false. */
  function CheckState(condition: bool): (r: Outcome)
    ensures r.Pass? <==> condition
    ensures r.Fail? ==> r.error == IllegalState
  {
    if condition then Pass else Fail(IllegalState)
  }

  /** How many entries of the vararg list `exclusive` are present in `modifiers`. */
  function CountPresent(modifiers: set<Modifier>, exclusive: seq<Modifier>): nat
  {
    if exclusive == [] then 0
    else (if exclusive[0] in modifiers then 1 else 0) + CountPresent(modifiers, exclusive[1..])
  }

  /** Exactly one position of `exclusive` names a modifier that `modifiers` holds. */
  predicate ExactlyOneListed(modifiers: set<Modifier>, exclusive: seq<Modifier>)
  {
    exists i :: 0 <= i < |exclusive| && exclusive[i] in modifiers &&
      forall j :: 0 <= j < |exclusive| && exclusive[j] in modifiers ==> j == i
  }

  /** `requireExactlyOneOf`: an `IllegalArgumentException` unless the count is exactly one. */
  function RequireExactlyOneOf(modifiers: set<Modifier>, exclusive: seq<Modifier>): (r: Outcome)
    ensures r.Fail? ==> r.error == IllegalArgument
    ensures r.Pass? ==> exists m :: m in exclusive && m in modifiers
  {
    if CountPresent(modifiers, exclusive) == 1 then
      CountPositive(modifiers, exclusive);
      Pass
    else Fail(IllegalArgument)
  }

  lemma {:induction false} CountPositive(modifiers: set<Modifier>, exclusive: seq<Modifier>)
    requires CountPresent(modifiers, exclusive) > 0
    ensures exists m :: m in exclusive && m in modifiers
  {
    if exclusive[0] !in modifiers {
      CountPositive(modifiers, exclusive[1..]);
      var m :| m in exclusive[1..] && m in modifiers;
      assert m in exclusive;
    }
  }

  lemma {:induction false} CountZero(modifiers: set<Modifier>, exclusive: seq<Modifier>)
    ensures CountPresent(modifiers, exclusive) == 0 <==>
      forall j :: 0 <= j < |exclusive| ==> exclusive[j] !in modifiers
  {
    if exclusive != [] {
      CountZero(modifiers, exclusive[1..]);
      if exclusive[0] !in modifiers {
        forall j | 0 <= j < |exclusive[1..]| ensures exclusive[1..][j] == exclusive[j + 1] { }
      }
    }
  }

  /** The check passes exactly when one listed position names a held modifier. */
  lemma RequireExactlyOneOfPasses(modifiers: set<Modifier>, exclusive: seq<Modifier>)
    ensures RequireExactlyOneOf(modifiers, exclusive).Pass? <==> ExactlyOneListed(modifiers, exclusive)
  {
    CountOne(modifiers, exclusive);
  }

  /** A count of one means exactly one listed position is held. */
  lemma {:induction false} CountOne(modifiers: set<Modifier>, exclusive: seq<Modifier>)
    ensures CountPresent(modifiers, exclusive) == 1 <==> ExactlyOneListed(modifiers, exclusive)
  {
    if exclusive != [] {
      if exclusive[0] in modifiers {
        CountOneHeld(modifiers, exclusive);
      } else {
        CountOne(modifiers, exclusive[1..]);
        CountOneNotHeld(modifiers, exclusive);
      }
    }
  }

  /** `CountOne` when the first position is held: the rest must hold none. */
  lemma CountOneHeld(modifiers: set<Modifier>, exclusive: seq<Modifier>)
    requires exclusive != [] && exclusive[0] in modifiers
    ensures CountPresent(modifiers, exclusive) == 1 <==> ExactlyOneListed(modifiers, exclusive)
  {
    var rest := exclusive[1..];
    CountZero(modifiers, rest);
    if CountPresent(modifiers, exclusive) == 1 {
      assert forall j :: 0 <= j < |exclusive| && exclusive[j] in modifiers ==> j == 0;
    } else {
      var k :| 0 <= k < |rest| && rest[k] in modifiers;
      assert exclusive[k + 1] in modifiers;
    }
  }

  /** `CountOne` when the first position is not held, from `CountOne` of the rest. */
  lemma CountOneNotHeld(modifiers: set<Modifier>, exclusive: seq<Modifier>)
    requires exclusive != [] && exclusive[0] !in modifiers
    requires CountPresent(modifiers, exclusive[1..]) == 1 <==> ExactlyOneListed(modifiers, exclusive[1..])
    ensures CountPresent(modifiers, exclusive) == 1 <==> ExactlyOneListed(modifiers, exclusive)
  {
    var rest := exclusive[1..];
    if ExactlyOneListed(modifiers, exclusive) {
      var i :| 0 <= i < |exclusive| && exclusive[i] in modifiers &&
        forall j :: 0 <= j < |exclusive| && exclusive[j] in modifiers ==> j == i;
      assert i > 0;
      forall j | 0 <= j < |rest| && rest[j] in modifiers ensures j == i - 1 {
        assert exclusive[j + 1] == rest[j];
      }
      assert rest[i - 1] == exclusive[i];
    }
    if ExactlyOneListed(modifiers, rest) {
      var i :| 0 <= i < |rest| && rest[i] in modifiers &&
        forall j :: 0 <= j < |rest| && rest[j] in modifiers ==> j == i;
      forall j | 0 <= j < |exclusive| && exclusive[j] in modifiers ensures j == i + 1 {
        if j > 0 { assert rest[j - 1] == exclusive[j]; }
      }
      assert exclusive[i + 1] == rest[i];
    }
  }

  // ---------------------------------------------------------------------------------------
  // Hexadecimal digits of `\u` escapes

  function HexDigit(d: nat): (c: char)
    requires d < 16
  {
    if d < 10 then (('0' as int) + d) as char else (('a' as int) + d - 10) as char
  }

  /** `String.format("%04x", n)` for a value below 0x10000. */
  function Hex4(n: nat): (s: string)
    requires n < 0x1_0000
    ensures |s| == 4
  {
    [HexDigit(n / 16 / 16 / 16), HexDigit(n / 16 / 16 % 16), HexDigit(n / 16 % 16), HexDigit(n % 16)]
  }

  /** A hexadecimal digit of a Java unicode escape, in either case. */
  function ParseHexDigit(c: char): (r: Option<nat>)
    ensures r.Some? ==> r.value < 16
  {
    if '0' <= c <= '9' then Some(c as int - '0' as int)
    else if 'a' <= c <= 'f' then Some(c as int - 'a' as int + 10)
    else if 'A' <= c <= 'F' then Some(c as int - 'A' as int + 10)
    else None
  }

  function ParseHex4(s: string): (r: Option<nat>)
    requires |s| == 4
    ensures r.Some? ==> r.value < 0x1_0000
  {
    match (ParseHexDigit(s[0]), ParseHexDigit(s[1]), ParseHexDigit(s[2]), ParseHexDigit(s[3]))
    case (Some(a), Some(b), Some(c), Some(d)) => Some(a * 4096 + b * 256 + c * 16 + d)
    case _ => None
  }

  lemma HexDigitParses(d: nat)
    requires d < 16
    ensures ParseHexDigit(HexDigit(d)) == Some(d)
  {
  }

  lemma Hex4Parses(n: nat)
    requires n < 0x1_0000
    ensures ParseHex4(Hex4(n)) == Some(n)
  {
    var q1 := n / 16;
    var q2 := q1 / 16;
    var q3 := q2 / 16;
    assert n == 16 * q1 + n % 16;
    assert q1 == 16 * q2 + q1 % 16;
    assert q2 == 16 * q3 + q2 % 16;
    HexDigitParses(q3);
    HexDigitParses(q2 % 16);
    HexDigitParses(q1 % 16);
    HexDigitParses(n % 16);
  }

  // ---------------------------------------------------------------------------------------
  // Character literals

  const Backspace: char := '\U{0008}'
  const FormFeed: char := '\U{000C}'

  /**
   * `characterLiteralWithoutSingleQuotes`: the text between the quotes of a Java character
   * literal for `c`. The five named control characters, the single quote and the backslash
   * get backslash escapes, other ISO control characters a `\u` escape with four lower-case hex
   * digits, and every other character (the double quote included) stands for itself.
   */
  function CharacterLiteralWithoutSingleQuotes(c: char): (s: string)
    ensures |s| >= 1
    ensures s == [c] <==> !IsISOControl(c) && c != '\'' && c != '\\'
    ensures s[0] == '\\' <==> s != [c]
  {
    if c == Backspace then "\\b"
    else if c == '\t' then "\\t"
    else if c == '\n' then "\\n"
    else if c == FormFeed then "\\f"
    else if c == '\r' then "\\r"
    else if c == '"' then "\""
    else if c == '\'' then "\\'"
    else if c == '\\' then "\\\\"
    else if IsISOControl(c) then "\\u" + Hex4(c as int)
    else [c]
  }

  /**
   * Reads one character of a Java character literal (`inString` false) or string literal
   * (`inString` true) at the start of `t`, as section 3.10.6 of the Java Language
   * Specification does: an escape sequence, or any character other than a line terminator,
   * a backslash and the enclosing quote. Returns the character and the length consumed.
   */
  function DecodeChar(t: string, inString: bool): (r: Option<(char, nat)>)
    ensures r.Some? ==> 1 <= r.value.1 <= |t|
  {
    if |t| == 0 then None
    else if t[0] == '\\' then
      if |t| < 2 then None
      else if t[1] == 'b' then Some((Backspace, 2))
      else if t[1] == 't' then Some(('\t', 2))
      else if t[1] == 'n' then Some(('\n', 2))
      else if t[1] == 'f' then Some((FormFeed, 2))
      else if t[1] == 'r' then Some(('\r', 2))
      else if t[1] == '"' then Some(('"', 2))
      else if t[1] == '\'' then Some(('\'', 2))
      else if t[1] == '\\' then Some(('\\', 2))
      else if t[1] == 'u' && |t| >= 6 then
        match ParseHex4(t[2..6])
        case None => None
        case Some(n) => if 0xD800 <= n < 0xE000 then None else Some((n as char, 6))
      else None
    else if t[0] == '\n' || t[0] == '\r' then None
    else if inString && t[0] == '"' then None
    else if !inString && t[0] == '\'' then None
    else Some((t[0], 1))
  }

  /** The character a complete character literal body denotes, if it is well formed. */
  function DecodeCharacterLiteral(s: string): Option<char>
  {
    match DecodeChar(s, false)
    case Some((c, k)) => if k == |s| then Some(c) else None
    case None => None
  }

  /**
   * The escape of `c` is read back as `c` whatever follows it, in a character literal and,
   * except for the unescaped double quote, in a string literal.
   */
  lemma CharacterLiteralDecodes(c: char, rest: string)
    ensures var e := CharacterLiteralWithoutSingleQuotes(c);
      DecodeChar(e + rest, false) == Some((c, |e|)) &&
      (c != '"' ==> DecodeChar(e + rest, true) == Some((c, |e|)))
  {
    var e := CharacterLiteralWithoutSingleQuotes(c);
    if IsISOControl(c) && c !in [Backspace, '\t', '\n', FormFeed, '\r'] {
      Hex4Parses(c as int);
      assert (e + rest)[2..6] == Hex4(c as int);
    }
  }

  /** `characterLiteralWithoutSingleQuotes` is read back as the character it was given. */
  lemma CharacterLiteralRoundTrip(c: char)
    ensures DecodeCharacterLiteral(CharacterLiteralWithoutSingleQuotes(c)) == Some(c)
  {
    var e := CharacterLiteralWithoutSingleQuotes(c);
    CharacterLiteralDecodes(c, []);
    assert e + [] == e;
  }

  // ---------------------------------------------------------------------------------------
  // String literals

  /** What `stringLiteralWithDoubleQuotes` writes for one character, before any continuation. */
  function StringEscape(c: char): (s: string)
    ensures |s| >= 1
  {
    if c == '\'' then "'"
    else if c == '"' then "\\\""
    else CharacterLiteralWithoutSingleQuotes(c)
  }

  /** Ends the current literal after an embedded newline and opens the next one: `" + "`. */
  function Continuation(indent: string): (s: string)
    ensures |s| > 0 && s[0] == '"'
  {
    "\"\n" + indent + indent + "+ \""
  }

  /** The text written for `value[i]`: its escape, then a continuation after a newline that is not last. */
  function Piece(value: string, i: nat, indent: string): string
    requires i < |value|
  {
    StringEscape(value[i]) + (if value[i] == '\n' && i + 1 < |value| then Continuation(indent) else [])
  }

  /** The literal's text for `value[i..]`, between the quotes. */
  function BodyFrom(value: string, i: nat, indent: string): string
    decreases |value| - i
  {
    if i >= |value| then [] else Piece(value, i, indent) + BodyFrom(value, i + 1, indent)
  }

  /** The complete literal that `stringLiteralWithDoubleQuotes` returns. */
  function StringLiteral(value: string, indent: string): (r: string)
    ensures |r| >= 2 && r[0] == '"' && r[|r| - 1] == '"'
  {
    "\"" + BodyFrom(value, 0, indent) + "\""
  }

  /**
   * `stringLiteralWithDoubleQuotes`: `value` as a Java string literal; a newline that is not
   * the last character closes the literal and continues it on the next line, indented twice,
   * after `+ `.
   */
  method StringLiteralWithDoubleQuotes(value: string, indent: string) returns (r: string)
    ensures r == StringLiteral(value, indent)
  {
    r := "\"";
    var i := 0;
    ghost var body := BodyFrom(value, 0, indent);
    while i < |value|
      invariant 0 <= i <= |value|
      invariant r + BodyFrom(value, i, indent) == "\"" + body
    {
      var c := value[i];
      ghost var before := r;
      ghost var piece, later := Piece(value, i, indent), BodyFrom(value, i + 1, indent);
      assert BodyFrom(value, i, indent) == piece + later;
      if c == '\'' {
        r := r + "'";
        assert piece == "'";
      } else if c == '"' {
        r := r + "\\\"";
        assert piece == "\\\"";
      } else {
        r := r + CharacterLiteralWithoutSingleQuotes(c);
        if c == '\n' && i + 1 < |value| {
          r := r + Continuation(indent);
          assert piece == StringEscape(c) + Continuation(indent);
          AppendAssociative(before, StringEscape(c), Continuation(indent));
        } else {
          assert piece == StringEscape(c);
        }
      }
      assert r == before + piece;
      AppendAssociative(before, piece, later);
      i := i + 1;
    }
    assert BodyFrom(value, i, indent) == [];
    r := r + "\"";
  }

  /**
   * Reads the text between the outer quotes of a string literal written with continuations
   * for `indent`: characters as `DecodeChar` reads them, where an escaped newline may be
   * followed by a continuation, which denotes nothing.
   */
  function DecodeBody(t: string, indent: string): Option<string>
    decreases |t|
  {
    if t == [] then Some([])
    else match DecodeChar(t, true)
      case None => None
      case Some((c, k)) =>
        var rest := t[k..];
        var next := if c == '\n' && StartsWith(rest, Continuation(indent))
          then rest[|Continuation(indent)|..] else rest;
        match DecodeBody(next, indent)
        case None => None
        case Some(s) => Some([c] + s)
  }

  /** Reads a whole string literal, quotes included. */
  function DecodeStringLiteral(s: string, indent: string): Option<string>
  {
    if |s| >= 2 && s[0] == '"' && s[|s| - 1] == '"' then DecodeBody(s[1..|s| - 1], indent) else None
  }

  lemma StringEscapeDecodes(c: char, rest: string)
    ensures DecodeChar(StringEscape(c) + rest, true) == Some((c, |StringEscape(c)|))
  {
    if c != '\'' && c != '"' {
      CharacterLiteralDecodes(c, rest);
    }
  }

  /** One escaped character, with or without its continuation, is read back before the rest. */
  lemma DecodeAfterEscape(c: char, cont: string, tail: string, indent: string)
    requires cont == [] || (c == '\n' && cont == Continuation(indent))
    requires c == '\n' && cont == [] ==> tail == []
    ensures DecodeBody(StringEscape(c) + (cont + tail), indent) ==
      match DecodeBody(tail, indent)
      case None => None
      case Some(s) => Some([c] + s)
  {
    var e := StringEscape(c);
    var t := e + (cont + tail);
    StringEscapeDecodes(c, cont + tail);
    assert t != [] && t[|e|..] == cont + tail;
    if cont != [] {
      assert StartsWith(cont + tail, Continuation(indent));
      assert (cont + tail)[|Continuation(indent)|..] == tail;
    } else if c == '\n' {
      assert cont + tail == [];
      assert !StartsWith(cont + tail, Continuation(indent));
    } else {
      assert cont + tail == tail;
    }
  }

  lemma {:induction false} BodyFromDecodes(value: string, i: nat, indent: string)
    requires i <= |value|
    ensures DecodeBody(BodyFrom(value, i, indent), indent) == Some(value[i..])
    decreases |value| - i
  {
    if i < |value| {
      var c := value[i];
      var tail := BodyFrom(value, i + 1, indent);
      var cont := if c == '\n' && i + 1 < |value| then Continuation(indent) else [];
      assert BodyFrom(value, i, indent) == Piece(value, i, indent) + tail;
      assert Piece(value, i, indent) == StringEscape(c) + cont;
      AppendAssociative(StringEscape(c), cont, tail);
      BodyFromDecodes(value, i + 1, indent);
      DecodeAfterEscape(c, cont, tail, indent);
      SliceCons(value, i);
    } else {
      assert value[i..] == [];
    }
  }

  /** The literal `stringLiteralWithDoubleQuotes` writes is read back as the original string. */
  lemma StringLiteralRoundTrip(value: string, indent: string)
    ensures DecodeStringLiteral(StringLiteral(value, indent), indent) == Some(value)
  {
    var s := StringLiteral(value, indent);
    assert s[1..|s| - 1] == BodyFrom(value, 0, indent);
    BodyFromDecodes(value, 0, indent);
    assert value[0..] == value;
  }

  /** A string without newlines becomes a single-line literal with no continuation. */
  lemma {:induction false} BodyFromSingleLine(value: string, i: nat, indent: string)
    requires '\n' !in value
    ensures '\n' !in BodyFrom(value, i, indent)
    decreases |value| - i
  {
    if i < |value| {
      BodyFromSingleLine(value, i + 1, indent);
      assert value[i] in value;
      EscapeSingleLine(value[i]);
    }
  }

  /** No escape of a character other than a newline contains a newline. */
  lemma EscapeSingleLine(c: char)
    requires c != '\n'
    ensures '\n' !in StringEscape(c)
  {
    if IsISOControl(c) && c != Backspace && c != '\t' && c != FormFeed && c != '\r' {
      var h := Hex4(c as int);
      assert StringEscape(c) == "\\u" + h;
      assert forall k :: 0 <= k < 4 ==> h[k] != '\n';
    }
  }

  // ---------------------------------------------------------------------------------------
  // Member maps

  /**
   * `immutableMultimap` as written: it keeps the entries whose list is EMPTY, so every
   * member that has a value is dropped. A linked map is a sequence of entries with distinct
   * keys, in insertion order.
   */
  function ImmutableMultimapAsWritten<K, V>(multimap: seq<(K, seq<V>)>): (r: seq<(K, seq<V>)>)
    ensures forall i :: 0 <= i < |r| ==> r[i] in multimap && r[i].1 == []
    ensures forall i :: 0 <= i < |multimap| && multimap[i].1 == [] ==> multimap[i] in r
  {
    if multimap == [] then []
    else
      var rest := ImmutableMultimapAsWritten(multimap[1..]);
      if multimap[0].1 == [] then [multimap[0]] + rest else rest
  }

  /** A member with a value does not survive the copy as written. */
  lemma ImmutableMultimapAsWrittenDropsValues<K, V>(key: K, value: V)
    ensures ImmutableMultimapAsWritten([(key, [value])]) == []
  {
    var m := [(key, [value])];
    assert m[1..] == [];
  }

  /** The intended copy: entries with an empty list are skipped and all others kept, in order. */
  function ImmutableMultimap<K, V>(multimap: seq<(K, seq<V>)>): (r: seq<(K, seq<V>)>)
    ensures forall i :: 0 <= i < |r| ==> r[i] in multimap && r[i].1 != []
    ensures forall i :: 0 <= i < |multimap| && multimap[i].1 != [] ==> multimap[i] in r
    ensures |r| <= |multimap|
  {
    if multimap == [] then []
    else
      var rest := ImmutableMultimap(multimap[1..]);
      if multimap[0].1 != [] then [multimap[0]] + rest else rest
  }

  /** When no entry has an empty list, the copy as written is empty. */
  lemma {:induction false} ImmutableMultimapAsWrittenDropsAll<K, V>(multimap: seq<(K, seq<V>)>)
    requires forall i :: 0 <= i < |multimap| ==> multimap[i].1 != []
    ensures ImmutableMultimapAsWritten(multimap) == []
  {
    if multimap != [] {
      ImmutableMultimapAsWrittenDropsAll(multimap[1..]);
    }
  }

  /** When no entry has an empty list, the intended copy is the map itself. */
  lemma {:induction false} ImmutableMultimapKeepsAll<K, V>(multimap: seq<(K, seq<V>)>)
    requires forall i :: 0 <= i < |multimap| ==> multimap[i].1 != []
    ensures ImmutableMultimap(multimap) == multimap
  {
    if multimap != [] {
      ImmutableMultimapKeepsAll(multimap[1..]);
      assert [multimap[0]] + multimap[1..] == multimap;
    }
  }
}
