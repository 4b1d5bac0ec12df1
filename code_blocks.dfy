/**
 * `CodeBlock.Builder`: the scanner that splits a format string into literal chunks and
 * two-character `$` tokens, checks the placeholders against the arguments, and coerces each
 * consumed argument according to its placeholder.
 *
 * The scan is specified step by step (`StepAt`, `AddFrom`), and the builder's methods are
 * proved to leave exactly the parts and arguments the specification computes, including on
 * failure: a failing `add` keeps whatever it appended before the failing check.
 */
module CodeBlocks {
  import opened Wrappers
  import opened Strings
  import opened Jdk
  import opened Specs

  /** `$$ $> $< $[ $] $W`: the tokens that take no argument. */
  predicate IsNoArgPlaceholder(c: char)
  {
    c == '$' || c == '>' || c == '<' || c == '[' || c == ']' || c == 'W'
  }

  /** `$L $N $S $T`: the tokens that consume one argument. */
  predicate IsArgPlaceholder(c: char)
  {
    c == 'L' || c == 'N' || c == 'S' || c == 'T'
  }

  /** A regular-expression word character, `\w`. */
  predicate IsWordChar(c: char)
  {
    IsLowerCase(c) || IsUpperCase(c) || IsDigit(c) || c == '_'
  }

  /** A key accepted by `addNamed`: the whole key matches `[a-z]+[\w_]*`. */
  predicate IsArgumentName(key: string)
  {
    |key| > 0 && IsLowerCase(key[0]) && forall k :: 1 <= k < |key| ==> IsWordChar(key[k])
  }

  /** `Integer.MAX_VALUE`, the largest index `Integer.parseInt` accepts. */
  const MaxInt: int := 0x7fff_ffff

  /** The value substituted for a null named argument. */
  const NullNamedArgument: string := "Expecting argument, found null."

  // ---------------------------------------------------------------------------------------
  // Argument coercion
  // ---------------------------------------------------------------------------------------

  /** `argToName`: a character sequence, or the name of a parameter, field, method or type. */
  function ArgToName(o: Arg): (r: Result<Arg>)
    ensures r.Ok? <==> o.Chars? || o.Rendered? || o.ParamArg? || o.FieldArg? || o.MethodArg? || o.TypeSpecArg?
    ensures r.Ok? && !o.TypeSpecArg? ==> r.value.Chars? || r.value.Rendered?
    ensures o.TypeSpecArg? ==> r == Ok(if o.typeSpec.name.Some? then Chars(o.typeSpec.name.value) else Null)
  {
    match o
    case Chars(s) => Ok(Chars(s))
    case Rendered(_) => Ok(o)
    case ParamArg(p) => Ok(Chars(p.name))
    case FieldArg(f) => Ok(Chars(f.name))
    case MethodArg(m) => Ok(Chars(m.name))
    case TypeSpecArg(t) => Ok(if t.name.Some? then Chars(t.name.value) else Null)
    case _ => Err(IllegalArgument)
  }

  /** `argToString`: null stays null, anything else becomes its `toString()`. */
  function ArgToString(o: Arg): (r: Arg)
    ensures r.Null? <==> o.Null?
    ensures !r.Null? ==> r.Chars? || r.Rendered?
  {
    match o
    case Null => Null
    case Chars(s) => Chars(s)
    case Other(text) => Chars(text)
    case Rendered(_) => o
    case _ => Rendered(o)
  }

  /** `argToType`: only a type name is accepted (the reflective conversions are not modelled). */
  function ArgToType(o: Arg): (r: Result<Arg>)
    ensures r.Ok? <==> o.TypeArg?
    ensures r.Ok? ==> r.value == o
  {
    if o.TypeArg? then Ok(o) else Err(IllegalArgument)
  }

  /** `addArgument`: the coercion that the placeholder character selects. */
  function AddArgument(c: char, arg: Arg): (r: Result<Arg>)
    ensures !IsArgPlaceholder(c) ==> r == Err(IllegalArgument)
    ensures c == 'L' ==> r == Ok(arg)
    ensures c == 'S' ==> r == Ok(ArgToString(arg))
    ensures r.Ok? ==> IsArgPlaceholder(c)
  {
    if c == 'N' then ArgToName(arg)
    else if c == 'L' then Ok(arg)
    else if c == 'S' then Ok(ArgToString(arg))
    else if c == 'T' then ArgToType(arg)
    else Err(IllegalArgument)
  }

  // ---------------------------------------------------------------------------------------
  // Shape of the parts
  // ---------------------------------------------------------------------------------------

  /** A part that consumes an argument when emitted. */
  predicate IsArgToken(part: string)
  {
    |part| == 2 && part[0] == '$' && IsArgPlaceholder(part[1])
  }

  /** A literal chunk: non-empty text without `$`. */
  predicate IsLiteral(part: string)
  {
    |part| > 0 && '$' !in part
  }

  /** Every part is a literal chunk or exactly a two-character `$` token. */
  predicate WellFormedPart(part: string)
  {
    IsLiteral(part)
    || (|part| == 2 && part[0] == '$' && (IsNoArgPlaceholder(part[1]) || IsArgPlaceholder(part[1])))
  }

  /** The number of argument-consuming tokens. */
  function ArgTokens(parts: seq<string>): nat
  {
    if |parts| == 0 then 0 else (if IsArgToken(parts[0]) then 1 else 0) + ArgTokens(parts[1..])
  }

  /** The invariant of every builder: well-formed parts, one argument per consuming token. */
  predicate Valid(parts: seq<string>, args: seq<Arg>)
  {
    ArgTokens(parts) == |args| && forall i :: 0 <= i < |parts| ==> WellFormedPart(parts[i])
  }

  lemma {:induction false} ArgTokensAppend(a: seq<string>, b: seq<string>)
    ensures ArgTokens(a + b) == ArgTokens(a) + ArgTokens(b)
    decreases |a|
  {
    if |a| > 0 {
      assert (a + b)[1..] == a[1..] + b;
      ArgTokensAppend(a[1..], b);
    } else {
      assert a + b == b;
    }
  }

  /** Appending parts and arguments that are valid together keeps a builder valid. */
  lemma ValidAppend(parts: seq<string>, args: seq<Arg>, more: seq<string>, moreArgs: seq<Arg>)
    requires Valid(parts, args) && Valid(more, moreArgs)
    ensures Valid(parts + more, args + moreArgs)
  {
    ArgTokensAppend(parts, more);
  }

  lemma ArgTokensOne(part: string)
    ensures ArgTokens([part]) == if IsArgToken(part) then 1 else 0
  {
    assert [part][1..] == [];
  }

  /** The concatenation of the parts: the text a format made of them spells. */
  function Concat(parts: seq<string>): string
  {
    if |parts| == 0 then [] else parts[0] + Concat(parts[1..])
  }

  /**
   * Parts that a single `add` can produce from their concatenation: well-formed, and no two
   * literal chunks side by side (the scanner would have read them as one).
   */
  predicate Canonical(parts: seq<string>)
  {
    (forall i :: 0 <= i < |parts| ==> WellFormedPart(parts[i]))
    && forall i :: 0 <= i < |parts| - 1 ==> !(IsLiteral(parts[i]) && IsLiteral(parts[i + 1]))
  }

  // ---------------------------------------------------------------------------------------
  // Specification of `add(format, args)`
  // ---------------------------------------------------------------------------------------

  /** The state of one `add`: the builder's lists and the scanner's bookkeeping. */
  datatype Scan = Scan(
    parts: seq<string>,
    args: seq<Arg>,
    hasRelative: bool,
    hasIndexed: bool,
    relativeCount: nat,
    indexedCount: seq<nat>)

  /** What a builder call leaves: the builder's lists and whether it threw. */
  datatype Added = Added(parts: seq<string>, args: seq<Arg>, outcome: Outcome)

  /** One turn of the scanning loop: go on at `p` with `scan`, or stop with a result. */
  datatype Step = Next(p: nat, scan: Scan) | Stop(added: Added)

  /** The first position at or after `i` that does not hold a digit. */
  function DigitsEnd(format: string, i: nat): (e: nat)
    requires i <= |format|
    ensures i <= e <= |format|
    ensures forall k :: i <= k < e ==> IsDigit(format[k])
    ensures e < |format| ==> !IsDigit(format[e])
    decreases |format| - i
  {
    if i == |format| || !IsDigit(format[i]) then i else DigitsEnd(format, i + 1)
  }

  /** The decimal value of a string of digits, as `Integer.parseInt` reads it before overflow. */
  function ParseDigits(digits: string): nat
    decreases |digits|
  {
    if |digits| == 0 then 0
    else ParseDigits(digits[..|digits| - 1]) * 10 + (digits[|digits| - 1] as int - '0' as int) % 10
  }

  /** Kotlin's `%`, whose result takes the sign of the dividend. */
  function Rem(a: int, b: int): (r: int)
    requires b > 0
    ensures a >= 0 ==> r == a % b
    ensures -b < r < b
    ensures a == -1 ==> r == (if b == 1 then 0 else -1)
  {
    if a >= 0 then a % b else -((-a) % b)
  }

  function Fail1(s: Scan, error: Error): Step
  {
    Stop(Added(s.parts, s.args, Fail(error)))
  }

  /** The checks after a placeholder's index is known, then the coerced argument is appended. */
  function Consume(inputs: seq<Arg>, e: nat, c: char, index: int, s: Scan): (r: Step)
    ensures r.Next? ==> r.p == e + 1 && r.scan.indexedCount == s.indexedCount
  {
    if !(0 <= index < |inputs|) then Fail1(s, IllegalArgument)
    else if s.hasIndexed && s.hasRelative then Fail1(s, IllegalArgument)
    else match AddArgument(c, inputs[index])
      case Err(error) => Fail1(s, error)
      case Ok(a) => Next(e + 1, s.(parts := s.parts + ["$" + [c]], args := s.args + [a]))
  }

  /** Where a literal chunk starting at `p` ends: at the next `$`, or at the end. */
  function LiteralEnd(format: string, p: nat): (next: nat)
    requires p < |format|
    ensures p < next <= |format|
    ensures forall k :: p < k < next ==> format[k] != '$'
    ensures next < |format| ==> format[next] == '$'
  {
    var q := IndexOf(format, '$', p + 1);
    if q == -1 then |format| else q
  }

  /** An indexed placeholder `$nX`: the index is checked and counted, then `Consume` runs. */
  function IndexedStep(inputs: seq<Arg>, e: nat, c: char, n: nat, s: Scan): (r: Step)
    requires |s.indexedCount| == |inputs|
    ensures r.Next? ==> r.p == e + 1 && |r.scan.indexedCount| == |inputs|
  {
    if n > MaxInt then Fail1(s, IllegalArgument)
    else
      var index := n - 1;
      if |inputs| == 0 then Consume(inputs, e, c, index, s.(hasIndexed := true))
      else
        var slot := Rem(index, |inputs|);
        if slot < 0 then Fail1(s.(hasIndexed := true), IndexOutOfBounds)
        else
          var counts := s.indexedCount[slot := s.indexedCount[slot] + 1];
          Consume(inputs, e, c, index, s.(hasIndexed := true, indexedCount := counts))
  }

  /** The placeholder whose `$` is at `p` and whose first non-digit is at `e`. */
  function PlaceholderStep(format: string, inputs: seq<Arg>, p: nat, e: nat, s: Scan): (r: Step)
    requires p < e <= |format| && |s.indexedCount| == |inputs|
    ensures r.Next? ==> r.p == e + 1 <= |format| && |r.scan.indexedCount| == |inputs|
  {
    if e == |format| then Fail1(s, IllegalArgument)
    else
      var c := format[e];
      if IsNoArgPlaceholder(c) then
        if e != p + 1 then Fail1(s, IllegalArgument)
        else Next(e + 1, s.(parts := s.parts + ["$" + [c]]))
      else if e > p + 1 then IndexedStep(inputs, e, c, ParseDigits(format[p + 1..e]), s)
      else
        Consume(inputs, e, c, s.relativeCount, s.(hasRelative := true, relativeCount := s.relativeCount + 1))
  }

  /** One turn of the loop in `add`, starting at `p`. */
  function StepAt(format: string, inputs: seq<Arg>, p: nat, s: Scan): (r: Step)
    requires p < |format| && |s.indexedCount| == |inputs|
    ensures r.Next? ==> p < r.p <= |format| && |r.scan.indexedCount| == |inputs|
  {
    if format[p] != '$' then
      var next := LiteralEnd(format, p);
      Next(next, s.(parts := s.parts + [format[p..next]]))
    else PlaceholderStep(format, inputs, p, DigitsEnd(format, p + 1), s)
  }

  /** The checks after the loop: no unused relative argument, no unreferenced indexed one. */
  function Finish(inputs: seq<Arg>, s: Scan): Added
  {
    if s.hasRelative && s.relativeCount < |inputs| then Added(s.parts, s.args, Fail(IllegalArgument))
    else if s.hasIndexed && exists i :: 0 <= i < |s.indexedCount| && s.indexedCount[i] == 0 then
      Added(s.parts, s.args, Fail(IllegalArgument))
    else Added(s.parts, s.args, Pass)
  }

  /** The rest of the scan from position `p`. */
  function AddFrom(format: string, inputs: seq<Arg>, p: nat, s: Scan): Added
    requires p <= |format| && |s.indexedCount| == |inputs|
    decreases |format| - p
  {
    if p == |format| then Finish(inputs, s)
    else match StepAt(format, inputs, p, s)
      case Stop(added) => added
      case Next(q, s') => AddFrom(format, inputs, q, s')
  }

  function Start(parts: seq<string>, args: seq<Arg>, inputs: seq<Arg>): Scan
  {
    Scan(parts, args, false, false, 0, seq(|inputs|, _ => 0))
  }

  /** `add(format, *args)` on a builder holding `parts` and `args`. */
  function AddSpec(parts: seq<string>, args: seq<Arg>, format: string, inputs: seq<Arg>): Added
  {
    AddFrom(format, inputs, 0, Start(parts, args, inputs))
  }

  /** One turn of `AddFrom`. */
  lemma AddFromStep(format: string, inputs: seq<Arg>, p: nat, s: Scan)
    requires p < |format| && |s.indexedCount| == |inputs|
    ensures AddFrom(format, inputs, p, s) == match StepAt(format, inputs, p, s)
      case Stop(added) => added
      case Next(q, s') => AddFrom(format, inputs, q, s')
  {
  }

  /** A turn of the scan that goes on leaves the result to the rest of the scan. */
  lemma AddFromNext(format: string, inputs: seq<Arg>, p: nat, s: Scan, q: nat, s': Scan, r: Added)
    requires p < |format| && |s.indexedCount| == |inputs|
    requires StepAt(format, inputs, p, s) == Next(q, s')
    requires AddFrom(format, inputs, q, s') == r
    ensures AddFrom(format, inputs, p, s) == r
  {
    AddFromStep(format, inputs, p, s);
  }

  // ---------------------------------------------------------------------------------------
  // Specification of `addNamed(format, args)`
  // ---------------------------------------------------------------------------------------

  /**
   * `$name:X` at `p` (the `$`) with the first colon after it at `colon`, as the pattern
   * `\$([\w_]+):([\w]).*` matches the text from `p` to just after the colon's successor.
   */
  predicate NamedArgumentAt(format: string, p: nat, colon: nat)
    requires p < colon < |format|
  {
    p + 1 < colon && colon + 1 < |format|
    && (forall k :: p + 1 <= k < colon ==> IsWordChar(format[k]))
    && IsWordChar(format[colon + 1])
  }

  /** The placeholder of `addNamed` whose `$` is at `p`. */
  function NamedToken(format: string, named: map<string, Arg>, p: nat, parts: seq<string>, args: seq<Arg>): (r: Step)
    requires p < |format|
    ensures r.Next? ==> p < r.p <= |format|
  {
    var colon := IndexOf(format, ':', p);
    if colon != -1 && p < colon && NamedArgumentAt(format, p, colon) then
      var name := format[p + 1..colon];
      if name !in named then Stop(Added(parts, args, Fail(IllegalArgument)))
      else
        var value := if named[name].Null? then Chars(NullNamedArgument) else named[name];
        var c := format[colon + 1];
        match AddArgument(c, value)
        case Err(error) => Stop(Added(parts, args, Fail(error)))
        case Ok(a) => Next(colon + 2, Scan(parts + ["$" + [c]], args + [a], false, false, 0, []))
    else if p >= |format| - 1 then Stop(Added(parts, args, Fail(IllegalArgument)))
    else if !IsNoArgPlaceholder(format[p + 1]) then Stop(Added(parts, args, Fail(IllegalArgument)))
    else Next(p + 2, Scan(parts + [format[p..p + 2]], args, false, false, 0, []))
  }

  /** One turn of the loop in `addNamed`, starting at `p`. */
  function NamedStepAt(format: string, named: map<string, Arg>, p: nat, parts: seq<string>, args: seq<Arg>): (r: Step)
    requires p < |format|
    ensures r.Next? ==> p < r.p <= |format|
  {
    var nextP := IndexOf(format, '$', p);
    if nextP == -1 then Stop(Added(parts + [format[p..]], args, Pass))
    else NamedToken(format, named, nextP, if p != nextP then parts + [format[p..nextP]] else parts, args)
  }

  function NamedFrom(format: string, named: map<string, Arg>, p: nat, parts: seq<string>, args: seq<Arg>): Added
    requires p <= |format|
    decreases |format| - p
  {
    if p == |format| then Added(parts, args, Pass)
    else match NamedStepAt(format, named, p, parts, args)
      case Stop(added) => added
      case Next(q, s) => NamedFrom(format, named, q, s.parts, s.args)
  }

  /** One turn of `NamedFrom`. */
  lemma NamedFromStep(format: string, named: map<string, Arg>, p: nat, parts: seq<string>, args: seq<Arg>)
    requires p < |format|
    ensures NamedFrom(format, named, p, parts, args) == match NamedStepAt(format, named, p, parts, args)
      case Stop(added) => added
      case Next(q, s) => NamedFrom(format, named, q, s.parts, s.args)
  {
  }

  /** `addNamed(format, args)`: every key is checked first, then the format is scanned. */
  function AddNamedSpec(parts: seq<string>, args: seq<Arg>, format: string, named: map<string, Arg>): Added
  {
    if exists key :: key in named && !IsArgumentName(key) then Added(parts, args, Fail(IllegalArgument))
    else NamedFrom(format, named, 0, parts, args)
  }

  // ---------------------------------------------------------------------------------------
  // The helpers built on `add`
  // ---------------------------------------------------------------------------------------

  /** Runs `next` unless `first` threw. */
  function Then(first: Added, next: Added): Added
  {
    if first.outcome.Fail? then first else next
  }

  function BeginControlFlowSpec(parts: seq<string>, args: seq<Arg>, controlFlow: string, inputs: seq<Arg>): Added
  {
    var r := AddSpec(parts, args, controlFlow + " {\n", inputs);
    Then(r, Added(r.parts + ["$>"], r.args, Pass))
  }

  function NextControlFlowSpec(parts: seq<string>, args: seq<Arg>, controlFlow: string, inputs: seq<Arg>): Added
  {
    var r := AddSpec(parts + ["$<"], args, "} " + controlFlow + " {\n", inputs);
    Then(r, Added(r.parts + ["$>"], r.args, Pass))
  }

  function EndControlFlowSpec(parts: seq<string>, args: seq<Arg>): Added
  {
    AddSpec(parts + ["$<"], args, "}\n", [])
  }

  function EndControlFlowWithSpec(parts: seq<string>, args: seq<Arg>, controlFlow: string, inputs: seq<Arg>): Added
  {
    AddSpec(parts + ["$<"], args, "} " + controlFlow + ";\n", inputs)
  }

  function AddStatementSpec(parts: seq<string>, args: seq<Arg>, format: string, inputs: seq<Arg>): Added
  {
    var r1 := AddSpec(parts, args, "$[", []);
    var r2 := AddSpec(r1.parts, r1.args, format, inputs);
    Then(r1, Then(r2, AddSpec(r2.parts, r2.args, ";\n$]", [])))
  }

  function AddCommentSpec(parts: seq<string>, args: seq<Arg>, format: string, inputs: seq<Arg>): Added
  {
    AddSpec(parts, args, "// " + format + "\n", inputs)
  }

  /** `CodeBlock.of(format, *args)`. */
  function Of(format: string, inputs: seq<Arg>): (r: Result<CodeBlock>)
    ensures r.Ok? ==> Valid(r.value.formatParts, r.value.args)
  {
    var a := AddSpec([], [], format, inputs);
    AddKeepsValid([], [], format, inputs);
    if a.outcome.Pass? then Ok(CodeBlock(a.parts, a.args)) else Err(a.outcome.error)
  }

  // ---------------------------------------------------------------------------------------
  // The builder
  // ---------------------------------------------------------------------------------------

  /**
   * The do-while loop of `add` that skips the digits of an index starting at `start`: the
   * first character after them and its position, or `dangling` when the format ends first.
   */
  method ReadIndex(format: string, start: nat) returns (c: char, end: nat, dangling: bool)
    requires start <= |format|
    ensures dangling <==> DigitsEnd(format, start) == |format|
    ensures !dangling ==> end == DigitsEnd(format, start) && c == format[end] && !IsDigit(c)
  {
    var p := start;
    c, end := ' ', start;
    if p >= |format| {
      return c, end, true;
    }
    c := format[p];
    p := p + 1;
    while IsDigit(c)
      invariant start < p <= |format| && c == format[p - 1]
      invariant DigitsEnd(format, start) == DigitsEnd(format, p - 1)
      decreases |format| - p
    {
      if p >= |format| {
        return c, end, true;
      }
      c := format[p];
      p := p + 1;
    }
    return c, p - 1, false;
  }

  /** The first loop of `addNamed`: every key must look like `[a-z]+[\w_]*`. */
  method CheckKeys(named: map<string, Arg>) returns (ok: bool)
    ensures ok <==> forall key :: key in named ==> IsArgumentName(key)
  {
    var keys := named.Keys;
    while keys != {}
      invariant keys <= named.Keys
      invariant forall key :: key in named && key !in keys ==> IsArgumentName(key)
      decreases keys
    {
      var key :| key in keys;
      if !IsArgumentName(key) {
        return false;
      }
      keys := keys - {key};
    }
    return true;
  }

  /** `CodeBlock.Builder`: the two lists every call appends to. */
  class Builder {
    var formatParts: seq<string>
    var args: seq<Arg>

    constructor ()
      ensures formatParts == [] && args == []
    {
      formatParts := [];
      args := [];
    }

    /** `CodeBlock.toBuilder`. */
    constructor FromBlock(block: CodeBlock)
      ensures formatParts == block.formatParts && args == block.args
    {
      formatParts := block.formatParts;
      args := block.args;
    }

    /** `build()`: the immutable snapshot. */
    function Build(): CodeBlock
      reads this
    {
      CodeBlock(formatParts, args)
    }

    /** `add(format, *args)`. */
    method Add(format: string, inputs: seq<Arg>) returns (outcome: Outcome)
      modifies this
      ensures Added(formatParts, args, outcome) == AddSpec(old(formatParts), old(args), format, inputs)
    {
      var hasRelative := false;
      var hasIndexed := false;
      var relativeParameterCount: nat := 0;
      var indexedParameterCount := new nat[|inputs|](_ => 0);
      ghost var spec := AddSpec(formatParts, args, format, inputs);
      assert indexedParameterCount[..] == seq(|inputs|, _ => 0);

      var p := 0;
      while p < |format|
        invariant p <= |format| && indexedParameterCount.Length == |inputs|
        invariant spec == AddFrom(format, inputs, p,
          Scan(formatParts, args, hasRelative, hasIndexed, relativeParameterCount, indexedParameterCount[..]))
        decreases |format| - p
      {
        ghost var s := Scan(formatParts, args, hasRelative, hasIndexed, relativeParameterCount, indexedParameterCount[..]);
        AddFromStep(format, inputs, p, s);
        if format[p] != '$' {
          var nextP := IndexOf(format, '$', p + 1);
          if nextP == -1 {
            nextP := |format|;
          }
          formatParts := formatParts + [format[p..nextP]];
          p := nextP;
          continue;
        }
        var thrown: Outcome;
        p, thrown, hasRelative, hasIndexed, relativeParameterCount :=
          Placeholder(format, inputs, p, hasRelative, hasIndexed, relativeParameterCount, indexedParameterCount);
        if thrown.Fail? {
          return thrown;
        }
      }

      if hasRelative && relativeParameterCount < |inputs| {
        return Fail(IllegalArgument);
      }
      if hasIndexed {
        var unused: seq<nat> := [];
        for i := 0 to |inputs|
          invariant (|unused| == 0) <==> forall k :: 0 <= k < i ==> indexedParameterCount[k] != 0
        {
          if indexedParameterCount[i] == 0 {
            unused := unused + [i + 1];
          }
        }
        if |unused| != 0 {
          return Fail(IllegalArgument);
        }
      }
      return Pass;
    }

    /**
     * The part of the loop in `add` that reads the placeholder whose `$` is at `dollar`: its
     * optional index, its character, the argument it refers to.
     */
    method Placeholder(format: string, inputs: seq<Arg>, dollar: nat, hasRelative: bool, hasIndexed: bool,
                       relativeCount: nat, indexedCount: array<nat>)
      returns (p: nat, outcome: Outcome, hasRelative': bool, hasIndexed': bool, relativeCount': nat)
      requires dollar < |format| && format[dollar] == '$' && indexedCount.Length == |inputs|
      modifies this, indexedCount
      ensures match PlaceholderStep(format, inputs, dollar, DigitsEnd(format, dollar + 1),
                                    Scan(old(formatParts), old(args), hasRelative, hasIndexed, relativeCount, old(indexedCount[..])))
        case Stop(a) => outcome.Fail? && Added(formatParts, args, outcome) == a
        case Next(q, s') =>
          outcome.Pass? && p == q && s' == Scan(formatParts, args, hasRelative', hasIndexed', relativeCount', indexedCount[..])
    {
      p, outcome := dollar + 1, Pass;
      hasRelative', hasIndexed', relativeCount' := hasRelative, hasIndexed, relativeCount;
      var indexStart := dollar + 1;
      var c, indexEnd, dangling := ReadIndex(format, indexStart);
      if dangling {
        outcome := Fail(IllegalArgument);
        return;
      }
      p := indexEnd + 1;

      if IsNoArgPlaceholder(c) {
        if indexStart != indexEnd {
          outcome := Fail(IllegalArgument);
          return;
        }
        formatParts := formatParts + ["$" + [c]];
        return;
      }

      var index: int;
      if indexStart < indexEnd {
        var n := ParseDigits(format[indexStart..indexEnd]);
        if n > MaxInt {
          outcome := Fail(IllegalArgument);
          return;
        }
        index := n - 1;
        hasIndexed' := true;
        if |inputs| > 0 {
          var slot := Rem(index, |inputs|);
          if slot < 0 {
            outcome := Fail(IndexOutOfBounds);
            return;
          }
          indexedCount[slot] := indexedCount[slot] + 1;
        }
      } else {
        index := relativeCount;
        hasRelative' := true;
        relativeCount' := relativeCount + 1;
      }
      outcome := TakeArgument(inputs, c, index, hasRelative', hasIndexed');
    }

    /** The range and mixing checks on a placeholder's index, then `addArgument` and its part. */
    method TakeArgument(inputs: seq<Arg>, c: char, index: int, hasRelative: bool, hasIndexed: bool)
      returns (outcome: Outcome)
      modifies this
      ensures match Consume(inputs, 0, c, index, Scan(old(formatParts), old(args), hasRelative, hasIndexed, 0, []))
        case Stop(a) => Added(formatParts, args, outcome) == a
        case Next(_, s') => outcome == Pass && formatParts == s'.parts && args == s'.args
    {
      if !(0 <= index < |inputs|) {
        return Fail(IllegalArgument);
      }
      if hasIndexed && hasRelative {
        return Fail(IllegalArgument);
      }
      var coerced := AddArgument(c, inputs[index]);
      if coerced.Err? {
        return Fail(coerced.error);
      }
      args := args + [coerced.value];
      formatParts := formatParts + ["$" + [c]];
      return Pass;
    }

    /** `addNamed(format, args)`. */
    method AddNamed(format: string, named: map<string, Arg>) returns (outcome: Outcome)
      modifies this
      ensures Added(formatParts, args, outcome) == AddNamedSpec(old(formatParts), old(args), format, named)
    {
      var keysOk := CheckKeys(named);
      if !keysOk {
        return Fail(IllegalArgument);
      }

      ghost var spec := NamedFrom(format, named, 0, formatParts, args);
      var p := 0;
      while p < |format|
        invariant p <= |format|
        invariant spec == NamedFrom(format, named, p, formatParts, args)
        decreases |format| - p
      {
        NamedFromStep(format, named, p, formatParts, args);
        var nextP := IndexOf(format, '$', p);
        if nextP == -1 {
          formatParts := formatParts + [format[p..]];
          return Pass;
        }
        if p != nextP {
          formatParts := formatParts + [format[p..nextP]];
          p := nextP;
        }
        var thrown: Outcome;
        p, thrown := NamedPlaceholder(format, named, p);
        if thrown.Fail? {
          return thrown;
        }
      }
      return Pass;
    }

    /** The part of the loop in `addNamed` that reads the placeholder whose `$` is at `dollar`. */
    method NamedPlaceholder(format: string, named: map<string, Arg>, dollar: nat) returns (p: nat, outcome: Outcome)
      requires dollar < |format|
      modifies this
      ensures match NamedToken(format, named, dollar, old(formatParts), old(args))
        case Stop(a) => outcome.Fail? && Added(formatParts, args, outcome) == a
        case Next(q, s) => outcome.Pass? && p == q && formatParts == s.parts && args == s.args
    {
      p, outcome := dollar, Pass;
      var colon := IndexOf(format, ':', dollar);
      var matched := colon != -1 && dollar < colon && NamedArgumentAt(format, dollar, colon);
      if matched {
        var argumentName := format[dollar + 1..colon];
        if argumentName !in named {
          return p, Fail(IllegalArgument);
        }
        var formatChar := format[colon + 1];
        var value := named[argumentName];
        if value.Null? {
          value := Chars(NullNamedArgument);
        }
        var coerced := AddArgument(formatChar, value);
        if coerced.Err? {
          return p, Fail(coerced.error);
        }
        args := args + [coerced.value];
        formatParts := formatParts + ["$" + [formatChar]];
        p := colon + 2;
      } else {
        if !(dollar < |format| - 1) {
          return p, Fail(IllegalArgument);
        }
        if !IsNoArgPlaceholder(format[dollar + 1]) {
          return p, Fail(IllegalArgument);
        }
        formatParts := formatParts + [format[dollar..dollar + 2]];
        p := dollar + 2;
      }
    }

    /** `indent()`. */
    method Indent()
      modifies this
      ensures formatParts == old(formatParts) + ["$>"] && args == old(args)
    {
      formatParts := formatParts + ["$>"];
    }

    /** `unindent()`. */
    method Unindent()
      modifies this
      ensures formatParts == old(formatParts) + ["$<"] && args == old(args)
    {
      formatParts := formatParts + ["$<"];
    }

    /** `beginControlFlow(controlFlow, *args)`. */
    method BeginControlFlow(controlFlow: string, inputs: seq<Arg>) returns (outcome: Outcome)
      modifies this
      ensures Added(formatParts, args, outcome) == BeginControlFlowSpec(old(formatParts), old(args), controlFlow, inputs)
    {
      outcome := Add(controlFlow + " {\n", inputs);
      if outcome.Pass? {
        Indent();
      }
    }

    /** `nextControlFlow(controlFlow, *args)`. */
    method NextControlFlow(controlFlow: string, inputs: seq<Arg>) returns (outcome: Outcome)
      modifies this
      ensures Added(formatParts, args, outcome) == NextControlFlowSpec(old(formatParts), old(args), controlFlow, inputs)
    {
      Unindent();
      outcome := Add("} " + controlFlow + " {\n", inputs);
      if outcome.Pass? {
        Indent();
      }
    }

    /** `endControlFlow()`. */
    method EndControlFlow() returns (outcome: Outcome)
      modifies this
      ensures Added(formatParts, args, outcome) == EndControlFlowSpec(old(formatParts), old(args))
    {
      Unindent();
      outcome := Add("}\n", []);
    }

    /** `endControlFlow(controlFlow, *args)`, which closes a do/while. */
    method EndControlFlowWith(controlFlow: string, inputs: seq<Arg>) returns (outcome: Outcome)
      modifies this
      ensures Added(formatParts, args, outcome) == EndControlFlowWithSpec(old(formatParts), old(args), controlFlow, inputs)
    {
      Unindent();
      outcome := Add("} " + controlFlow + ";\n", inputs);
    }

    /** `addStatement(format, *args)`. */
    method AddStatement(format: string, inputs: seq<Arg>) returns (outcome: Outcome)
      modifies this
      ensures Added(formatParts, args, outcome) == AddStatementSpec(old(formatParts), old(args), format, inputs)
    {
      outcome := Add("$[", []);
      if outcome.Fail? {
        return;
      }
      outcome := Add(format, inputs);
      if outcome.Fail? {
        return;
      }
      outcome := Add(";\n$]", []);
    }

    /** `addComment(format, *args)`. */
    method AddComment(format: string, inputs: seq<Arg>) returns (outcome: Outcome)
      modifies this
      ensures Added(formatParts, args, outcome) == AddCommentSpec(old(formatParts), old(args), format, inputs)
    {
      outcome := Add("// " + format + "\n", inputs);
    }

    /** `add(codeBlock)`: both lists of the block are appended. */
    method AddBlock(block: CodeBlock)
      modifies this
      ensures formatParts == old(formatParts) + block.formatParts && args == old(args) + block.args
      ensures Valid(old(formatParts), old(args)) && Valid(block.formatParts, block.args) ==> Valid(formatParts, args)
    {
      if Valid(formatParts, args) && Valid(block.formatParts, block.args) {
        ValidAppend(formatParts, args, block.formatParts, block.args);
      }
      formatParts := formatParts + block.formatParts;
      args := args + block.args;
    }
  }

  // ---------------------------------------------------------------------------------------
  // Properties of the scanner
  // ---------------------------------------------------------------------------------------

  /** Appending one well-formed part, with the argument it consumes if any, keeps validity. */
  lemma ValidPush(parts: seq<string>, args: seq<Arg>, part: string, more: seq<Arg>)
    requires Valid(parts, args) && WellFormedPart(part)
    requires |more| == if IsArgToken(part) then 1 else 0
    ensures Valid(parts + [part], args + more)
  {
    ArgTokensAppend(parts, [part]);
    ArgTokensOne(part);
  }

  /** A literal chunk cut out of the format is a well-formed part. */
  lemma ChunkIsLiteral(format: string, p: nat, q: nat)
    requires p < q <= |format| && forall k :: p <= k < q ==> format[k] != '$'
    ensures IsLiteral(format[p..q]) && WellFormedPart(format[p..q])
  {
    assert forall k :: 0 <= k < q - p ==> format[p..q][k] == format[p + k];
  }

  lemma ConsumeKeepsValid(inputs: seq<Arg>, e: nat, c: char, index: int, s: Scan)
    requires Valid(s.parts, s.args)
    ensures match Consume(inputs, e, c, index, s)
      case Next(_, s') => Valid(s'.parts, s'.args)
      case Stop(a) => Valid(a.parts, a.args)
  {
    if 0 <= index < |inputs| && AddArgument(c, inputs[index]).Ok? {
      ValidPush(s.parts, s.args, "$" + [c], [AddArgument(c, inputs[index]).value]);
    }
  }

  lemma PlaceholderKeepsValid(format: string, inputs: seq<Arg>, p: nat, e: nat, s: Scan)
    requires p < e <= |format| && |s.indexedCount| == |inputs|
    requires Valid(s.parts, s.args)
    ensures match PlaceholderStep(format, inputs, p, e, s)
      case Next(_, s') => Valid(s'.parts, s'.args)
      case Stop(a) => Valid(a.parts, a.args)
  {
    if e < |format| {
      var c := format[e];
      if IsNoArgPlaceholder(c) {
        ValidPush(s.parts, s.args, "$" + [c], []);
      } else if e > p + 1 {
        var n := ParseDigits(format[p + 1..e]);
        if n <= MaxInt {
          if |inputs| == 0 {
            ConsumeKeepsValid(inputs, e, c, n - 1, s.(hasIndexed := true));
          } else {
            var slot := Rem(n - 1, |inputs|);
            if slot >= 0 {
              var counts := s.indexedCount[slot := s.indexedCount[slot] + 1];
              ConsumeKeepsValid(inputs, e, c, n - 1, s.(hasIndexed := true, indexedCount := counts));
            }
          }
        }
      } else {
        ConsumeKeepsValid(inputs, e, c, s.relativeCount, s.(hasRelative := true, relativeCount := s.relativeCount + 1));
      }
    }
  }

  /** Every turn of the loop keeps the builder valid, whether it goes on or throws. */
  lemma StepKeepsValid(format: string, inputs: seq<Arg>, p: nat, s: Scan)
    requires p < |format| && |s.indexedCount| == |inputs|
    requires Valid(s.parts, s.args)
    ensures match StepAt(format, inputs, p, s)
      case Next(_, s') => Valid(s'.parts, s'.args)
      case Stop(a) => Valid(a.parts, a.args)
  {
    if format[p] != '$' {
      var next := LiteralEnd(format, p);
      ChunkIsLiteral(format, p, next);
      ValidPush(s.parts, s.args, format[p..next], []);
    } else {
      PlaceholderKeepsValid(format, inputs, p, DigitsEnd(format, p + 1), s);
    }
  }

  /** `add` keeps the builder valid on every path, including the throwing ones. */
  lemma {:induction false} AddFromKeepsValid(format: string, inputs: seq<Arg>, p: nat, s: Scan)
    requires p <= |format| && |s.indexedCount| == |inputs|
    requires Valid(s.parts, s.args)
    ensures var r := AddFrom(format, inputs, p, s); Valid(r.parts, r.args)
    decreases |format| - p
  {
    if p < |format| {
      StepKeepsValid(format, inputs, p, s);
      AddFromStep(format, inputs, p, s);
      match StepAt(format, inputs, p, s)
      case Stop(_) =>
      case Next(q, s') => AddFromKeepsValid(format, inputs, q, s');
    }
  }

  /**
   * Every `add` keeps one argument per `$L/$N/$S/$T` part and every part a literal chunk
   * without `$` or a two-character token, even when it throws part-way through.
   */
  lemma AddKeepsValid(parts: seq<string>, args: seq<Arg>, format: string, inputs: seq<Arg>)
    requires Valid(parts, args)
    ensures var r := AddSpec(parts, args, format, inputs); Valid(r.parts, r.args)
  {
    AddFromKeepsValid(format, inputs, 0, Start(parts, args, inputs));
  }

  lemma NamedTokenKeepsValid(format: string, named: map<string, Arg>, p: nat, parts: seq<string>, args: seq<Arg>)
    requires p < |format| && format[p] == '$' && Valid(parts, args)
    ensures match NamedToken(format, named, p, parts, args)
      case Next(_, s) => Valid(s.parts, s.args)
      case Stop(a) => Valid(a.parts, a.args)
  {
    match NamedToken(format, named, p, parts, args)
    case Stop(_) =>
    case Next(q, s) =>
      var part := s.parts[|s.parts| - 1];
      assert s.parts == parts + [part];
      ValidPush(parts, args, part, s.args[|args|..]);
      assert args + s.args[|args|..] == s.args;
  }

  /** The same for `addNamed`. */
  lemma {:induction false} NamedFromKeepsValid(format: string, named: map<string, Arg>, p: nat, parts: seq<string>, args: seq<Arg>)
    requires p <= |format| && Valid(parts, args)
    ensures var r := NamedFrom(format, named, p, parts, args); Valid(r.parts, r.args)
    decreases |format| - p
  {
    if p < |format| {
      NamedFromStep(format, named, p, parts, args);
      var nextP := IndexOf(format, '$', p);
      if nextP == -1 {
        ChunkIsLiteral(format, p, |format|);
        assert format[p..] == format[p..|format|];
        ValidPush(parts, args, format[p..], []);
      } else {
        var parts1 := if p != nextP then parts + [format[p..nextP]] else parts;
        if p != nextP {
          ChunkIsLiteral(format, p, nextP);
          ValidPush(parts, args, format[p..nextP], []);
        }
        NamedTokenKeepsValid(format, named, nextP, parts1, args);
        match NamedToken(format, named, nextP, parts1, args)
        case Stop(_) =>
        case Next(q, s) => NamedFromKeepsValid(format, named, q, s.parts, s.args);
      }
    }
  }

  lemma AddNamedKeepsValid(parts: seq<string>, args: seq<Arg>, format: string, named: map<string, Arg>)
    requires Valid(parts, args)
    ensures var r := AddNamedSpec(parts, args, format, named); Valid(r.parts, r.args)
  {
    if !exists key :: key in named && !IsArgumentName(key) {
      NamedFromKeepsValid(format, named, 0, parts, args);
    }
  }

  /** The coerced arguments for the argument-consuming parts, taken in order from `inputs[k..]`. */
  function CoerceAll(parts: seq<string>, inputs: seq<Arg>, k: nat): Result<seq<Arg>>
    decreases |parts|
  {
    if |parts| == 0 then Ok([])
    else if IsArgToken(parts[0]) then
      if k >= |inputs| then Err(IllegalArgument)
      else
        var a :- AddArgument(parts[0][1], inputs[k]);
        var rest :- CoerceAll(parts[1..], inputs, k + 1);
        Ok([a] + rest)
    else CoerceAll(parts[1..], inputs, k)
  }

  /** The text of canonical parts, cut after its first part. */
  lemma ConcatSplit(format: string, p: nat, parts: seq<string>)
    requires p <= |format| && format[p..] == Concat(parts) && Canonical(parts) && |parts| > 0
    ensures p + |parts[0]| <= |format| && format[p..p + |parts[0]|] == parts[0]
    ensures format[p + |parts[0]|..] == Concat(parts[1..]) && Canonical(parts[1..])
    ensures IsLiteral(parts[0]) ==> p + |parts[0]| == |format| || format[p + |parts[0]|] == '$'
  {
    var rest := parts[1..];
    assert format[p..] == parts[0] + Concat(rest);
    assert format[p..][|parts[0]|..] == Concat(rest);
    assert forall i :: 0 <= i < |rest| - 1 ==> rest[i] == parts[i + 1];
    if IsLiteral(parts[0]) && |rest| > 0 {
      assert !IsLiteral(parts[1]);
      assert Concat(rest) == rest[0] + Concat(rest[1..]);
    }
  }

  /** A literal chunk that runs up to a `$` or the end is one turn of the scan. */
  lemma LiteralStepAt(format: string, inputs: seq<Arg>, p: nat, s: Scan, part: string)
    requires |s.indexedCount| == |inputs| && IsLiteral(part)
    requires p + |part| <= |format| && format[p..p + |part|] == part
    requires p + |part| == |format| || format[p + |part|] == '$'
    ensures StepAt(format, inputs, p, s) == Next(p + |part|, s.(parts := s.parts + [part]))
  {
    assert format[p] == part[0];
    assert forall k :: p < k < p + |part| ==> format[k] == part[k - p];
  }

  /** A two-character token that takes no argument is one turn of the scan. */
  lemma NoArgStepAt(format: string, inputs: seq<Arg>, p: nat, s: Scan, part: string)
    requires |s.indexedCount| == |inputs| && |part| == 2 && part[0] == '$' && IsNoArgPlaceholder(part[1])
    requires p + 2 <= |format| && format[p..p + 2] == part
    ensures StepAt(format, inputs, p, s) == Next(p + 2, s.(parts := s.parts + [part]))
  {
    assert format[p] == '$' && format[p + 1] == part[1];
    assert DigitsEnd(format, p + 1) == p + 1;
    assert part == "$" + [part[1]];
  }

  /** A relative placeholder with an argument left for it is one turn of the scan. */
  lemma RelativeStepAt(format: string, inputs: seq<Arg>, p: nat, s: Scan, part: string)
    requires |s.indexedCount| == |inputs| && IsArgToken(part)
    requires p + 2 <= |format| && format[p..p + 2] == part
    requires !s.hasIndexed && s.relativeCount < |inputs|
    requires AddArgument(part[1], inputs[s.relativeCount]).Ok?
    ensures StepAt(format, inputs, p, s)
         == Next(p + 2, s.(parts := s.parts + [part],
                           args := s.args + [AddArgument(part[1], inputs[s.relativeCount]).value],
                           hasRelative := true, relativeCount := s.relativeCount + 1))
  {
    assert format[p] == '$' && format[p + 1] == part[1];
    assert DigitsEnd(format, p + 1) == p + 1;
    assert part == "$" + [part[1]];
  }

  /** The scan state after one part of a canonical text, taking relative arguments in order. */
  function Advance(s: Scan, part: string, inputs: seq<Arg>): (r: Scan)
    requires IsArgToken(part) ==> s.relativeCount < |inputs| && AddArgument(part[1], inputs[s.relativeCount]).Ok?
    ensures r.parts == s.parts + [part]
  {
    if IsArgToken(part) then
      s.(parts := s.parts + [part], args := s.args + [AddArgument(part[1], inputs[s.relativeCount]).value],
         hasRelative := true, relativeCount := s.relativeCount + 1)
    else s.(parts := s.parts + [part])
  }

  /** A relative scan over canonical parts that are all accounted for by the arguments. */
  predicate CanonicalScan(format: string, inputs: seq<Arg>, p: nat, s: Scan, parts: seq<string>)
  {
    p <= |format| && format[p..] == Concat(parts) && Canonical(parts)
    && |s.indexedCount| == |inputs| && !s.hasIndexed && s.hasRelative == (s.relativeCount > 0)
    && s.relativeCount + ArgTokens(parts) <= |inputs|
    && CoerceAll(parts, inputs, s.relativeCount).Ok?
  }

  /** The first part's share of the arguments: none for a literal or a no-argument token, one otherwise. */
  lemma CoerceHead(parts: seq<string>, inputs: seq<Arg>, s: Scan)
    requires |parts| > 0 && s.relativeCount + ArgTokens(parts) <= |inputs|
    requires CoerceAll(parts, inputs, s.relativeCount).Ok?
    ensures IsArgToken(parts[0]) ==> s.relativeCount < |inputs| && AddArgument(parts[0][1], inputs[s.relativeCount]).Ok?
    ensures var s' := Advance(s, parts[0], inputs);
      && ArgTokens(parts) == ArgTokens(parts[1..]) + (s'.relativeCount - s.relativeCount)
      && s'.relativeCount + ArgTokens(parts[1..]) <= |inputs|
      && CoerceAll(parts[1..], inputs, s'.relativeCount).Ok?
      && s.args + CoerceAll(parts, inputs, s.relativeCount).value
         == s'.args + CoerceAll(parts[1..], inputs, s'.relativeCount).value
  {
  }

  /** One turn of the scan over a canonical text consumes exactly its first part. */
  lemma CanonicalStep(format: string, inputs: seq<Arg>, p: nat, s: Scan, parts: seq<string>)
    requires CanonicalScan(format, inputs, p, s, parts) && |parts| > 0
    ensures IsArgToken(parts[0]) ==> s.relativeCount < |inputs| && AddArgument(parts[0][1], inputs[s.relativeCount]).Ok?
    ensures var s' := Advance(s, parts[0], inputs);
      && StepAt(format, inputs, p, s) == Next(p + |parts[0]|, s')
      && CanonicalScan(format, inputs, p + |parts[0]|, s', parts[1..])
      && ArgTokens(parts) == ArgTokens(parts[1..]) + (s'.relativeCount - s.relativeCount)
      && s.args + CoerceAll(parts, inputs, s.relativeCount).value
         == s'.args + CoerceAll(parts[1..], inputs, s'.relativeCount).value
  {
    var part := parts[0];
    ConcatSplit(format, p, parts);
    CoerceHead(parts, inputs, s);
    if IsLiteral(part) {
      LiteralStepAt(format, inputs, p, s, part);
    } else if IsNoArgPlaceholder(part[1]) {
      NoArgStepAt(format, inputs, p, s, part);
    } else {
      RelativeStepAt(format, inputs, p, s, part);
    }
  }

  /** At the end of the text, a relative scan that used every argument succeeds. */
  lemma CanonicalDone(format: string, inputs: seq<Arg>, p: nat, s: Scan)
    requires CanonicalScan(format, inputs, p, s, []) && s.relativeCount == |inputs|
    ensures AddFrom(format, inputs, p, s) == Added(s.parts, s.args, Pass)
  {
    assert p == |format|;
  }

  lemma AppendHead<T>(a: seq<T>, b: seq<T>)
    requires |b| > 0
    ensures a + [b[0]] + b[1..] == a + b
  {
    assert [b[0]] + b[1..] == b;
  }

  /** The scan of a canonical suffix, with only relative placeholders seen so far. */
  lemma {:induction false} ParseCanonicalFrom(format: string, inputs: seq<Arg>, p: nat, s: Scan, parts: seq<string>)
    requires CanonicalScan(format, inputs, p, s, parts)
    requires s.relativeCount + ArgTokens(parts) == |inputs|
    ensures AddFrom(format, inputs, p, s)
         == Added(s.parts + parts, s.args + CoerceAll(parts, inputs, s.relativeCount).value, Pass)
    decreases |parts|
  {
    if |parts| == 0 {
      CanonicalDone(format, inputs, p, s);
    } else {
      var q, s', rest := p + |parts[0]|, Advance(s, parts[0], inputs), parts[1..];
      CanonicalStep(format, inputs, p, s, parts);
      ParseCanonicalFrom(format, inputs, q, s', rest);
      AppendHead(s.parts, parts);
      AddFromNext(format, inputs, p, s, q, s',
                  Added(s.parts + parts, s.args + CoerceAll(parts, inputs, s.relativeCount).value, Pass));
    }
  }

  /**
   * Round trip: scanning the text that canonical parts spell gives back exactly those parts,
   * with one coerced argument per placeholder, in order, when there are as many arguments as
   * placeholders and each argument suits its placeholder.
   */
  lemma ParseCanonical(parts: seq<string>, args: seq<Arg>, tokens: seq<string>, inputs: seq<Arg>)
    requires Canonical(tokens) && ArgTokens(tokens) == |inputs| && CoerceAll(tokens, inputs, 0).Ok?
    ensures AddSpec(parts, args, Concat(tokens), inputs)
         == Added(parts + tokens, args + CoerceAll(tokens, inputs, 0).value, Pass)
  {
    var format := Concat(tokens);
    assert format[0..] == format;
    ParseCanonicalFrom(format, inputs, 0, Start(parts, args, inputs), tokens);
  }

  /** A text without `$` is one literal chunk, whatever arguments come with it. */
  lemma AddLiteral(parts: seq<string>, args: seq<Arg>, text: string, inputs: seq<Arg>)
    requires IsLiteral(text)
    ensures AddSpec(parts, args, text, inputs) == Added(parts + [text], args, Pass)
  {
    var s := Start(parts, args, inputs);
    assert text[0..|text|] == text;
    LiteralStepAt(text, inputs, 0, s, text);
    AddFromStep(text, inputs, 0, s);
  }

  /** The first non-digit after a run of digits. */
  lemma DigitsEndAt(format: string, i: nat, e: nat)
    requires i <= e < |format| && !IsDigit(format[e])
    requires forall k :: i <= k < e ==> IsDigit(format[k])
    ensures DigitsEnd(format, i) == e
    decreases e - i
  {
    if i < e {
      DigitsEndAt(format, i + 1, e);
    }
  }

  /** A `$` followed by nothing but digits is a dangling placeholder. */
  lemma {:induction false} DanglingFails(format: string, inputs: seq<Arg>, p: nat, s: Scan)
    requires p < |format| && |s.indexedCount| == |inputs| && format[p] == '$'
    requires forall k :: p < k < |format| ==> IsDigit(format[k])
    ensures AddFrom(format, inputs, p, s) == Added(s.parts, s.args, Fail(IllegalArgument))
  {
    AddFromStep(format, inputs, p, s);
  }

  /** `$$ $> $< $[ $] $W` with an index in front of them are rejected. */
  lemma IndexedNoArgFails(format: string, inputs: seq<Arg>, p: nat, e: nat, s: Scan)
    requires p + 1 < e < |format| && |s.indexedCount| == |inputs| && format[p] == '$'
    requires forall k :: p < k < e ==> IsDigit(format[k])
    requires IsNoArgPlaceholder(format[e])
    ensures AddFrom(format, inputs, p, s) == Added(s.parts, s.args, Fail(IllegalArgument))
  {
    DigitsEndAt(format, p + 1, e);
    AddFromStep(format, inputs, p, s);
  }

  /** An indexed placeholder `$nX` whose `n` is not in 1..args.size throws. */
  lemma IndexOutOfRangeFails(format: string, inputs: seq<Arg>, p: nat, e: nat, s: Scan)
    requires p + 1 < e < |format| && |s.indexedCount| == |inputs| && format[p] == '$'
    requires forall k :: p < k < e ==> IsDigit(format[k])
    requires !IsDigit(format[e]) && !IsNoArgPlaceholder(format[e])
    requires !(1 <= ParseDigits(format[p + 1..e]) <= |inputs|)
    ensures AddFrom(format, inputs, p, s).outcome.Fail?
    ensures AddFrom(format, inputs, p, s).parts == s.parts
  {
    DigitsEndAt(format, p + 1, e);
    AddFromStep(format, inputs, p, s);
  }

  /** A relative placeholder after the last argument has been used throws. */
  lemma RelativeBeyondFails(format: string, inputs: seq<Arg>, p: nat, s: Scan)
    requires p + 1 < |format| && |s.indexedCount| == |inputs| && format[p] == '$'
    requires !IsDigit(format[p + 1]) && !IsNoArgPlaceholder(format[p + 1])
    requires s.relativeCount >= |inputs|
    ensures AddFrom(format, inputs, p, s) == Added(s.parts, s.args, Fail(IllegalArgument))
  {
    DigitsEndAt(format, p + 1, p + 1);
    AddFromStep(format, inputs, p, s);
  }

  /** A relative placeholder after an indexed one throws, whatever the arguments. */
  lemma RelativeAfterIndexedFails(format: string, inputs: seq<Arg>, p: nat, s: Scan)
    requires p + 1 < |format| && |s.indexedCount| == |inputs| && format[p] == '$'
    requires !IsDigit(format[p + 1]) && !IsNoArgPlaceholder(format[p + 1])
    requires s.hasIndexed
    ensures AddFrom(format, inputs, p, s) == Added(s.parts, s.args, Fail(IllegalArgument))
  {
    DigitsEndAt(format, p + 1, p + 1);
    AddFromStep(format, inputs, p, s);
  }

  /** An indexed placeholder after a relative one throws, whatever the arguments. */
  lemma IndexedAfterRelativeFails(format: string, inputs: seq<Arg>, p: nat, e: nat, s: Scan)
    requires p + 1 < e < |format| && |s.indexedCount| == |inputs| && format[p] == '$'
    requires forall k :: p < k < e ==> IsDigit(format[k])
    requires !IsDigit(format[e]) && !IsNoArgPlaceholder(format[e])
    requires s.hasRelative
    ensures AddFrom(format, inputs, p, s).outcome.Fail?
    ensures AddFrom(format, inputs, p, s).parts == s.parts
  {
    DigitsEndAt(format, p + 1, e);
    AddFromStep(format, inputs, p, s);
  }

  /** Relative placeholders that leave arguments unused make the whole `add` throw. */
  lemma UnusedRelativeFails(parts: seq<string>, args: seq<Arg>, tokens: seq<string>, inputs: seq<Arg>)
    requires Canonical(tokens) && 0 < ArgTokens(tokens) < |inputs|
    requires CoerceAll(tokens, inputs, 0).Ok?
    ensures AddSpec(parts, args, Concat(tokens), inputs).outcome == Fail(IllegalArgument)
  {
    var format := Concat(tokens);
    assert format[0..] == format;
    UnusedFrom(format, inputs, 0, Start(parts, args, inputs), tokens);
  }

  lemma {:induction false} UnusedFrom(format: string, inputs: seq<Arg>, p: nat, s: Scan, parts: seq<string>)
    requires CanonicalScan(format, inputs, p, s, parts)
    requires s.relativeCount + ArgTokens(parts) < |inputs|
    requires s.relativeCount + ArgTokens(parts) > 0
    ensures AddFrom(format, inputs, p, s).outcome == Fail(IllegalArgument)
    decreases |parts|
  {
    if |parts| == 0 {
      assert p == |format|;
    } else {
      var q, s' := p + |parts[0]|, Advance(s, parts[0], inputs);
      CanonicalStep(format, inputs, p, s, parts);
      UnusedFrom(format, inputs, q, s', parts[1..]);
      AddFromNext(format, inputs, p, s, q, s', AddFrom(format, inputs, q, s'));
    }
  }

  /** An indexed scan that never referenced some argument throws at the end. */
  lemma UnreferencedIndexedFails(inputs: seq<Arg>, s: Scan, i: nat)
    requires |s.indexedCount| == |inputs| && s.hasIndexed && !s.hasRelative
    requires i < |inputs| && s.indexedCount[i] == 0
    ensures Finish(inputs, s) == Added(s.parts, s.args, Fail(IllegalArgument))
  {
  }

  /** `addNamed` rejects a map with a key that does not start with a lowercase letter. */
  lemma NamedBadKeyFails(parts: seq<string>, args: seq<Arg>, format: string, named: map<string, Arg>, key: string)
    requires key in named && !IsArgumentName(key)
    ensures AddNamedSpec(parts, args, format, named) == Added(parts, args, Fail(IllegalArgument))
  {
  }

  /** `$name:X` naming a key the map does not hold throws. */
  lemma NamedMissingFails(format: string, named: map<string, Arg>, p: nat, colon: nat, parts: seq<string>, args: seq<Arg>)
    requires p < colon < |format| && format[p] == '$'
    requires forall k :: p < k < colon ==> format[k] != ':'
    requires format[colon] == ':' && NamedArgumentAt(format, p, colon)
    requires format[p + 1..colon] !in named
    ensures NamedFrom(format, named, p, parts, args) == Added(parts, args, Fail(IllegalArgument))
  {
    assert IndexOf(format, '$', p) == p;
    assert IndexOf(format, ':', p) == colon;
  }

  /** In `addNamed`, a `$` at the very end, or followed by an unknown character, throws. */
  lemma NamedDanglingFails(format: string, named: map<string, Arg>, p: nat, parts: seq<string>, args: seq<Arg>)
    requires p < |format| && format[p] == '$'
    requires p == |format| - 1 || (!IsNoArgPlaceholder(format[p + 1]) && forall k :: p < k < |format| ==> format[k] != ':')
    ensures NamedFrom(format, named, p, parts, args) == Added(parts, args, Fail(IllegalArgument))
  {
    assert IndexOf(format, '$', p) == p;
    var colon := IndexOf(format, ':', p);
    assert colon != -1 ==> colon == p + 1 || p == |format| - 1;
  }

  // ---------------------------------------------------------------------------------------
  // Control flow
  // ---------------------------------------------------------------------------------------

  /** `$>` parts minus `$<` parts. */
  function Balance(parts: seq<string>): int
  {
    if |parts| == 0 then 0
    else (if parts[0] == "$>" then 1 else if parts[0] == "$<" then -1 else 0) + Balance(parts[1..])
  }

  lemma {:induction false} BalanceAppend(a: seq<string>, b: seq<string>)
    ensures Balance(a + b) == Balance(a) + Balance(b)
    decreases |a|
  {
    if |a| > 0 {
      assert (a + b)[1..] == a[1..] + b;
      BalanceAppend(a[1..], b);
    } else {
      assert a + b == b;
    }
  }

  /** `beginControlFlow(cf)` appends `"cf {\n"` and then `$>`. */
  lemma BeginControlFlowShape(parts: seq<string>, args: seq<Arg>, controlFlow: string, inputs: seq<Arg>)
    requires '$' !in controlFlow
    ensures BeginControlFlowSpec(parts, args, controlFlow, inputs)
         == Added(parts + [controlFlow + " {\n", "$>"], args, Pass)
  {
    AddLiteral(parts, args, controlFlow + " {\n", inputs);
  }

  /** `nextControlFlow(cf)` appends `$<`, `"} cf {\n"` and `$>`. */
  lemma NextControlFlowShape(parts: seq<string>, args: seq<Arg>, controlFlow: string, inputs: seq<Arg>)
    requires '$' !in controlFlow
    ensures NextControlFlowSpec(parts, args, controlFlow, inputs)
         == Added(parts + ["$<", "} " + controlFlow + " {\n", "$>"], args, Pass)
  {
    AddLiteral(parts + ["$<"], args, "} " + controlFlow + " {\n", inputs);
  }

  /** `endControlFlow()` appends `$<` and `"}\n"`. */
  lemma EndControlFlowShape(parts: seq<string>, args: seq<Arg>)
    ensures EndControlFlowSpec(parts, args) == Added(parts + ["$<", "}\n"], args, Pass)
  {
    AddLiteral(parts + ["$<"], args, "}\n", []);
  }

  /** `add("$[")` opens a statement and takes no argument. */
  lemma OpenStatement(parts: seq<string>, args: seq<Arg>)
    ensures AddSpec(parts, args, "$[", []) == Added(parts + ["$["], args, Pass)
  {
    var open := ["$["];
    assert Canonical(open) && Concat(open) == "$[" && ArgTokens(open) == 0;
    assert CoerceAll(open, [], 0) == Ok([]);
    ParseCanonical(parts, args, open, []);
  }

  /** `add(";\n$]")` ends a statement and takes no argument. */
  lemma CloseStatement(parts: seq<string>, args: seq<Arg>)
    ensures AddSpec(parts, args, ";\n$]", []) == Added(parts + [";\n", "$]"], args, Pass)
  {
    var close := [";\n", "$]"];
    assert Canonical(close) && Concat(close) == ";\n$]";
    assert ArgTokens(close) == 0 by {
      assert close[1..] == ["$]"];
    }
    assert CoerceAll(close, [], 0) == Ok([]) by {
      assert close[1..] == ["$]"] && close[1..][1..] == [];
    }
    ParseCanonical(parts, args, close, []);
  }

  /** `addStatement` brackets the parts of its format with `$[` and `";\n"`, `$]`. */
  lemma AddStatementShape(parts: seq<string>, args: seq<Arg>, tokens: seq<string>, inputs: seq<Arg>)
    requires Canonical(tokens) && ArgTokens(tokens) == |inputs| && CoerceAll(tokens, inputs, 0).Ok?
    ensures AddStatementSpec(parts, args, Concat(tokens), inputs)
         == Added(parts + ["$["] + tokens + [";\n", "$]"], args + CoerceAll(tokens, inputs, 0).value, Pass)
  {
    OpenStatement(parts, args);
    ParseCanonical(parts + ["$["], args, tokens, inputs);
    CloseStatement(parts + ["$["] + tokens, args + CoerceAll(tokens, inputs, 0).value);
  }

  /** The parts a begin / next ... / end chain appends, or the first failure. */
  function ControlFlowChain(parts: seq<string>, args: seq<Arg>, first: string, middles: seq<string>): Added
  {
    var begun := BeginControlFlowSpec(parts, args, first, []);
    Then(begun, NextChain(begun.parts, begun.args, middles))
  }

  function NextChain(parts: seq<string>, args: seq<Arg>, middles: seq<string>): Added
    decreases |middles|
  {
    if |middles| == 0 then EndControlFlowSpec(parts, args)
    else
      var r := NextControlFlowSpec(parts, args, middles[0], []);
      Then(r, NextChain(r.parts, r.args, middles[1..]))
  }

  lemma {:induction false} NextChainBalanced(parts: seq<string>, args: seq<Arg>, middles: seq<string>)
    requires forall i :: 0 <= i < |middles| ==> '$' !in middles[i]
    ensures NextChain(parts, args, middles).outcome == Pass
    ensures Balance(NextChain(parts, args, middles).parts) == Balance(parts) - 1
    decreases |middles|
  {
    if |middles| == 0 {
      EndControlFlowShape(parts, args);
      BalanceAppend(parts, ["$<", "}\n"]);
    } else {
      var added := ["$<", "} " + middles[0] + " {\n", "$>"];
      NextControlFlowShape(parts, args, middles[0], []);
      BalanceAppend(parts, added);
      var text := "} " + middles[0] + " {\n";
      assert |text| > 2;
      assert ["$>"][1..] == [] && [text, "$>"][1..] == ["$>"] && added[1..] == [text, "$>"];
      assert Balance(["$>"]) == 1;
      assert Balance([text, "$>"]) == 1;
      assert Balance(added) == 0;
      NextChainBalanced(parts + added, args, middles[1..]);
    }
  }

  /** A begin / next* / end chain of `$`-free control flows nets zero indentation. */
  lemma ControlFlowNetsZero(parts: seq<string>, args: seq<Arg>, first: string, middles: seq<string>)
    requires '$' !in first
    requires forall i :: 0 <= i < |middles| ==> '$' !in middles[i]
    ensures ControlFlowChain(parts, args, first, middles).outcome == Pass
    ensures Balance(ControlFlowChain(parts, args, first, middles).parts) == Balance(parts)
  {
    BeginControlFlowShape(parts, args, first, []);
    var added := [first + " {\n", "$>"];
    BalanceAppend(parts, added);
    assert |first + " {\n"| > 2;
    assert ["$>"][1..] == [] && added[1..] == ["$>"];
    assert Balance(["$>"]) == 1;
    assert Balance(added) == 1;
    NextChainBalanced(parts + added, args, middles);
  }
}
