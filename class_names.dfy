/**
 * `ClassName`: a package and a chain of nested simple names, with the navigation operations
 * between enclosing, nested and peer classes, the canonical and reflection spellings, and
 * `bestGuess`, which recovers a class name from its canonical spelling by the usual Java
 * naming conventions.
 *
 * The constructor is private and every caller passes a package and at least one simple name;
 * the accessors below are total and answer placeholders for shorter lists, which no caller
 * can build.
 */
module ClassNames {
  import opened Wrappers
  import opened Strings
  import opened Jdk
  import opened Specs

  /** The construction invariant: a package and at least one simple name, each a valid name. */
  predicate Valid(c: ClassName)
  {
    |c.names| >= 2 && forall i :: 1 <= i < |c.names| ==> IsName(c.names[i])
  }

  /**
   * The private constructor: indexing the package fails on an empty list, and every part
   * after the package must be a valid name.
   */
  function Of(names: seq<string>, annotations: seq<AnnotationSpec>): (r: Result<ClassName>)
    ensures |names| == 0 ==> r == Err(IndexOutOfBounds)
    ensures |names| >= 1 ==>
      (r.Ok? <==> forall i :: 1 <= i < |names| ==> IsName(names[i]))
    ensures r.Ok? ==> r.value == ClassName(names, annotations)
    ensures |names| >= 1 && r.Err? ==> r.error == IllegalArgument
  {
    if |names| == 0 then Err(IndexOutOfBounds)
    else if forall i :: 1 <= i < |names| ==> IsName(names[i]) then Ok(ClassName(names, annotations))
    else Err(IllegalArgument)
  }

  /** `ClassName.get(packageName, simpleName, simpleNames...)`. */
  function Get(packageName: string, simpleName: string, simpleNames: seq<string>): (r: Result<ClassName>)
    ensures r.Ok? <==> IsName(simpleName) && forall i :: 0 <= i < |simpleNames| ==> IsName(simpleNames[i])
    ensures r.Ok? ==> (Valid(r.value) && PackageName(r.value) == packageName
      && SimpleNames(r.value) == [simpleName] + simpleNames)
  {
    var names := [packageName] + ([simpleName] + simpleNames);
    PartsValid(packageName, [simpleName] + simpleNames);
    AllNamesCons(simpleName, simpleNames);
    Of(names, [])
  }

  /** The parts after the package are all valid names exactly when each simple name is. */
  lemma PartsValid(packageName: string, simpleNames: seq<string>)
    ensures (forall i :: 1 <= i < |[packageName] + simpleNames| ==> IsName(([packageName] + simpleNames)[i]))
      <==> (forall i :: 0 <= i < |simpleNames| ==> IsName(simpleNames[i]))
  {
    var names := [packageName] + simpleNames;
    assert forall i :: 1 <= i < |names| ==> names[i] == simpleNames[i - 1];
    assert forall i :: 0 <= i < |simpleNames| ==> simpleNames[i] == names[i + 1];
  }

  lemma AllNamesCons(first: string, rest: seq<string>)
    ensures (forall i :: 0 <= i < |[first] + rest| ==> IsName(([first] + rest)[i]))
      <==> IsName(first) && forall i :: 0 <= i < |rest| ==> IsName(rest[i])
  {
    var names := [first] + rest;
    assert names[0] == first;
    assert forall i :: 0 <= i < |rest| ==> rest[i] == names[i + 1];
    assert forall i :: 1 <= i < |names| ==> names[i] == rest[i - 1];
  }

  /** Appending a name keeps the parts valid exactly when the appended name is valid. */
  lemma AppendPartsValid(names: seq<string>, name: string)
    requires |names| >= 1
    ensures (forall i :: 1 <= i < |names + [name]| ==> IsName((names + [name])[i]))
      <==> (forall i :: 1 <= i < |names| ==> IsName(names[i])) && IsName(name)
  {
    var longer := names + [name];
    assert forall i :: 0 <= i < |names| ==> longer[i] == names[i];
    assert longer[|names|] == name;
  }

  /** `canonicalName`: the parts joined by dots, leaving out an empty package. */
  function CanonicalName(c: ClassName): string
  {
    if |c.names| == 0 then []
    else if c.names[0] == [] then Join(".", c.names[1..])
    else Join(".", c.names)
  }

  function PackageName(c: ClassName): string
  {
    if |c.names| == 0 then [] else c.names[0]
  }

  function SimpleNames(c: ClassName): seq<string>
  {
    if |c.names| == 0 then [] else c.names[1..]
  }

  function SimpleName(c: ClassName): string
  {
    if |c.names| == 0 then [] else c.names[|c.names| - 1]
  }

  /** `enclosingClassName()`: absent for a top-level class, else the class one level out. */
  function EnclosingClassName(c: ClassName): (r: Option<ClassName>)
    ensures r.None? <==> |c.names| <= 2
    ensures r.Some? ==> r.value == ClassName(c.names[..|c.names| - 1], [])
    ensures r.Some? && Valid(c) ==> Valid(r.value) && PackageName(r.value) == PackageName(c)
  {
    if |c.names| <= 2 then None else Some(ClassName(c.names[..|c.names| - 1], []))
  }

  /** `topLevelClassName()`: the package and the outermost simple name. */
  function TopLevelClassName(c: ClassName): (r: ClassName)
    ensures Valid(c) ==> (Valid(r) && |r.names| == 2
      && PackageName(r) == PackageName(c) && SimpleName(r) == c.names[1])
  {
    if |c.names| < 2 then ClassName(c.names, []) else ClassName(c.names[..2], [])
  }

  /** Following `enclosingClassName()` until it is absent. */
  function Outermost(c: ClassName): ClassName
    decreases |c.names|
  {
    match EnclosingClassName(c)
    case None => ClassName(c.names, [])
    case Some(e) => Outermost(e)
  }

  /** The top-level class is where the chain of enclosing classes ends. */
  lemma {:induction false} TopLevelIsOutermost(c: ClassName)
    requires |c.names| >= 2
    ensures Outermost(c) == TopLevelClassName(c)
    decreases |c.names|
  {
    match EnclosingClassName(c)
    case None =>
      assert c.names[..2] == c.names;
    case Some(e) =>
      TopLevelIsOutermost(e);
      assert e.names[..2] == c.names[..2];
  }

  /** `nestedClass(name)`. */
  function NestedClass(c: ClassName, name: string): (r: Result<ClassName>)
    ensures Valid(c) ==> (r.Ok? <==> IsName(name))
    ensures r.Ok? ==> SimpleName(r.value) == name
    ensures r.Ok? && |c.names| >= 2 ==>
      (EnclosingClassName(r.value) == Some(ClassName(c.names, [])) && PackageName(r.value) == PackageName(c))
    ensures Valid(c) && r.Ok? ==> Valid(r.value)
  {
    var names := c.names + [name];
    assert names[..|names| - 1] == c.names;
    if |c.names| == 0 then Of(names, [])
    else
      AppendPartsValid(c.names, name);
      Of(names, [])
  }

  /** `peerClass(name)`: the same package and enclosing classes, another last simple name. */
  function PeerClass(c: ClassName, name: string): (r: Result<ClassName>)
    ensures |c.names| == 0 ==> r == Err(IndexOutOfBounds)
    ensures Valid(c) ==> (r.Ok? <==> IsName(name))
    ensures r.Ok? ==> (|r.value.names| == |c.names| && SimpleName(r.value) == name
      && r.value.names[..|c.names| - 1] == c.names[..|c.names| - 1])
  {
    if |c.names| == 0 then Err(IndexOutOfBounds)
    else
      var names := c.names[..|c.names| - 1] + [name];
      assert names[..|c.names| - 1] == c.names[..|c.names| - 1];
      assert names[|names| - 1] == name;
      assert forall i :: 0 <= i < |names| - 1 ==> names[i] == c.names[i];
      Of(names, [])
  }

  /** The `$`-prefixed nested names of a reflection name. */
  function NestedSuffix(names: seq<string>): string
  {
    if names == [] then [] else "$" + names[0] + NestedSuffix(names[1..])
  }

  /**
   * `reflectionName()`: the top-level class as spelled in source, then `$` and each nested
   * name (the top-level class renders as its canonical name).
   */
  function ReflectionName(c: ClassName): string
  {
    if |c.names| == 2 then
      if c.names[0] == [] then c.names[1] else c.names[0] + "." + c.names[1]
    else
      CanonicalName(TopLevelClassName(c)) + NestedSuffix(if |c.names| < 2 then [] else c.names[2..])
  }

  /**
   * Both branches of `reflectionName` follow one rule: the top-level canonical name, then a
   * `$` before each nested simple name; without a package there is no leading dot.
   */
  lemma ReflectionNameShape(c: ClassName)
    requires Valid(c)
    ensures ReflectionName(c) == CanonicalName(TopLevelClassName(c)) + NestedSuffix(c.names[2..])
    ensures CanonicalName(TopLevelClassName(c))
      == (if PackageName(c) == [] then c.names[1] else PackageName(c) + "." + c.names[1])
  {
    var top := TopLevelClassName(c);
    assert top.names[1..] == [c.names[1]];
    assert Join(".", top.names) == c.names[0] + "." + c.names[1] by {
      assert top.names[1..] == [c.names[1]];
    }
  }

  /** `compareTo`: class names are ordered by their canonical names. */
  function CompareTo(a: ClassName, b: ClassName): (r: int)
    ensures r == 0 <==> CanonicalName(a) == CanonicalName(b)
    ensures r == -Compare(CanonicalName(b), CanonicalName(a))
  {
    CompareZero(CanonicalName(a), CanonicalName(b));
    CompareAntisymmetric(CanonicalName(a), CanonicalName(b));
    Compare(CanonicalName(a), CanonicalName(b))
  }

  // bestGuess

  /**
   * The package scan of `bestGuess`: while the character at `p` is lower case, jump past the
   * next dot; a lower-case segment with no dot after it fails.
   */
  function PackageEnd(s: string, p: nat): (r: Option<nat>)
    requires p <= |s|
    ensures r.Some? ==> p <= r.value <= |s|
    decreases |s| - p
  {
    if p < |s| && IsLowerCase(s[p]) then
      var q := IndexOf(s, '.', p) + 1;
      if q == 0 then None else PackageEnd(s, q)
    else Some(p)
  }

  /** A class segment `bestGuess` accepts: non-empty and starting with an upper-case letter. */
  predicate ClassSegment(part: string)
  {
    part != [] && IsUpperCase(part[0])
  }

  /** What `bestGuess` answers for a string. */
  function BestGuessOf(s: string): Result<ClassName>
  {
    match PackageEnd(s, 0)
    case None => Err(IllegalArgument)
    case Some(p) =>
      var parts := Split(s[p..], '.');
      if exists i :: 0 <= i < |parts| && !ClassSegment(parts[i]) then Err(IllegalArgument)
      else Of([if p != 0 then s[..p - 1] else []] + parts, [])
  }

  /** `ClassName.bestGuess(classNameString)`. */
  method BestGuess(s: string) returns (r: Result<ClassName>)
    ensures r == BestGuessOf(s)
    ensures r.Ok? ==> Valid(r.value) && CanonicalName(r.value) == s
  {
    var p: nat := 0;
    while p < |s| && IsLowerCase(s[p])
      invariant p <= |s|
      invariant PackageEnd(s, 0) == PackageEnd(s, p)
      decreases |s| - p
    {
      var q := IndexOf(s, '.', p) + 1;
      if q == 0 {
        return Err(IllegalArgument);
      }
      p := q;
    }
    assert PackageEnd(s, 0) == Some(p);
    var pkg := if p != 0 then s[..p - 1] else [];
    var names: seq<string> := [pkg];
    var parts := Split(s[p..], '.');
    var i := 0;
    while i < |parts|
      invariant 0 <= i <= |parts|
      invariant names == [pkg] + parts[..i]
      invariant forall k :: 0 <= k < i ==> ClassSegment(parts[k])
    {
      if !ClassSegment(parts[i]) {
        assert BestGuessOf(s) == Err(IllegalArgument);
        return Err(IllegalArgument);
      }
      names := names + [parts[i]];
      i := i + 1;
    }
    assert parts[..i] == parts;
    if |names| < 2 {
      return Err(IllegalArgument);
    }
    r := Of(names, []);
    assert r == BestGuessOf(s);
    if r.Ok? {
      BestGuessSpells(s);
    }
  }

  /** Whatever `bestGuess` accepts, the result's canonical name spells the input back. */
  lemma BestGuessSpells(s: string)
    requires BestGuessOf(s).Ok?
    ensures Valid(BestGuessOf(s).value) && CanonicalName(BestGuessOf(s).value) == s
  {
    var p := PackageEnd(s, 0).value;
    var parts := Split(s[p..], '.');
    JoinSplit(s[p..], '.');
    var c := BestGuessOf(s).value;
    if p == 0 {
      assert c.names[1..] == parts;
    } else {
      PackageEndAfterDot(s, 0);
      assert c.names[0] == s[..p - 1] && s[0] != '.';
      assert c.names[0] != [];
      assert Join(".", c.names) == s[..p - 1] + "." + Join(".", parts) by {
        assert c.names[1..] == parts;
      }
      assert s == s[..p - 1] + "." + s[p..] by {
        assert s[p - 1] == '.';
      }
    }
  }

  /** A non-empty package scan stops just past a dot, and the string does not start with one. */
  lemma {:induction false} PackageEndAfterDot(s: string, p: nat)
    requires p <= |s|
    requires PackageEnd(s, p).Some? && PackageEnd(s, p).value != p
    ensures var e := PackageEnd(s, p).value; e >= 1 && s[e - 1] == '.' && s[p] != '.'
    decreases |s| - p
  {
    var q := IndexOf(s, '.', p) + 1;
    if PackageEnd(s, q).value != q {
      PackageEndAfterDot(s, q);
    }
  }

  /**
   * The conventional class names `bestGuess` is meant for: package segments that start with a
   * lower-case letter, simple names that are identifiers starting with an upper-case letter.
   */
  predicate Conventional(c: ClassName)
  {
    |c.names| >= 2
    && (c.names[0] == [] || forall k :: 0 <= k < |Split(c.names[0], '.')| ==>
          var seg := Split(c.names[0], '.')[k]; seg != [] && IsLowerCase(seg[0]))
    && forall i :: 1 <= i < |c.names| ==> IsIdentifier(c.names[i]) && IsUpperCase(c.names[i][0])
  }

  /** The package scan walks over a conventional package and stops at the first class segment. */
  lemma {:induction false} PackageEndSkips(segments: seq<string>, rest: string, prefix: string)
    requires forall k :: 0 <= k < |segments| ==>
      segments[k] != [] && IsLowerCase(segments[k][0]) && '.' !in segments[k]
    requires rest == [] || !IsLowerCase(rest[0])
    ensures var s := prefix + Join(".", segments + [rest]);
      PackageEnd(s, |prefix|) == Some(|s| - |rest|)
    decreases |segments|
  {
    var s := prefix + Join(".", segments + [rest]);
    if segments == [] {
      assert segments + [rest] == [rest];
      assert s == prefix + rest;
    } else {
      var seg := segments[0];
      var tail := Join(".", segments[1..] + [rest]);
      assert (segments + [rest])[1..] == segments[1..] + [rest];
      assert Join(".", segments + [rest]) == seg + "." + tail;
      var prefix' := prefix + seg + ".";
      assert s == prefix' + tail;
      assert s[|prefix|] == seg[0];
      DotAfter(prefix, seg, tail);
      PackageEndSkips(segments[1..], rest, prefix');
    }
  }

  lemma DotAfter(prefix: string, seg: string, tail: string)
    requires '.' !in seg
    ensures IndexOf(prefix + seg + "." + tail, '.', |prefix|) == |prefix| + |seg|
  {
    var s := prefix + seg + "." + tail;
    assert forall k :: |prefix| <= k < |prefix| + |seg| ==> s[k] == seg[k - |prefix|];
    assert s[|prefix| + |seg|] == '.';
  }

  /** `bestGuess` recovers every conventional class name from its canonical name. */
  lemma BestGuessRoundTrip(c: ClassName)
    requires Valid(c) && Conventional(c)
    ensures BestGuessOf(CanonicalName(c)) == Ok(ClassName(c.names, []))
  {
    var simple := c.names[1..];
    assert forall k :: 0 <= k < |simple| ==> '.' !in simple[k] by {
      forall k | 0 <= k < |simple|
        ensures '.' !in simple[k]
      {
        assert IsIdentifier(c.names[k + 1]);
      }
    }
    SplitJoin(simple, '.');
    if c.names[0] == [] {
      BestGuessRoundTripDefault(c);
    } else {
      BestGuessRoundTripPackaged(c);
    }
  }

  /** The case of `BestGuessRoundTrip` for a class in the default package. */
  lemma BestGuessRoundTripDefault(c: ClassName)
    requires Valid(c) && Conventional(c) && c.names[0] == []
    requires Split(Join(".", c.names[1..]), '.') == c.names[1..]
    ensures BestGuessOf(CanonicalName(c)) == Ok(ClassName(c.names, []))
  {
    var simple := c.names[1..];
    var classes := Join(".", simple);
    var s := CanonicalName(c);
    PackageEndSkips([], classes, []);
    assert [] + Join(".", [] + [classes]) == classes;
    assert s == classes;
    assert s[0..] == s;
    assert [[]] + simple == c.names;
  }

  /** The case of `BestGuessRoundTrip` for a class in a named package. */
  lemma BestGuessRoundTripPackaged(c: ClassName)
    requires Valid(c) && Conventional(c) && c.names[0] != []
    requires Split(Join(".", c.names[1..]), '.') == c.names[1..]
    ensures BestGuessOf(CanonicalName(c)) == Ok(ClassName(c.names, []))
  {
    var simple := c.names[1..];
    var classes := Join(".", simple);
    var s := CanonicalName(c);
    PackagedLayout(c);
    var p := |c.names[0]| + 1;
    assert s[p..] == classes;
    assert s[..p - 1] == c.names[0];
    assert [c.names[0]] + simple == c.names;
  }

  /** A packaged canonical name is the package, a dot and the simple names; the scan stops after the dot. */
  lemma PackagedLayout(c: ClassName)
    requires Valid(c) && Conventional(c) && c.names[0] != []
    ensures var s := CanonicalName(c);
      s == c.names[0] + "." + Join(".", c.names[1..])
      && PackageEnd(s, 0) == Some(|c.names[0]| + 1)
  {
    var simple := c.names[1..];
    var classes := Join(".", simple);
    assert Join(".", c.names) == c.names[0] + "." + classes by {
      assert c.names == [c.names[0]] + simple;
    }
    assert classes[0] == c.names[1][0] by {
      assert IsIdentifier(c.names[1]);
    }
    PackageEndAfterPackage(c.names[0], classes);
  }

  /** The package scan stops right after a conventional package and its dot. */
  lemma PackageEndAfterPackage(pkg: string, classes: string)
    requires forall k :: 0 <= k < |Split(pkg, '.')| ==>
      var seg := Split(pkg, '.')[k]; seg != [] && IsLowerCase(seg[0])
    requires classes != [] && IsUpperCase(classes[0])
    ensures PackageEnd(pkg + "." + classes, 0) == Some(|pkg| + 1)
  {
    var segments := Split(pkg, '.');
    JoinSplit(pkg, '.');
    assert forall k :: 0 <= k < |segments| ==> '.' !in segments[k];
    JoinAppend(segments, classes);
    PackageEndSkips(segments, classes, []);
    assert [] + Join(".", segments + [classes]) == pkg + "." + classes;
  }

  /** Joining pieces and then one more with a dot is joining the extended list. */
  lemma {:induction false} JoinAppend(parts: seq<string>, last: string)
    requires |parts| >= 1
    ensures Join(".", parts + [last]) == Join(".", parts) + "." + last
    decreases |parts|
  {
    if |parts| == 1 {
      assert (parts + [last])[1..] == [last];
    } else {
      JoinAppend(parts[1..], last);
      assert (parts + [last])[1..] == parts[1..] + [last];
    }
  }
}
