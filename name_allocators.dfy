/**
 * `NameAllocator`: hands out Java identifiers that are neither keywords nor already taken,
 * and remembers which tag each name was handed out for.
 */
module NameAllocators {
  import opened Wrappers
  import opened Strings
  import opened Jdk

  /** A character `toJavaIdentifier` keeps, or `_` in its place. */
  function Sanitized(c: char): (r: char)
    ensures IsJavaIdentifierPart(r)
    ensures IsJavaIdentifierPart(c) ==> r == c
  {
    if IsJavaIdentifierPart(c) then c else '_'
  }

  /**
   * What `toJavaIdentifier(suggestion)` returns: every character that cannot be part of an
   * identifier becomes `_`, and `_` goes in front of a first character that may be part of
   * an identifier but cannot start one.
   */
  function SanitizedName(s: string): string
  {
    var body := seq(|s|, i requires 0 <= i < |s| => Sanitized(s[i]));
    if |s| > 0 && !IsJavaIdentifierStart(s[0]) && IsJavaIdentifierPart(s[0]) then "_" + body else body
  }

  /** Any non-empty suggestion becomes an identifier. */
  lemma SanitizedIsIdentifier(s: string)
    requires s != []
    ensures IsIdentifier(SanitizedName(s))
    ensures |s| <= |SanitizedName(s)| <= |s| + 1
  {
    var r := SanitizedName(s);
    if !IsJavaIdentifierStart(s[0]) && IsJavaIdentifierPart(s[0]) {
      assert forall i :: 1 <= i < |r| ==> r[i] == Sanitized(s[i - 1]);
    }
  }

  /** An identifier is left as it is. */
  lemma SanitizedKeepsIdentifier(s: string)
    requires IsIdentifier(s)
    ensures SanitizedName(s) == s
  {
  }

  /** Sanitizing twice is sanitizing once. */
  lemma SanitizedIdempotent(s: string)
    ensures SanitizedName(SanitizedName(s)) == SanitizedName(s)
  {
    if s != [] {
      SanitizedIsIdentifier(s);
      SanitizedKeepsIdentifier(SanitizedName(s));
    }
  }

  /** One more character of the suggestion adds its replacement, after the `_` prefix if it is the first. */
  lemma SanitizedStep(s: string, i: nat)
    requires i < |s|
    ensures SanitizedName(s[..i + 1]) == SanitizedName(s[..i])
      + (if i == 0 && !IsJavaIdentifierStart(s[0]) && IsJavaIdentifierPart(s[0]) then "_" else "")
      + [Sanitized(s[i])]
  {
    var a, b := s[..i], s[..i + 1];
    var bodyA := seq(|a|, j requires 0 <= j < |a| => Sanitized(a[j]));
    var bodyB := seq(|b|, j requires 0 <= j < |b| => Sanitized(b[j]));
    assert bodyB == bodyA + [Sanitized(s[i])];
    if i > 0 {
      assert a[0] == b[0];
    }
  }

  /** `toJavaIdentifier(suggestion)`: one character at a time. */
  method ToJavaIdentifier(suggestion: string) returns (result: string)
    ensures result == SanitizedName(suggestion)
  {
    result := "";
    var i := 0;
    while i < |suggestion|
      invariant 0 <= i <= |suggestion|
      invariant result == SanitizedName(suggestion[..i])
    {
      var c := suggestion[i];
      SanitizedStep(suggestion, i);
      if i == 0 && !IsJavaIdentifierStart(c) && IsJavaIdentifierPart(c) {
        result := result + "_";
      }
      var valid := if IsJavaIdentifierPart(c) then c else '_';
      result := result + [valid];
      i := i + 1;
    }
    assert suggestion[..i] == suggestion;
  }

  /** The names that are neither taken nor keywords, and at least as long as `s`. */
  function Blocking(taken: set<string>, s: string): set<string>
  {
    set n | n in taken + Keywords && |n| >= |s|
  }

  /** Appending `_` to a blocked name leaves fewer blocking names. */
  lemma BlockingShrinks(taken: set<string>, s: string)
    requires IsKeyword(s) || s in taken
    ensures Blocking(taken, s + "_") < Blocking(taken, s)
  {
    assert s in Blocking(taken, s) && s !in Blocking(taken, s + "_");
  }

  /**
   * The name the loop of `newName` settles on: `s` followed by as many `_` as it takes to
   * reach a name that is neither a keyword nor taken.
   */
  function Allocate(taken: set<string>, s: string): (name: string)
    ensures name !in taken && !IsKeyword(name)
    ensures exists k: nat :: name == s + Repeat("_", k)
    decreases Blocking(taken, s)
  {
    if IsKeyword(s) || s in taken then
      BlockingShrinks(taken, s);
      var name := Allocate(taken, s + "_");
      ghost var k: nat :| name == s + "_" + Repeat("_", k);
      assert name == s + Repeat("_", k + 1);
      name
    else
      assert s == s + Repeat("_", 0);
      s
  }

  /** Appending `_` to an identifier, or to nothing, gives an identifier. */
  lemma UnderscoresKeepIdentifier(s: string, k: nat)
    requires s == [] || IsIdentifier(s)
    ensures k > 0 ==> IsIdentifier(s + Repeat("_", k))
    ensures s + Repeat("_", k) == [] || IsIdentifier(s + Repeat("_", k))
  {
    var r := s + Repeat("_", k);
    assert forall i :: |s| <= i < |r| ==> r[i] == '_' by {
      forall i | |s| <= i < |r|
        ensures r[i] == '_'
      {
        AllUnderscores(k, i - |s|);
      }
    }
  }

  lemma {:induction false} AllUnderscores(k: nat, i: nat)
    requires i < k
    ensures Repeat("_", k)[i] == '_'
  {
    if i > 0 {
      AllUnderscores(k - 1, i - 1);
    }
  }

  /** While the name is blocked, the loop may append `_` without changing where it ends. */
  lemma AllocateStep(taken: set<string>, s: string)
    requires IsKeyword(s) || s in taken
    ensures Allocate(taken, s + "_") == Allocate(taken, s)
  {
  }

  /** A name that is not blocked is where the loop ends. */
  lemma AllocateDone(taken: set<string>, s: string)
    requires !IsKeyword(s) && s !in taken
    ensures Allocate(taken, s) == s
  {
  }

  /** Every candidate the loop tries is an identifier, or empty for an empty suggestion. */
  lemma CandidateIsIdentifier(suggestion: string, k: nat)
    ensures var name := SanitizedName(suggestion) + Repeat("_", k); name == [] || IsIdentifier(name)
  {
    if suggestion != [] {
      SanitizedIsIdentifier(suggestion);
    }
    UnderscoresKeepIdentifier(SanitizedName(suggestion), k);
  }

  /** The loop of `newName`: `_` is appended while the name is a keyword or taken. */
  method FirstFree(taken: set<string>, start: string) returns (name: string)
    ensures name == Allocate(taken, start)
  {
    name := start;
    while IsKeyword(name) || name in taken
      invariant Allocate(taken, name) == Allocate(taken, start)
      decreases Blocking(taken, name)
    {
      BlockingShrinks(taken, name);
      AllocateStep(taken, name);
      name := name + "_";
    }
    AllocateDone(taken, name);
  }

  class NameAllocator {
    var allocatedNames: set<string>
    var tagToName: map<string, string>

    /**
     * Every name handed out is a legal identifier (or empty, for an empty suggestion) and
     * not a keyword, and every tagged name was handed out.
     */
    predicate Valid()
      reads this
    {
      && (forall n :: n in allocatedNames ==> !IsKeyword(n) && (n == [] || IsIdentifier(n)))
      && tagToName.Values <= allocatedNames
    }

    /** `NameAllocator()`: nothing allocated yet. */
    constructor ()
      ensures Valid()
      ensures allocatedNames == {} && tagToName == map[]
    {
      allocatedNames := {};
      tagToName := map[];
    }

    /**
     * `newName(suggestion, tag)`: the sanitized suggestion, with `_` appended until it is
     * neither a keyword nor taken. The name stays allocated even when the tag turns out to be
     * in use already, which fails.
     */
    method NewName(suggestion: string, tag: string) returns (r: Result<string>)
      requires Valid()
      modifies this
      ensures Valid()
      ensures var name := Allocate(old(allocatedNames), SanitizedName(suggestion));
        && allocatedNames == old(allocatedNames) + {name}
        && (r.Ok? <==> tag !in old(tagToName))
        && (r.Ok? ==> r.value == name && tagToName == old(tagToName)[tag := name])
        && (r.Err? ==> r.error == IllegalArgument && tagToName == old(tagToName))
    {
      var name := ToJavaIdentifier(suggestion);
      name := FirstFree(allocatedNames, name);
      ghost var k: nat :| name == SanitizedName(suggestion) + Repeat("_", k);
      CandidateIsIdentifier(suggestion, k);
      allocatedNames := allocatedNames + {name};
      if tag in tagToName {
        return Err(IllegalArgument);
      }
      tagToName := tagToName[tag := name];
      return Ok(name);
    }

    /** `get(tag)`: the name handed out for the tag; an unknown tag fails. */
    method Get(tag: string) returns (r: Result<string>)
      ensures r.Ok? <==> tag in tagToName
      ensures r.Ok? ==> r.value == tagToName[tag]
      ensures r.Err? ==> r.error == IllegalArgument
    {
      if tag !in tagToName {
        return Err(IllegalArgument);
      }
      return Ok(tagToName[tag]);
    }

    /** `clone()`: an independent allocator with the same names and tags. */
    method Clone() returns (copy: NameAllocator)
      requires Valid()
      ensures fresh(copy)
      ensures copy.Valid()
      ensures copy.allocatedNames == allocatedNames && copy.tagToName == tagToName
    {
      copy := new NameAllocator();
      copy.allocatedNames := allocatedNames;
      copy.tagToName := tagToName;
    }
  }
}
