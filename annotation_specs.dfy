/**
 * `AnnotationSpec` and its builder. The builder keeps its members in a linked map from member
 * name to the list of values given for it: here a sequence of `Member`s with distinct names,
 * in the order the names were first added.
 *
 * How an annotation is written is `Emission.EmitAnnotation`.
 */
module AnnotationSpecs {
  import opened Wrappers
  import opened Specs
  import Util
  import CodeBlocks

  // ---------------------------------------------------------------------------------------
  // The member map

  /** The position of the first member called `name`, if there is one. */
  function Find(members: seq<Member>, name: string): (r: Option<nat>)
    ensures r.Some? ==> r.value < |members| && members[r.value].name == name
    ensures r.Some? ==> forall j :: 0 <= j < r.value ==> members[j].name != name
    ensures r.None? ==> forall j :: 0 <= j < |members| ==> members[j].name != name
  {
    if members == [] then None
    else if members[0].name == name then Some(0)
    else match Find(members[1..], name)
      case Some(i) => Some(i + 1)
      case None => None
  }

  /** `members[name]`: the values given for `name`, none when it has no entry. */
  function ValuesOf(members: seq<Member>, name: string): seq<CodeBlock>
  {
    match Find(members, name)
    case Some(i) => members[i].values
    case None => []
  }

  function Names(members: seq<Member>): (r: seq<string>)
    ensures |r| == |members| && forall i :: 0 <= i < |members| ==> r[i] == members[i].name
  {
    seq(|members|, i requires 0 <= i < |members| => members[i].name)
  }

  /** A linked map holds each key once. */
  predicate DistinctNames(members: seq<Member>)
  {
    forall i, j :: 0 <= i < j < |members| ==> members[i].name != members[j].name
  }

  /** Every entry the builder makes has at least one value. */
  predicate AllHaveValues(members: seq<Member>)
  {
    forall i :: 0 <= i < |members| ==> members[i].values != []
  }

  /**
   * `LinkedHashMap.put(name, values)`: an existing entry takes the new values where it
   * stands; a new key goes last.
   */
  function Put(members: seq<Member>, name: string, values: seq<CodeBlock>): (r: seq<Member>)
    ensures ValuesOf(r, name) == values
    ensures forall n :: n != name ==> ValuesOf(r, n) == ValuesOf(members, n)
    ensures Names(r) == if name in Names(members) then Names(members) else Names(members) + [name]
    ensures DistinctNames(members) ==> DistinctNames(r)
    ensures |members| <= |r| && forall i :: 0 <= i < |r| ==> r[i].values == values || r[i] == members[i]
  {
    match Find(members, name)
    case Some(i) =>
      var r := members[i := Member(name, values)];
      assert Find(r, name) == Some(i) by {
        FindSame(members, r, name);
      }
      forall n | n != name
        ensures ValuesOf(r, n) == ValuesOf(members, n)
      {
        FindSame(members, r, n);
      }
      assert Names(r) == Names(members);
      r
    case None =>
      var r := members + [Member(name, values)];
      assert Find(r, name) == Some(|members|) by {
        FindAppended(members, Member(name, values), name);
      }
      forall n | n != name
        ensures ValuesOf(r, n) == ValuesOf(members, n)
      {
        FindAppended(members, Member(name, values), n);
      }
      assert name !in Names(members);
      r
  }

  /** Two member lists with the same names at the same positions find every name at the same place. */
  lemma {:induction false} FindSame(a: seq<Member>, b: seq<Member>, name: string)
    requires Names(a) == Names(b)
    ensures Find(a, name) == Find(b, name)
    decreases |a|
  {
    if a != [] && a[0].name != name {
      assert Names(a[1..]) == Names(b[1..]) by {
        assert forall i :: 0 <= i < |a| - 1 ==> Names(a[1..])[i] == Names(a)[i + 1];
      }
      FindSame(a[1..], b[1..], name);
    }
  }

  /** Appending a member leaves the names already present where they were. */
  lemma {:induction false} FindAppended(members: seq<Member>, m: Member, name: string)
    ensures Find(members + [m], name)
         == if Find(members, name).Some? then Find(members, name)
            else if m.name == name then Some(|members|) else None
    decreases |members|
  {
    if members != [] {
      assert (members + [m])[1..] == members[1..] + [m];
      FindAppended(members[1..], m, name);
    }
  }

  /**
   * `addMember(name, codeBlock)`: the value is added at the end of the name's list, and a
   * name seen for the first time gets a list of its own at the end of the map.
   */
  function AddMemberTo(members: seq<Member>, name: string, block: CodeBlock): (r: seq<Member>)
  {
    Put(members, name, ValuesOf(members, name) + [block])
  }

  /** `addMember` appends to the list of its name alone, and keeps a well-formed map well formed. */
  lemma AddMemberValues(members: seq<Member>, name: string, block: CodeBlock)
    ensures ValuesOf(AddMemberTo(members, name, block), name) == ValuesOf(members, name) + [block]
    ensures forall n :: n != name ==> ValuesOf(AddMemberTo(members, name, block), n) == ValuesOf(members, n)
    ensures Names(AddMemberTo(members, name, block))
         == if name in Names(members) then Names(members) else Names(members) + [name]
    ensures DistinctNames(members) && AllHaveValues(members) ==>
      DistinctNames(AddMemberTo(members, name, block)) && AllHaveValues(AddMemberTo(members, name, block))
  {
    var r := AddMemberTo(members, name, block);
    assert forall i :: 0 <= i < |r| ==> r[i].values == ValuesOf(members, name) + [block] || r[i] == members[i];
  }

  // ---------------------------------------------------------------------------------------
  // build()

  function Pairs(members: seq<Member>): (r: seq<(string, seq<CodeBlock>)>)
    ensures |r| == |members|
    ensures forall i :: 0 <= i < |members| ==> r[i] == (members[i].name, members[i].values)
  {
    seq(|members|, i requires 0 <= i < |members| => (members[i].name, members[i].values))
  }

  function Unpairs(pairs: seq<(string, seq<CodeBlock>)>): (r: seq<Member>)
    ensures |r| == |pairs|
    ensures forall i :: 0 <= i < |pairs| ==> r[i] == Member(pairs[i].0, pairs[i].1)
  {
    seq(|pairs|, i requires 0 <= i < |pairs| => Member(pairs[i].0, pairs[i].1))
  }

  /** The members of the built spec, as the library copies them (`Util.immutableMultimap` as written). */
  function BuiltAsWritten(members: seq<Member>): seq<Member>
  {
    Unpairs(Util.ImmutableMultimapAsWritten(Pairs(members)))
  }

  /** The members of the built spec, copied as intended: entries without values are skipped. */
  function Built(members: seq<Member>): seq<Member>
  {
    Unpairs(Util.ImmutableMultimap(Pairs(members)))
  }

  /** As written, `build()` loses every member a builder holds. */
  lemma BuiltAsWrittenLosesMembers(members: seq<Member>)
    ensures AllHaveValues(members) ==> BuiltAsWritten(members) == []
  {
    if AllHaveValues(members) {
      Util.ImmutableMultimapAsWrittenDropsAll(Pairs(members));
    }
  }

  /** As intended, `build()` keeps every member a builder holds, in order. */
  lemma BuiltKeepsMembers(members: seq<Member>)
    ensures AllHaveValues(members) ==> Built(members) == members
  {
    if AllHaveValues(members) {
      Util.ImmutableMultimapKeepsAll(Pairs(members));
      assert Unpairs(Pairs(members)) == members;
    }
  }

  // ---------------------------------------------------------------------------------------
  // The builder

  /** `AnnotationSpec.Builder`: the annotation type and the member map. */
  class Builder {
    const annotationType: TypeName
    var members: seq<Member>

    /** The map has each name once, and every name has a value. */
    predicate Valid()
      reads this
    {
      DistinctNames(members) && AllHaveValues(members)
    }

    constructor (annotationType: TypeName)
      ensures Valid()
      ensures this.annotationType == annotationType && members == []
    {
      this.annotationType := annotationType;
      members := [];
    }

    /** `addMember(name, codeBlock)`: look the name up, give it a list if it has none, append. */
    method AddMember(name: string, codeBlock: CodeBlock)
      requires Valid()
      modifies this
      ensures Valid()
      ensures members == AddMemberTo(old(members), name, codeBlock)
    {
      AddMemberValues(members, name, codeBlock);
      var found := Find(members, name);
      var values: seq<CodeBlock>;
      if found.None? {
        values := [];
      } else {
        values := members[found.value].values;
      }
      members := Put(members, name, values + [codeBlock]);
    }

    /**
     * `addMember(name, format, *args)`: the value is `CodeBlock.of(format, *args)`; a format
     * that does not parse throws and leaves the builder as it was.
     */
    method AddMemberFormat(name: string, format: string, args: seq<Arg>) returns (outcome: Outcome)
      requires Valid()
      modifies this
      ensures Valid()
      ensures outcome.Pass? <==> CodeBlocks.Of(format, args).Ok?
      ensures outcome.Fail? ==> outcome.error == CodeBlocks.Of(format, args).error && members == old(members)
      ensures outcome.Pass? ==> members == AddMemberTo(old(members), name, CodeBlocks.Of(format, args).value)
    {
      var block := CodeBlocks.Of(format, args);
      if block.Err? {
        return Fail(block.error);
      }
      AddMember(name, block.value);
      return Pass;
    }

    /** `build()` as written: the member map goes through `immutableMultimap`, which drops every member. */
    function BuildAsWritten(): (a: AnnotationSpec)
      reads this
      ensures a.annotationType == annotationType
      ensures Valid() ==> a.members == []
    {
      BuiltAsWrittenLosesMembers(members);
      AnnotationSpec(annotationType, BuiltAsWritten(members))
    }

    /** `build()` as intended: the spec has exactly the builder's members, in order. */
    function Build(): (a: AnnotationSpec)
      reads this
      ensures a.annotationType == annotationType
      ensures Valid() ==> a.members == members
    {
      BuiltKeepsMembers(members);
      AnnotationSpec(annotationType, Built(members))
    }
  }

  /** `AnnotationSpec.builder(type)`. */
  method NewBuilder(annotationType: ClassName) returns (b: Builder)
    ensures fresh(b) && b.Valid()
    ensures b.annotationType == Class(annotationType) && b.members == []
  {
    b := new Builder(Class(annotationType));
  }

  // ---------------------------------------------------------------------------------------
  // toBuilder()

  /** The map `put` one member after another builds. */
  function PutAll(members: seq<Member>): (r: seq<Member>)
  {
    if members == [] then []
    else
      var last := members[|members| - 1];
      Put(PutAll(members[..|members| - 1]), last.name, last.values)
  }

  /** Putting members whose names are distinct rebuilds exactly those members. */
  lemma {:induction false} PutAllDistinct(members: seq<Member>)
    requires DistinctNames(members)
    ensures PutAll(members) == members
  {
    if members != [] {
      var init := members[..|members| - 1];
      var last := members[|members| - 1];
      assert DistinctNames(init);
      PutAllDistinct(init);
      assert last.name !in Names(init);
      PutNew(init, last);
      assert init + [last] == members;
    }
  }

  /** A name not yet in the map is put at the end. */
  lemma PutNew(members: seq<Member>, m: Member)
    requires m.name !in Names(members)
    ensures Put(members, m.name, m.values) == members + [m]
  {
    assert Find(members, m.name).None?;
  }

  /** One more `put` extends the map built from a prefix. */
  lemma PutAllStep(members: seq<Member>, i: nat)
    requires i < |members|
    ensures PutAll(members[..i + 1]) == Put(PutAll(members[..i]), members[i].name, members[i].values)
  {
    assert members[..i + 1][..i] == members[..i];
  }

  /**
   * `toBuilder()`: a builder of the same type whose map receives each member of the spec in
   * turn.
   */
  method ToBuilder(a: AnnotationSpec) returns (b: Builder)
    ensures fresh(b)
    ensures b.annotationType == a.annotationType && b.members == PutAll(a.members)
  {
    b := new Builder(a.annotationType);
    for i := 0 to |a.members|
      invariant b.members == PutAll(a.members[..i])
    {
      PutAllStep(a.members, i);
      b.members := Put(b.members, a.members[i].name, a.members[i].values);
    }
    assert a.members[..|a.members|] == a.members;
  }

  /** Building, then `toBuilder()`, gives back a builder with the same member map. */
  lemma RebuildRoundTrip(members: seq<Member>)
    requires DistinctNames(members) && AllHaveValues(members)
    ensures PutAll(Built(members)) == members
  {
    BuiltKeepsMembers(members);
    PutAllDistinct(members);
  }
}
