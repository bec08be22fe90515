/**
 * Ordered field lists keyed by short name, and merging a record's inherited fields with its own. Locations
 * and the nodes a field holds besides its name and provenance are opaque.
 */
module FieldLists {
  import opened Common
  import opened Strings

  datatype Field = Field(name: string, inheritedFrom: Option<string>, body: int)

  datatype Kind = RecordKind | EnumKind | OtherKind

  /** A definition; a field list that is no list of mappings is an error, and a symbol that is no string is skipped. */
  datatype Def = Def(name: string, kind: Kind, bases: seq<string>, fields: Result<seq<Field>>,
                     symbols: Option<seq<Option<string>>>, specialize: int -> int)

  type Defs = map<string, Def>

  /** A field an extending record specified again. */
  datatype Override = Override(record: string, base: string, inherited: Field, own: Field)

  function Short(f: Field): string {
    ShortName(f.name)
  }

  // ---- field lists ----

  /** The position of a short name, or -1. */
  function Position(list: seq<Field>, short: string): (i: int)
    ensures -1 <= i < |list|
    ensures i >= 0 ==> Short(list[i]) == short
    ensures i < 0 ==> forall j :: 0 <= j < |list| ==> Short(list[j]) != short
  {
    if list == [] then -1
    else if Short(list[|list| - 1]) == short then |list| - 1
    else Position(list[..|list| - 1], short)
  }

  predicate Distinct(list: seq<Field>) {
    forall i, j :: 0 <= i < j < |list| ==> Short(list[i]) != Short(list[j])
  }

  function Got(list: seq<Field>, short: string): Option<Field> {
    if Position(list, short) < 0 then None else Some(list[Position(list, short)])
  }

  /** A field replaces one of the same short name where it stands. */
  function Put(list: seq<Field>, f: Field): seq<Field> {
    var i := Position(list, Short(f));
    if i < 0 then list + [f] else list[i := f]
  }

  function PutAll(list: seq<Field>, fields: seq<Field>): seq<Field> {
    if fields == [] then list else Put(PutAll(list, fields[..|fields| - 1]), fields[|fields| - 1])
  }

  class FieldList {
    var index: map<string, nat>
    var items: seq<Field>

    constructor ()
      ensures Valid() && items == []
    {
      index, items := map[], [];
    }

    ghost predicate Valid()
      reads this
    {
      && Distinct(items)
      && (forall short :: short in index <==> Position(items, short) >= 0)
      && forall short :: short in index ==> index[short] == Position(items, short)
    }

    method Add(f: Field)
      requires Valid()
      modifies this
      ensures Valid() && items == Put(old(items), f)
    {
      hide Position, ShortName;
      ghost var before := items;
      if Short(f) in index {
        items := items[index[Short(f)] := f];
      } else {
        index := index[Short(f) := |items|];
        items := items + [f];
      }
      PutKeepsPositions(before, f);
    }

    function Find(short: string): Option<Field>
      requires Valid()
      reads this
    {
      if short in index then Some(items[index[short]]) else None
    }
  }

  /** Positions stay where they are; a new short name comes last. */
  lemma PutKeepsPositions(list: seq<Field>, f: Field)
    requires Distinct(list)
    ensures Distinct(Put(list, f))
    ensures forall short :: Position(Put(list, f), short) ==
              if short == Short(f) && Position(list, short) < 0 then |list| else Position(list, short)
  {
    hide ShortName, Position;
    var out := Put(list, f);
    forall i | 0 <= i < |out| ensures Short(out[i]) == (if i < |list| then Short(list[i]) else Short(f)) {}
    forall short
      ensures Position(out, short) ==
          if short == Short(f) && Position(list, short) < 0 then |list| else Position(list, short)
    {
      var want := if short == Short(f) && Position(list, short) < 0 then |list| else Position(list, short);
      PositionIs(out, short, want);
    }
  }

  lemma PositionIs(list: seq<Field>, short: string, i: int)
    requires Distinct(list) && -1 <= i < |list|
    requires i >= 0 ==> Short(list[i]) == short
    requires i < 0 ==> forall j :: 0 <= j < |list| ==> Short(list[j]) != short
    ensures Position(list, short) == i
  {
    hide Position, ShortName;
  }

  /** A list built by adding fields holds, for each short name, the last field of that name. */
  lemma {:induction false} PutAllHoldsLast(list: seq<Field>, fields: seq<Field>, short: string)
    requires Distinct(list)
    ensures Distinct(PutAll(list, fields))
    ensures Got(PutAll(list, fields), short) ==
        if Position(fields, short) >= 0 then Some(fields[Position(fields, short)]) else Got(list, short)
  {
    hide ShortName;
    if fields != [] {
      var n := |fields| - 1;
      PutAllHoldsLast(list, fields[..n], short);
      PutKeepsPositions(PutAll(list, fields[..n]), fields[n]);
    }
  }

  // ---- merging ----

  /** A field inherited for the first time is tagged with the base it came from. */
  function Tagged(f: Field, base: string): Field {
    if f.inheritedFrom.Some? then f else f.(inheritedFrom := Some(base))
  }

  /** A base's fields as the extending record sees them. */
  function FromBase(def: Def, fields: seq<Field>, base: string): (out: seq<Field>)
    ensures |out| == |fields|
  {
    seq(|fields|, i requires 0 <= i < |fields| => Tagged(fields[i].(body := def.specialize(fields[i].body)), base))
  }

  /** Each inherited field, or the record's own field of that name in its place. */
  function Replaced(inherited: seq<Field>, own: seq<Field>): (out: seq<Field>)
    ensures |out| == |inherited|
  {
    seq(|inherited|, i requires 0 <= i < |inherited| =>
      if Got(own, Short(inherited[i])).Some? then Got(own, Short(inherited[i])).value else inherited[i])
  }

  /** The own fields that replace nothing. */
  function Added(inherited: seq<Field>, own: seq<Field>): seq<Field> {
    if own == [] then []
    else
      var n := |own| - 1;
      Added(inherited, own[..n]) + (if Position(inherited, Short(own[n])) < 0 then [own[n]] else [])
  }

  function Merged(inherited: seq<Field>, own: seq<Field>): seq<Field> {
    Replaced(inherited, own) + Added(inherited, own)
  }

  function OverridesIn(record: string, inherited: seq<Field>, own: seq<Field>): seq<Override> {
    if inherited == [] then []
    else
      var n := |inherited| - 1;
      OverridesIn(record, inherited[..n], own) +
      match Got(own, Short(inherited[n]))
      case None => []
      case Some(f) =>
        var origin := if inherited[n].inheritedFrom.Some? then inherited[n].inheritedFrom.value else "";
        [Override(record, origin, inherited[n], f)]
  }

  lemma {:induction false} AddedAre(inherited: seq<Field>, own: seq<Field>)
    requires Distinct(own)
    ensures Distinct(Added(inherited, own))
    ensures forall f :: f in Added(inherited, own) <==> f in own && Position(inherited, Short(f)) < 0
  {
    hide Position, ShortName;
    if own != [] {
      var n := |own| - 1;
      AddedAre(inherited, own[..n]);
      assert own == own[..n] + [own[n]];
      forall i | 0 <= i < |Added(inherited, own[..n])| ensures Short(Added(inherited, own[..n])[i]) != Short(own[n]) {
        assert Added(inherited, own[..n])[i] in own[..n];
      }
    }
  }

  /**
   * A merged list has one field a short name: the record's own if it declares one, otherwise the inherited
   * one. Inherited names keep their places, and names only the record declares follow.
   */
  lemma MergedIs(inherited: seq<Field>, own: seq<Field>, short: string)
    requires Distinct(inherited) && Distinct(own)
    ensures Distinct(Merged(inherited, own))
    ensures Got(Merged(inherited, own), short) ==
        if Got(own, short).Some? then Got(own, short) else Got(inherited, short)
    ensures forall i :: 0 <= i < |inherited| ==> Short(Merged(inherited, own)[i]) == Short(inherited[i])
    ensures Merged(inherited, own)[|inherited|..] == Added(inherited, own)
  {
    hide Position, ShortName, Added;
    AddedAre(inherited, own);
    var out, added := Merged(inherited, own), Added(inherited, own);
    MergedDistinct(inherited, own);
    var i := Position(inherited, short);
    if i >= 0 {
      assert Short(out[i]) == short;
      PositionIs(out, short, i);
    } else if Got(own, short).Some? {
      var f := Got(own, short).value;
      assert f in own && f in added;
      var j :| 0 <= j < |added| && added[j] == f;
      assert out[|inherited| + j] == f;
      PositionIs(out, short, |inherited| + j);
    } else {
      forall j | 0 <= j < |out| ensures Short(out[j]) != short {
        if j >= |inherited| {
          assert out[j] in added;
        }
      }
      PositionIs(out, short, -1);
    }
  }

  lemma MergedDistinct(inherited: seq<Field>, own: seq<Field>)
    requires Distinct(inherited) && Distinct(own)
    ensures Distinct(Merged(inherited, own))
  {
    hide Position, ShortName, Added;
    AddedAre(inherited, own);
    var out, added := Merged(inherited, own), Added(inherited, own);
    forall i, j | 0 <= i < j < |out| ensures Short(out[i]) != Short(out[j]) {
      if j >= |inherited| {
        assert out[j] == added[j - |inherited|] && out[j] in added;
        if i < |inherited| {
          assert Short(out[i]) == Short(inherited[i]);
        } else {
          assert out[i] == added[i - |inherited|];
        }
      }
    }
  }
}
