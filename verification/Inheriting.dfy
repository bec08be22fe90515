/**
 * What flattening means for records, said of one list: every field the bases bring, base after base, and
 * then the record's own. Each short name stands where it is mentioned first and as it is mentioned last.
 */
module Inheriting {
  import opened Common
  import opened Strings
  import opened FieldLists
  import opened Flatten

  /** No later field of the list has this one's short name. */
  predicate LastMention(all: seq<Field>, m: nat)
    requires m < |all|
  {
    forall n :: m < n < |all| ==> ShortName(all[n].name) != ShortName(all[m].name)
  }

  /** No earlier field of the list has this one's short name. */
  predicate FirstMention(all: seq<Field>, m: nat)
    requires m < |all|
  {
    forall n :: 0 <= n < m ==> ShortName(all[n].name) != ShortName(all[m].name)
  }

  /** The `i`-th field of `out` is the one whose short name is mentioned first at `at[i]`. */
  predicate Placed(out: seq<Field>, all: seq<Field>, at: seq<nat>) {
    && |at| == |out|
    && (forall i :: 0 <= i < |at| ==> at[i] < |all| && FirstMention(all, at[i]))
    && (forall i :: 0 <= i < |at| ==> ShortName(all[at[i]].name) == ShortName(out[i].name))
    && (forall i, j :: 0 <= i < j < |at| ==> at[i] < at[j])
  }

  /** The field is mentioned, and its short name not again. */
  predicate Ends(all: seq<Field>, f: Field) {
    exists m :: 0 <= m < |all| && LastMention(all, m) && all[m] == f
  }

  /** One field a short name: in the order of first mentions, each as last mentioned, none left out. */
  ghost predicate Stands(out: seq<Field>, all: seq<Field>) {
    (exists at: seq<nat> :: Placed(out, all, at)) && forall f :: f in out <==> Ends(all, f)
  }

  // ---- putting fields one after another ----

  lemma DistinctStands(out: seq<Field>, all: seq<Field>)
    requires Stands(out, all)
    ensures Distinct(out)
  {
    var at :| Placed(out, all, at);
    forall i, j | 0 <= i < j < |out| ensures Short(out[i]) != Short(out[j]) {
      assert at[i] < at[j] && FirstMention(all, at[j]);
    }
  }

  lemma {:induction false} PutStands(fields: seq<Field>)
    ensures Stands(PutAll([], fields), fields)
  {
    hide Stands, Put;
    if fields == [] {
      NothingStands();
    } else {
      var n := |fields| - 1;
      PutStands(fields[..n]);
      OneMoreStands(PutAll([], fields[..n]), fields[..n], fields[n]);
      assert fields == fields[..n] + [fields[n]];
    }
  }

  lemma NothingStands()
    ensures Stands([], [])
  {
    assert Placed([], [], []);
  }

  lemma OneMoreStands(out: seq<Field>, all: seq<Field>, f: Field)
    requires Stands(out, all)
    ensures Stands(Put(out, f), all + [f])
  {
    hide ShortName, Position, Ends, Placed, Put;
    var at := Places(out, all);
    OneMorePlaced(out, all, f, at);
    forall g ensures g in Put(out, f) <==> Ends(all + [f], g) {
      OneMorePut(out, all, f, g);
      OneMoreEnds(all, f, g);
    }
  }

  lemma OneMorePut(out: seq<Field>, all: seq<Field>, f: Field, g: Field)
    requires Stands(out, all)
    ensures g in Put(out, f) <==> g == f || (g in out && Short(g) != Short(f))
  {
    hide ShortName, Position, Ends, Placed, Stands;
    DistinctStands(out, all);
    var i, more := Position(out, Short(f)), Put(out, f);
    assert more[if i < 0 then |out| else i] == f;
    if g in out && Short(g) != Short(f) {
      var j :| 0 <= j < |out| && out[j] == g;
      assert more[j] == g;
    }
    if g in more && g != f {
      var j :| 0 <= j < |more| && more[j] == g;
      assert out[j] == g;
      assert i >= 0 ==> Short(out[i]) == Short(f);
    }
  }

  lemma OneMoreEnds(all: seq<Field>, f: Field, g: Field)
    ensures Ends(all + [f], g) <==> g == f || (Ends(all, g) && Short(g) != Short(f))
  {
    hide ShortName;
    var more := all + [f];
    assert LastMention(more, |all|) && more[|all|] == f;
    if Ends(all, g) && Short(g) != Short(f) {
      var m :| 0 <= m < |all| && LastMention(all, m) && all[m] == g;
      assert LastMention(more, m) && more[m] == g;
    }
    if Ends(more, g) && g != f {
      var m :| 0 <= m < |more| && LastMention(more, m) && more[m] == g;
      assert Short(more[|all|]) != Short(more[m]);
      assert LastMention(all, m) by {
        forall n | m < n < |all| ensures Short(all[n]) != Short(all[m]) {
          assert more[n] == all[n];
        }
      }
    }
  }

  lemma OneMorePlaced(out: seq<Field>, all: seq<Field>, f: Field, at: seq<nat>)
    requires Placed(out, all, at) && Stands(out, all)
    ensures Placed(Put(out, f), all + [f], if Position(out, Short(f)) < 0 then at + [|all|] else at)
  {
    hide ShortName, Position, Placed, Stands;
    if Position(out, Short(f)) < 0 {
      NewPlaced(out, all, f, at);
    } else {
      ReplacedPlaced(out, all, f, at);
    }
  }

  lemma StillFirst(all: seq<Field>, f: Field, m: nat)
    requires m < |all| && FirstMention(all, m)
    ensures FirstMention(all + [f], m) && (all + [f])[m] == all[m]
  {
    hide ShortName;
  }

  lemma ReplacedPlaced(out: seq<Field>, all: seq<Field>, f: Field, at: seq<nat>)
    requires Placed(out, all, at) && Position(out, Short(f)) >= 0
    ensures Placed(Put(out, f), all + [f], at)
  {
    hide ShortName, Position, FirstMention;
    forall j | 0 <= j < |at| ensures FirstMention(all + [f], at[j]) && (all + [f])[at[j]] == all[at[j]] {
      StillFirst(all, f, at[j]);
    }
  }

  lemma NewPlaced(out: seq<Field>, all: seq<Field>, f: Field, at: seq<nat>)
    requires Placed(out, all, at) && Stands(out, all) && Position(out, Short(f)) < 0
    ensures Placed(Put(out, f), all + [f], at + [|all|])
  {
    hide ShortName, Position, FirstMention, Stands;
    forall j | 0 <= j < |at| ensures FirstMention(all + [f], at[j]) && (all + [f])[at[j]] == all[at[j]] {
      StillFirst(all, f, at[j]);
    }
    forall n | 0 <= n < |all| ensures Short(all[n]) != Short(f) {
      Mentioned(out, all, n);
    }
    assert FirstMention(all + [f], |all|) by { NoneBefore(all, f); }
  }

  lemma NoneBefore(all: seq<Field>, f: Field)
    requires forall n :: 0 <= n < |all| ==> Short(all[n]) != Short(f)
    ensures FirstMention(all + [f], |all|)
  {
    hide ShortName;
  }

  /** Every short name mentioned is there. */
  lemma {:induction false} Mentioned(out: seq<Field>, all: seq<Field>, n: nat)
    requires Stands(out, all) && n < |all|
    ensures exists j :: 0 <= j < |out| && Short(out[j]) == Short(all[n])
    decreases |all| - n
  {
    hide ShortName;
    if LastMention(all, n) {
      assert Ends(all, all[n]);
      assert all[n] in out;
    } else {
      var m :| n < m < |all| && Short(all[m]) == Short(all[n]);
      Mentioned(out, all, m);
    }
  }

  lemma {:induction false} PutAllJoined(list: seq<Field>, a: seq<Field>, b: seq<Field>)
    ensures PutAll(PutAll(list, a), b) == PutAll(list, a + b)
  {
    hide Put;
    if b == [] {
      assert a + b == a;
    } else {
      var n := |b| - 1;
      PutAllJoined(list, a, b[..n]);
      assert (a + b)[..|a + b| - 1] == a + b[..n];
    }
  }

  // ---- merging own fields is putting them after the inherited ones ----

  lemma MergedStands(inherited: seq<Field>, own: seq<Field>, before: seq<Field>)
    requires Stands(inherited, before)
    ensures Stands(Merged(inherited, PutAll([], own)), before + own)
  {
    hide ShortName, Position, Stands, PutAll, Merged;
    PutStands(own);
    var mine := PutAll([], own);
    DistinctStands(inherited, before);
    DistinctStands(mine, own);
    MergedPlaced(inherited, mine, before, own);
    forall f ensures f in Merged(inherited, mine) <==> Ends(before + own, f) {
      InMerged(inherited, mine, f);
      EndsOfJoined(inherited, mine, before, own, f);
    }
    StandsIf(Merged(inherited, mine), before + own);
  }

  lemma StandsIf(out: seq<Field>, all: seq<Field>)
    requires exists at: seq<nat> :: Placed(out, all, at)
    requires forall f :: f in out <==> Ends(all, f)
    ensures Stands(out, all)
  {
    hide Placed, Ends;
  }

  /** A merged list has the own fields, and of the inherited ones those the record does not declare. */
  lemma InMerged(inherited: seq<Field>, mine: seq<Field>, f: Field)
    requires Distinct(inherited) && Distinct(mine)
    ensures f in Merged(inherited, mine) <==>
              f in mine || (f in inherited && forall k :: 0 <= k < |mine| ==> Short(mine[k]) != Short(f))
  {
    hide ShortName, Position, Added;
    AddedAre(inherited, mine);
    var out := Merged(inherited, mine);
    if f in mine {
      var k :| 0 <= k < |mine| && mine[k] == f;
      PositionIs(mine, Short(f), k);
      if Position(inherited, Short(f)) >= 0 {
        assert out[Position(inherited, Short(f))] == f;
      } else {
        assert f in Added(inherited, mine) && f in out;
      }
    } else if f in inherited && forall k :: 0 <= k < |mine| ==> Short(mine[k]) != Short(f) {
      var i :| 0 <= i < |inherited| && inherited[i] == f;
      PositionIs(mine, Short(f), -1);
      assert out[i] == f;
    }
    forall j | |inherited| <= j < |out| ensures out[j] in mine {
      assert out[j] in Added(inherited, mine);
    }
    if f in out && f !in mine {
      var j :| 0 <= j < |out| && out[j] == f;
      assert j < |inherited|;
    }
  }

  lemma EndsOfJoined(inherited: seq<Field>, mine: seq<Field>, before: seq<Field>, own: seq<Field>, f: Field)
    requires Stands(inherited, before) && Stands(mine, own)
    ensures Ends(before + own, f) <==>
              f in mine || (f in inherited && forall k :: 0 <= k < |mine| ==> Short(mine[k]) != Short(f))
  {
    hide ShortName, Stands, LastMention;
    var all := before + own;
    if f in mine {
      OwnEnds(mine, before, own, f);
    } else if f in inherited && forall k :: 0 <= k < |mine| ==> Short(mine[k]) != Short(f) {
      InheritedEnds(inherited, mine, before, own, f);
    }
    if Ends(all, f) {
      var m :| 0 <= m < |all| && LastMention(all, m) && all[m] == f;
      EndsWhere(inherited, mine, before, own, m);
    }
  }

  lemma OwnEnds(mine: seq<Field>, before: seq<Field>, own: seq<Field>, f: Field)
    requires Stands(mine, own) && f in mine
    ensures Ends(before + own, f)
  {
    hide ShortName;
    assert Ends(own, f);
    var n :| 0 <= n < |own| && LastMention(own, n) && own[n] == f;
    assert LastMention(before + own, |before| + n) && (before + own)[|before| + n] == f;
  }

  lemma InheritedEnds(inherited: seq<Field>, mine: seq<Field>, before: seq<Field>, own: seq<Field>, f: Field)
    requires Stands(inherited, before) && Stands(mine, own) && f in inherited
    requires forall k :: 0 <= k < |mine| ==> Short(mine[k]) != Short(f)
    ensures Ends(before + own, f)
  {
    hide ShortName, Stands;
    var all := before + own;
    assert Ends(before, f) by { StandsEnds(inherited, before, f); }
    var m :| 0 <= m < |before| && LastMention(before, m) && before[m] == f;
    forall n | m < n < |all| ensures Short(all[n]) != Short(all[m]) {
      if n >= |before| {
        Mentioned(mine, own, n - |before|);
      }
    }
    assert LastMention(all, m) && all[m] == f;
  }

  lemma StandsEnds(out: seq<Field>, all: seq<Field>, f: Field)
    requires Stands(out, all)
    ensures f in out <==> Ends(all, f)
  {}

  lemma EndsWhere(inherited: seq<Field>, mine: seq<Field>, before: seq<Field>, own: seq<Field>, m: nat)
    requires Stands(inherited, before) && Stands(mine, own) && m < |before + own| && LastMention(before + own, m)
    ensures var f := (before + own)[m];
            f in mine || (f in inherited && forall k :: 0 <= k < |mine| ==> Short(mine[k]) != Short(f))
  {
    hide ShortName;
    var all := before + own;
    if m < |before| {
      forall k | 0 <= k < |mine| ensures Short(mine[k]) != Short(all[m]) {
        assert Ends(own, mine[k]);
        var n :| 0 <= n < |own| && LastMention(own, n) && own[n] == mine[k];
        assert all[|before| + n] == own[n];
      }
      assert LastMention(before, m) by {
        forall n | m < n < |before| ensures Short(before[n]) != Short(before[m]) {
          assert all[n] == before[n];
        }
      }
      assert Ends(before, all[m]);
    } else {
      var n := m - |before|;
      assert LastMention(own, n) by {
        forall k | n < k < |own| ensures Short(own[k]) != Short(own[n]) {
          assert all[|before| + k] == own[k];
        }
      }
      assert Ends(own, all[m]);
    }
  }

  /** Inherited names keep their places, and the record's own new ones follow in its own order. */
  lemma MergedPlaced(inherited: seq<Field>, mine: seq<Field>, before: seq<Field>, own: seq<Field>)
    requires Stands(inherited, before) && Stands(mine, own) && Distinct(inherited) && Distinct(mine)
    ensures exists at: seq<nat> :: Placed(Merged(inherited, mine), before + own, at)
  {
    hide ShortName, Position, Stands, Added;
    var at := Places(inherited, before);
    var own' := Places(mine, own);
    var n := |mine|;
    assert mine[..n] == mine;
    var more := AddedPlaced(inherited, mine, before, own, own', n);
    var all := at + more;
    forall i | 0 <= i < |at|
      ensures FirstMention(before + own, at[i]) && Short((before + own)[at[i]]) == Short(Merged(inherited, mine)[i])
    {
      assert FirstMention(before, at[i]);
    }
    assert Placed(Merged(inherited, mine), before + own, all);
  }

  lemma Places(out: seq<Field>, all: seq<Field>) returns (at: seq<nat>)
    requires Stands(out, all)
    ensures Placed(out, all, at)
  {
    at :| Placed(out, all, at);
  }

  lemma {:induction false} AddedPlaced(inherited: seq<Field>, mine: seq<Field>, before: seq<Field>, own: seq<Field>,
                                       at: seq<nat>, n: nat)
    returns (more: seq<nat>)
    requires Stands(inherited, before) && Placed(mine, own, at) && n <= |mine|
    ensures Placed(Added(inherited, mine[..n]), before + own, more)
    ensures forall i :: 0 <= i < |more| ==> |before| <= more[i] && (n == 0 || more[i] <= |before| + at[n - 1])
  {
    hide ShortName, Position, Stands;
    more := [];
    if n > 0 {
      var front := mine[..n];
      assert front[..n - 1] == mine[..n - 1];
      more := AddedPlaced(inherited, mine, before, own, at, n - 1);
      assert n > 1 ==> at[n - 2] < at[n - 1];
      if Position(inherited, Short(front[n - 1])) < 0 {
        NewMention(inherited, before, own, at[n - 1], Short(front[n - 1]));
        more := more + [|before| + at[n - 1]];
      }
    }
  }

  lemma NewMention(inherited: seq<Field>, before: seq<Field>, own: seq<Field>, m: nat, short: string)
    requires Stands(inherited, before) && m < |own| && FirstMention(own, m) && Short(own[m]) == short
    requires forall j :: 0 <= j < |inherited| ==> Short(inherited[j]) != short
    ensures FirstMention(before + own, |before| + m) && Short((before + own)[|before| + m]) == short
  {
    hide ShortName, Stands;
    var all := before + own;
    forall n | 0 <= n < |before| + m ensures Short(all[n]) != Short(all[|before| + m]) {
      if n < |before| {
        Mentioned(inherited, before, n);
      } else {
        assert all[n] == own[n - |before|];
      }
    }
  }

  // ---- what a record's bases bring ----

  /** A base's fields as they reach the record: specialized, and marked with the base unless marked before. */
  function Brought(def: Def, base: string, fields: seq<Field>): (brought: seq<Field>)
    ensures |brought| == |fields|
  {
    seq(|fields|, i requires 0 <= i < |fields| =>
      Field(fields[i].name, Some(if fields[i].inheritedFrom.Some? then fields[i].inheritedFrom.value else base),
            def.specialize(fields[i].body)))
  }

  /** The fields the first `k` bases bring, base after base. */
  function Mentions(raw: Defs, visiting: set<string>, def: Def, k: nat): seq<Field>
    requires k <= |def.bases|
  {
    if k == 0 then []
    else
      var base := Flat(raw, visiting, def.bases[k - 1]);
      Mentions(raw, visiting, def, k - 1) +
        (if base.Ok? && base.value.fields.Ok? then Brought(def, def.bases[k - 1], base.value.fields.value) else [])
  }

  lemma BroughtIs(def: Def, base: string, fields: seq<Field>)
    ensures FromBase(def, fields, base) == Brought(def, base, fields)
  {
    hide Tagged;
    forall i | 0 <= i < |fields| ensures FromBase(def, fields, base)[i] == Brought(def, base, fields)[i] {
      var f := fields[i];
      assert FromBase(def, fields, base)[i] == Tagged(f.(body := def.specialize(f.body)), base);
      TaggedIs(f, base, def.specialize(f.body));
    }
  }

  lemma TaggedIs(f: Field, base: string, body: int)
    ensures Tagged(f.(body := body), base) ==
        Field(f.name, Some(if f.inheritedFrom.Some? then f.inheritedFrom.value else base), body)
  {}

  lemma {:induction false} InheritedIs(raw: Defs, visiting: set<string>, def: Def, k: nat)
    requires k <= |def.bases| && Inherited(raw, visiting, def, k).Ok?
    ensures Inherited(raw, visiting, def, k).value == PutAll([], Mentions(raw, visiting, def, k))
    ensures forall j :: 0 <= j < k ==>
        Flat(raw, visiting, def.bases[j]).Ok? && Flat(raw, visiting, def.bases[j]).value.fields.Ok?
  {
    hide Flat, PutAll, FromBase, Brought;
    if k == 0 {
      assert PutAll([], []) == [] by { NothingPut(); }
    } else {
      InheritedIs(raw, visiting, def, k - 1);
      var fields := Flat(raw, visiting, def.bases[k - 1]).value.fields.value;
      BroughtIs(def, def.bases[k - 1], fields);
      PutAllJoined([], Mentions(raw, visiting, def, k - 1), Brought(def, def.bases[k - 1], fields));
    }
  }

  lemma NothingPut()
    ensures PutAll([], []) == []
  {}

  /**
   * A record that extends others has each short name that its flattened bases or itself mention, once: in the
   * order of first mentions, bases first, and with the field mentioned last, the record's own over any base's.
   */
  lemma RecordIsMerged(raw: Defs, visiting: set<string>, name: string)
    requires Flat(raw, visiting, name).Ok? && raw[name].kind.RecordKind? && raw[name].bases != []
    ensures var def, around := raw[name], visiting + {name};
            && (forall k :: 0 <= k < |def.bases| ==>
                  Flat(raw, around, def.bases[k]).Ok? && Flat(raw, around, def.bases[k]).value.fields.Ok?)
            && def.fields.Ok? && Flat(raw, visiting, name).value.fields.Ok?
            && Stands(Flat(raw, visiting, name).value.fields.value,
                      Mentions(raw, around, def, |def.bases|) + def.fields.value)
  {
    hide PutAll, Merged, Inherited, Stands, Mentions;
    var def, around := raw[name], visiting + {name};
    InheritedIs(raw, around, def, |def.bases|);
    PutStands(Mentions(raw, around, def, |def.bases|));
    MergedStands(Inherited(raw, around, def, |def.bases|).value, def.fields.value,
                 Mentions(raw, around, def, |def.bases|));
  }

  /** A definition without bases, or of another kind, is left as it is. */
  lemma OthersStay(raw: Defs, visiting: set<string>, name: string)
    requires name in raw && name !in visiting && (raw[name].bases == [] || raw[name].kind.OtherKind?)
    ensures Flat(raw, visiting, name) == Ok(raw[name])
  {}

  /** Only the fields of a record, or the symbols of an enum, are touched. */
  lemma RestStays(raw: Defs, visiting: set<string>, name: string)
    requires Flat(raw, visiting, name).Ok?
    ensures var was, now := raw[name], Flat(raw, visiting, name).value;
            && now == was.(fields := now.fields, symbols := now.symbols)
            && (!was.kind.RecordKind? ==> now.fields == was.fields)
            && (!was.kind.EnumKind? ==> now.symbols == was.symbols)
  {
    hide Inherited, BaseSymbols;
  }

  /** The overrides recorded: the last own field of each inherited short name, beside the inherited one. */
  lemma {:induction false} OverridesAreThese(record: string, inherited: seq<Field>, own: seq<Field>, o: Override)
    requires Distinct(own)
    ensures o in OverridesIn(record, inherited, own) <==>
              && o.record == record && o.inherited in inherited && o.own in own
              && ShortName(o.own.name) == ShortName(o.inherited.name)
              && o.base == (if o.inherited.inheritedFrom.Some? then o.inherited.inheritedFrom.value else "")
  {
    hide ShortName, Position;
    if inherited != [] {
      var n := |inherited| - 1;
      OverridesAreThese(record, inherited[..n], own, o);
      assert inherited == inherited[..n] + [inherited[n]];
      if o.inherited == inherited[n] && o.own in own && Short(o.own) == Short(inherited[n]) {
        var k :| 0 <= k < |own| && own[k] == o.own;
        PositionIs(own, Short(inherited[n]), k);
      }
    }
  }

  /** Of several definitions of a name the last one counts. */
  lemma {:induction false} LastDefinitionCounts(defs: seq<Def>)
    ensures forall name :: name in RawOf(defs) ==> Defines(defs, name, RawOf(defs)[name])
  {
    hide Defines;
    if defs != [] {
      var n := |defs| - 1;
      var front := defs[..n];
      LastDefinitionCounts(front);
      assert defs == front + [defs[n]];
      forall name | name in RawOf(defs) ensures Defines(defs, name, RawOf(defs)[name]) {
        OneMoreDefines(front, defs[n], name);
      }
    }
  }

  /** Names are listed once each, as they first appear. */
  lemma {:induction false} ListedOnce(defs: seq<Def>)
    ensures exists at: seq<nat> :: Appear(defs, OrderOf(defs), at)
  {
    hide Appear, RawOf;
    if defs == [] {
      NoneAppear();
      assert Appear(defs, OrderOf(defs), []);
    } else {
      var n := |defs| - 1;
      var front := defs[..n];
      ListedOnce(front);
      assert defs == front + [defs[n]];
      var at: seq<nat> :| Appear(front, OrderOf(front), at);
      OrderNamesAll(front, defs[n].name);
      OneMoreAppears(front, defs[n], OrderOf(front), at);
      assert [] + OrderOf(front) == OrderOf(front) == OrderOf(front) + [];
      if defs[n].name in OrderOf(front) {
        assert Appear(defs, OrderOf(defs), at);
      } else {
        assert Appear(defs, OrderOf(defs), at + [n]);
      }
    }
  }

  lemma NoneAppear()
    ensures Appear([], [], [])
  {}

  ghost predicate Defines(defs: seq<Def>, name: string, def: Def) {
    exists i :: 0 <= i < |defs| && LastDefinition(defs, i) && defs[i] == def && def.name == name
  }

  predicate LastDefinition(defs: seq<Def>, i: nat)
    requires i < |defs|
  {
    forall j :: i < j < |defs| ==> defs[j].name != defs[i].name
  }

  lemma OneMoreDefines(defs: seq<Def>, def: Def, name: string)
    ensures name == def.name ==> Defines(defs + [def], name, def)
    ensures name != def.name && name in RawOf(defs) && Defines(defs, name, RawOf(defs)[name]) ==>
        Defines(defs + [def], name, RawOf(defs)[name])
  {
    var more := defs + [def];
    assert LastDefinition(more, |defs|) && more[|defs|] == def;
    if name != def.name && name in RawOf(defs) && Defines(defs, name, RawOf(defs)[name]) {
      var i :| 0 <= i < |defs| && LastDefinition(defs, i) && defs[i] == RawOf(defs)[name] && defs[i].name == name;
      assert LastDefinition(more, i) && more[i] == defs[i];
    }
  }

  /** The names listed are those of definitions that are the first of their name, in order, and all of them. */
  predicate Appear(defs: seq<Def>, order: seq<string>, at: seq<nat>) {
    && |at| == |order| && (forall i, j :: 0 <= i < j < |at| ==> at[i] < at[j])
    && (forall i :: 0 <= i < |at| ==> at[i] < |defs| && defs[at[i]].name == order[i] && FirstOfName(defs, at[i]))
    && (forall i :: 0 <= i < |defs| ==> defs[i].name in order)
  }

  predicate FirstOfName(defs: seq<Def>, i: nat)
    requires i < |defs|
  {
    forall j :: 0 <= j < i ==> defs[j].name != defs[i].name
  }

  lemma OneMoreAppears(defs: seq<Def>, def: Def, order: seq<string>, at: seq<nat>)
    requires Appear(defs, order, at)
    ensures def.name in order ==> Appear(defs + [def], order, at)
    ensures def.name !in order ==> Appear(defs + [def], order + [def.name], at + [|defs|])
  {
    var more := defs + [def];
    forall i | 0 <= i < |at| ensures FirstOfName(more, at[i]) && more[at[i]] == defs[at[i]] {
      assert FirstOfName(defs, at[i]);
    }
    if def.name !in order {
      forall j | 0 <= j < |defs| ensures more[j].name != def.name {
        assert defs[j].name in order;
      }
      assert FirstOfName(more, |defs|);
      var names := order + [def.name];
      assert names[|order|] == def.name;
      forall i | 0 <= i < |more| ensures more[i].name in names {
        assert i < |defs| ==> defs[i].name in order;
      }
    }
  }
}
