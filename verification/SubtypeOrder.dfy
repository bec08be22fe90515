/**
 * Subtyping as an order. It is reflexive, but a record that lacks an optional field lies between one that
 * has it at another type and one that wants it, so it is transitive only where no optional field is lost.
 */
module SubtypeOrder {
  import opened Common
  import opened Strings
  import opened Subtype

  /** A reference is a subtype of itself exactly if it leads somewhere. */
  lemma ReflexiveExactly(g: Graph, r: Ref)
    ensures IsSub(g, Pair(r, r)) <==> InGraph(g, r)
  {
    if InGraph(g, r) {
      AssumedOnly(g, {}, Pair(r, r));
    } else {
      if IsSub(g, Pair(r, r)) {
        GreatestFollows(g, {}, Pair(r, r));
      }
    }
  }

  // ---- plain graphs ----

  /** Unions have options, and none of these is again a union. */
  predicate FlatUnions(g: Graph) {
    forall n :: n in g.nodes && g.nodes[n].Union? ==> IsFlat(g, g.nodes[n].options)
  }

  predicate IsFlat(g: Graph, options: seq<Ref>) {
    options != [] && forall i :: 0 <= i < |options| ==>
      options[i].At? && options[i].node in g.nodes && !g.nodes[options[i].node].Union?
  }

  function NameOf(t: Type): string {
    if t.Enum? || t.Record? then t.name else ""
  }

  /** A name belongs to one node. */
  ghost predicate UniqueNames(g: Graph) {
    forall n, m :: n in g.nodes && m in g.nodes && SameTypeName(NameOf(g.nodes[n]), NameOf(g.nodes[m])) ==> n == m
  }

  predicate DistinctNames(fields: seq<Field>) {
    forall i, j :: 0 <= i < j < |fields| ==> ShortName(fields[i].name) != ShortName(fields[j].name)
  }

  predicate DistinctFields(g: Graph) {
    forall n :: n in g.nodes && g.nodes[n].Record? ==> DistinctNames(g.nodes[n].fields)
  }

  ghost predicate Supplies(g: Graph, have: seq<Field>, want: seq<Field>) {
    forall i :: 0 <= i < |want| ==> NarrowsField(g, have, want[i], Held(g, {}))
  }

  predicate IsRecord(g: Graph, r: Ref) {
    r.At? && r.node in g.nodes && g.nodes[r.node].Record?
  }

  ghost predicate Extends(g: Graph, sub: Type, super: Type)
    requires sub.Record? && super.Record?
  {
    super.name != "" && ExtendsName(g, sub.bases, super.name)
  }

  /** A record supplies the fields of every record it extends. */
  ghost predicate ExtendsSupplies(g: Graph) {
    forall n, m :: IsRecord(g, At(n)) && IsRecord(g, At(m)) && Extends(g, g.nodes[n], g.nodes[m]) ==>
      Supplies(g, g.nodes[n].fields, g.nodes[m].fields)
  }

  /** No empty, nested or looping union, no name or short field name used twice, and bases are honoured. */
  ghost predicate Plain(g: Graph) {
    Closed(g) && FlatUnions(g) && UniqueNames(g) && DistinctFields(g) && ExtendsSupplies(g)
  }

  // ---- the condition ----

  /** What the record between two others lacks, the first one lacks too or has at a narrower type. */
  ghost predicate NothingLost(g: Graph, a: Ref, b: Ref, c: Ref)
    requires IsRecord(g, a) && IsRecord(g, b) && IsRecord(g, c)
  {
    var have, between, want := g.nodes[a.node].fields, g.nodes[b.node].fields, g.nodes[c.node].fields;
    forall i :: 0 <= i < |want| && FieldNamed(between, want[i].name).None? && FieldNamed(have, want[i].name).Some? ==>
      IsSub(g, Pair(FieldNamed(have, want[i].name).value.of, want[i].of))
  }

  ghost predicate RecordBetween(g: Graph, a: Ref, b: Ref, c: Ref) {
    && IsRecord(g, a) && IsRecord(g, b) && IsRecord(g, c)
    && IsSub(g, Pair(a, b)) && IsSub(g, Pair(b, c))
  }

  ghost predicate KeepsOptional(g: Graph) {
    forall a, b, c :: RecordBetween(g, a, b, c) ==> NothingLost(g, a, b, c)
  }

  ghost predicate Transitive(g: Graph) {
    forall a, b, c :: IsSub(g, Pair(a, b)) && IsSub(g, Pair(b, c)) ==> IsSub(g, Pair(a, c))
  }

  // ---- what the relation gives for each kind ----

  lemma Unfold(g: Graph, a: Ref, b: Ref)
    requires IsSub(g, Pair(a, b))
    ensures Follows(g, Held(g, {}), Pair(a, b))
    ensures a.Nil? || b.Nil? ==> a == b
    ensures a.At? && b.At? ==> a.node in g.nodes && b.node in g.nodes
    ensures a.At? && b.At? && a != b ==> Narrows(g, Held(g, {}), Pair(a, b))
  {
    hide Narrows, Held, Greatest;
    GreatestFollows(g, {}, Pair(a, b));
  }

  lemma HeldIsSub(g: Graph, p: Pair)
    ensures p in Held(g, {}) <==> IsSub(g, p)
  {
    hide Consistent;
  }

  lemma Fold(g: Graph, p: Pair)
    requires Follows(g, Held(g, {}), p)
    ensures IsSub(g, p)
  {
    FollowsIsGreatest(g, {}, p);
  }

  /** Whatever is above a null admits null. */
  lemma NullStays(g: Graph, a: Ref, b: Ref)
    requires FlatUnions(g) && IsSub(g, Pair(a, b)) && IsNull(g, a)
    ensures AcceptsNull(g, b)
  {
    hide Held, ExtendsName;
    Unfold(g, a, b);
    if a != b && g.nodes[b.node].Union? {
      var options := g.nodes[b.node].options;
      var i :| 0 <= i < |options| && Pair(a, options[i]) in Held(g, {});
      HeldIsSub(g, Pair(a, options[i]));
      Unfold(g, a, options[i]);
      assert IsFlat(g, options);
      assert IsNull(g, options[i]);
    }
  }

  /** Whatever is above what admits null admits it too. */
  lemma NullableStays(g: Graph, a: Ref, b: Ref)
    requires FlatUnions(g) && IsSub(g, Pair(a, b)) && AcceptsNull(g, a)
    ensures AcceptsNull(g, b)
  {
    hide Held, ExtendsName, FlatUnions;
    Unfold(g, a, b);
    if IsNull(g, a) {
      NullStays(g, a, b);
    } else if a != b {
      var options := g.nodes[a.node].options;
      var i :| 0 <= i < |options| && IsNull(g, options[i]);
      HeldIsSub(g, Pair(options[i], b));
      NullStays(g, options[i], b);
    }
  }

  /** An option of a union is below whatever the union is below. */
  lemma OptionBelow(g: Graph, a: Ref, b: Ref, i: nat)
    requires FlatUnions(g) && IsSub(g, Pair(a, b))
    requires a.At? && a.node in g.nodes && g.nodes[a.node].Union? && i < |g.nodes[a.node].options|
    ensures IsSub(g, Pair(g.nodes[a.node].options[i], b))
  {
    hide Held, ExtendsName;
    var option := g.nodes[a.node].options[i];
    Unfold(g, a, b);
    assert IsFlat(g, g.nodes[a.node].options);
    HeldIsSub(g, Pair(option, b));
    ReflexiveExactly(g, option);
    HeldIsSub(g, Pair(option, option));
    if a == b || g.nodes[b.node] == Primitive(AnyKind) {
      assert Follows(g, Held(g, {}), Pair(option, b));
      Fold(g, Pair(option, b));
    }
  }

  // ---- composing ----

  ghost predicate Via(g: Graph, p: Pair, b: Ref) {
    IsSub(g, Pair(p.sub, b)) && IsSub(g, Pair(b, p.super))
  }

  /** The pairs linked in one step or in two. */
  ghost function Linked(g: Graph): iset<Pair> {
    iset p | IsSub(g, p) || exists b :: Via(g, p, b)
  }

  lemma InLinked(g: Graph, a: Ref, b: Ref, c: Ref)
    requires IsSub(g, Pair(a, b)) && IsSub(g, Pair(b, c))
    ensures Pair(a, c) in Linked(g)
  {
    hide IsSub;
    assert Via(g, Pair(a, c), b);
  }

  lemma SubIsLinked(g: Graph, p: Pair)
    requires IsSub(g, p)
    ensures p in Linked(g) && Follows(g, Linked(g), p)
  {
    hide Follows, Greatest;
    GreatestFollows(g, {}, p);
    assert Held(g, {}) <= Linked(g);
    FollowsMonotone(g, Held(g, {}), Linked(g), p);
  }

  /** Of fields with distinct short names, the one a name selects is the one of its short name. */
  lemma OneOfShort(fields: seq<Field>, name: string, other: string)
    requires DistinctNames(fields) && ShortName(name) == ShortName(other)
    ensures FieldNamed(fields, name) == FieldNamed(fields, other)
  {
    hide FieldNamed, ShortName;
    FieldNamedIs(fields, name);
    FieldNamedIs(fields, other);
    if FieldNamed(fields, name).Some? && FieldNamed(fields, other).Some? {
      var i :| 0 <= i < |fields| && fields[i] == FieldNamed(fields, name).value;
      var j :| 0 <= j < |fields| && fields[j] == FieldNamed(fields, other).value;
      assert ShortName(fields[i].name) == ShortName(fields[j].name);
      assert i == j;
    }
  }

  lemma FieldLinked(g: Graph, have: seq<Field>, between: seq<Field>, want: Field)
    requires FlatUnions(g) && DistinctNames(have) && Supplies(g, have, between)
    requires NarrowsField(g, between, want, Held(g, {}))
    requires FieldNamed(between, want.name).None? && FieldNamed(have, want.name).Some? ==>
        IsSub(g, Pair(FieldNamed(have, want.name).value.of, want.of))
    ensures NarrowsField(g, have, want, Linked(g))
  {
    hide FieldNamed, AcceptsNull, IsSub, Linked, FlatUnions, DistinctNames, ShortName;
    if FieldNamed(between, want.name).None? {
      if FieldNamed(have, want.name).Some? {
        SubIsLinked(g, Pair(FieldNamed(have, want.name).value.of, want.of));
      }
    } else {
      FieldNamedIs(between, want.name);
      var f := FieldNamed(between, want.name).value;
      var i :| 0 <= i < |between| && between[i] == f;
      assert NarrowsField(g, have, between[i], Held(g, {}));
      OneOfShort(have, f.name, want.name);
      HeldIsSub(g, Pair(f.of, want.of));
      if FieldNamed(have, want.name).Some? {
        var own := FieldNamed(have, want.name).value;
        HeldIsSub(g, Pair(own.of, f.of));
        InLinked(g, own.of, f.of, want.of);
      } else {
        NullableStays(g, f.of, want.of);
      }
    }
  }

  /** Between two different records, subtyping is field by field. */
  lemma RecordsSupply(g: Graph, a: Ref, b: Ref)
    requires Plain(g) && IsRecord(g, a) && IsRecord(g, b) && a != b && IsSub(g, Pair(a, b))
    ensures Supplies(g, g.nodes[a.node].fields, g.nodes[b.node].fields)
  {
    hide Held, ExtendsName, NarrowsField, IsSub, FlatUnions, Closed, DistinctFields;
    Unfold(g, a, b);
    assert !SameTypeName(NameOf(g.nodes[a.node]), NameOf(g.nodes[b.node]));
  }

  lemma RecordsLinked(g: Graph, a: Ref, b: Ref, c: Ref)
    requires Plain(g) && KeepsOptional(g)
    requires IsRecord(g, a) && IsRecord(g, b) && IsRecord(g, c) && a != b && b != c
    requires IsSub(g, Pair(a, b)) && IsSub(g, Pair(b, c))
    ensures Follows(g, Linked(g), Pair(a, c))
  {
    hide Held, ExtendsName, NarrowsField, IsSub, Closed, FlatUnions, ExtendsSupplies, UniqueNames, FieldNamed, Linked;
    hide DistinctNames;
    RecordsSupply(g, a, b);
    RecordsSupply(g, b, c);
    assert RecordBetween(g, a, b, c);
    var have, between, want := g.nodes[a.node].fields, g.nodes[b.node].fields, g.nodes[c.node].fields;
    forall i | 0 <= i < |want| ensures NarrowsField(g, have, want[i], Linked(g)) {
      FieldLinked(g, have, between, want[i]);
    }
  }

  /** Below Any and below what is above Any. */
  lemma AnyLinked(g: Graph, a: Ref, b: Ref, c: Ref)
    requires FlatUnions(g) && IsSub(g, Pair(a, b)) && IsSub(g, Pair(b, c)) && a != b && b != c
    requires b.At? && b.node in g.nodes && g.nodes[b.node] == Primitive(AnyKind)
    requires a.At? && a.node in g.nodes && !g.nodes[a.node].Union?
    ensures Follows(g, Held(g, {}), Pair(a, c))
  {
    hide Held, ExtendsName;
    Unfold(g, a, b);
    Unfold(g, b, c);
    assert NarrowsAny(g, a);
    if g.nodes[c.node].Union? {
      var options := g.nodes[c.node].options;
      var j :| 0 <= j < |options| && Pair(b, options[j]) in Held(g, {});
      HeldIsSub(g, Pair(b, options[j]));
      Unfold(g, b, options[j]);
      assert IsFlat(g, options);
      assert g.nodes[options[j].node] == Primitive(AnyKind);
      Fold(g, Pair(a, options[j]));
      HeldIsSub(g, Pair(a, options[j]));
    }
  }

  /** Two concrete steps, neither end a union. */
  lemma KindsLinked(g: Graph, a: Ref, b: Ref, c: Ref)
    requires Plain(g) && KeepsOptional(g) && IsSub(g, Pair(a, b)) && IsSub(g, Pair(b, c)) && a != b && b != c
    requires a.At? && a.node in g.nodes && b.At? && b.node in g.nodes && c.At? && c.node in g.nodes
    requires !g.nodes[a.node].Union? && !g.nodes[b.node].Union? && !g.nodes[c.node].Union?
    requires g.nodes[b.node] != Primitive(AnyKind) && g.nodes[c.node] != Primitive(AnyKind)
    ensures Follows(g, Linked(g), Pair(a, c))
  {
    hide Held, ExtendsName, Linked, IsSub, Closed, FlatUnions, ExtendsSupplies, DistinctFields, KeepsOptional;
    hide NarrowsField, HasSymbol;
    Unfold(g, a, b);
    Unfold(g, b, c);
    match g.nodes[b.node] {
      case Array(items) =>
        ItemsLinked(g, g.nodes[a.node].items, items, g.nodes[c.node].items);
      case MapOf(values) =>
        ItemsLinked(g, g.nodes[a.node].values, values, g.nodes[c.node].values);
      case Enum(_, symbols) =>
        assert !SameTypeName(NameOf(g.nodes[a.node]), NameOf(g.nodes[b.node]));
        assert !SameTypeName(NameOf(g.nodes[b.node]), NameOf(g.nodes[c.node]));
        SymbolsLinked(g.nodes[a.node].symbols, symbols, g.nodes[c.node].symbols);
      case Record(_, _, _) =>
        RecordsLinked(g, a, b, c);
      case _ =>
    }
  }

  lemma ItemsLinked(g: Graph, a: Ref, b: Ref, c: Ref)
    requires Pair(a, b) in Held(g, {}) && Pair(b, c) in Held(g, {})
    ensures Pair(a, c) in Linked(g)
  {
    hide IsSub, Held;
    HeldIsSub(g, Pair(a, b));
    HeldIsSub(g, Pair(b, c));
    InLinked(g, a, b, c);
  }

  lemma SymbolsLinked(a: seq<string>, b: seq<string>, c: seq<string>)
    requires forall i :: 0 <= i < |a| ==> HasSymbol(b, a[i])
    requires forall i :: 0 <= i < |b| ==> HasSymbol(c, b[i])
    ensures forall i :: 0 <= i < |a| ==> HasSymbol(c, a[i])
  {
    hide ShortName;
    forall i | 0 <= i < |a| ensures HasSymbol(c, a[i]) {
      assert HasSymbol(b, a[i]);
      var j :| 0 <= j < |b| && (b[j] == a[i] || ShortName(b[j]) == ShortName(a[i]));
      assert HasSymbol(c, b[j]);
      var k :| 0 <= k < |c| && (c[k] == b[j] || ShortName(c[k]) == ShortName(b[j]));
      assert ShortName(c[k]) == ShortName(a[i]);
    }
  }

  /** Two steps through something that is no union. */
  lemma ThroughConcrete(g: Graph, a: Ref, b: Ref, c: Ref)
    requires Plain(g) && KeepsOptional(g) && IsSub(g, Pair(a, b)) && IsSub(g, Pair(b, c))
    requires a.At? && a.node in g.nodes && b.At? && b.node in g.nodes && c.At? && c.node in g.nodes
    requires !g.nodes[a.node].Union? && !g.nodes[b.node].Union? && g.nodes[c.node] != Primitive(AnyKind)
    ensures Follows(g, Linked(g), Pair(a, c))
  {
    hide Held, ExtendsName, Linked, IsSub, Closed, FlatUnions, ExtendsSupplies, DistinctFields, KeepsOptional;
    hide UniqueNames, NarrowsKind, NarrowsAny;
    if a == b || b == c {
      SubIsLinked(g, Pair(a, c));
    } else if g.nodes[b.node] == Primitive(AnyKind) {
      AnyLinked(g, a, b, c);
      Fold(g, Pair(a, c));
      SubIsLinked(g, Pair(a, c));
    } else if g.nodes[c.node].Union? {
      Unfold(g, b, c);
      var options := g.nodes[c.node].options;
      var j :| 0 <= j < |options| && Pair(b, options[j]) in Held(g, {});
      HeldIsSub(g, Pair(b, options[j]));
      InLinked(g, a, b, options[j]);
    } else {
      KindsLinked(g, a, b, c);
    }
  }

  /** What is linked in two steps follows from what is linked. */
  lemma LinkedFollows(g: Graph, a: Ref, b: Ref, c: Ref)
    requires Plain(g) && KeepsOptional(g) && IsSub(g, Pair(a, b)) && IsSub(g, Pair(b, c))
    ensures Follows(g, Linked(g), Pair(a, c))
  {
    hide Held, ExtendsName, Linked, IsSub, Closed, ExtendsSupplies, DistinctFields, KeepsOptional, UniqueNames;
    hide NarrowsKind, IsNull;
    Unfold(g, a, b);
    Unfold(g, b, c);
    if a == b || b == c || a.Nil? {
      SubIsLinked(g, Pair(a, c));
    } else if a == c {
    } else if g.nodes[c.node] == Primitive(AnyKind) {
      AnyAbove(g, a, b);
    } else if g.nodes[a.node].Union? {
      forall i | 0 <= i < |g.nodes[a.node].options| ensures Pair(g.nodes[a.node].options[i], c) in Linked(g) {
        OptionBelow(g, a, b, i);
        InLinked(g, g.nodes[a.node].options[i], b, c);
      }
    } else if g.nodes[b.node].Union? {
      var options := g.nodes[b.node].options;
      var i :| 0 <= i < |options| && Pair(a, options[i]) in Held(g, {});
      HeldIsSub(g, Pair(a, options[i]));
      OptionBelow(g, b, c, i);
      assert IsFlat(g, options);
      ThroughConcrete(g, a, options[i], c);
    } else {
      ThroughConcrete(g, a, b, c);
    }
  }

  /** Below what Any admits, everything is admitted by Any. */
  lemma AnyAbove(g: Graph, a: Ref, b: Ref)
    requires FlatUnions(g) && IsSub(g, Pair(a, b)) && a.At? && b.At? && a.node in g.nodes && b.node in g.nodes
    requires NarrowsAny(g, b)
    ensures NarrowsAny(g, a)
  {
    hide IsSub, AcceptsNull;
    if AcceptsNull(g, a) {
      NullableStays(g, a, b);
    }
    assert g.nodes[a.node].Union? ==> IsFlat(g, g.nodes[a.node].options);
  }

  /**
   * In a plain graph subtyping is transitive exactly if, wherever a record lies between two others, what it
   * lacks of the wider one's fields the narrower one lacks too or has at a narrower type.
   */
  lemma TransitiveExactly(g: Graph)
    requires Plain(g)
    ensures Transitive(g) <==> KeepsOptional(g)
  {
    hide Plain, IsSub, NothingLost, Linked, Follows;
    if KeepsOptional(g) {
      forall a, b, c | IsSub(g, Pair(a, b)) && IsSub(g, Pair(b, c)) ensures IsSub(g, Pair(a, c)) {
        InLinked(g, a, b, c);
        LinkedIsSub(g, Pair(a, c));
      }
    }
    if Transitive(g) {
      forall a, b, c | RecordBetween(g, a, b, c)
        ensures NothingLost(g, a, b, c)
      {
        assert IsSub(g, Pair(a, c));
        SubLosesNothing(g, a, b, c);
      }
    }
  }

  lemma LinkedIsSub(g: Graph, p: Pair)
    requires Plain(g) && KeepsOptional(g) && p in Linked(g)
    ensures IsSub(g, p)
  {
    hide Plain, KeepsOptional, IsSub, Follows;
    forall q | q in Linked(g) ensures Follows(g, Linked(g), q) {
      if IsSub(g, q) {
        SubIsLinked(g, q);
      } else {
        var b :| Via(g, q, b);
        LinkedFollows(g, q.sub, b, q.super);
      }
    }
    IsGreatestFixedPoint(g, p, Linked(g));
  }

  lemma SubLosesNothing(g: Graph, a: Ref, b: Ref, c: Ref)
    requires Plain(g) && IsRecord(g, a) && IsRecord(g, b) && IsRecord(g, c) && IsSub(g, Pair(a, c))
    ensures NothingLost(g, a, b, c)
  {
    hide FieldNamed, Held, IsSub, ExtendsSupplies, UniqueNames, FlatUnions, ShortName;
    var have, want := g.nodes[a.node].fields, g.nodes[c.node].fields;
    forall i | 0 <= i < |want| && FieldNamed(have, want[i].name).Some?
      ensures IsSub(g, Pair(FieldNamed(have, want[i].name).value.of, want[i].of))
    {
      if a == c {
        OwnField(have, i);
        ReflexiveExactly(g, want[i].of);
      } else {
        RecordsSupply(g, a, c);
        assert NarrowsField(g, have, want[i], Held(g, {}));
        HeldIsSub(g, Pair(FieldNamed(have, want[i].name).value.of, want[i].of));
      }
    }
  }

  lemma OwnField(fields: seq<Field>, i: nat)
    requires DistinctNames(fields) && i < |fields|
    ensures FieldNamed(fields, fields[i].name) == Some(fields[i])
  {
    hide FieldNamed, ShortName;
    FieldNamedIs(fields, fields[i].name);
    var f := FieldNamed(fields, fields[i].name).value;
    var j :| 0 <= j < |fields| && fields[j] == f;
    assert ShortName(fields[j].name) == ShortName(fields[i].name);
  }

  // ---- where it fails ----

  const Optional := Graph(map[
    0 := Primitive(NullKind), 1 := Primitive(StringKind), 2 := Union([At(0), At(1)]), 3 := Primitive(IntKind),
    4 := Record("", [Field("x", At(3))], []), 5 := Record("", [], []), 6 := Record("", [Field("x", At(2))], [])], map[])

  /** A record with an integer x is under the empty record, that one is under x optional text, the first is not. */
  lemma OptionalFieldLost()
    ensures Plain(Optional)
    ensures IsSub(Optional, Pair(At(4), At(5))) && IsSub(Optional, Pair(At(5), At(6)))
    ensures !IsSub(Optional, Pair(At(4), At(6))) && !Transitive(Optional) && !KeepsOptional(Optional)
  {
    var g := Optional;
    assert Follows(g, iset{}, Pair(At(4), At(5)));
    assert IsNull(g, g.nodes[2].options[0]);
    assert AcceptsNull(g, At(2));
    assert Follows(g, iset{}, Pair(At(5), At(6)));
    AssumedOnly(g, {}, Pair(At(4), At(5)));
    AssumedOnly(g, {}, Pair(At(5), At(6)));
    OptionalIsPlain();
    NoIntIsText();
    TransitiveExactly(g);
  }

  lemma OptionalIsPlain()
    ensures Plain(Optional)
  {
    hide Closed, FlatUnions, UniqueNames, DistinctFields, NarrowsField, Held;
    var g := Optional;
    assert Closed(g) by { OptionalIsClosed(); }
    assert FlatUnions(g) by { OneFlatUnion(); }
    assert DistinctFields(g) by { OneFieldAtMost(); }
    assert UniqueNames(g) by { NoNames(); }
  }

  lemma OptionalIsClosed()
    ensures Closed(Optional)
  {}

  lemma OneFlatUnion()
    ensures FlatUnions(Optional)
  {}

  lemma OneFieldAtMost()
    ensures DistinctFields(Optional)
  {}

  lemma NoNames()
    ensures UniqueNames(Optional)
  {}

  lemma NoIntIsText()
    ensures !IsSub(Optional, Pair(At(4), At(6)))
  {
    hide IsSub, Held, Greatest;
    var g := Optional;
    if IsSub(g, Pair(At(4), At(6))) {
      Unfold(g, At(4), At(6));
      assert NarrowsField(g, g.nodes[4].fields, g.nodes[6].fields[0], Held(g, {}));
      HeldIsSub(g, Pair(At(3), At(2)));
      Unfold(g, At(3), At(2));
      var i :| 0 <= i < 2 && Pair(At(3), g.nodes[2].options[i]) in Held(g, {});
      HeldIsSub(g, Pair(At(3), g.nodes[2].options[i]));
      Unfold(g, At(3), g.nodes[2].options[i]);
    }
  }

  /** A union whose one option is itself is above everything that is no union, and below everything. */
  lemma LoopingUnion(g: Graph, u: nat, n: nat)
    requires u in g.nodes && g.nodes[u] == Union([At(u)]) && n in g.nodes
    ensures IsSub(g, Pair(At(u), At(n)))
    ensures !g.nodes[n].Union? ==> IsSub(g, Pair(At(n), At(u)))
  {
    var below, above := iset{Pair(At(u), At(n))}, iset{Pair(At(n), At(u))};
    assert Follows(g, below, Pair(At(u), At(n)));
    IsGreatestFixedPoint(g, Pair(At(u), At(n)), below);
    if !g.nodes[n].Union? {
      assert g.nodes[u].options[0] == At(u);
      assert Follows(g, above, Pair(At(n), At(u)));
      IsGreatestFixedPoint(g, Pair(At(n), At(u)), above);
    }
  }
}
