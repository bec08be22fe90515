/**
 * What subtyping means for values. Each type admits a set of values, whatever the primitive kinds other than
 * null and Any are taken to be, and a subtype admits no value that its supertype does not.
 */
module SubtypeValues {
  import opened Common
  import opened Strings
  import opened Subtype
  import opened SubtypeOrder

  /** Which values a primitive kind admits; null and Any are fixed. */
  type Basic = (Kind, Value) -> bool

  predicate OfKind(basic: Basic, kind: Kind, v: Value) {
    match kind
    case NullKind => v == Null
    case AnyKind => v != Null
    case _ => v != Null && basic(kind, v)
  }

  /** The null type, or a union that has it. */
  predicate MayBeMissing(g: Graph, r: Ref) {
    && r.At? && r.node in g.nodes
    && match g.nodes[r.node]
       case Primitive(kind) => kind == NullKind
       case Union(options) => exists i :: 0 <= i < |options| && IsNull(g, options[i])
       case _ => false
  }

  /** The values of a type. An object is of a record type if each field, by short name, is or may be missing. */
  ghost predicate Admits(g: Graph, basic: Basic, r: Ref, v: Value)
    decreases v, 1
  {
    && r.At? && r.node in g.nodes
    && match g.nodes[r.node]
       case Union(options) => exists i :: 0 <= i < |options| && AdmitsConcrete(g, basic, options[i], v)
       case _ => AdmitsConcrete(g, basic, r, v)
  }

  /** The values of a type that is no union. */
  ghost predicate AdmitsConcrete(g: Graph, basic: Basic, r: Ref, v: Value)
    decreases v, 0
  {
    && r.At? && r.node in g.nodes
    && match g.nodes[r.node]
       case Primitive(kind) => OfKind(basic, kind, v)
       case Array(items) => v.List? && forall i :: 0 <= i < |v.items| ==> Admits(g, basic, items, v.items[i])
       case MapOf(values) => v.Object? && forall k :: k in v.fields ==> Admits(g, basic, values, v.fields[k])
       case Enum(_, symbols) => v.Str? && Spells(symbols, v.text)
       case Record(_, fields, _) =>
         && v.Object?
         && forall i :: 0 <= i < |fields| ==>
              if ShortName(fields[i].name) in v.fields
              then Admits(g, basic, fields[i].of, v.fields[ShortName(fields[i].name)])
              else MayBeMissing(g, fields[i].of)
       case Union(_) => false
  }

  /** Null is of exactly the types that may be missing. */
  lemma NullIsMissing(g: Graph, basic: Basic, r: Ref)
    requires FlatUnions(g)
    ensures Admits(g, basic, r, Null) <==> MayBeMissing(g, r)
  {
    if r.At? && r.node in g.nodes && g.nodes[r.node].Union? {
      var options := g.nodes[r.node].options;
      assert IsFlat(g, options);
      forall i | 0 <= i < |options| ensures AdmitsConcrete(g, basic, options[i], Null) <==> IsNull(g, options[i]) {
        assert !g.nodes[options[i].node].Union?;
      }
    }
  }

  // ---- soundness ----

  /** No subtype of a record lacks one of its fields. */
  ghost predicate NothingOmitted(g: Graph) {
    forall a, b :: IsRecord(g, a) && IsRecord(g, b) && IsSub(g, Pair(a, b)) ==>
      forall i :: 0 <= i < |g.nodes[b.node].fields| ==>
        FieldNamed(g.nodes[a.node].fields, g.nodes[b.node].fields[i].name).Some?
  }

  /** Above a type that admits a value is only what admits it. */
  lemma SubtypeSound(g: Graph, basic: Basic, a: Ref, b: Ref, v: Value)
    requires Plain(g) && NothingOmitted(g) && IsSub(g, Pair(a, b)) && Admits(g, basic, a, v)
    ensures Admits(g, basic, b, v)
    decreases v, 4
  {
    hide Held, IsSub, Plain, NothingOmitted, Follows, Narrows;
    Unfold(g, a, b);
    assert a.At? && b.At?;
    if a != b {
      if g.nodes[a.node].Union? {
        var options := g.nodes[a.node].options;
        var i :| 0 <= i < |options| && AdmitsConcrete(g, basic, options[i], v);
        assert FlatUnions(g) by { PlainIs(g); }
        OptionBelow(g, a, b, i);
        ConcreteSound(g, basic, options[i], b, v);
      } else {
        ConcreteSound(g, basic, a, b, v);
      }
    }
  }

  lemma PlainIs(g: Graph)
    requires Plain(g)
    ensures FlatUnions(g) && Closed(g) && UniqueNames(g) && DistinctFields(g)
  {}

  /** The same for a type that is no union. */
  lemma ConcreteSound(g: Graph, basic: Basic, a: Ref, b: Ref, v: Value)
    requires Plain(g) && NothingOmitted(g) && IsSub(g, Pair(a, b)) && AdmitsConcrete(g, basic, a, v)
    ensures Admits(g, basic, b, v)
    decreases v, 3
  {
    hide Held, IsSub, Plain, NothingOmitted, Follows, NarrowsKind;
    Unfold(g, a, b);
    PlainIs(g);
    if a == b {
      assert Admits(g, basic, b, v);
    } else if g.nodes[b.node] == Primitive(AnyKind) {
      NotNull(g, basic, a, v);
    } else if g.nodes[b.node].Union? {
      var options := g.nodes[b.node].options;
      var i :| 0 <= i < |options| && Pair(a, options[i]) in Held(g, {});
      HeldIsSub(g, Pair(a, options[i]));
      assert IsFlat(g, options);
      OptionSound(g, basic, a, options[i], v);
    } else {
      KindSound(g, basic, a, b, v);
    }
  }

  /** What no null is among, admits no null. */
  lemma NotNull(g: Graph, basic: Basic, a: Ref, v: Value)
    requires a.At? && a.node in g.nodes && !g.nodes[a.node].Union? && NarrowsAny(g, a) && AdmitsConcrete(g, basic, a, v)
    ensures v != Null
  {}

  lemma OptionSound(g: Graph, basic: Basic, a: Ref, b: Ref, v: Value)
    requires Plain(g) && NothingOmitted(g) && IsSub(g, Pair(a, b)) && AdmitsConcrete(g, basic, a, v)
    requires b.At? && b.node in g.nodes && !g.nodes[b.node].Union?
    ensures AdmitsConcrete(g, basic, b, v)
    decreases v, 2
  {
    hide Held, IsSub, Plain, NothingOmitted, Follows, NarrowsKind;
    Unfold(g, a, b);
    if a != b {
      if g.nodes[b.node] == Primitive(AnyKind) {
        NotNull(g, basic, a, v);
      } else {
        KindSound(g, basic, a, b, v);
      }
    }
  }

  lemma KindSound(g: Graph, basic: Basic, a: Ref, b: Ref, v: Value)
    requires Plain(g) && NothingOmitted(g) && IsSub(g, Pair(a, b)) && AdmitsConcrete(g, basic, a, v) && a != b
    requires a.At? && a.node in g.nodes && b.At? && b.node in g.nodes
    requires !g.nodes[a.node].Union? && !g.nodes[b.node].Union? && g.nodes[b.node] != Primitive(AnyKind)
    ensures AdmitsConcrete(g, basic, b, v)
    decreases v, 1
  {
    hide Held, IsSub, Plain, NothingOmitted, Follows, NarrowsField, ExtendsName, ShortName, FieldNamed, HasSymbol;
    Unfold(g, a, b);
    PlainIs(g);
    assert !SameTypeName(NameOf(g.nodes[a.node]), NameOf(g.nodes[b.node]));
    match g.nodes[a.node] {
      case Array(items) =>
        HeldIsSub(g, Pair(items, g.nodes[b.node].items));
        forall i | 0 <= i < |v.items| ensures Admits(g, basic, g.nodes[b.node].items, v.items[i]) {
          SubtypeSound(g, basic, items, g.nodes[b.node].items, v.items[i]);
        }
      case MapOf(values) =>
        HeldIsSub(g, Pair(values, g.nodes[b.node].values));
        forall k | k in v.fields ensures Admits(g, basic, g.nodes[b.node].values, v.fields[k]) {
          SubtypeSound(g, basic, values, g.nodes[b.node].values, v.fields[k]);
        }
      case Enum(_, symbols) =>
        SymbolAdmitted(symbols, g.nodes[b.node].symbols, v.text);
      case Record(_, fields, _) =>
        RecordsSupply(g, a, b);
        forall i | 0 <= i < |g.nodes[b.node].fields|
          ensures FieldAdmitted(g, basic, g.nodes[b.node].fields[i], v)
        {
          FieldSound(g, basic, a, b, i, v);
        }
      case _ =>
    }
  }

  /** The object has the field, by short name, at its type, or may lack it. */
  ghost predicate FieldAdmitted(g: Graph, basic: Basic, f: Field, v: Value)
    requires v.Object?
  {
    if ShortName(f.name) in v.fields then Admits(g, basic, f.of, v.fields[ShortName(f.name)]) else MayBeMissing(g, f.of)
  }

  lemma SymbolAdmitted(sub: seq<string>, super: seq<string>, text: string)
    requires forall i :: 0 <= i < |sub| ==> HasSymbol(super, sub[i])
    requires Spells(sub, text)
    ensures Spells(super, text)
  {
    hide ShortName;
    var i :| 0 <= i < |sub| && ShortName(sub[i]) == ShortName(text);
    assert HasSymbol(super, sub[i]);
    var j :| 0 <= j < |super| && (super[j] == sub[i] || ShortName(super[j]) == ShortName(sub[i]));
    assert ShortName(super[j]) == ShortName(text);
  }

  lemma FieldSound(g: Graph, basic: Basic, a: Ref, b: Ref, i: nat, v: Value)
    requires Plain(g) && NothingOmitted(g) && IsSub(g, Pair(a, b)) && IsRecord(g, a) && IsRecord(g, b)
    requires v.Object? && AdmitsConcrete(g, basic, a, v) && i < |g.nodes[b.node].fields|
    requires Supplies(g, g.nodes[a.node].fields, g.nodes[b.node].fields)
    ensures FieldAdmitted(g, basic, g.nodes[b.node].fields[i], v)
    decreases v, 0
  {
    hide Held, IsSub, Plain, Follows, ShortName, FieldNamed, AcceptsNull, MayBeMissing;
    var fields, want := g.nodes[a.node].fields, g.nodes[b.node].fields[i];
    FieldNamedIs(fields, want.name);
    var f := FieldNamed(fields, want.name).value;
    var j :| 0 <= j < |fields| && fields[j] == f;
    assert ShortName(f.name) == ShortName(want.name);
    assert NarrowsField(g, fields, want, Held(g, {}));
    HeldIsSub(g, Pair(f.of, want.of));
    assert FieldAdmitted(g, basic, fields[j], v);
    if ShortName(want.name) in v.fields {
      SubtypeSound(g, basic, f.of, want.of, v.fields[ShortName(want.name)]);
    } else {
      MissingStays(g, f.of, want.of);
    }
  }

  lemma MissingStays(g: Graph, a: Ref, b: Ref)
    requires Plain(g) && IsSub(g, Pair(a, b)) && MayBeMissing(g, a)
    ensures MayBeMissing(g, b)
  {
    hide IsSub, ExtendsSupplies, UniqueNames, DistinctFields, Closed;
    assert AcceptsNull(g, a);
    NullableStays(g, a, b);
  }

  /** Where nothing but records could lose a field, there are none: then every subtype is sound. */
  lemma WithoutRecords(g: Graph)
    requires Closed(g) && FlatUnions(g) && UniqueNames(g) && forall n :: n in g.nodes ==> !g.nodes[n].Record?
    ensures Plain(g) && NothingOmitted(g)
  {
    hide Closed, FlatUnions, UniqueNames, IsSub, Held, NarrowsField;
  }

  /** With an optional field omitted it is not: the record with an integer x is under one of x optional text. */
  lemma OmittedIsUnsound(basic: Basic)
    requires basic(IntKind, Int(1)) && !basic(StringKind, Int(1))
    ensures var v := Object(map["x" := Int(1)]);
            && IsSub(Optional, Pair(At(5), At(6)))
            && Admits(Optional, basic, At(5), v) && !Admits(Optional, basic, At(6), v)
            && !NothingOmitted(Optional)
  {
    hide IsSub, Plain, Admits;
    OptionalFieldLost();
    EmptyAdmitsAll(basic, map["x" := Int(1)]);
    NoNumberIsText(basic);
    assert IsRecord(Optional, At(5)) && IsRecord(Optional, At(6));
    assert FieldNamed(Optional.nodes[5].fields, Optional.nodes[6].fields[0].name).None?;
  }

  lemma EmptyAdmitsAll(basic: Basic, fields: Obj)
    ensures Admits(Optional, basic, At(5), Object(fields))
  {}

  lemma NoNumberIsText(basic: Basic)
    requires !basic(StringKind, Int(1))
    ensures !Admits(Optional, basic, At(6), Object(map["x" := Int(1)]))
  {
    hide Admits;
    var g, v := Optional, Object(map["x" := Int(1)]);
    XIsShort();
    assert v.fields["x"] == Int(1);
    assert !Admits(g, basic, At(2), Int(1)) by { NoNumberIsOptionalText(basic); }
    if Admits(g, basic, At(6), v) {
      FirstFieldAdmitted(g, basic, v);
    }
  }

  lemma NoNumberIsOptionalText(basic: Basic)
    requires !basic(StringKind, Int(1))
    ensures !Admits(Optional, basic, At(2), Int(1))
  {}

  lemma FirstFieldAdmitted(g: Graph, basic: Basic, v: Value)
    requires g == Optional && v.Object? && Admits(g, basic, At(6), v)
    ensures "x" in v.fields ==> Admits(g, basic, At(2), v.fields["x"])
  {
    XIsShort();
    var field := g.nodes[6].fields[0];
    assert ShortName(field.name) == "x";
  }

  lemma XIsShort()
    ensures ShortName("x") == "x"
  {}

  // ---- completeness, kind by kind ----

  /** Arrays and maps are covariant, and exactly that. */
  lemma ArraysCompare(g: Graph, a: Ref, b: Ref)
    requires a.At? && b.At? && a.node in g.nodes && b.node in g.nodes && a != b
    ensures g.nodes[a.node].Array? && g.nodes[b.node].Array? ==>
        (IsSub(g, Pair(a, b)) <==> IsSub(g, Pair(g.nodes[a.node].items, g.nodes[b.node].items)))
    ensures g.nodes[a.node].MapOf? && g.nodes[b.node].MapOf? ==>
        (IsSub(g, Pair(a, b)) <==> IsSub(g, Pair(g.nodes[a.node].values, g.nodes[b.node].values)))
  {
    hide IsSub, Held;
    SubOrNot(g, a, b);
    if g.nodes[a.node].Array? && g.nodes[b.node].Array? {
      HeldIsSub(g, Pair(g.nodes[a.node].items, g.nodes[b.node].items));
    }
    if g.nodes[a.node].MapOf? && g.nodes[b.node].MapOf? {
      HeldIsSub(g, Pair(g.nodes[a.node].values, g.nodes[b.node].values));
    }
  }

  lemma SubOrNot(g: Graph, a: Ref, b: Ref)
    requires a.At? && b.At? && a.node in g.nodes && b.node in g.nodes && a != b
    ensures IsSub(g, Pair(a, b)) <==> Narrows(g, Held(g, {}), Pair(a, b))
  {
    hide IsSub, Held, Narrows;
    if IsSub(g, Pair(a, b)) {
      Unfold(g, a, b);
    }
    if Narrows(g, Held(g, {}), Pair(a, b)) {
      Fold(g, Pair(a, b));
    }
  }

  /** A union is below what all its options are below; anything else is below a union through one of its options. */
  lemma UnionsCompare(g: Graph, a: Ref, b: Ref)
    requires a.At? && b.At? && a.node in g.nodes && b.node in g.nodes && a != b
    requires g.nodes[b.node] != Primitive(AnyKind)
    ensures g.nodes[a.node].Union? ==>
        (IsSub(g, Pair(a, b)) <==>
          forall i :: 0 <= i < |g.nodes[a.node].options| ==> IsSub(g, Pair(g.nodes[a.node].options[i], b)))
    ensures !g.nodes[a.node].Union? && g.nodes[b.node].Union? ==>
        (IsSub(g, Pair(a, b)) <==>
          exists i :: 0 <= i < |g.nodes[b.node].options| && IsSub(g, Pair(a, g.nodes[b.node].options[i])))
  {
    hide IsSub, Held;
    SubOrNot(g, a, b);
    forall p ensures p in Held(g, {}) <==> IsSub(g, p) {
      HeldIsSub(g, p);
    }
  }

  /** Any is above exactly what is neither null, nor a union with null in it, nor a union of nothing. */
  lemma AnyCompares(g: Graph, a: Ref, b: Ref)
    requires a.At? && b.At? && a.node in g.nodes && b.node in g.nodes && a != b
    requires g.nodes[b.node] == Primitive(AnyKind)
    ensures IsSub(g, Pair(a, b)) <==> !MayBeMissing(g, a) && g.nodes[a.node] != Union([])
  {
    hide IsSub, Held;
    SubOrNot(g, a, b);
  }

  /** Enums compare by name or by their symbols' short names. */
  lemma EnumsCompare(g: Graph, a: Ref, b: Ref)
    requires a.At? && b.At? && a.node in g.nodes && b.node in g.nodes && a != b
    requires g.nodes[a.node].Enum? && g.nodes[b.node].Enum?
    ensures var sub, super := g.nodes[a.node], g.nodes[b.node];
            IsSub(g, Pair(a, b)) <==>
              || (sub.name != "" && sub.name == super.name)
              || forall i :: 0 <= i < |sub.symbols| ==> Spells(super.symbols, sub.symbols[i])
  {
    hide IsSub, Held, HasSymbol, Spells;
    SubOrNot(g, a, b);
    var sub, super := g.nodes[a.node], g.nodes[b.node];
    forall i | 0 <= i < |sub.symbols|
      ensures HasSymbol(super.symbols, sub.symbols[i]) <==> Spells(super.symbols, sub.symbols[i])
    {
      SpellsIs(super.symbols, sub.symbols[i]);
    }
  }

  /** A symbol of that short name is there. */
  predicate Spells(symbols: seq<string>, symbol: string) {
    exists j :: 0 <= j < |symbols| && ShortName(symbols[j]) == ShortName(symbol)
  }

  lemma SpellsIs(symbols: seq<string>, symbol: string)
    ensures HasSymbol(symbols, symbol) <==> Spells(symbols, symbol)
  {
    hide ShortName;
  }

  /** The field is there at a subtype, or is missing and may be. */
  ghost predicate SuppliesField(g: Graph, fields: seq<Field>, want: Field) {
    match FieldNamed(fields, want.name)
    case None => MayBeMissing(g, want.of)
    case Some(f) => IsSub(g, Pair(f.of, want.of))
  }

  ghost predicate SuppliesAll(g: Graph, fields: seq<Field>, wanted: seq<Field>) {
    forall i :: 0 <= i < |wanted| ==> SuppliesField(g, fields, wanted[i])
  }

  /** Records compare by name, by `extends`, or field by field; a field may be missing only if it may be null. */
  lemma RecordsCompare(g: Graph, a: Ref, b: Ref)
    requires IsRecord(g, a) && IsRecord(g, b) && a != b
    ensures var sub, super := g.nodes[a.node], g.nodes[b.node];
            IsSub(g, Pair(a, b)) <==>
              || (super.name != "" && sub.name == super.name)
              || (super.name != "" && ExtendsName(g, sub.bases, super.name))
              || SuppliesAll(g, sub.fields, super.fields)
  {
    hide IsSub, Held, ExtendsName, NarrowsField, SuppliesField;
    SubOrNot(g, a, b);
    var sub, super := g.nodes[a.node], g.nodes[b.node];
    forall i | 0 <= i < |super.fields|
      ensures NarrowsField(g, sub.fields, super.fields[i], Held(g, {})) <==>
              SuppliesField(g, sub.fields, super.fields[i])
    {
      FieldCompares(g, sub.fields, super.fields[i]);
    }
    RecordRule(g, sub, super);
    assert Supplies(g, sub.fields, super.fields) <==> SuppliesAll(g, sub.fields, super.fields);
  }

  lemma RecordRule(g: Graph, sub: Type, super: Type)
    requires sub.Record? && super.Record?
    ensures NarrowsKind(g, sub, super, Held(g, {})) <==>
              || (super.name != "" && sub.name == super.name)
              || (super.name != "" && ExtendsName(g, sub.bases, super.name))
              || Supplies(g, sub.fields, super.fields)
  {
    hide Held, ExtendsName, NarrowsField;
  }

  lemma FieldCompares(g: Graph, fields: seq<Field>, want: Field)
    ensures NarrowsField(g, fields, want, Held(g, {})) <==> SuppliesField(g, fields, want)
  {
    hide IsSub, Held, FieldNamed, AcceptsNull, MayBeMissing;
    MissingIsNull(g, want.of);
    if FieldNamed(fields, want.name).Some? {
      HeldIsSub(g, Pair(FieldNamed(fields, want.name).value.of, want.of));
    }
  }

  lemma MissingIsNull(g: Graph, r: Ref)
    ensures MayBeMissing(g, r) <==> AcceptsNull(g, r)
  {}

  /** Concrete types of different kinds are unrelated, and primitives are related only to their own kind. */
  lemma KindsApart(g: Graph, a: Ref, b: Ref)
    requires a.At? && b.At? && a.node in g.nodes && b.node in g.nodes && IsSub(g, Pair(a, b))
    requires !g.nodes[a.node].Union? && !g.nodes[b.node].Union? && g.nodes[b.node] != Primitive(AnyKind)
    ensures match g.nodes[a.node]
            case Primitive(_) => g.nodes[b.node] == g.nodes[a.node]
            case Array(_) => g.nodes[b.node].Array?
            case MapOf(_) => g.nodes[b.node].MapOf?
            case Enum(_, _) => g.nodes[b.node].Enum?
            case Record(_, _, _) => g.nodes[b.node].Record?
  {
    hide IsSub, Held, ExtendsName, FieldNamed;
    if a != b {
      SubOrNot(g, a, b);
    }
  }

  /** Primitives other than Any compare exactly by kind. */
  lemma PrimitivesCompare(g: Graph, a: Ref, b: Ref)
    requires a.At? && b.At? && a.node in g.nodes && b.node in g.nodes
    requires g.nodes[a.node].Primitive? && g.nodes[b.node].Primitive? && g.nodes[b.node].kind != AnyKind
    ensures IsSub(g, Pair(a, b)) <==> g.nodes[a.node].kind == g.nodes[b.node].kind
  {
    hide IsSub, Held;
    if a != b {
      SubOrNot(g, a, b);
    } else {
      Fold(g, Pair(a, b));
    }
  }
}
