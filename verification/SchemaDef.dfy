/**
 * Expanding the named types of a SchemaDefRequirement: every name is replaced by its declaration, except a
 * name met inside its own expansion. A type admits the same values before and after.
 */
module SchemaDef {
  import opened Common
  import opened Strings

  /** A type expression; `node` is the source text it was read from. An array or record without a schema is basic. */
  datatype TypeRef =
    | Basic(kind: string)
    | Enumerated(symbols: seq<string>)
    | Named(name: string, node: Option<int>)
    | Union(options: seq<TypeRef>, node: Option<int>)
    | Array(items: TypeRef, node: Option<int>)
    | Record(fields: seq<Field>, node: Option<int>)

  datatype Field = Field(name: string, of: TypeRef, binding: int)

  /**
   * A declared type: its name, the type it decodes to, and its source text. An entry that is no mapping
   * declares nothing.
   */
  datatype Declaration = NotAMapping | Declared(name: string, body: TypeRef, node: int)

  function CutPrefix(name: string, prefix: string): string {
    if prefix <= name then name[|prefix|..] else name
  }

  /** A discriminator without its namespace. */
  function Unprefixed(name: string): string {
    if "https://w3id.org/cwl/cwl#" <= name then CutPrefix(name, "https://w3id.org/cwl/cwl#")
    else if "https://w3id.org/cwl/salad#" <= name then CutPrefix(name, "https://w3id.org/cwl/salad#")
    else if "cwl:" <= name then CutPrefix(name, "cwl:")
    else CutPrefix(name, "sld:")
  }

  /** The short form names are matched by. */
  function TypeNameKey(name: string): string {
    var short := Unprefixed(name);
    var cut := Cut(short, '#');
    LastSegment(if cut.found then cut.after else short)
  }

  /** A name without the namespace it begins with, if with any. */
  ghost predicate Stripped(name: string, short: string) {
    || name == "https://w3id.org/cwl/cwl#" + short || name == "https://w3id.org/cwl/salad#" + short
    || name == "cwl:" + short || name == "sld:" + short
    || (name == short && !("https://w3id.org/cwl/cwl#" <= name) && !("https://w3id.org/cwl/salad#" <= name)
        && !("cwl:" <= name) && !("sld:" <= name))
  }

  lemma UnprefixedIs(name: string, short: string)
    requires Stripped(name, short)
    ensures Unprefixed(name) == short
  {
    if name == "https://w3id.org/cwl/cwl#" + short {
      assert name[|"https://w3id.org/cwl/cwl#"|..] == short;
    } else if name == "https://w3id.org/cwl/salad#" + short {
      assert name[21] == 's' && "https://w3id.org/cwl/cwl#"[21] == 'c';
      assert name[|"https://w3id.org/cwl/salad#"|..] == short;
    } else if name == "cwl:" + short {
      assert name[0] == 'c' && name[4..] == short;
    } else if name == "sld:" + short {
      assert name[0] == 's' && name[4..] == short;
    }
  }

  /** Names are matched by their last segment, of what follows the hash if there is one, namespaces aside. */
  lemma TypeNameKeyIs(name: string, short: string)
    requires Stripped(name, short)
    ensures '#' !in short ==> IsSegment(short, TypeNameKey(name))
    ensures forall before, after :: short == before + "#" + after && '#' !in before ==>
        IsSegment(after, TypeNameKey(name))
  {
    hide Unprefixed, Stripped, LastSegment, IsSegment;
    UnprefixedIs(name, short);
    LastSegmentIs(short);
    forall before, after | short == before + "#" + after && '#' !in before
      ensures IsSegment(after, TypeNameKey(name))
    {
      CutAt(before, '#', after);
      assert before + ['#'] + after == short;
      LastSegmentIs(after);
    }
  }

  predicate Declares(d: Declaration, name: string) {
    d.Declared? && (d.name == name || TypeNameKey(d.name) == TypeNameKey(name))
  }

  /** The first declaration a name selects. */
  function DeclarationOf(types: seq<Declaration>, name: string): (d: Option<Declaration>)
    ensures d.Some? ==> d.value.Declared? && TypeNameKey(d.value.name) == TypeNameKey(name)
  {
    if types == [] then None
    else if Declares(types[0], name) then Some(types[0])
    else DeclarationOf(types[1..], name)
  }

  /** The keys the declarations can be found by. */
  function Keys(types: seq<Declaration>): set<string> {
    set d | d in types && d.Declared? :: TypeNameKey(d.name)
  }

  lemma {:induction false} FoundKey(types: seq<Declaration>, name: string)
    ensures DeclarationOf(types, name).Some? ==> TypeNameKey(name) in Keys(types)
  {
    hide TypeNameKey;
    if types != [] {
      FoundKey(types[1..], name);
      assert types[0] in types;
      assert Keys(types[1..]) <= Keys(types);
    }
  }

  // ---- what expansion gives ----

  /** A type with the expansions that were made in it still marked. */
  datatype Marked =
    | Same(t: TypeRef)
    | Left(name: string, declared: int)
    | Expansion(key: string, body: Marked)
    | MUnion(options: seq<Marked>, node: Option<int>)
    | MArray(items: Marked, node: Option<int>)
    | MRecord(fields: seq<MarkedField>, node: Option<int>)

  datatype MarkedField = MarkedField(name: string, of: Marked, binding: int)

  function Expand(types: seq<Declaration>, active: set<string>, t: TypeRef): (m: Marked)
    decreases Keys(types) - active, t
  {
    match t
    case Named(name, _) =>
      var found := DeclarationOf(types, name);
      var key := TypeNameKey(name);
      if found.None? then Same(t)
      else if key in active then Left(name, found.value.node)
      else
        FoundKey(types, name);
        Expansion(key, Expand(types, active + {key}, found.value.body))
    case Union(options, node) =>
      MUnion(seq(|options|, i requires 0 <= i < |options| => Expand(types, active, options[i])), node)
    case Array(items, node) => MArray(Expand(types, active, items), node)
    case Record(fields, node) =>
      MRecord(seq(|fields|, i requires 0 <= i < |fields| =>
                MarkedField(fields[i].name, Expand(types, active, fields[i].of), fields[i].binding)), node)
    case _ => Same(t)
  }

  /** The type itself, marks forgotten. */
  function Plain(m: Marked): TypeRef {
    match m
    case Same(t) => t
    case Left(name, node) => Named(name, Some(node))
    case Expansion(_, body) => Plain(body)
    case MUnion(options, node) => Union(seq(|options|, i requires 0 <= i < |options| => Plain(options[i])), node)
    case MArray(items, node) => Array(Plain(items), node)
    case MRecord(fields, node) =>
      Record(seq(|fields|, i requires 0 <= i < |fields| => Field(fields[i].name, Plain(fields[i].of),
                                                                 fields[i].binding)), node)
  }

  /** Every declared name still there lies inside an expansion of that same name. */
  predicate LeftInside(types: seq<Declaration>, m: Marked, open: set<string>) {
    match m
    case Same(t) => NoDeclaredName(types, t)
    case Left(name, _) => TypeNameKey(name) in open
    case Expansion(key, body) => LeftInside(types, body, open + {key})
    case MUnion(options, _) => forall i :: 0 <= i < |options| ==> LeftInside(types, options[i], open)
    case MArray(items, _) => LeftInside(types, items, open)
    case MRecord(fields, _) => forall i :: 0 <= i < |fields| ==> LeftInside(types, fields[i].of, open)
  }

  /** What is kept as it was names nothing that is declared. */
  predicate NoDeclaredName(types: seq<Declaration>, t: TypeRef) {
    match t
    case Named(name, _) => DeclarationOf(types, name).None?
    case Basic(_) => true
    case Enumerated(_) => true
    case _ => false
  }

  lemma {:induction false} OnlyRecursionIsLeft(types: seq<Declaration>, active: set<string>, t: TypeRef)
    ensures LeftInside(types, Expand(types, active, t), active)
    decreases Keys(types) - active, t
  {
    hide DeclarationOf, TypeNameKey;
    match t
    case Named(name, _) =>
      var found := DeclarationOf(types, name);
      if found.Some? && TypeNameKey(name) !in active {
        FoundKey(types, name);
        OnlyRecursionIsLeft(types, active + {TypeNameKey(name)}, found.value.body);
      }
    case Union(options, _) =>
      forall i | 0 <= i < |options| ensures LeftInside(types, Expand(types, active, options[i]), active) {
        OnlyRecursionIsLeft(types, active, options[i]);
      }
    case Array(items, _) =>
      OnlyRecursionIsLeft(types, active, items);
    case Record(fields, _) =>
      forall i | 0 <= i < |fields| ensures LeftInside(types, Expand(types, active, fields[i].of), active) {
        OnlyRecursionIsLeft(types, active, fields[i].of);
      }
    case _ =>
  }

  /** The declaration a name selects is the first that it names exactly or by its short form. */
  lemma {:induction false} DeclarationIsFirst(types: seq<Declaration>, name: string)
    ensures match DeclarationOf(types, name)
            case None => forall i :: 0 <= i < |types| ==> !Declares(types[i], name)
            case Some(d) => exists i :: 0 <= i < |types| && types[i] == d && FirstToDeclare(types, i, name)
  {
    hide TypeNameKey;
    if types != [] && !Declares(types[0], name) {
      DeclarationIsFirst(types[1..], name);
      assert forall i :: 0 < i < |types| ==> types[i] == types[1..][i - 1];
      if DeclarationOf(types, name).Some? {
        var i :| 0 <= i < |types[1..]| && types[1..][i] == DeclarationOf(types, name).value
          && FirstToDeclare(types[1..], i, name);
        assert FirstToDeclare(types, i + 1, name);
      }
    } else if types != [] {
      assert FirstToDeclare(types, 0, name);
    }
  }

  predicate FirstToDeclare(types: seq<Declaration>, i: nat, name: string)
    requires i < |types|
  {
    Declares(types[i], name) && forall j :: 0 <= j < i ==> !Declares(types[j], name)
  }

  /** Expansion keeps what a type is made of: fields with their names and bindings, source texts, and symbols. */
  lemma ExpansionKeepsForm(types: seq<Declaration>, active: set<string>, t: TypeRef)
    ensures match t
            case Record(fields, node) =>
              var now := Plain(Expand(types, active, t));
              && now.Record? && now.node == node && |now.fields| == |fields|
              && forall i :: 0 <= i < |fields| ==>
                   now.fields[i].name == fields[i].name && now.fields[i].binding == fields[i].binding
                   && now.fields[i].of == Plain(Expand(types, active, fields[i].of))
            case Union(options, node) =>
              var now := Plain(Expand(types, active, t));
              && now.Union? && now.node == node && |now.options| == |options|
              && forall i :: 0 <= i < |options| ==> now.options[i] == Plain(Expand(types, active, options[i]))
            case Array(items, node) =>
              Plain(Expand(types, active, t)) == Array(Plain(Expand(types, active, items)), node)
            case Named(name, _) =>
              var now := Plain(Expand(types, active, t));
              (match DeclarationOf(types, name)
               case None => now == t
               case Some(d) => if TypeNameKey(name) in active then now == Named(name, Some(d.node))
                               else now == Plain(Expand(types, active + {TypeNameKey(name)}, d.body)))
            case _ => Plain(Expand(types, active, t)) == t
  {
    hide DeclarationOf, TypeNameKey;
  }

  // ---- the resolver ----

  class Resolver {
    const types: seq<Declaration>
    var active: set<string>

    constructor (types: seq<Declaration>)
      ensures this.types == types && active == {}
    {
      this.types := types;
      active := {};
    }

    method Find(name: string) returns (d: Option<Declaration>)
      ensures d == DeclarationOf(types, name)
    {
      hide TypeNameKey;
      for i := 0 to |types|
        invariant DeclarationOf(types[i..], name) == DeclarationOf(types, name)
      {
        assert types[i..][1..] == types[i + 1..];
        if Declares(types[i], name) {
          return Some(types[i]);
        }
      }
      return None;
    }

    /** Expands a declaration, and leaves the record of open expansions as it was. */
    method ByName(name: string) returns (r: Option<TypeRef>)
      modifies this
      ensures active == old(active)
      ensures r == if DeclarationOf(types, name).None? then None
          else Some(Plain(Expand(types, active, Named(name, None))))
      decreases Keys(types) - active, 0
    {
      hide DeclarationOf, TypeNameKey;
      var found := Find(name);
      if found.None? {
        return None;
      }
      var key := TypeNameKey(name);
      if key in active {
        return Some(Named(name, Some(found.value.node)));
      }
      FoundKey(types, name);
      active := active + {key};
      var resolved := Substitute(found.value.body);
      active := active - {key};
      assert active == old(active);
      return Some(resolved);
    }

    method Substitute(t: TypeRef) returns (r: TypeRef)
      modifies this
      ensures active == old(active) && r == Plain(Expand(types, active, t))
      decreases Keys(types) - active, 1, t, 1
    {
      hide DeclarationOf, TypeNameKey, Expand, Plain;
      match t
      case Named(_, _) => r := SubstituteNamed(t);
      case Union(_, _) => r := SubstituteUnion(t);
      case Array(_, _) => r := SubstituteArray(t);
      case Record(_, _) => r := SubstituteRecord(t);
      case _ =>
        KeptAsIs(t);
        r := t;
    }

    lemma KeptAsIs(t: TypeRef)
      requires t.Basic? || t.Enumerated?
      ensures Plain(Expand(types, active, t)) == t
    {}

    method SubstituteNamed(t: TypeRef) returns (r: TypeRef)
      requires t.Named?
      modifies this
      ensures active == old(active) && r == Plain(Expand(types, active, t))
      decreases Keys(types) - active, 1, t, 0
    {
      hide DeclarationOf, TypeNameKey;
      var resolved := ByName(t.name);
      if resolved.None? {
        return t;
      }
      return resolved.value;
    }

    method SubstituteUnion(t: TypeRef) returns (r: TypeRef)
      requires t.Union?
      modifies this
      ensures active == old(active) && r == Plain(Expand(types, active, t))
      decreases Keys(types) - active, 1, t, 0
    {
      hide DeclarationOf, TypeNameKey;
      var replaced: seq<TypeRef> := [];
      for i := 0 to |t.options|
        invariant active == old(active) && |replaced| == i
        invariant forall j :: 0 <= j < i ==> replaced[j] == Plain(Expand(types, active, t.options[j]))
      {
        var option := Substitute(t.options[i]);
        replaced := replaced + [option];
      }
      assert replaced == Plain(Expand(types, active, t)).options;
      return Union(replaced, t.node);
    }

    method SubstituteArray(t: TypeRef) returns (r: TypeRef)
      requires t.Array?
      modifies this
      ensures active == old(active) && r == Plain(Expand(types, active, t))
      decreases Keys(types) - active, 1, t, 0
    {
      hide DeclarationOf, TypeNameKey;
      var items := Substitute(t.items);
      return Array(items, t.node);
    }

    method SubstituteRecord(t: TypeRef) returns (r: TypeRef)
      requires t.Record?
      modifies this
      ensures active == old(active) && r == Plain(Expand(types, active, t))
      decreases Keys(types) - active, 1, t, 0
    {
      hide DeclarationOf, TypeNameKey;
      var fields := t.fields;
      for i := 0 to |fields|
        invariant active == old(active) && |fields| == |t.fields|
        invariant forall j :: i <= j < |fields| ==> fields[j] == t.fields[j]
        invariant forall j :: 0 <= j < i ==>
            fields[j] == t.fields[j].(of := Plain(Expand(types, active, t.fields[j].of)))
      {
        var of := Substitute(fields[i].of);
        fields := fields[i := fields[i].(of := of)];
      }
      assert fields == Plain(Expand(types, active, t)).fields;
      return Record(fields, t.node);
    }
  }

  /** Resolves one named type. */
  method ResolveSchemaDef(types: seq<Declaration>, name: string) returns (r: Option<TypeRef>)
    ensures r == if DeclarationOf(types, name).None? then None else Some(Plain(Expand(types, {}, Named(name, None))))
  {
    hide DeclarationOf;
    if |types| == 0 {
      NothingDeclared(types, name);
      return None;
    }
    var resolver := new Resolver(types);
    r := resolver.ByName(name);
  }

  lemma NothingDeclared(types: seq<Declaration>, name: string)
    requires types == []
    ensures DeclarationOf(types, name).None?
  {}

  // ---- a type admits the same values ----

  /** What basic types and enums admit. */
  type Admits = (TypeRef, Value) -> bool

  /** Whether a value inhabits a type, a name standing for its declaration; `n` bounds the unfolding. */
  ghost predicate Inhabits(types: seq<Declaration>, basic: Admits, n: nat, t: TypeRef, v: Value) {
    n > 0 &&
    match t
    case Named(name, _) =>
      var found := DeclarationOf(types, name);
      if found.None? then basic(Named(name, None), v) else Inhabits(types, basic, n - 1, found.value.body, v)
    case Union(options, _) => exists i :: 0 <= i < |options| && Inhabits(types, basic, n - 1, options[i], v)
    case Array(items, _) =>
      v.List? && forall i :: 0 <= i < |v.items| ==> Inhabits(types, basic, n - 1, items, v.items[i])
    case Record(fields, _) =>
      v.Object? && forall i :: 0 <= i < |fields| ==>
        Inhabits(types, basic, n - 1, fields[i].of, Lookup(v.fields, fields[i].name))
    case _ => basic(t, v)
  }

  /** A value inhabits a type if finitely many unfoldings show it. */
  ghost predicate Admitted(types: seq<Declaration>, basic: Admits, t: TypeRef, v: Value) {
    exists n: nat :: Inhabits(types, basic, n, t, v)
  }

  lemma {:induction false} OneMoreUnfolding(types: seq<Declaration>, basic: Admits, n: nat, t: TypeRef, v: Value)
    requires Inhabits(types, basic, n, t, v)
    ensures Inhabits(types, basic, n + 1, t, v)
    decreases n
  {
    hide DeclarationOf;
    match t
    case Named(name, _) =>
      if DeclarationOf(types, name).Some? {
        OneMoreUnfolding(types, basic, n - 1, DeclarationOf(types, name).value.body, v);
      }
    case Union(options, _) =>
      var i :| 0 <= i < |options| && Inhabits(types, basic, n - 1, options[i], v);
      OneMoreUnfolding(types, basic, n - 1, options[i], v);
    case Array(items, _) =>
      forall i | 0 <= i < |v.items| ensures Inhabits(types, basic, n, items, v.items[i]) {
        OneMoreUnfolding(types, basic, n - 1, items, v.items[i]);
      }
    case Record(fields, _) =>
      forall i | 0 <= i < |fields| ensures Inhabits(types, basic, n, fields[i].of, Lookup(v.fields, fields[i].name)) {
        OneMoreUnfolding(types, basic, n - 1, fields[i].of, Lookup(v.fields, fields[i].name));
      }
    case _ =>
  }

  lemma {:induction false} MoreUnfolding(types: seq<Declaration>, basic: Admits, n: nat, m: nat, t: TypeRef, v: Value)
    requires n <= m && Inhabits(types, basic, n, t, v)
    ensures Inhabits(types, basic, m, t, v)
    decreases m
  {
    hide Inhabits;
    if n < m {
      MoreUnfolding(types, basic, n, m - 1, t, v);
      OneMoreUnfolding(types, basic, m - 1, t, v);
    }
  }

  /** Whatever a type admits its expansion admits, no deeper. */
  lemma {:induction false} ExpansionAdmits(types: seq<Declaration>, basic: Admits, active: set<string>, n: nat,
                                           t: TypeRef, v: Value)
    requires Inhabits(types, basic, n, t, v)
    ensures Inhabits(types, basic, n, Plain(Expand(types, active, t)), v)
    decreases n
  {
    hide DeclarationOf, TypeNameKey;
    match t
    case Named(name, _) =>
      var found, key := DeclarationOf(types, name), TypeNameKey(name);
      if found.Some? && key !in active {
        FoundKey(types, name);
        ExpansionAdmits(types, basic, active + {key}, n - 1, found.value.body, v);
        MoreUnfolding(types, basic, n - 1, n, Plain(Expand(types, active + {key}, found.value.body)), v);
      }
    case Union(options, _) =>
      var i :| 0 <= i < |options| && Inhabits(types, basic, n - 1, options[i], v);
      ExpansionAdmits(types, basic, active, n - 1, options[i], v);
      assert Plain(Expand(types, active, t)).options[i] == Plain(Expand(types, active, options[i]));
    case Array(items, _) =>
      forall i | 0 <= i < |v.items|
        ensures Inhabits(types, basic, n - 1, Plain(Expand(types, active, items)), v.items[i])
      {
        ExpansionAdmits(types, basic, active, n - 1, items, v.items[i]);
      }
    case Record(fields, _) =>
      var expanded := Plain(Expand(types, active, t)).fields;
      forall i | 0 <= i < |fields|
        ensures Inhabits(types, basic, n - 1, expanded[i].of, Lookup(v.fields, expanded[i].name))
      {
        ExpansionAdmits(types, basic, active, n - 1, fields[i].of, Lookup(v.fields, fields[i].name));
      }
    case _ =>
  }

  /** Whatever an expansion admits the type admits, given enough unfolding. */
  lemma {:induction false} ExpansionAdmitsNoMore(types: seq<Declaration>, basic: Admits, active: set<string>, n: nat,
                                                 t: TypeRef, v: Value)
    returns (m: nat)
    requires Inhabits(types, basic, n, Plain(Expand(types, active, t)), v)
    ensures Inhabits(types, basic, m, t, v)
    decreases n, Keys(types) - active, t, 0
  {
    hide DeclarationOf, TypeNameKey;
    match t
    case Named(name, _) =>
      var found, key := DeclarationOf(types, name), TypeNameKey(name);
      if found.Some? && key !in active {
        FoundKey(types, name);
        m := ExpansionAdmitsNoMore(types, basic, active + {key}, n, found.value.body, v);
        m := m + 1;
      } else {
        m := n;
      }
    case Union(options, _) =>
      var expanded := Plain(Expand(types, active, t)).options;
      var i :| 0 <= i < |expanded| && Inhabits(types, basic, n - 1, expanded[i], v);
      m := ExpansionAdmitsNoMore(types, basic, active, n - 1, options[i], v);
      m := m + 1;
    case Array(items, _) =>
      m := AllItems(types, basic, active, n - 1, items, v.items);
      m := m + 1;
    case Record(fields, _) =>
      m := AllFields(types, basic, active, n - 1, fields, Plain(Expand(types, active, t)).fields, v.fields);
      m := m + 1;
    case _ =>
      m := n;
  }

  lemma {:induction false} AllItems(types: seq<Declaration>, basic: Admits, active: set<string>, n: nat, items: TypeRef,
                                    values: seq<Value>)
    returns (m: nat)
    requires forall i :: 0 <= i < |values| ==> Inhabits(types, basic, n, Plain(Expand(types, active, items)), values[i])
    ensures forall i :: 0 <= i < |values| ==> Inhabits(types, basic, m, items, values[i])
    decreases n, Keys(types) - active, items, |values| + 1
  {
    hide DeclarationOf, Inhabits, Expand;
    m := 0;
    if values != [] {
      var k := |values| - 1;
      var rest := AllItems(types, basic, active, n, items, values[..k]);
      var last := ExpansionAdmitsNoMore(types, basic, active, n, items, values[k]);
      m := if rest > last then rest else last;
      forall i | 0 <= i < |values| ensures Inhabits(types, basic, m, items, values[i]) {
        if i < k {
          assert values[..k][i] == values[i];
        }
        MoreUnfolding(types, basic, if i < k then rest else last, m, items, values[i]);
      }
    }
  }

  lemma {:induction false} AllFields(types: seq<Declaration>, basic: Admits, active: set<string>, n: nat,
                                     fields: seq<Field>, expanded: seq<Field>, record: Obj)
    returns (m: nat)
    requires |expanded| == |fields|
    requires forall i :: 0 <= i < |fields| ==>
               expanded[i].name == fields[i].name && expanded[i].of == Plain(Expand(types, active, fields[i].of))
    requires forall i :: 0 <= i < |fields| ==>
        Inhabits(types, basic, n, expanded[i].of, Lookup(record, expanded[i].name))
    ensures forall i :: 0 <= i < |fields| ==> Inhabits(types, basic, m, fields[i].of, Lookup(record, fields[i].name))
    decreases n, Keys(types) - active, fields, |fields| + 1
  {
    hide DeclarationOf, Inhabits, Expand;
    m := 0;
    if fields != [] {
      var k := |fields| - 1;
      var rest := AllFields(types, basic, active, n, fields[..k], expanded[..k], record);
      var last := ExpansionAdmitsNoMore(types, basic, active, n, fields[k].of, Lookup(record, fields[k].name));
      m := if rest > last then rest else last;
      forall i | 0 <= i < |fields| ensures Inhabits(types, basic, m, fields[i].of, Lookup(record, fields[i].name)) {
        if i < k {
          assert fields[..k][i] == fields[i];
        }
        MoreUnfolding(types, basic, if i < k then rest else last, m, fields[i].of, Lookup(record, fields[i].name));
      }
    }
  }

  /** Expansion changes no type's values, recursive declarations included. */
  lemma ExpansionKeepsMeaning(types: seq<Declaration>, basic: Admits, t: TypeRef, v: Value)
    ensures Admitted(types, basic, Plain(Expand(types, {}, t)), v) <==> Admitted(types, basic, t, v)
  {
    hide Expand, Inhabits;
    if Admitted(types, basic, t, v) {
      var n: nat :| Inhabits(types, basic, n, t, v);
      ExpansionAdmits(types, basic, {}, n, t, v);
    }
    if Admitted(types, basic, Plain(Expand(types, {}, t)), v) {
      var n: nat :| Inhabits(types, basic, n, Plain(Expand(types, {}, t)), v);
      var m := ExpansionAdmitsNoMore(types, basic, {}, n, t, v);
    }
  }

  /** Resolves every name inside a type, which admits the same values afterwards. */
  method ResolveTypeRef(types: seq<Declaration>, t: TypeRef) returns (r: TypeRef)
    ensures types != [] ==> r == Plain(Expand(types, {}, t))
    ensures types == [] ==> r == t
    ensures forall basic, v :: Admitted(types, basic, r, v) <==> Admitted(types, basic, t, v)
  {
    hide Expand, Admitted;
    if |types| == 0 {
      return t;
    }
    var resolver := new Resolver(types);
    r := resolver.Substitute(t);
    forall basic, v ensures Admitted(types, basic, r, v) <==> Admitted(types, basic, t, v) {
      ExpansionKeepsMeaning(types, basic, t, v);
    }
  }
}
