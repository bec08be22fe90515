/**
 * Structural subtyping over a type graph that may be cyclic. The checker assumes every pair on its stack
 * and forgets it again; what it decides is membership in the greatest relation the one-step rule allows.
 */
module Subtype {
  import opened Common
  import opened Strings

  /** A reference to a type: nothing, or a node of the graph. Two references are equal when they are the same node. */
  datatype Ref = Nil | At(node: nat)

  datatype Kind = NullKind | BooleanKind | IntKind | LongKind | FloatKind | DoubleKind | StringKind | AnyKind

  datatype Field = Field(name: string, of: Ref)

  datatype Type =
    | Primitive(kind: Kind)
    | Array(items: Ref)
    | MapOf(values: Ref)
    | Union(options: seq<Ref>)
    | Enum(name: string, symbols: seq<string>)
    | Record(name: string, fields: seq<Field>, bases: seq<string>)

  /** The type nodes, and the names the schema defines. */
  datatype Graph = Graph(nodes: map<nat, Type>, names: map<string, nat>)

  predicate InGraph(g: Graph, r: Ref) {
    r.At? ==> r.node in g.nodes
  }

  /** Every reference leads somewhere. */
  ghost predicate Closed(g: Graph) {
    && (forall name :: name in g.names ==> g.names[name] in g.nodes)
    && forall n :: n in g.nodes ==>
         match g.nodes[n]
         case Array(items) => InGraph(g, items)
         case MapOf(values) => InGraph(g, values)
         case Union(options) => forall i :: 0 <= i < |options| ==> InGraph(g, options[i])
         case Record(_, fields, _) => forall i :: 0 <= i < |fields| ==> InGraph(g, fields[i].of)
         case _ => true
  }

  // ---- names ----

  function FirstField(fields: seq<Field>, matches: Field -> bool): Option<Field> {
    if fields == [] then None
    else if matches(fields[0]) then Some(fields[0])
    else FirstField(fields[1..], matches)
  }

  /** A field by exact name, or failing that by short name. */
  function FieldNamed(fields: seq<Field>, name: string): Option<Field> {
    match FirstField(fields, (f: Field) => f.name == name)
    case Some(f) => Some(f)
    case None => FirstField(fields, (f: Field) => ShortName(f.name) == ShortName(name))
  }

  lemma {:induction false} FirstFieldIs(fields: seq<Field>, matches: Field -> bool)
    ensures match FirstField(fields, matches)
            case None => forall i :: 0 <= i < |fields| ==> !matches(fields[i])
            case Some(f) =>
              exists i :: 0 <= i < |fields| && fields[i] == f && matches(f) && forall j :: 0 <= j < i ==>
                !matches(fields[j])
  {
    if fields != [] && !matches(fields[0]) {
      FirstFieldIs(fields[1..], matches);
      if FirstField(fields[1..], matches).Some? {
        var f := FirstField(fields[1..], matches).value;
        var i :| 0 <= i < |fields[1..]| && fields[1..][i] == f && forall j :: 0 <= j < i ==> !matches(fields[1..][j]);
        assert fields[i + 1] == f;
        forall j | 0 <= j < i + 1 ensures !matches(fields[j]) {
          assert j > 0 ==> fields[j] == fields[1..][j - 1];
        }
      } else {
        forall i | 0 <= i < |fields| ensures !matches(fields[i]) {
          assert i > 0 ==> fields[i] == fields[1..][i - 1];
        }
      }
    }
  }

  predicate FirstExact(fields: seq<Field>, name: string, i: nat)
    requires i < |fields|
  {
    fields[i].name == name && forall j :: 0 <= j < i ==> fields[j].name != name
  }

  predicate FirstShort(fields: seq<Field>, name: string, i: nat)
    requires i < |fields|
  {
    && ShortName(fields[i].name) == ShortName(name)
    && (forall j :: 0 <= j < i ==> ShortName(fields[j].name) != ShortName(name))
    && forall j :: 0 <= j < |fields| ==> fields[j].name != name
  }

  /**
   * The field found is the first of exactly that name, or failing any such the first of its short name; none is
   * found only if neither occurs.
   */
  lemma FieldNamedIs(fields: seq<Field>, name: string)
    ensures match FieldNamed(fields, name)
            case None => forall i :: 0 <= i < |fields| ==> ShortName(fields[i].name) != ShortName(name)
            case Some(f) =>
              || (exists i :: 0 <= i < |fields| && fields[i] == f && FirstExact(fields, name, i))
              || (exists i :: 0 <= i < |fields| && fields[i] == f && FirstShort(fields, name, i))
  {
    hide ShortName;
    FirstFieldIs(fields, (f: Field) => f.name == name);
    FirstFieldIs(fields, (f: Field) => ShortName(f.name) == ShortName(name));
  }

  predicate SameTypeName(a: string, b: string) {
    a != "" && a == b
  }

  predicate HasSymbol(symbols: seq<string>, symbol: string) {
    exists i :: 0 <= i < |symbols| && (symbols[i] == symbol || ShortName(symbols[i]) == ShortName(symbol))
  }

  // ---- one step of the rule ----

  predicate IsNull(g: Graph, r: Ref) {
    r.At? && r.node in g.nodes && g.nodes[r.node] == Primitive(NullKind)
  }

  predicate AcceptsNull(g: Graph, r: Ref) {
    r.At? && r.node in g.nodes && match g.nodes[r.node]
                                  case Primitive(kind) => kind == NullKind
                                  case Union(options) => exists i :: 0 <= i < |options| && IsNull(g, options[i])
                                  case _ => false
  }

  /** Any admits whatever cannot be null, but not the union of nothing. */
  predicate NarrowsAny(g: Graph, r: Ref)
    requires r.At? && r.node in g.nodes
  {
    g.nodes[r.node] != Union([]) && !AcceptsNull(g, r)
  }

  /** The bases a name's record declares, if the schema defines a record of that name. */
  function BasesOf(g: Graph, name: string): seq<string> {
    if name in g.names && g.names[name] in g.nodes && g.nodes[g.names[name]].Record?
    then g.nodes[g.names[name]].bases else []
  }

  /** A chain of declared bases from one of `first` to `last`. */
  ghost predicate IsChain(g: Graph, first: seq<string>, last: string, chain: seq<string>) {
    && |chain| > 0 && chain[0] in first && chain[|chain| - 1] == last
    && forall i :: 0 <= i < |chain| - 1 ==> chain[i + 1] in BasesOf(g, chain[i])
  }

  ghost predicate ExtendsName(g: Graph, first: seq<string>, last: string) {
    exists chain :: IsChain(g, first, last, chain)
  }

  /** One pair of references being compared. */
  datatype Pair = Pair(sub: Ref, super: Ref)

  ghost predicate NarrowsField(g: Graph, fields: seq<Field>, wanted: Field, s: iset<Pair>) {
    match FieldNamed(fields, wanted.name)
    case None => AcceptsNull(g, wanted.of)
    case Some(f) => Pair(f.of, wanted.of) in s
  }

  /** Two concrete declarations, given the pairs already known to hold. */
  ghost predicate NarrowsKind(g: Graph, sub: Type, super: Type, s: iset<Pair>) {
    match (sub, super)
    case (Primitive(k), Primitive(l)) => k == l
    case (Array(a), Array(b)) => Pair(a, b) in s
    case (MapOf(a), MapOf(b)) => Pair(a, b) in s
    case (Enum(n, a), Enum(m, b)) => SameTypeName(n, m) || forall i :: 0 <= i < |a| ==> HasSymbol(b, a[i])
    case (Record(n, a, first), Record(m, b, _)) =>
      || SameTypeName(n, m) || (m != "" && ExtendsName(g, first, m))
      || forall i :: 0 <= i < |b| ==> NarrowsField(g, a, b[i], s)
    case _ => false
  }

  /** The one-step rule: `p` follows from the pairs of `s`. */
  ghost predicate Follows(g: Graph, s: iset<Pair>, p: Pair) {
    if p.sub.Nil? || p.super.Nil? then p.sub == p.super
    else if p.sub.node !in g.nodes || p.super.node !in g.nodes then false
    else p.sub == p.super || Narrows(g, s, p)
  }

  ghost predicate Narrows(g: Graph, s: iset<Pair>, p: Pair)
    requires p.sub.At? && p.super.At? && p.sub.node in g.nodes && p.super.node in g.nodes
  {
    var sub, super := g.nodes[p.sub.node], g.nodes[p.super.node];
    if super == Primitive(AnyKind) then NarrowsAny(g, p.sub)
    else if sub.Union? then forall i :: 0 <= i < |sub.options| ==> Pair(sub.options[i], p.super) in s
    else if super.Union? then exists i :: 0 <= i < |super.options| && Pair(p.sub, super.options[i]) in s
    else NarrowsKind(g, sub, super, s)
  }

  lemma FollowsMonotone(g: Graph, s: iset<Pair>, t: iset<Pair>, p: Pair)
    requires s <= t && Follows(g, s, p)
    ensures Follows(g, t, p)
  {
    hide FieldNamed, ExtendsName, HasSymbol, AcceptsNull;
    if p.sub.At? && p.super.At? && p.sub != p.super {
      var sub, super := g.nodes[p.sub.node], g.nodes[p.super.node];
      if sub.Record? && super.Record? {
        forall i | 0 <= i < |super.fields| && NarrowsField(g, sub.fields, super.fields[i], s)
          ensures NarrowsField(g, sub.fields, super.fields[i], t)
        {}
      }
    }
  }

  // ---- the greatest relation the rule allows, under assumptions ----

  /** Every pair of `s` follows from `s` and the assumptions. */
  ghost predicate Consistent(g: Graph, s: iset<Pair>, assumed: set<Pair>) {
    forall p :: p in s ==> Follows(g, With(s, assumed), p)
  }

  ghost function With(s: iset<Pair>, assumed: set<Pair>): iset<Pair> {
    iset p | p in s || p in assumed
  }

  /** In the greatest fixed point of the rule, given the assumptions. */
  ghost predicate Greatest(g: Graph, assumed: set<Pair>, p: Pair) {
    exists s: iset<Pair> :: p in s && Consistent(g, s, assumed)
  }

  /** Assumed, or derivable from the assumptions. */
  ghost function Held(g: Graph, assumed: set<Pair>): iset<Pair> {
    iset p | p in assumed || Greatest(g, assumed, p)
  }

  /** The subtype relation: the greatest fixed point with nothing assumed. */
  ghost predicate IsSub(g: Graph, p: Pair) {
    Greatest(g, {}, p)
  }

  /** The relation is closed under the rule: each of its pairs follows from the relation itself. */
  lemma GreatestFollows(g: Graph, assumed: set<Pair>, p: Pair)
    requires Greatest(g, assumed, p)
    ensures Follows(g, Held(g, assumed), p)
  {
    hide Follows;
    var s :| p in s && Consistent(g, s, assumed);
    forall q | q in With(s, assumed) ensures q in Held(g, assumed) {
      if q in s {
        assert Greatest(g, assumed, q);
      }
    }
    FollowsMonotone(g, With(s, assumed), Held(g, assumed), p);
  }

  /** Whatever follows from a derivable set is derivable: the relation is the greatest one. */
  lemma FollowsIsGreatest(g: Graph, assumed: set<Pair>, p: Pair)
    requires Follows(g, Held(g, assumed), p)
    ensures Greatest(g, assumed, p)
  {
    hide Follows;
    var s := iset q | q == p || Greatest(g, assumed, q);
    forall q | q in s ensures Follows(g, With(s, assumed), q) {
      if q != p {
        GreatestFollows(g, assumed, q);
      }
      FollowsMonotone(g, Held(g, assumed), With(s, assumed), q);
    }
    assert p in s && Consistent(g, s, assumed);
  }

  /** The subtype relation is a fixed point of the one-step rule, and every other consistent set lies inside it. */
  lemma IsGreatestFixedPoint(g: Graph, p: Pair, s: iset<Pair>)
    ensures IsSub(g, p) <==> Follows(g, Held(g, {}), p)
    ensures (forall q :: q in s ==> Follows(g, s, q)) && p in s ==> IsSub(g, p)
  {
    hide Follows;
    if IsSub(g, p) {
      GreatestFollows(g, {}, p);
    }
    if Follows(g, Held(g, {}), p) {
      FollowsIsGreatest(g, {}, p);
    }
    assert With(s, {}) == s;
    assert (forall q :: q in s ==> Follows(g, s, q)) ==> Consistent(g, s, {});
  }

  /** Assuming a pair while deriving it changes nothing: this is what makes the checker's guard sound and complete. */
  lemma Accumulate(g: Graph, assumed: set<Pair>, p: Pair)
    ensures Follows(g, Held(g, assumed + {p}), p) <==> Greatest(g, assumed, p)
  {
    hide Follows;
    if Greatest(g, assumed, p) {
      GreatestFollows(g, assumed, p);
      forall q | q in Held(g, assumed) ensures q in Held(g, assumed + {p}) {
        if q !in assumed {
          MoreAssumed(g, assumed, p, q);
        }
      }
      FollowsMonotone(g, Held(g, assumed), Held(g, assumed + {p}), p);
    }
    if Follows(g, Held(g, assumed + {p}), p) {
      Discharge(g, assumed, p);
    }
  }

  lemma MoreAssumed(g: Graph, assumed: set<Pair>, p: Pair, q: Pair)
    requires Greatest(g, assumed, q)
    ensures Greatest(g, assumed + {p}, q)
  {
    hide Follows;
    var s :| q in s && Consistent(g, s, assumed);
    forall r | r in s ensures Follows(g, With(s, assumed + {p}), r) {
      FollowsMonotone(g, With(s, assumed), With(s, assumed + {p}), r);
    }
    assert Consistent(g, s, assumed + {p});
  }

  lemma Discharge(g: Graph, assumed: set<Pair>, p: Pair)
    requires Follows(g, Held(g, assumed + {p}), p)
    ensures Greatest(g, assumed, p)
  {
    hide Follows;
    var more := assumed + {p};
    var s := iset q | q == p || Greatest(g, more, q);
    forall q | q in s ensures Follows(g, With(s, assumed), q) {
      if q != p {
        GreatestFollows(g, more, q);
      }
      FollowsMonotone(g, Held(g, more), With(s, assumed), q);
    }
    assert p in s && Consistent(g, s, assumed);
  }

  lemma AssumedOnly(g: Graph, assumed: set<Pair>, p: Pair)
    requires Follows(g, iset{}, p)
    ensures Greatest(g, assumed, p)
  {
    FollowsMonotone(g, iset{}, Held(g, assumed), p);
    FollowsIsGreatest(g, assumed, p);
  }

  // ---- the checker ----

  /** All pairs of nodes: the stack can never hold more. */
  function Universe(g: Graph): set<Pair> {
    set a, b | a in g.nodes && b in g.nodes :: Pair(At(a), At(b))
  }

  /** The names a walk along `extends` can meet. */
  ghost function Names(g: Graph, first: seq<string>): set<string> {
    (set i | 0 <= i < |first| :: first[i])
    + (set name, i | name in g.names && 0 <= i < |BasesOf(g, name)| :: BasesOf(g, name)[i])
  }

  lemma ChainStays(g: Graph, first: seq<string>, last: string, chain: seq<string>, closed: iset<string>)
    requires IsChain(g, first, last, chain)
    requires forall name :: name in first ==> name in closed
    requires forall name, base :: name in closed && base in BasesOf(g, name) ==> base in closed
    ensures last in closed
  {
    var i := 0;
    while i < |chain| - 1
      invariant 0 <= i < |chain| && chain[i] in closed
    {
      i := i + 1;
    }
  }

  lemma ChainGrows(g: Graph, first: seq<string>, name: string, base: string)
    requires ExtendsName(g, first, name) && base in BasesOf(g, name)
    ensures ExtendsName(g, first, base)
  {
    var chain :| IsChain(g, first, name, chain);
    assert IsChain(g, first, base, chain + [base]);
  }

  lemma ChainStarts(g: Graph, first: seq<string>, name: string)
    requires name in first
    ensures ExtendsName(g, first, name)
  {
    assert IsChain(g, first, name, [name]);
  }

  /** The schema's record of that name declares the base. */
  predicate DeclaresBase(g: Graph, name: string, base: string) {
    && name in g.names && g.names[name] in g.nodes
    && match g.nodes[g.names[name]]
       case Record(_, _, bases) => base in bases
       case _ => false
  }

  ghost predicate ClosedUnderBases(g: Graph, first: seq<string>, names: iset<string>) {
    && (forall name :: name in first ==> name in names)
    && forall name, base :: name in names && DeclaresBase(g, name, base) ==> base in names
  }

  /** The extended names are the least ones that hold the first bases and what any of them declares. */
  lemma ExtendsExactly(g: Graph, first: seq<string>, last: string)
    ensures ClosedUnderBases(g, first, iset name | ExtendsName(g, first, name))
    ensures ExtendsName(g, first, last) <==>
        forall names: iset<string> :: ClosedUnderBases(g, first, names) ==> last in names
  {
    hide ExtendsName, IsChain;
    forall name, base ensures DeclaresBase(g, name, base) <==> base in BasesOf(g, name) {}
    var extended := iset name | ExtendsName(g, first, name);
    forall name | name in first ensures name in extended {
      ChainStarts(g, first, name);
    }
    forall name, base | name in extended && DeclaresBase(g, name, base) ensures base in extended {
      ChainGrows(g, first, name, base);
    }
    if ExtendsName(g, first, last) {
      forall names: iset<string> | ClosedUnderBases(g, first, names) ensures last in names {
        var chain := ChainOf(g, first, last);
        ChainStays(g, first, last, chain, names);
      }
    }
  }

  lemma ChainOf(g: Graph, first: seq<string>, last: string) returns (chain: seq<string>)
    requires ExtendsName(g, first, last)
    ensures IsChain(g, first, last, chain)
  {
    chain :| IsChain(g, first, last, chain);
  }

  class Checker {
    const g: Graph
    var active: set<Pair>

    constructor (g: Graph)
      ensures this.g == g && active == {}
    {
      this.g := g;
      active := {};
    }

    ghost predicate Valid()
      reads this
    {
      Closed(g) && active <= Universe(g)
    }

    ghost predicate Decided(r: bool, p: Pair)
      reads this
    {
      r <==> p in Held(g, active)
    }

    /** Decides one pair from the pairs on the stack, and leaves the stack as it was. */
    method Check(sub: Ref, super: Ref) returns (r: bool)
      requires Valid() && InGraph(g, sub) && InGraph(g, super)
      modifies this
      ensures active == old(active) && Decided(r, Pair(sub, super))
      decreases Universe(g) - active, 0
    {
      hide Held, Greatest, Narrows, Closed;
      if sub.Nil? || super.Nil? {
        NilDecides(sub, super);
        return sub.Nil? && super.Nil?;
      }
      if sub == super {
        AssumedOnly(g, active, Pair(sub, super));
        HeldIs(Pair(sub, super));
        return true;
      }
      var key := Pair(sub, super);
      HeldIs(key);
      if key in active {
        return true;
      }
      Accumulate(g, active, key);
      assert key in Universe(g) - active;
      active := active + {key};
      r := Compare(sub, super);
      active := active - {key};
      assert active == old(active);
    }

    lemma HeldIs(p: Pair)
      ensures p in Held(g, active) <==> p in active || Greatest(g, active, p)
    {}

    lemma NilDecides(sub: Ref, super: Ref)
      requires Valid() && (sub.Nil? || super.Nil?)
      ensures Pair(sub, super) in Held(g, active) <==> sub.Nil? && super.Nil?
    {
      hide Closed;
      var p := Pair(sub, super);
      HeldIs(p);
      assert p !in Universe(g);
      if Greatest(g, active, p) {
        GreatestFollows(g, active, p);
      }
      if sub == super {
        AssumedOnly(g, active, p);
      }
    }

    method Compare(sub: Ref, super: Ref) returns (r: bool)
      requires Valid() && sub.At? && super.At? && sub.node in g.nodes && super.node in g.nodes
      modifies this
      ensures active == old(active) && (r <==> Narrows(g, Held(g, active), Pair(sub, super)))
      decreases Universe(g) - active, 4
    {
      hide Held, Greatest, NarrowsKind, AcceptsNull;
      if g.nodes[super.node] == Primitive(AnyKind) {
        return NarrowsAny(g, sub);
      }
      if g.nodes[sub.node].Union? {
        r := EveryOption(g.nodes[sub.node].options, super);
        return;
      }
      if g.nodes[super.node].Union? {
        r := SomeOption(sub, g.nodes[super.node].options);
        return;
      }
      r := CompareKinds(sub, super);
    }

    method EveryOption(options: seq<Ref>, super: Ref) returns (r: bool)
      requires Valid() && InGraph(g, super) && forall i :: 0 <= i < |options| ==> InGraph(g, options[i])
      modifies this
      ensures active == old(active)
      ensures r <==> forall i :: 0 <= i < |options| ==> Pair(options[i], super) in Held(g, active)
      decreases Universe(g) - active, 1
    {
      hide Held, Closed, Universe;
      for i := 0 to |options|
        invariant active == old(active)
        invariant forall j :: 0 <= j < i ==> Pair(options[j], super) in Held(g, active)
      {
        var holds := Check(options[i], super);
        if !holds {
          return false;
        }
      }
      return true;
    }

    method SomeOption(sub: Ref, options: seq<Ref>) returns (r: bool)
      requires Valid() && InGraph(g, sub) && forall i :: 0 <= i < |options| ==> InGraph(g, options[i])
      modifies this
      ensures active == old(active)
      ensures r <==> exists i :: 0 <= i < |options| && Pair(sub, options[i]) in Held(g, active)
      decreases Universe(g) - active, 1
    {
      hide Held, Closed, Universe;
      for i := 0 to |options|
        invariant active == old(active)
        invariant forall j :: 0 <= j < i ==> Pair(sub, options[j]) !in Held(g, active)
      {
        var holds := Check(sub, options[i]);
        if holds {
          return true;
        }
      }
      return false;
    }

    method CompareKinds(sub: Ref, super: Ref) returns (r: bool)
      requires Valid() && sub.At? && super.At? && sub.node in g.nodes && super.node in g.nodes
      requires !g.nodes[sub.node].Union? && !g.nodes[super.node].Union?
      modifies this
      ensures active == old(active) && (r <==> NarrowsKind(g, g.nodes[sub.node], g.nodes[super.node], Held(g, active)))
      decreases Universe(g) - active, 3
    {
      hide Held, Universe, ExtendsName, NarrowsField, SameTypeName, HasSymbol;
      var narrow, wide := g.nodes[sub.node], g.nodes[super.node];
      if wide.Primitive? {
        return narrow == wide;
      }
      if wide.Array? {
        if !narrow.Array? {
          return false;
        }
        r := Check(narrow.items, wide.items);
        return;
      }
      if wide.MapOf? {
        if !narrow.MapOf? {
          return false;
        }
        r := Check(narrow.values, wide.values);
        return;
      }
      r := CompareDeclared(sub, super);
    }

    method CompareDeclared(sub: Ref, super: Ref) returns (r: bool)
      requires Valid() && sub.At? && super.At? && sub.node in g.nodes && super.node in g.nodes
      requires g.nodes[super.node].Enum? || g.nodes[super.node].Record?
      modifies this
      ensures active == old(active) && (r <==> NarrowsKind(g, g.nodes[sub.node], g.nodes[super.node], Held(g, active)))
      decreases Universe(g) - active, 2
    {
      hide Held, Universe, ExtendsName, NarrowsField, SameTypeName, HasSymbol;
      var narrow, wide := g.nodes[sub.node], g.nodes[super.node];
      if wide.Enum? {
        if !narrow.Enum? {
          return false;
        }
        r := EnumNarrows(narrow, wide);
      } else {
        if !narrow.Record? {
          return false;
        }
        r := RecordNarrows(narrow, wide);
      }
    }

    method EnumNarrows(sub: Type, super: Type) returns (r: bool)
      requires sub.Enum? && super.Enum?
      ensures r <==>
          || SameTypeName(sub.name, super.name)
          || forall i :: 0 <= i < |sub.symbols| ==> HasSymbol(super.symbols, sub.symbols[i])
    {
      hide HasSymbol;
      if SameTypeName(sub.name, super.name) {
        return true;
      }
      for i := 0 to |sub.symbols|
        invariant forall j :: 0 <= j < i ==> HasSymbol(super.symbols, sub.symbols[j])
      {
        if !HasSymbol(super.symbols, sub.symbols[i]) {
          return false;
        }
      }
      return true;
    }

    method RecordNarrows(sub: Type, super: Type) returns (r: bool)
      requires Valid() && sub.Record? && super.Record?
      requires forall i :: 0 <= i < |sub.fields| ==> InGraph(g, sub.fields[i].of)
      requires forall i :: 0 <= i < |super.fields| ==> InGraph(g, super.fields[i].of)
      modifies this
      ensures active == old(active) && (r <==> NarrowsKind(g, sub, super, Held(g, active)))
      decreases Universe(g) - active, 2, 0
    {
      hide Held, Closed, Universe, NarrowsField, ExtendsName;
      if SameTypeName(sub.name, super.name) {
        return true;
      }
      var extending := ExtendsTransitively(sub, super.name);
      if extending {
        return true;
      }
      r := FieldsNarrow(sub, super);
    }

    method FieldsNarrow(sub: Type, super: Type) returns (r: bool)
      requires Valid() && sub.Record? && super.Record?
      requires forall i :: 0 <= i < |sub.fields| ==> InGraph(g, sub.fields[i].of)
      requires forall i :: 0 <= i < |super.fields| ==> InGraph(g, super.fields[i].of)
      modifies this
      ensures active == old(active)
      ensures r <==> forall i :: 0 <= i < |super.fields| ==>
          NarrowsField(g, sub.fields, super.fields[i], Held(g, active))
      decreases Universe(g) - active, 1
    {
      hide Held, Closed, Universe, FieldNamed, AcceptsNull;
      for i := 0 to |super.fields|
        invariant active == old(active)
        invariant forall j :: 0 <= j < i ==> NarrowsField(g, sub.fields, super.fields[j], Held(g, active))
      {
        var found := FieldNamed(sub.fields, super.fields[i].name);
        if found.None? {
          if AcceptsNull(g, super.fields[i].of) {
            continue;
          }
          return false;
        }
        FieldNamedIs(sub.fields, super.fields[i].name);
        var holds := Check(found.value.of, super.fields[i].of);
        if !holds {
          return false;
        }
      }
      return true;
    }

    /** A queue walk over declared bases; it finds exactly the names some chain of `extends` reaches. */
    method ExtendsTransitively(sub: Type, superName: string) returns (r: bool)
      requires sub.Record?
      ensures r <==> superName != "" && ExtendsName(g, sub.bases, superName)
    {
      hide BasesOf, IsChain, ExtendsName;
      if superName == "" {
        return false;
      }
      var seen: set<string> := {};
      var queue := sub.bases;
      forall name | name in queue ensures ExtendsName(g, sub.bases, name) && name in Names(g, sub.bases) {
        ChainStarts(g, sub.bases, name);
        FirstNamed(sub.bases, name);
      }
      while queue != []
        invariant forall name :: name in queue || name in seen ==>
            ExtendsName(g, sub.bases, name) && name in Names(g, sub.bases)
        invariant forall name :: name in sub.bases ==> name in seen || name in queue
        invariant forall name, base :: name in seen && base in BasesOf(g, name) ==> base in seen || base in queue
        invariant superName !in seen
        decreases Names(g, sub.bases) - seen, |queue|
      {
        var name := queue[0];
        var rest := queue[1..];
        assert queue == [name] + rest;
        queue := rest;
        if name in seen {
          continue;
        }
        if name == superName {
          return true;
        }
        forall base | base in BasesOf(g, name) ensures ExtendsName(g, sub.bases, base) && base in Names(g, sub.bases) {
          ChainGrows(g, sub.bases, name, base);
          BaseNamed(sub.bases, name, base);
        }
        seen := seen + {name};
        queue := queue + BasesOf(g, name);
      }
      NoChain(sub.bases, superName, seen);
      return false;
    }

    lemma NoChain(first: seq<string>, superName: string, seen: set<string>)
      requires superName !in seen
      requires forall name :: name in first ==> name in seen
      requires forall name, base :: name in seen && base in BasesOf(g, name) ==> base in seen
      ensures !ExtendsName(g, first, superName)
    {
      if ExtendsName(g, first, superName) {
        var chain :| IsChain(g, first, superName, chain);
        ChainStays(g, first, superName, chain, iset n | n in seen);
      }
    }

    lemma FirstNamed(first: seq<string>, name: string)
      requires name in first
      ensures name in Names(g, first)
    {}

    lemma BaseNamed(first: seq<string>, name: string, base: string)
      requires base in BasesOf(g, name)
      ensures base in Names(g, first)
    {
      var i :| 0 <= i < |BasesOf(g, name)| && BasesOf(g, name)[i] == base;
    }
  }

  /** Decides structural subtyping: true exactly on the greatest fixed point of the one-step rule, cycles included. */
  method IsSubtype(g: Graph, sub: Ref, super: Ref) returns (r: bool)
    requires Closed(g) && InGraph(g, sub) && InGraph(g, super)
    ensures r <==> IsSub(g, Pair(sub, super))
  {
    var c := new Checker(g);
    r := c.Check(sub, super);
  }
}
