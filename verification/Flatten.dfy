/**
 * Flattening `extends`: each definition with the fields or symbols of its bases merged in, on demand and
 * memoized.
 */
module Flatten {
  import opened Common
  import opened Strings
  import opened FieldLists

  // ---- symbols ----

  function AppendSymbols(dst: seq<string>, symbols: seq<Option<string>>): seq<string> {
    if symbols == [] then dst
    else
      var n := |symbols| - 1;
      var before := AppendSymbols(dst, symbols[..n]);
      if symbols[n].None? || HasShort(before, ShortName(symbols[n].value)) then before else before + [symbols[n].value]
  }

  predicate HasShort(symbols: seq<string>, short: string) {
    exists i :: 0 <= i < |symbols| && ShortName(symbols[i]) == short
  }

  // ---- flattening, without a memo ----

  /** A name's definition flattened; `visiting` are the names being flattened around it. */
  function Flat(raw: Defs, visiting: set<string>, name: string): Result<Def>
    decreases raw.Keys - visiting, 0
  {
    if name in visiting then Err(ExtendsCycle)
    else if name !in raw then Err(UndefinedBase)
    else Expanded(raw, visiting + {name}, raw[name])
  }

  function Expanded(raw: Defs, visiting: set<string>, def: Def): Result<Def>
    decreases raw.Keys - visiting, |def.bases| + 1
  {
    if def.bases == [] then Ok(def)
    else match def.kind
      case RecordKind =>
        (match Inherited(raw, visiting, def, |def.bases|)
         case Err(e) => Err(e)
         case Ok(inherited) =>
           match def.fields
           case Err(e) => Err(e)
           case Ok(own) => Ok(def.(fields := Ok(Merged(inherited, PutAll([], own))))))
      case EnumKind =>
        (match BaseSymbols(raw, visiting, def, |def.bases|)
         case Err(e) => Err(e)
         case Ok(symbols) => Ok(def.(symbols := Some(AsSymbols(AppendSymbols(symbols, SymbolsOf(def)))))))
      case OtherKind => Ok(def)
  }

  function SymbolsOf(def: Def): seq<Option<string>> {
    match def.symbols case None => [] case Some(symbols) => symbols
  }

  function AsSymbols(symbols: seq<string>): seq<Option<string>> {
    seq(|symbols|, i requires 0 <= i < |symbols| => Some(symbols[i]))
  }

  /** The fields of the first `k` bases. */
  function Inherited(raw: Defs, visiting: set<string>, def: Def, k: nat): Result<seq<Field>>
    requires k <= |def.bases|
    decreases raw.Keys - visiting, k
  {
    if k == 0 then Ok([])
    else match Inherited(raw, visiting, def, k - 1)
      case Err(e) => Err(e)
      case Ok(sofar) =>
        match Flat(raw, visiting, def.bases[k - 1])
        case Err(e) => Err(e)
        case Ok(base) =>
          match base.fields
          case Err(e) => Err(e)
          case Ok(fields) => Ok(PutAll(sofar, FromBase(def, fields, def.bases[k - 1])))
  }

  function BaseSymbols(raw: Defs, visiting: set<string>, def: Def, k: nat): Result<seq<string>>
    requires k <= |def.bases|
    decreases raw.Keys - visiting, k
  {
    if k == 0 then Ok([])
    else match BaseSymbols(raw, visiting, def, k - 1)
      case Err(e) => Err(e)
      case Ok(sofar) =>
        match Flat(raw, visiting, def.bases[k - 1])
        case Err(e) => Err(e)
        case Ok(base) => Ok(AppendSymbols(sofar, SymbolsOf(base)))
  }

  // ---- what flattening depends on ----

  /** `a` resolves `b` while it is being flattened. */
  predicate Edge(raw: Defs, a: string, b: string) {
    a in raw && !raw[a].kind.OtherKind? && b in raw[a].bases
  }

  ghost predicate IsPath(raw: Defs, path: seq<string>) {
    |path| > 0 && forall i :: 0 <= i < |path| - 1 ==> Edge(raw, path[i], path[i + 1])
  }

  function Last(path: seq<string>): string
    requires |path| > 0
  {
    path[|path| - 1]
  }

  ghost predicate FlattensInside(raw: Defs, name: string) {
    exists visiting: set<string> :: Flat(raw, visiting, name).Ok?
  }

  ghost predicate Leads(raw: Defs, path: seq<string>, a: string, b: string) {
    IsPath(raw, path) && path[0] == a && path[|path| - 1] == b
  }

  ghost predicate Reaches(raw: Defs, a: string, b: string) {
    exists path :: Leads(raw, path, a, b)
  }

  lemma ReachesSelf(raw: Defs, a: string)
    ensures Reaches(raw, a, a)
  {
    assert Leads(raw, [a], a, a);
  }

  lemma ReachesOn(raw: Defs, a: string, b: string, c: string)
    requires Reaches(raw, a, b) && Edge(raw, b, c)
    ensures Reaches(raw, a, c)
  {
    var path :| Leads(raw, path, a, b);
    assert Leads(raw, path + [c], a, c);
  }

  lemma PathFrom(raw: Defs, a: string, b: string, path: seq<string>)
    requires Edge(raw, a, b) && IsPath(raw, path) && path[0] == b
    ensures IsPath(raw, [a] + path) && ([a] + path)[|path|] == path[|path| - 1]
  {}

  lemma PathTail(raw: Defs, path: seq<string>)
    requires IsPath(raw, path) && |path| > 1
    ensures IsPath(raw, path[1..]) && Edge(raw, path[0], path[1])
  {}

  lemma Joined(raw: Defs, p: seq<string>, q: seq<string>)
    requires IsPath(raw, p) && IsPath(raw, q) && p[|p| - 1] == q[0]
    ensures IsPath(raw, p + q[1..]) && (p + q[1..])[0] == p[0] && (p + q[1..])[|p| + |q| - 2] == q[|q| - 1]
  {
    var path := p + q[1..];
    forall i | 0 <= i < |path| - 1 ensures Edge(raw, path[i], path[i + 1]) {
      if i >= |p| - 1 {
        assert path[i] == q[i - |p| + 1] && path[i + 1] == q[i - |p| + 2];
      }
    }
  }

  lemma {:induction false} InheritedNeeds(raw: Defs, visiting: set<string>, def: Def, k: nat, i: nat)
    requires i < k <= |def.bases| && Inherited(raw, visiting, def, k).Ok?
    ensures Flat(raw, visiting, def.bases[i]).Ok? && Flat(raw, visiting, def.bases[i]).value.fields.Ok?
    ensures Inherited(raw, visiting, def, i).Ok?
  {
    hide Flat;
    if i < k - 1 {
      InheritedNeeds(raw, visiting, def, k - 1, i);
    }
  }

  lemma {:induction false} SymbolsNeed(raw: Defs, visiting: set<string>, def: Def, k: nat, i: nat)
    requires i < k <= |def.bases| && BaseSymbols(raw, visiting, def, k).Ok?
    ensures Flat(raw, visiting, def.bases[i]).Ok?
  {
    hide Flat;
    if i < k - 1 {
      SymbolsNeed(raw, visiting, def, k - 1, i);
    }
  }

  /** A definition flattens only if each of its bases does, inside it. */
  lemma BasesFlatten(raw: Defs, visiting: set<string>, a: string, b: string)
    requires Flat(raw, visiting, a).Ok? && Edge(raw, a, b)
    ensures Flat(raw, visiting + {a}, b).Ok?
  {
    var def := raw[a];
    var i :| 0 <= i < |def.bases| && def.bases[i] == b;
    if def.kind.RecordKind? {
      InheritedNeeds(raw, visiting + {a}, def, |def.bases|, i);
    } else {
      SymbolsNeed(raw, visiting + {a}, def, |def.bases|, i);
    }
  }

  /** Nothing a flattened name leads to is being visited, undefined, or the name itself again. */
  lemma {:induction false} FlatLeadsOut(raw: Defs, visiting: set<string>, path: seq<string>)
    requires IsPath(raw, path) && Flat(raw, visiting, path[0]).Ok?
    ensures forall i :: 0 <= i < |path| ==> path[i] !in visiting && path[i] in raw
    ensures forall i :: 0 < i < |path| ==> path[i] != path[0]
    ensures FlattensInside(raw, Last(path))
    decreases |path|
  {
    hide Expanded;
    if |path| > 1 {
      PathTail(raw, path);
      BasesFlatten(raw, visiting, path[0], path[1]);
      FlatLeadsOut(raw, visiting + {path[0]}, path[1..]);
      assert forall i :: 0 < i < |path| ==> path[i] == path[1..][i - 1];
    }
  }

  lemma {:induction false} InheritedAgrees(raw: Defs, v: set<string>, w: set<string>, def: Def, k: nat)
    requires k <= |def.bases| && forall i :: 0 <= i < k ==> Flat(raw, v, def.bases[i]) == Flat(raw, w, def.bases[i])
    ensures Inherited(raw, v, def, k) == Inherited(raw, w, def, k)
    ensures BaseSymbols(raw, v, def, k) == BaseSymbols(raw, w, def, k)
  {
    hide Flat;
    if k > 0 {
      InheritedAgrees(raw, v, w, def, k - 1);
    }
  }

  lemma ExpandedAgrees(raw: Defs, v: set<string>, w: set<string>, def: Def)
    requires !def.kind.OtherKind? ==> forall i :: 0 <= i < |def.bases| ==>
        Flat(raw, v, def.bases[i]) == Flat(raw, w, def.bases[i])
    ensures Expanded(raw, v, def) == Expanded(raw, w, def)
    ensures !def.kind.OtherKind? ==> Inherited(raw, v, def, |def.bases|) == Inherited(raw, w, def, |def.bases|)
  {
    hide Flat, Inherited, BaseSymbols;
    if !def.kind.OtherKind? {
      InheritedAgrees(raw, v, w, def, |def.bases|);
    }
  }

  /** A name that flattens somewhere flattens the same wherever nothing it leads to is being visited. */
  lemma {:induction false} FlatAnywhere(raw: Defs, v: set<string>, w: set<string>, name: string)
    requires Flat(raw, w, name).Ok? && forall path :: IsPath(raw, path) && path[0] == name ==> path[|path| - 1] !in v
    ensures Flat(raw, v, name) == Flat(raw, w, name)
    ensures Inherited(raw, v + {name}, raw[name], |raw[name].bases|) ==
        Inherited(raw, w + {name}, raw[name], |raw[name].bases|) || raw[name].kind.OtherKind?
    decreases raw.Keys - w
  {
    hide Expanded, Inherited;
    var def := raw[name];
    assert IsPath(raw, [name]);
    if !def.kind.OtherKind? {
      forall i | 0 <= i < |def.bases|
        ensures Flat(raw, v + {name}, def.bases[i]) == Flat(raw, w + {name}, def.bases[i])
      {
        var base := def.bases[i];
        BasesFlatten(raw, w, name, base);
        forall path | IsPath(raw, path) && path[0] == base ensures path[|path| - 1] !in v + {name} {
          PathFrom(raw, name, base, path);
          FlatLeadsOut(raw, w, [name] + path);
          assert ([name] + path)[|[name] + path| - 1] !in v;
        }
        FlatAnywhere(raw, v + {name}, w + {name}, base);
      }
    }
    ExpandedAgrees(raw, v + {name}, w + {name}, def);
  }

  // ---- when flattening fails ----

  lemma {:induction false} FieldsStayGood(raw: Defs, visiting: set<string>, name: string)
    requires Flat(raw, visiting, name).Ok? && raw[name].fields.Ok?
    ensures Flat(raw, visiting, name).value.fields.Ok?
  {
    hide Inherited, BaseSymbols;
  }

  ghost predicate WellFormedFields(raw: Defs) {
    forall name :: name in raw ==> raw[name].fields.Ok?
  }

  lemma {:induction false} FailingBase(raw: Defs, visiting: set<string>, def: Def, k: nat) returns (i: nat)
    requires WellFormedFields(raw) && k <= |def.bases|
    requires Inherited(raw, visiting, def, k).Err?
    ensures i < k && Flat(raw, visiting, def.bases[i]) == Err(Inherited(raw, visiting, def, k).error)
  {
    hide Expanded;
    i := k - 1;
    if Inherited(raw, visiting, def, k - 1).Err? {
      i := FailingBase(raw, visiting, def, k - 1);
    } else if Flat(raw, visiting, def.bases[i]).Ok? {
      FieldsStayGood(raw, visiting, def.bases[i]);
    }
  }

  lemma {:induction false} FailingEnumBase(raw: Defs, visiting: set<string>, def: Def, k: nat) returns (i: nat)
    requires k <= |def.bases| && BaseSymbols(raw, visiting, def, k).Err?
    ensures i < k && Flat(raw, visiting, def.bases[i]) == Err(BaseSymbols(raw, visiting, def, k).error)
  {
    hide Flat;
    i := k - 1;
    if BaseSymbols(raw, visiting, def, k - 1).Err? {
      i := FailingEnumBase(raw, visiting, def, k - 1);
    }
  }

  /** A failing definition has a failing base. */
  lemma BaseFails(raw: Defs, visiting: set<string>, name: string) returns (base: string)
    requires WellFormedFields(raw) && name in raw && name !in visiting && Flat(raw, visiting, name).Err?
    ensures Edge(raw, name, base) && Flat(raw, visiting + {name}, base) == Err(Flat(raw, visiting, name).error)
  {
    hide Inherited, BaseSymbols;
    var def := raw[name];
    var i: nat;
    if def.kind.RecordKind? {
      i := FailingBase(raw, visiting + {name}, def, |def.bases|);
    } else {
      i := FailingEnumBase(raw, visiting + {name}, def, |def.bases|);
    }
    base := def.bases[i];
  }

  /** A walk that returns to where it began. */
  ghost predicate IsLoop(raw: Defs, loop: seq<string>, at: string) {
    |loop| > 1 && Leads(raw, loop, at, at)
  }

  ghost predicate Loops(raw: Defs, at: string) {
    exists loop :: IsLoop(raw, loop, at)
  }

  /** Every failure leads to an undefined name, to one being visited, or to a loop, and says which. */
  lemma {:induction false} FailureHasCause(raw: Defs, visiting: set<string>, name: string)
    returns (path: seq<string>, loop: seq<string>)
    requires WellFormedFields(raw) && Flat(raw, visiting, name).Err?
    ensures IsPath(raw, path) && path[0] == name
    ensures var last := path[|path| - 1];
            || (Flat(raw, visiting, name).error == UndefinedBase && last !in raw)
            || (Flat(raw, visiting, name).error == ExtendsCycle && (last in visiting || IsLoop(raw, loop, last)))
    decreases raw.Keys - visiting
  {
    hide Expanded;
    path, loop := [name], [];
    if name in raw && name !in visiting {
      var base := BaseFails(raw, visiting, name);
      var rest;
      rest, loop := FailureHasCause(raw, visiting + {name}, base);
      PathFrom(raw, name, base, rest);
      if rest[|rest| - 1] == name && !IsLoop(raw, loop, name) {
        loop := [name] + rest;
      } else {
        path := [name] + rest;
      }
    }
  }

  /** A name is sound if all it leads to is defined and nothing it leads to loops. */
  ghost predicate Sound(raw: Defs, name: string) {
    forall path :: IsPath(raw, path) && path[0] == name ==> Last(path) in raw && !Loops(raw, Last(path))
  }

  /** With well-formed fields, flattening fails exactly on an extends cycle or an undefined base. */
  lemma FlattensExactly(raw: Defs, name: string)
    requires WellFormedFields(raw)
    ensures Flat(raw, {}, name).Ok? <==> Sound(raw, name)
  {
    hide Flat;
    if Flat(raw, {}, name).Ok? {
      forall path | IsPath(raw, path) && path[0] == name ensures Last(path) in raw && !Loops(raw, Last(path)) {
        FlatLeadsOut(raw, {}, path);
        if Loops(raw, Last(path)) {
          var loop :| IsLoop(raw, loop, Last(path));
          var more: set<string> :| Flat(raw, more, Last(path)).Ok?;
          FlatLeadsOut(raw, more, loop);
        }
      }
    } else {
      var path, loop := FailureHasCause(raw, {}, name);
      assert Last(path) !in raw || IsLoop(raw, loop, Last(path));
    }
  }

  // ---- where an inherited field comes from ----

  /** A definition declares a field of this short name itself. */
  predicate DeclaresField(raw: Defs, name: string, short: string) {
    name in raw && raw[name].fields.Ok? && Position(raw[name].fields.value, short) >= 0
  }

  /** No declaration is written with a provenance of its own. */
  ghost predicate Untagged(raw: Defs) {
    forall name, i :: name in raw && raw[name].fields.Ok? && 0 <= i < |raw[name].fields.value| ==>
      raw[name].fields.value[i].inheritedFrom.None?
  }

  /** Where a field of a flattened definition was last declared. */
  ghost predicate ComesFrom(raw: Defs, name: string, f: Field) {
    match f.inheritedFrom
    case None => DeclaresField(raw, name, Short(f))
    case Some(base) => exists path :: LastDeclared(raw, path, name, base, Short(f))
  }

  /** Along the path only its end declares the field. */
  ghost predicate LastDeclared(raw: Defs, path: seq<string>, name: string, base: string, short: string) {
    && |path| > 1 && Leads(raw, path, name, base) && DeclaresField(raw, base, short)
    && forall i :: 0 <= i < |path| - 1 ==> !DeclaresField(raw, path[i], short)
  }

  lemma OwnComesFrom(raw: Defs, name: string, f: Field)
    requires Untagged(raw) && name in raw && raw[name].fields.Ok? && f in raw[name].fields.value
    ensures ComesFrom(raw, name, f)
  {
    hide ShortName;
    var fields := raw[name].fields.value;
    var i :| 0 <= i < |fields| && fields[i] == f;
    assert Position(fields, Short(f)) >= 0;
  }

  lemma TaggedComesFrom(raw: Defs, name: string, base: string, g: Field, f: Field)
    requires Edge(raw, name, base) && ComesFrom(raw, base, g) && !DeclaresField(raw, name, Short(g))
    requires f == Tagged(g.(body := f.body), base)
    ensures ComesFrom(raw, name, f)
  {
    hide ShortName, DeclaresField;
    if g.inheritedFrom.None? {
      assert LastDeclared(raw, [name, base], name, base, Short(f));
    } else {
      var path :| LastDeclared(raw, path, base, g.inheritedFrom.value, Short(g));
      PathFrom(raw, name, base, path);
      assert LastDeclared(raw, [name] + path, name, g.inheritedFrom.value, Short(f));
    }
  }

  /** What the inherited list holds came from one of the bases. */
  ghost predicate FromSomeBase(raw: Defs, visiting: set<string>, def: Def, f: Field) {
    exists i, j :: 0 <= i < |def.bases| && FieldOfBase(raw, visiting, def, i, j, f)
  }

  ghost predicate FieldOfBase(raw: Defs, visiting: set<string>, def: Def, i: nat, j: nat, f: Field)
    requires i < |def.bases|
  {
    var base := Flat(raw, visiting, def.bases[i]);
    && base.Ok? && base.value.fields.Ok? && j < |base.value.fields.value|
    && f == FromBase(def, base.value.fields.value, def.bases[i])[j]
  }

  lemma {:induction false} PutAllHolds(list: seq<Field>, fields: seq<Field>, f: Field)
    ensures f in PutAll(list, fields) ==> f in list || f in fields
  {
    hide ShortName, Position;
    if fields != [] {
      var n := |fields| - 1;
      PutAllHolds(list, fields[..n], f);
      assert fields == fields[..n] + [fields[n]];
    }
  }

  lemma {:induction false} InheritedIsFromBases(raw: Defs, visiting: set<string>, def: Def, k: nat, f: Field)
    requires k <= |def.bases| && Inherited(raw, visiting, def, k).Ok? && f in Inherited(raw, visiting, def, k).value
    ensures FromSomeBase(raw, visiting, def, f)
  {
    hide Flat, PutAll;
    if k > 0 {
      var sofar := Inherited(raw, visiting, def, k - 1).value;
      var fields := Flat(raw, visiting, def.bases[k - 1]).value.fields.value;
      var seen := FromBase(def, fields, def.bases[k - 1]);
      PutAllHolds(sofar, seen, f);
      if f in sofar {
        InheritedIsFromBases(raw, visiting, def, k - 1, f);
      } else {
        var j :| 0 <= j < |seen| && seen[j] == f;
        assert FieldOfBase(raw, visiting, def, k - 1, j, f);
      }
    }
  }

  /** `inheritedFrom` names the definition that last declared the field; an own field carries none. */
  lemma {:induction false} ProvenanceIsRight(raw: Defs, visiting: set<string>, name: string, f: Field)
    requires Untagged(raw) && Flat(raw, visiting, name).Ok? && Flat(raw, visiting, name).value.fields.Ok?
    requires f in Flat(raw, visiting, name).value.fields.value
    ensures ComesFrom(raw, name, f)
    decreases raw.Keys - visiting
  {
    hide ShortName, PutAll, Merged, ComesFrom, Inherited, FieldOfBase;
    var def := raw[name];
    if def.bases == [] || !def.kind.RecordKind? {
      PlainFields(raw, visiting, name);
      OwnComesFrom(raw, name, f);
    } else {
      var inherited, own := Inherited(raw, visiting + {name}, def, |def.bases|).value, def.fields.value;
      MergedHolds(inherited, own, f);
      if f in own {
        OwnComesFrom(raw, name, f);
      } else {
        InheritedIsFromBases(raw, visiting + {name}, def, |def.bases|, f);
        var i, j :| 0 <= i < |def.bases| && FieldOfBase(raw, visiting + {name}, def, i, j, f);
        FromBaseComesFrom(raw, visiting, name, i, j, f);
      }
    }
  }

  lemma PlainFields(raw: Defs, visiting: set<string>, name: string)
    requires Flat(raw, visiting, name).Ok? && (raw[name].bases == [] || !raw[name].kind.RecordKind?)
    ensures Flat(raw, visiting, name).value.fields == raw[name].fields
  {
    hide BaseSymbols;
  }

  /** A merged field is an own one, or an inherited one that the record does not declare. */
  lemma MergedHolds(inherited: seq<Field>, own: seq<Field>, f: Field)
    requires f in Merged(inherited, PutAll([], own))
    ensures f in own || (f in inherited && Position(own, Short(f)) < 0)
  {
    hide ShortName, PutAll, Position;
    var all := PutAll([], own);
    PutAllHolds([], own, f);
    PutAllHoldsLast([], own, Short(f));
    AddedAre(inherited, all);
    var i :| 0 <= i < |Merged(inherited, all)| && Merged(inherited, all)[i] == f;
    if i >= |inherited| {
      assert f in Added(inherited, all);
    }
  }

  lemma {:induction false} FromBaseComesFrom(raw: Defs, visiting: set<string>, name: string, i: nat, j: nat, f: Field)
    requires Untagged(raw) && name in raw && name !in visiting && raw[name].kind.RecordKind? && i < |raw[name].bases|
    requires FieldOfBase(raw, visiting + {name}, raw[name], i, j, f) && !DeclaresField(raw, name, Short(f))
    ensures ComesFrom(raw, name, f)
    decreases raw.Keys - visiting, 0
  {
    hide ShortName, ComesFrom, DeclaresField, Flat;
    var base := raw[name].bases[i];
    var g := Flat(raw, visiting + {name}, base).value.fields.value[j];
    ProvenanceIsRight(raw, visiting + {name}, base, g);
    assert f == Tagged(g.(body := raw[name].specialize(g.body)), base);
    TaggedComesFrom(raw, name, base, g, f);
  }

  // ---- the symbols of a flattened enum ----

  lemma OneMoreShort(symbols: seq<string>, symbol: string)
    ensures forall short :: HasShort(symbols + [symbol], short) <==>
        HasShort(symbols, short) || short == ShortName(symbol)
  {
    hide ShortName;
    var all := symbols + [symbol];
    assert forall i :: 0 <= i < |symbols| ==> all[i] == symbols[i];
    assert all[|symbols|] == symbol;
  }

  predicate DistinctShorts(symbols: seq<string>) {
    forall i, j :: 0 <= i < j < |symbols| ==> ShortName(symbols[i]) != ShortName(symbols[j])
  }

  /** A symbol of that short name is declared. */
  predicate Declares(symbols: seq<Option<string>>, short: string) {
    exists i :: 0 <= i < |symbols| && symbols[i].Some? && ShortName(symbols[i].value) == short
  }

  /** What was there stays in place; of the rest, each short name that was missing is added once, and nothing else. */
  lemma {:induction false} AppendedIs(dst: seq<string>, symbols: seq<Option<string>>)
    ensures dst <= AppendSymbols(dst, symbols)
    ensures DistinctShorts(dst) ==> DistinctShorts(AppendSymbols(dst, symbols))
    ensures forall short :: HasShort(AppendSymbols(dst, symbols), short) <==>
        HasShort(dst, short) || Declares(symbols, short)
  {
    hide ShortName;
    if symbols != [] {
      var n := |symbols| - 1;
      AppendedIs(dst, symbols[..n]);
      var before := AppendSymbols(dst, symbols[..n]);
      DeclaresOneMore(symbols);
      if symbols[n].Some? {
        OneMoreShort(before, symbols[n].value);
        if !HasShort(before, ShortName(symbols[n].value)) {
          assert forall i :: 0 <= i < |before| ==> ShortName(before[i]) != ShortName(symbols[n].value);
        }
      }
    }
  }

  lemma DeclaresOneMore(symbols: seq<Option<string>>)
    requires symbols != []
    ensures var n := |symbols| - 1;
            forall short :: Declares(symbols, short) <==>
              Declares(symbols[..n], short) || (symbols[n].Some? && ShortName(symbols[n].value) == short)
  {
    hide ShortName;
    var n := |symbols| - 1;
    forall short | Declares(symbols[..n], short) ensures Declares(symbols, short) {
      var i :| 0 <= i < n && symbols[..n][i].Some? && ShortName(symbols[..n][i].value) == short;
      assert symbols[i] == symbols[..n][i];
    }
    forall short | Declares(symbols, short) && !(symbols[n].Some? && ShortName(symbols[n].value) == short)
      ensures Declares(symbols[..n], short)
    {
      var i :| 0 <= i < |symbols| && symbols[i].Some? && ShortName(symbols[i].value) == short;
      assert symbols[..n][i] == symbols[i];
    }
  }

  /** One of the first `k` bases, flattened, declares the short name. */
  ghost predicate BaseDeclares(raw: Defs, visiting: set<string>, def: Def, k: nat, short: string)
    requires k <= |def.bases|
  {
    exists j :: 0 <= j < k && FlatDeclares(raw, visiting, def.bases[j], short)
  }

  predicate FlatDeclares(raw: Defs, visiting: set<string>, base: string, short: string) {
    Flat(raw, visiting, base).Ok? && Declares(SymbolsOf(Flat(raw, visiting, base).value), short)
  }

  lemma {:induction false} BaseSymbolsAre(raw: Defs, visiting: set<string>, def: Def, k: nat)
    requires k <= |def.bases| && BaseSymbols(raw, visiting, def, k).Ok?
    ensures DistinctShorts(BaseSymbols(raw, visiting, def, k).value)
    ensures forall short ::
        HasShort(BaseSymbols(raw, visiting, def, k).value, short) <==> BaseDeclares(raw, visiting, def, k, short)
    ensures forall j :: 0 <= j < k ==> Flat(raw, visiting, def.bases[j]).Ok?
  {
    hide ShortName, Flat, AppendSymbols, Declares, HasShort;
    if k == 0 {
      assert forall short :: !HasShort([], short) by { NoShort(); }
    } else {
      BaseSymbolsAre(raw, visiting, def, k - 1);
      var base := Flat(raw, visiting, def.bases[k - 1]).value;
      AppendedIs(BaseSymbols(raw, visiting, def, k - 1).value, SymbolsOf(base));
    }
  }

  lemma NoShort()
    ensures forall short :: !HasShort([], short)
  {}

  /**
   * The symbols of an enum that extends others have different short names; they cover exactly the short names
   * its bases, flattened, or itself declare; and where a base declares one, the base's symbol stands.
   */
  lemma EnumIsMerged(raw: Defs, visiting: set<string>, name: string)
    requires Flat(raw, visiting, name).Ok? && raw[name].kind.EnumKind? && raw[name].bases != []
    ensures var def, around := raw[name], visiting + {name};
            var out := SymbolsOf(Flat(raw, visiting, name).value);
            var inherited := BaseSymbols(raw, around, def, |def.bases|);
            && (forall i :: 0 <= i < |out| ==> out[i].Some?)
            && (forall i, j :: 0 <= i < j < |out| ==> ShortName(out[i].value) != ShortName(out[j].value))
            && (forall j :: 0 <= j < |def.bases| ==> Flat(raw, around, def.bases[j]).Ok?)
            && (forall short :: Declares(out, short) <==>
                  BaseDeclares(raw, around, def, |def.bases|, short) || Declares(SymbolsOf(def), short))
            && inherited.Ok? && AsSymbols(inherited.value) <= out
            && (forall i :: |inherited.value| <= i < |out| ==> out[i] in SymbolsOf(def))
  {
    hide ShortName, AppendSymbols, BaseSymbols, HasShort, Declares, BaseDeclares;
    var def, around := raw[name], visiting + {name};
    var inherited := BaseSymbols(raw, around, def, |def.bases|).value;
    BaseSymbolsAre(raw, around, def, |def.bases|);
    AppendedIs(inherited, SymbolsOf(def));
    var out := AppendSymbols(inherited, SymbolsOf(def));
    AsDeclared(out);
    assert AsSymbols(inherited) <= AsSymbols(out);
    OwnAfter(inherited, SymbolsOf(def));
  }

  lemma AsDeclared(symbols: seq<string>)
    ensures forall short :: Declares(AsSymbols(symbols), short) <==> HasShort(symbols, short)
  {
    hide ShortName;
    forall short | HasShort(symbols, short) ensures Declares(AsSymbols(symbols), short) {
      var i :| 0 <= i < |symbols| && ShortName(symbols[i]) == short;
      assert AsSymbols(symbols)[i] == Some(symbols[i]);
    }
  }

  lemma {:induction false} OwnAfter(dst: seq<string>, symbols: seq<Option<string>>)
    ensures dst <= AppendSymbols(dst, symbols)
    ensures forall i :: |dst| <= i < |AppendSymbols(dst, symbols)| ==> Some(AppendSymbols(dst, symbols)[i]) in symbols
  {
    hide HasShort, ShortName;
    if symbols != [] {
      OwnAfter(dst, symbols[..|symbols| - 1]);
    }
  }

  // ---- the flattener ----

  /** The overrides a definition's own merge records. */
  function OverridesOf(raw: Defs, visiting: set<string>, name: string, def: Def): seq<Override> {
    if def.bases == [] || !def.kind.RecordKind? then []
    else match Inherited(raw, visiting, def, |def.bases|)
      case Err(_) => []
      case Ok(inherited) =>
        match def.fields
        case Err(_) => []
        case Ok(own) => OverridesIn(name, inherited, PutAll([], own))
  }

  ghost predicate RecordedBy(raw: Defs, flat: Defs, o: Override) {
    exists name :: name in flat && name in raw && o in OverridesOf(raw, {name}, name, raw[name])
  }

  /** Definitions by name, a later one of a name standing. */
  function RawOf(defs: seq<Def>): Defs {
    if defs == [] then map[] else RawOf(defs[..|defs| - 1])[defs[|defs| - 1].name := defs[|defs| - 1]]
  }

  /** The names in the order they first appear. */
  function OrderOf(defs: seq<Def>): seq<string> {
    if defs == [] then []
    else
      var n := |defs| - 1;
      OrderOf(defs[..n]) + (if defs[n].name in RawOf(defs[..n]) then [] else [defs[n].name])
  }

  /** Every name of a list flattened, up to the first failure. */
  function AllFlat(raw: Defs, names: seq<string>): Result<seq<Def>> {
    if names == [] then Ok([])
    else
      var n := |names| - 1;
      match AllFlat(raw, names[..n])
      case Err(e) => Err(e)
      case Ok(defs) =>
        match Flat(raw, {}, names[n])
        case Err(e) => Err(e)
        case Ok(def) => Ok(defs + [def])
  }

  lemma {:induction false} FirstFailureStands(raw: Defs, names: seq<string>, i: nat)
    requires i <= |names| && AllFlat(raw, names[..i]).Err?
    ensures AllFlat(raw, names) == AllFlat(raw, names[..i])
    decreases |names| - i
  {
    hide Flat;
    if i == |names| {
      assert names[..i] == names;
    } else {
      assert names[..i + 1][..i] == names[..i];
      FirstFailureStands(raw, names, i + 1);
    }
  }

  /** What the first `i` inherited fields give, and the short names replaced among them. */
  ghost predicate TookOver(all: seq<Field>, own: seq<Field>, i: nat, out: seq<Field>, taken: set<string>) {
    && i <= |all| && out == Replaced(all, own)[..i]
    && forall short :: short in taken <==> Position(own, short) >= 0 && Position(all[..i], short) >= 0
  }

  lemma TookNone(all: seq<Field>, own: seq<Field>)
    ensures TookOver(all, own, 0, [], {})
  {}

  lemma TookAll(all: seq<Field>, own: seq<Field>, out: seq<Field>, taken: set<string>)
    requires TookOver(all, own, |all|, out, taken)
    ensures out == Replaced(all, own)
    ensures forall short :: short in taken <==> Position(own, short) >= 0 && Position(all, short) >= 0
  {
    hide Position, ShortName;
    assert all[..|all|] == all;
  }

  lemma TookOneMore(all: seq<Field>, own: seq<Field>, i: nat, out: seq<Field>, taken: set<string>)
    requires TookOver(all, own, i, out, taken) && i < |all|
    ensures Got(own, Short(all[i])).None? ==> TookOver(all, own, i + 1, out + [all[i]], taken)
    ensures Got(own, Short(all[i])).Some? ==>
              TookOver(all, own, i + 1, out + [Got(own, Short(all[i])).value], taken + {Short(all[i])})
  {
    hide Position, ShortName;
    forall short
      ensures Position(all[..i + 1], short) >= 0 <==> Position(all[..i], short) >= 0 || Short(all[i]) == short
    {
      PrefixPosition(all, i, short);
    }
    assert Replaced(all, own)[..i + 1] == Replaced(all, own)[..i] + [Replaced(all, own)[i]];
  }

  lemma PrefixPosition(all: seq<Field>, i: nat, short: string)
    requires i < |all|
    ensures Position(all[..i + 1], short) >= 0 <==> Position(all[..i], short) >= 0 || Short(all[i]) == short
  {
    hide ShortName;
    assert all[..i + 1][..i] == all[..i];
  }

  /** All that is being visited leads to `name`. */
  ghost predicate VisitedFor(raw: Defs, visiting: set<string>, name: string) {
    forall v :: v in visiting ==> Reaches(raw, v, name)
  }

  lemma VisitedItself(raw: Defs, visiting: set<string>, name: string)
    requires VisitedFor(raw, visiting, name)
    ensures VisitedFor(raw, visiting + {name}, name)
  {
    ReachesSelf(raw, name);
  }

  lemma VisitedNext(raw: Defs, visiting: set<string>, name: string, base: string)
    requires VisitedFor(raw, visiting, name) && Edge(raw, name, base)
    ensures VisitedFor(raw, visiting, base)
  {
    forall v | v in visiting ensures Reaches(raw, v, base) {
      ReachesOn(raw, v, name, base);
    }
  }

  lemma NoWayBack(raw: Defs, name: string, path: seq<string>)
    requires Flat(raw, {}, name).Ok? && IsPath(raw, path) && path[0] == name && Last(path) != name
    ensures !Reaches(raw, Last(path), name)
  {
    hide Flat;
    if Reaches(raw, Last(path), name) {
      var back :| Leads(raw, back, Last(path), name);
      Joined(raw, path, back);
      FlatLeadsOut(raw, {}, path + back[1..]);
    }
  }

  lemma SameOverrides(raw: Defs, visiting: set<string>, name: string)
    requires name in raw
    requires Inherited(raw, {} + {name}, raw[name], |raw[name].bases|) ==
        Inherited(raw, visiting, raw[name], |raw[name].bases|)
             || raw[name].kind.OtherKind?
    ensures OverridesOf(raw, visiting, name, raw[name]) == OverridesOf(raw, {name}, name, raw[name])
  {
    hide Flat, Inherited;
    assert {} + {name} == {name};
  }

  lemma NoOverridesOnFailure(raw: Defs, visiting: set<string>, name: string, def: Def)
    ensures Expanded(raw, visiting, def).Err? ==> OverridesOf(raw, visiting, name, def) == []
  {
    hide Inherited, BaseSymbols;
  }

  lemma {:induction false} InheritedErrStays(raw: Defs, visiting: set<string>, def: Def, k: nat)
    requires k <= |def.bases| && Inherited(raw, visiting, def, k).Err?
    ensures Inherited(raw, visiting, def, |def.bases|) == Inherited(raw, visiting, def, k)
    decreases |def.bases| - k
  {
    hide Flat;
    if k < |def.bases| {
      InheritedErrStays(raw, visiting, def, k + 1);
    }
  }

  lemma {:induction false} SymbolsErrStay(raw: Defs, visiting: set<string>, def: Def, k: nat)
    requires k <= |def.bases| && BaseSymbols(raw, visiting, def, k).Err?
    ensures BaseSymbols(raw, visiting, def, |def.bases|) == BaseSymbols(raw, visiting, def, k)
    decreases |def.bases| - k
  {
    hide Flat;
    if k < |def.bases| {
      SymbolsErrStay(raw, visiting, def, k + 1);
    }
  }

  /** Adds a base's fields to the inherited ones. */
  method AddInherited(inherited: FieldList, def: Def, fields: seq<Field>, base: string)
    requires inherited.Valid()
    modifies inherited
    ensures inherited.Valid() && inherited.items == PutAll(old(inherited.items), FromBase(def, fields, base))
  {
    hide Put, Tagged, FieldList.Valid;
    ghost var seen := FromBase(def, fields, base);
    for j := 0 to |fields|
      invariant inherited.Valid() && inherited.items == PutAll(old(inherited.items), seen[..j])
    {
      assert seen[..j + 1][..j] == seen[..j];
      inherited.Add(Tagged(fields[j].(body := def.specialize(fields[j].body)), base));
    }
    assert seen[..|fields|] == seen;
  }

  class Flattener {
    const raw: Defs
    const order: seq<string>
    var flat: Defs
    var visiting: set<string>
    var overrides: seq<Override>

    constructor (defs: seq<Def>)
      ensures Valid() && visiting == {} && flat == map[] && raw == RawOf(defs) && order == OrderOf(defs)
    {
      var byName: Defs := map[];
      var names: seq<string> := [];
      for i := 0 to |defs|
        invariant byName == RawOf(defs[..i]) && names == OrderOf(defs[..i])
      {
        assert defs[..i + 1][..i] == defs[..i];
        if defs[i].name !in byName {
          names := names + [defs[i].name];
        }
        byName := byName[defs[i].name := defs[i]];
      }
      assert defs[..|defs|] == defs;
      raw, order := byName, names;
      flat, visiting, overrides := map[], {}, [];
    }

    /** The memo holds what flattening without one gives, and the overrides are those of the memoized names. */
    ghost predicate Valid()
      reads this
    {
      MemoOk() && OverridesAre([])
    }

    ghost predicate MemoOk()
      reads this
    {
      && visiting <= raw.Keys && visiting !! flat.Keys
      && forall name :: name in flat ==> Flat(raw, {}, name) == Ok(flat[name])
    }

    ghost predicate OverridesAre(extra: seq<Override>)
      reads this
    {
      forall o :: o in overrides <==> o in extra || RecordedBy(raw, flat, o)
    }

    /** Flattens one name. The memo never changes the outcome. */
    method Resolve(name: string) returns (r: Result<Def>)
      requires Valid() && VisitedFor(raw, visiting, name)
      modifies this
      ensures Valid() && visiting == old(visiting) && old(flat).Keys <= flat.Keys
      ensures r == Flat(raw, visiting, name) && (r.Ok? ==> name in flat)
      decreases raw.Keys - visiting, 0
    {
      hide Expanded, OverridesOf, VisitedFor;
      if name in flat {
        MemoStands(name);
        return Ok(flat[name]);
      }
      if name in visiting {
        return Err(ExtendsCycle);
      }
      if name !in raw {
        return Err(UndefinedBase);
      }
      VisitedItself(raw, visiting, name);
      ghost var inside := visiting + {name};
      visiting := visiting + {name};
      r := Expand(name, raw[name]);
      visiting := visiting - {name};
      assert visiting == old(visiting);
      assert r == Flat(raw, visiting, name);
      NoOverridesOnFailure(raw, inside, name, raw[name]);
      if r.Ok? {
        FlatAnywhere(raw, {}, visiting, name);
        SameOverrides(raw, inside, name);
        ghost var before := flat;
        flat := flat[name := r.value];
        OneMoreRecorded(before, name);
      }
    }

    lemma OneMoreRecorded(before: Defs, name: string)
      requires name in raw && name in flat && flat == before[name := flat[name]]
      ensures forall o :: RecordedBy(raw, flat, o) <==>
          RecordedBy(raw, before, o) || o in OverridesOf(raw, {name}, name, raw[name])
    {
      hide OverridesOf;
    }

    lemma MemoStands(name: string)
      requires MemoOk() && VisitedFor(raw, visiting, name) && name in flat
      ensures Flat(raw, visiting, name) == Ok(flat[name])
    {
      hide Flat;
      forall path | IsPath(raw, path) && path[0] == name ensures path[|path| - 1] !in visiting {
        if Last(path) != name {
          NoWayBack(raw, name, path);
        }
      }
      FlatAnywhere(raw, visiting, {}, name);
    }

    method Expand(name: string, def: Def) returns (r: Result<Def>)
      requires Valid() && name in visiting && name in raw && def == raw[name] && VisitedFor(raw, visiting, name)
      modifies this
      ensures MemoOk() && visiting == old(visiting) && old(flat).Keys <= flat.Keys
      ensures r == Expanded(raw, visiting, def) && OverridesAre(OverridesOf(raw, visiting, name, def))
      decreases raw.Keys - visiting, 3
    {
      hide Inherited, BaseSymbols, OverridesIn, RecordedBy, VisitedFor, PutAll, Merged;
      if |def.bases| == 0 {
        return Ok(def);
      }
      match def.kind
      case RecordKind => r := ExpandRecord(name, def);
      case EnumKind => r := ExpandEnum(name, def);
      case OtherKind => r := Ok(def);
    }

    method ExpandRecord(name: string, def: Def) returns (r: Result<Def>)
      requires Valid() && name in visiting && name in raw && def == raw[name] && VisitedFor(raw, visiting, name)
      requires def.kind.RecordKind? && def.bases != []
      modifies this
      ensures MemoOk() && visiting == old(visiting) && old(flat).Keys <= flat.Keys
      ensures r == Expanded(raw, visiting, def) && OverridesAre(OverridesOf(raw, visiting, name, def))
      decreases raw.Keys - visiting, 2
    {
      hide Flat, OverridesIn, RecordedBy, VisitedFor, PutAll, Merged, FromBase;
      var inherited := new FieldList();
      for i := 0 to |def.bases|
        invariant Valid() && visiting == old(visiting) && old(flat).Keys <= flat.Keys && VisitedFor(raw, visiting, name)
        invariant fresh(inherited) && inherited.Valid() && Inherited(raw, visiting, def, i) == Ok(inherited.items)
      {
        VisitedNext(raw, visiting, name, def.bases[i]);
        var fields := BaseFields(def.bases[i]);
        if fields.Err? {
          InheritedErrStays(raw, visiting, def, i + 1);
          return Err(fields.error);
        }
        AddInherited(inherited, def, fields.value, def.bases[i]);
      }
      if def.fields.Err? {
        return Err(def.fields.error);
      }
      var merged := Merge(name, inherited, def.fields.value);
      return Ok(def.(fields := Ok(merged)));
    }

    /** The flattened fields of one base. */
    method BaseFields(base: string) returns (r: Result<seq<Field>>)
      requires Valid() && VisitedFor(raw, visiting, base)
      modifies this
      ensures Valid() && visiting == old(visiting) && old(flat).Keys <= flat.Keys
      ensures r == match Flat(raw, visiting, base) case Err(e) => Err(e) case Ok(def) => def.fields
      decreases raw.Keys - visiting, 1
    {
      hide Flat, OverridesAre, VisitedFor, MemoOk;
      var def := Resolve(base);
      if def.Err? {
        return Err(def.error);
      }
      return def.value.fields;
    }

    /** Own fields take the place of inherited ones, each recorded as an override; the rest follow. */
    method Merge(name: string, inherited: FieldList, own: seq<Field>) returns (out: seq<Field>)
      requires inherited.Valid()
      modifies this`overrides
      ensures out == Merged(inherited.items, PutAll([], own))
      ensures overrides == old(overrides) + OverridesIn(name, inherited.items, PutAll([], own))
    {
      hide Position, ShortName, OverridesIn, PutAll, Distinct, Got, Replaced, FieldList.Valid;
      var ownFields := ListOf(own);
      ghost var all := ownFields.items;
      var taken;
      out, taken := TakeOver(name, inherited, ownFields);
      ghost var replaced, recorded := out, overrides;
      for i := 0 to |ownFields.items|
        invariant overrides == recorded && ownFields.items == all
        invariant out == replaced + Added(inherited.items, all[..i])
      {
        assert all[..i + 1][..i] == all[..i];
        OwnIsThere(all, i);
        if Short(ownFields.items[i]) !in taken {
          out := out + [ownFields.items[i]];
        }
      }
      assert all[..|all|] == all;
    }

    lemma OwnIsThere(all: seq<Field>, i: nat)
      requires i < |all|
      ensures Position(all, Short(all[i])) >= 0
    {}

    /** The inherited fields with own ones in their places, and the short names that were replaced. */
    method TakeOver(name: string, inherited: FieldList, own: FieldList) returns (out: seq<Field>, taken: set<string>)
      requires inherited.Valid() && own.Valid()
      modifies this`overrides
      ensures out == Replaced(inherited.items, own.items)
      ensures overrides == old(overrides) + OverridesIn(name, inherited.items, own.items)
      ensures forall short :: short in taken <==>
          Position(own.items, short) >= 0 && Position(inherited.items, short) >= 0
    {
      hide Position, ShortName, TookOver, Distinct;
      out, taken := [], {};
      ghost var all := inherited.items;
      TookNone(all, own.items);
      for i := 0 to |inherited.items|
        invariant TookOver(all, own.items, i, out, taken)
        invariant overrides == old(overrides) + OverridesIn(name, all[..i], own.items)
      {
        var base := inherited.items[i];
        assert all[..i + 1][..i] == all[..i];
        TookOneMore(all, own.items, i, out, taken);
        var override := own.Find(Short(base));
        if override.None? {
          out := out + [base];
          continue;
        }
        taken := taken + {Short(base)};
        RecordOverride(name, base, override.value);
        out := out + [override.value];
      }
      assert all[..|all|] == all;
      TookAll(all, own.items, out, taken);
    }

    method ListOf(fields: seq<Field>) returns (list: FieldList)
      ensures fresh(list) && list.Valid() && list.items == PutAll([], fields)
    {
      hide Put;
      list := new FieldList();
      for i := 0 to |fields|
        invariant fresh(list) && list.Valid() && list.items == PutAll([], fields[..i])
      {
        assert fields[..i + 1][..i] == fields[..i];
        list.Add(fields[i]);
      }
      assert fields[..|fields|] == fields;
    }

    method RecordOverride(name: string, inherited: Field, own: Field)
      modifies this`overrides
      ensures overrides == old(overrides) +
          [Override(name, if inherited.inheritedFrom.Some? then inherited.inheritedFrom.value else "", inherited, own)]
    {
      var base := if inherited.inheritedFrom.Some? then inherited.inheritedFrom.value else "";
      overrides := overrides + [Override(name, base, inherited, own)];
    }

    method ExpandEnum(name: string, def: Def) returns (r: Result<Def>)
      requires Valid() && name in visiting && name in raw && def == raw[name] && VisitedFor(raw, visiting, name)
      requires def.kind.EnumKind? && def.bases != []
      modifies this
      ensures Valid() && visiting == old(visiting) && old(flat).Keys <= flat.Keys
      ensures r == Expanded(raw, visiting, def)
      decreases raw.Keys - visiting, 2
    {
      hide Flat, RecordedBy, VisitedFor, AppendSymbols;
      var symbols: seq<string> := [];
      for i := 0 to |def.bases|
        invariant Valid() && visiting == old(visiting) && old(flat).Keys <= flat.Keys && VisitedFor(raw, visiting, name)
        invariant BaseSymbols(raw, visiting, def, i) == Ok(symbols)
      {
        VisitedNext(raw, visiting, name, def.bases[i]);
        var base := Resolve(def.bases[i]);
        if base.Err? {
          SymbolsErrStay(raw, visiting, def, i + 1);
          return Err(base.error);
        }
        symbols := AddSymbols(symbols, SymbolsOf(base.value));
      }
      symbols := AddSymbols(symbols, SymbolsOf(def));
      return Ok(def.(symbols := Some(AsSymbols(symbols))));
    }

    /** Adds the symbols whose short names are new. */
    method AddSymbols(dst: seq<string>, symbols: seq<Option<string>>) returns (out: seq<string>)
      ensures out == AppendSymbols(dst, symbols) && dst <= out && (DistinctShorts(dst) ==> DistinctShorts(out))
      ensures forall short :: HasShort(out, short) <==> HasShort(dst, short) || Declares(symbols, short)
    {
      hide ShortName;
      AppendedIs(dst, symbols);
      var seen := set i | 0 <= i < |dst| :: ShortName(dst[i]);
      out := dst;
      for i := 0 to |symbols|
        invariant out == AppendSymbols(dst, symbols[..i])
        invariant forall short :: short in seen <==> HasShort(out, short)
      {
        assert symbols[..i + 1][..i] == symbols[..i];
        if symbols[i].None? || ShortName(symbols[i].value) in seen {
          continue;
        }
        ghost var before := out;
        seen := seen + {ShortName(symbols[i].value)};
        out := out + [symbols[i].value];
        OneMoreShort(before, symbols[i].value);
      }
      assert symbols[..|symbols|] == symbols;
    }

    /** Every definition flattened, in declaration order. */
    method Definitions() returns (r: Result<seq<Def>>)
      requires Valid() && visiting == {}
      modifies this
      ensures Valid() && visiting == {} && r == AllFlat(raw, order)
      ensures WellFormedFields(raw) ==> (r.Ok? <==> forall i :: 0 <= i < |order| ==> Sound(raw, order[i]))
    {
      hide Flat, OverridesAre, MemoOk, Reaches, Sound, WellFormedFields;
      if WellFormedFields(raw) {
        AllSound(raw, order);
      }
      var out: seq<Def> := [];
      for i := 0 to |order|
        invariant Valid() && visiting == {} && AllFlat(raw, order[..i]) == Ok(out)
      {
        assert order[..i + 1][..i] == order[..i];
        var def := Resolve(order[i]);
        if def.Err? {
          FirstFailureStands(raw, order, i + 1);
          return Err(def.error);
        }
        out := out + [def.value];
      }
      assert order[..|order|] == order;
      return Ok(out);
    }
  }

  // ---- declaration order does not matter ----

  /** A list of definitions succeeds exactly when each of its names does, and then holds what each flattens to. */
  lemma {:induction false} AllFlatIs(raw: Defs, names: seq<string>)
    ensures AllFlat(raw, names).Ok? <==> forall i :: 0 <= i < |names| ==> Flat(raw, {}, names[i]).Ok?
    ensures AllFlat(raw, names).Ok? ==> |AllFlat(raw, names).value| == |names|
    ensures AllFlat(raw, names).Ok? ==> forall i :: 0 <= i < |names| ==>
        Flat(raw, {}, names[i]) == Ok(AllFlat(raw, names).value[i])
  {
    hide Flat;
    if names != [] {
      AllFlatIs(raw, names[..|names| - 1]);
    }
  }

  lemma AllSound(raw: Defs, names: seq<string>)
    requires WellFormedFields(raw)
    ensures AllFlat(raw, names).Ok? <==> forall i :: 0 <= i < |names| ==> Sound(raw, names[i])
  {
    hide Flat, AllFlat, Sound;
    AllFlatIs(raw, names);
    forall i | 0 <= i < |names| ensures Flat(raw, {}, names[i]).Ok? <==> Sound(raw, names[i]) {
      FlattensExactly(raw, names[i]);
    }
  }

  lemma {:induction false} OrderNamesAll(defs: seq<Def>, name: string)
    ensures name in OrderOf(defs) <==> name in RawOf(defs)
  {
    if defs != [] {
      OrderNamesAll(defs[..|defs| - 1], name);
    }
  }

  /** Two listings of the same definitions flatten each name to the same definition, or both fail. */
  lemma OrderDoesNotMatter(a: seq<Def>, b: seq<Def>)
    requires RawOf(a) == RawOf(b)
    ensures AllFlat(RawOf(a), OrderOf(a)).Ok? <==> AllFlat(RawOf(b), OrderOf(b)).Ok?
    ensures AllFlat(RawOf(a), OrderOf(a)).Ok? ==>
              var p, q := AllFlat(RawOf(a), OrderOf(a)).value, AllFlat(RawOf(b), OrderOf(b)).value;
              && |p| == |OrderOf(a)| && |q| == |OrderOf(b)|
              && forall i, j :: 0 <= i < |p| && 0 <= j < |q| && OrderOf(a)[i] == OrderOf(b)[j] ==> p[i] == q[j]
  {
    hide Flat, AllFlat, RawOf, OrderOf;
    var p, q := OrderOf(a), OrderOf(b);
    AllFlatIs(RawOf(a), p);
    AllFlatIs(RawOf(b), q);
    forall name ensures name in p <==> name in q {
      OrderNamesAll(a, name);
      OrderNamesAll(b, name);
    }
    assert forall i :: 0 <= i < |p| ==> p[i] in q;
    assert forall j :: 0 <= j < |q| ==> q[j] in p;
  }
}
