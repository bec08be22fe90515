/** The execution plan: steps, the sources their inputs draw on, and the edges between them. */
module Workflow {
  import opened Common
  import opened Graph
  import Scatter

  /** A value source: a step's output port, or a run input when `step` is empty. */
  datatype SourceRef = SourceRef(step: string, port: string)

  /** A step input or a workflow output: `settle` merges, picks, defaults, loads or type-checks the source values. */
  datatype Sink = Sink(name: string, sources: seq<string>, settle: seq<Value> -> Result<Value>)

  /** A declared output port: its resolved identifier and its short name. */
  datatype OutPort = OutPort(id: string, port: string)

  datatype Status = Unset | Success | PermanentFail | TemporaryFail | Skipped | Suspended | Unknown(text: string)

  datatype Suspension = Suspension(stepId: string, scatterIndex: seq<int>, token: string)

  /** What a handler hands back: a Result, and whether an error came with it. */
  datatype Reply = Reply(status: Status, outputs: Option<Obj>, suspension: Option<Suspension>, failed: bool)

  /** One planned step. Expressions, resource selection and the handler are pure functions of what they are given. */
  datatype Step = Step(
    id: string,
    implicit: bool,
    ins: seq<Sink>,
    outs: seq<OutPort>,
    scatter: seq<string>,
    how: Option<Scatter.Method>,
    defaults: Obj,
    fill: Obj -> Result<Obj>,
    valueFrom: Obj -> Result<Obj>,
    when: Obj -> Result<bool>,
    declaredIn: set<string>,
    prepare: (Obj, seq<int>) -> Result<()>,
    handler: (Obj, seq<int>) -> Reply,
    accepts: (string, Value) -> bool,
    deps: seq<string>)

  function Ports(step: Step): (ports: seq<string>)
    ensures |ports| == |step.outs|
  {
    seq(|step.outs|, i requires 0 <= i < |step.outs| => step.outs[i].port)
  }

  /** `order` lists the ids of `byId` in document order. */
  datatype Plan = Plan(order: seq<string>, byId: map<string, Step>, sources: map<string, SourceRef>, outputs: seq<Sink>)

  function Edges(byId: map<string, Step>): Deps {
    map id | id in byId :: byId[id].deps
  }

  // ---- what planning guarantees ----

  ghost predicate Indexed(order: seq<string>, byId: map<string, Step>) {
    && (forall id :: id in order <==> id in byId)
    && (forall i, j :: 0 <= i < j < |order| ==> order[i] != order[j])
    && (forall id :: id in byId ==> byId[id].id == id)
  }

  predicate SourcesNameSteps(sources: map<string, SourceRef>, byId: map<string, Step>) {
    forall s :: s in sources ==> sources[s].step == "" || sources[s].step in byId
  }

  predicate KnownSources(sinks: seq<Sink>, sources: map<string, SourceRef>) {
    forall k :: 0 <= k < |sinks| ==> forall s :: s in sinks[k].sources ==> s in sources
  }

  /** The ids of the steps whose outputs the sinks read. */
  ghost predicate Reads(sinks: seq<Sink>, sources: map<string, SourceRef>, dep: string) {
    dep != "" && exists k, s :: 0 <= k < |sinks| && s in sinks[k].sources && s in sources && sources[s].step == dep
  }

  /** A step depends on exactly the steps its inputs read, each once; an implicit step reads none. */
  ghost predicate EdgesResolved(step: Step, sources: map<string, SourceRef>) {
    && (step.implicit ==> step.deps == [])
    && (!step.implicit ==> KnownSources(step.ins, sources) && forall d :: d in step.deps <==>
        Reads(step.ins, sources, d))
    && (forall i, j :: 0 <= i < j < |step.deps| ==> step.deps[i] != step.deps[j])
  }

  ghost predicate WellFormed(plan: Plan) {
    && Indexed(plan.order, plan.byId)
    && SourcesNameSteps(plan.sources, plan.byId)
    && (forall id :: id in plan.byId ==> EdgesResolved(plan.byId[id], plan.sources))
    && KnownSources(plan.outputs, plan.sources)
    && Closed(Edges(plan.byId))
  }

  // ---- planning ----

  ghost predicate DistinctIds(steps: seq<Step>) {
    forall i, j :: 0 <= i < j < |steps| ==> steps[i].id != steps[j].id
  }

  /** The source table after the run inputs and the steps' ports are entered, later entries replacing earlier ones. */
  function SourceTable(inputs: seq<OutPort>, steps: seq<Step>): map<string, SourceRef> {
    if steps == [] then Enter(map[], "", inputs)
    else Enter(SourceTable(inputs, steps[..|steps| - 1]), steps[|steps| - 1].id, steps[|steps| - 1].outs)
  }

  function Enter(table: map<string, SourceRef>, step: string, ports: seq<OutPort>): map<string, SourceRef> {
    if ports == [] then table
    else Enter(table, step, ports[..|ports| - 1])[ports[|ports| - 1].id := SourceRef(step, ports[|ports| - 1].port)]
  }

  lemma {:induction false} EnterNames(table: map<string, SourceRef>, step: string, ports: seq<OutPort>, s: string)
    requires s in Enter(table, step, ports)
    ensures Enter(table, step, ports)[s].step == step || (s in table && Enter(table, step, ports)[s] == table[s])
  {
    if ports != [] && s != ports[|ports| - 1].id {
      EnterNames(table, step, ports[..|ports| - 1], s);
    }
  }

  lemma {:induction false} SourceTableNames(inputs: seq<OutPort>, steps: seq<Step>, s: string)
    requires s in SourceTable(inputs, steps)
    ensures var step := SourceTable(inputs, steps)[s].step;
            step == "" || exists i :: 0 <= i < |steps| && steps[i].id == step
  {
    if steps == [] {
      EnterNames(map[], "", inputs, s);
    } else {
      var n := |steps| - 1;
      EnterNames(SourceTable(inputs, steps[..n]), steps[n].id, steps[n].outs, s);
      if s in SourceTable(inputs, steps[..n]) {
        SourceTableNames(inputs, steps[..n], s);
      }
    }
  }

  /** The ports of run inputs, as number 0, and of each step, as its position and one. */
  function PortsAt(inputs: seq<OutPort>, steps: seq<Step>, k: nat): seq<OutPort> {
    if k == 0 then inputs else if k <= |steps| then steps[k - 1].outs else []
  }

  /** The `i`-th port of the `k`-th owner has this identifier and is read as this reference. */
  predicate EntryAt(inputs: seq<OutPort>, steps: seq<Step>, k: nat, i: nat, id: string, ref: SourceRef) {
    && i < |PortsAt(inputs, steps, k)| && PortsAt(inputs, steps, k)[i].id == id
    && ref.port == PortsAt(inputs, steps, k)[i].port
    && ref.step == if 0 < k <= |steps| then steps[k - 1].id else ""
  }

  /** An identifier is declared again at a later port. */
  ghost predicate EnteredAgain(inputs: seq<OutPort>, steps: seq<Step>, k: nat, i: nat, id: string) {
    exists m: nat, j: nat :: LaterPort(k, i, m, j) && DeclaredAt(inputs, steps, m, j, id)
  }

  predicate LaterPort(k: nat, i: nat, m: nat, j: nat) {
    k < m || (k == m && i < j)
  }

  predicate DeclaredAt(inputs: seq<OutPort>, steps: seq<Step>, k: nat, i: nat, id: string) {
    i < |PortsAt(inputs, steps, k)| && PortsAt(inputs, steps, k)[i].id == id
  }

  /** The table has every identifier declared, and reads each as the port that declares it last. */
  ghost predicate Tabled(inputs: seq<OutPort>, steps: seq<Step>, table: map<string, SourceRef>) {
    && (forall k: nat, i: nat, id :: DeclaredAt(inputs, steps, k, i, id) ==> id in table)
    && (forall id :: id in table ==> TabledAt(inputs, steps, id, table[id]))
  }

  ghost predicate TabledAt(inputs: seq<OutPort>, steps: seq<Step>, id: string, ref: SourceRef) {
    exists k: nat, i: nat :: EntryAt(inputs, steps, k, i, id, ref) && !EnteredAgain(inputs, steps, k, i, id)
  }

  lemma {:induction false} EnterIs(table: map<string, SourceRef>, step: string, ports: seq<OutPort>)
    ensures forall i :: 0 <= i < |ports| ==> ports[i].id in Enter(table, step, ports)
    ensures forall id :: id in table ==> id in Enter(table, step, ports)
    ensures forall id :: id in Enter(table, step, ports) ==>
              || EntersLast(step, ports, id, Enter(table, step, ports)[id])
              || (id in table && Enter(table, step, ports)[id] == table[id] && !EntersAny(ports, id))
  {
    hide EntersLast, EntersAny;
    if ports == [] {
      forall id ensures !EntersAny([], id) {
        EntersNone(id);
      }
    } else {
      var n := |ports| - 1;
      EnterIs(table, step, ports[..n]);
      assert ports == ports[..n] + [ports[n]];
      EntersOneMore(step, ports[..n], ports[n], "", SourceRef(step, ports[n].port));
      var out := Enter(table, step, ports);
      forall id | id in out && id != ports[n].id
        ensures || EntersLast(step, ports, id, out[id])
                || (id in table && out[id] == table[id] && !EntersAny(ports, id))
      {
        EntersOneMore(step, ports[..n], ports[n], id, out[id]);
      }
    }
  }

  predicate EntersAny(ports: seq<OutPort>, id: string) {
    exists i :: 0 <= i < |ports| && ports[i].id == id
  }

  predicate EntersLast(step: string, ports: seq<OutPort>, id: string, ref: SourceRef) {
    exists i :: 0 <= i < |ports| && LastPort(ports, i, id) && ref == SourceRef(step, ports[i].port)
  }

  predicate LastPort(ports: seq<OutPort>, i: nat, id: string)
    requires i < |ports|
  {
    ports[i].id == id && forall j :: i < j < |ports| ==> ports[j].id != id
  }

  lemma EntersNone(id: string)
    ensures !EntersAny([], id)
  {}

  lemma EntersOneMore(step: string, ports: seq<OutPort>, port: OutPort, id: string, ref: SourceRef)
    ensures EntersLast(step, ports + [port], port.id, SourceRef(step, port.port))
    ensures id != port.id ==> (EntersAny(ports + [port], id) <==> EntersAny(ports, id))
    ensures id != port.id && EntersLast(step, ports, id, ref) ==> EntersLast(step, ports + [port], id, ref)
  {
    var more := ports + [port];
    assert LastPort(more, |ports|, port.id) && more[|ports|] == port;
    if id != port.id && EntersLast(step, ports, id, ref) {
      var i :| 0 <= i < |ports| && LastPort(ports, i, id) && ref == SourceRef(step, ports[i].port);
      assert LastPort(more, i, id) && more[i] == ports[i];
    }
    if EntersAny(ports, id) {
      var i :| 0 <= i < |ports| && ports[i].id == id;
      assert more[i].id == id;
    }
  }

  lemma {:induction false} SourceTableIs(inputs: seq<OutPort>, steps: seq<Step>)
    ensures Tabled(inputs, steps, SourceTable(inputs, steps))
  {
    hide Enter, Tabled;
    if steps == [] {
      EnterIs(map[], "", inputs);
      InputsTabled(inputs, SourceTable(inputs, steps));
    } else {
      var n := |steps| - 1;
      SourceTableIs(inputs, steps[..n]);
      var before := SourceTable(inputs, steps[..n]);
      EnterIs(before, steps[n].id, steps[n].outs);
      assert steps == steps[..n] + [steps[n]];
      OneMoreTabled(inputs, steps[..n], steps[n], before, SourceTable(inputs, steps));
    }
  }

  lemma InputsTabled(inputs: seq<OutPort>, table: map<string, SourceRef>)
    requires forall i :: 0 <= i < |inputs| ==> inputs[i].id in table
    requires forall id :: id in table ==> EntersLast("", inputs, id, table[id])
    ensures Tabled(inputs, [], table)
  {
    forall id | id in table ensures TabledAt(inputs, [], id, table[id]) {
      assert EntersLast("", inputs, id, table[id]);
      var i :| 0 <= i < |inputs| && LastPort(inputs, i, id) && table[id] == SourceRef("", inputs[i].port);
      assert EntryAt(inputs, [], 0, i, id, table[id]);
      assert !EnteredAgain(inputs, [], 0, i, id);
    }
  }

  lemma OneMoreTabled(inputs: seq<OutPort>, steps: seq<Step>, step: Step, before: map<string, SourceRef>,
                      table: map<string, SourceRef>)
    requires Tabled(inputs, steps, before)
    requires forall i :: 0 <= i < |step.outs| ==> step.outs[i].id in table
    requires forall id :: id in before ==> id in table
    requires forall id :: id in table ==>
               || EntersLast(step.id, step.outs, id, table[id])
               || (id in before && table[id] == before[id] && !EntersAny(step.outs, id))
    ensures Tabled(inputs, steps + [step], table)
  {
    hide EntersLast, EntersAny, TabledAt;
    var more, n := steps + [step], |steps| + 1;
    forall k: nat, i: nat, id | DeclaredAt(inputs, more, k, i, id) ensures id in table {
      if k < n {
        assert DeclaredAt(inputs, steps, k, i, id);
      }
    }
    forall id | id in table ensures TabledAt(inputs, more, id, table[id]) {
      if EntersLast(step.id, step.outs, id, table[id]) {
        LastOwnerTabled(inputs, steps, step, id, table[id]);
      } else {
        EarlierTabled(inputs, steps, step, id, table[id]);
      }
    }
  }

  lemma LastOwnerTabled(inputs: seq<OutPort>, steps: seq<Step>, step: Step, id: string, ref: SourceRef)
    requires EntersLast(step.id, step.outs, id, ref)
    ensures TabledAt(inputs, steps + [step], id, ref)
  {
    var more, n := steps + [step], |steps| + 1;
    var i :| 0 <= i < |step.outs| && LastPort(step.outs, i, id) && ref == SourceRef(step.id, step.outs[i].port);
    assert EntryAt(inputs, more, n, i, id, ref);
    forall m: nat, j: nat | LaterPort(n, i, m, j) ensures !DeclaredAt(inputs, more, m, j, id) {}
    assert !EnteredAgain(inputs, more, n, i, id);
  }

  lemma EarlierTabled(inputs: seq<OutPort>, steps: seq<Step>, step: Step, id: string, ref: SourceRef)
    requires TabledAt(inputs, steps, id, ref) && !EntersAny(step.outs, id)
    ensures TabledAt(inputs, steps + [step], id, ref)
  {
    var more, n := steps + [step], |steps| + 1;
    var k: nat, i: nat :| EntryAt(inputs, steps, k, i, id, ref) && !EnteredAgain(inputs, steps, k, i, id);
    assert k < n && PortsAt(inputs, more, k) == PortsAt(inputs, steps, k);
    assert EntryAt(inputs, more, k, i, id, ref);
    forall m: nat, j: nat | LaterPort(k, i, m, j) ensures !DeclaredAt(inputs, more, m, j, id) {
      if m < n {
        assert PortsAt(inputs, more, m) == PortsAt(inputs, steps, m);
        assert !DeclaredAt(inputs, steps, m, j, id);
      }
    }
    assert !EnteredAgain(inputs, more, k, i, id);
  }

  /** The plan under construction. */
  class Planner {
    var order: seq<string>
    var byId: map<string, Step>
    var sources: map<string, SourceRef>

    constructor ()
      ensures order == [] && byId == map[] && sources == map[]
    {
      order, byId, sources := [], map[], map[];
    }

    method EnterPorts(step: string, ports: seq<OutPort>)
      modifies this`sources
      ensures sources == Enter(old(sources), step, ports)
    {
      for i := 0 to |ports|
        invariant sources == Enter(old(sources), step, ports[..i])
      {
        assert ports[..i + 1][..i] == ports[..i];
        sources := sources[ports[i].id := SourceRef(step, ports[i].port)];
      }
      assert ports[..|ports|] == ports;
    }

    /** The planner holds exactly the given steps, in their order. */
    ghost predicate Holds(steps: seq<Step>)
      reads this
    {
      && Indexed(order, byId) && |order| == |steps|
      && forall k :: 0 <= k < |steps| ==> order[k] == steps[k].id && byId[order[k]] == steps[k]
    }

    method AddStep(step: Step, ghost held: seq<Step>)
      requires Holds(held) && step.id !in byId
      modifies this`order, this`byId
      ensures Holds(held + [step])
    {
      byId := byId[step.id := step];
      order := order + [step.id];
    }

    /** Enters the run inputs, then every step; two steps of one id are refused. */
    method AddSteps(inputs: seq<OutPort>, steps: seq<Step>) returns (ok: bool)
      requires order == [] && byId == map[] && sources == map[]
      modifies this
      ensures ok <==> DistinctIds(steps)
      ensures ok ==> Holds(steps) && sources == SourceTable(inputs, steps)
    {
      EnterPorts("", inputs);
      assert steps[..0] == [];
      for i := 0 to |steps|
        invariant Holds(steps[..i]) && sources == SourceTable(inputs, steps[..i])
      {
        var step := steps[i];
        if step.id in byId {
          Clash(steps, i);
          return false;
        }
        assert steps[..i + 1] == steps[..i] + [step];
        AddStep(step, steps[..i]);
        EnterPorts(step.id, step.outs);
        assert steps[..i + 1][..i] == steps[..i];
      }
      assert steps[..|steps|] == steps;
      AllDistinct(steps);
      return true;
    }

    lemma Clash(steps: seq<Step>, i: nat)
      requires i < |steps| && Holds(steps[..i]) && steps[i].id in byId
      ensures !DistinctIds(steps)
    {
      var k :| 0 <= k < i && order[k] == steps[i].id;
      assert steps[..i][k] == steps[k];
    }

    lemma AllDistinct(steps: seq<Step>)
      requires Holds(steps)
      ensures DistinctIds(steps)
    {
      forall i, j | 0 <= i < j < |steps| ensures steps[i].id != steps[j].id {
        assert order[i] != order[j];
      }
    }

    /** The steps one step's inputs read, each once, in document order; fails on a source nobody declares. */
    method StepDeps(step: Step) returns (deps: Option<seq<string>>)
      ensures deps.Some? <==> KnownSources(step.ins, sources)
      ensures deps.Some? ==>
                && (forall d :: d in deps.value <==> Reads(step.ins, sources, d))
                && (forall i, j :: 0 <= i < j < |deps.value| ==> deps.value[i] != deps.value[j])
    {
      var found: seq<string> := [];
      for k := 0 to |step.ins|
        invariant KnownSources(step.ins[..k], sources)
        invariant forall d :: d in found <==> Reads(step.ins[..k], sources, d)
        invariant forall i, j :: 0 <= i < j < |found| ==> found[i] != found[j]
      {
        var drawn := step.ins[k].sources;
        for s := 0 to |drawn|
          invariant forall t :: t in drawn[..s] ==> t in sources
          invariant forall d :: d in found <==>
                      Reads(step.ins[..k], sources, d) ||
                        (d != "" && exists t :: t in drawn[..s] && sources[t].step == d)
          invariant forall i, j :: 0 <= i < j < |found| ==> found[i] != found[j]
        {
          if drawn[s] !in sources {
            return None;
          }
          assert drawn[..s + 1] == drawn[..s] + [drawn[s]];
          var dep := sources[drawn[s]].step;
          if dep != "" && dep !in found {
            found := found + [dep];
          }
        }
        assert drawn[..|drawn|] == drawn;
        ReadsSnoc(step.ins, k);
      }
      assert step.ins[..|step.ins|] == step.ins;
      return Some(found);
    }

    lemma ReadsSnoc(sinks: seq<Sink>, k: nat)
      requires k < |sinks| && KnownSources(sinks[..k + 1], sources)
      ensures forall d :: Reads(sinks[..k + 1], sources, d) <==>
                Reads(sinks[..k], sources, d) || (d != "" && exists t :: t in sinks[k].sources && sources[t].step == d)
    {
    }

    /** Every step of `raw`, with its dependency edges resolved if its position is below `n`. */
    ghost predicate Resolved(raw: seq<Step>, n: nat)
      reads this
    {
      && Indexed(order, byId) && |order| == |raw|
      && forall k :: 0 <= k < |raw| ==>
           && order[k] == raw[k].id
           && byId[order[k]] == raw[k].(deps := byId[order[k]].deps)
           && (k < n ==> EdgesResolved(byId[order[k]], sources))
    }

    method ResolveStep(k: nat, ghost raw: seq<Step>) returns (ok: bool)
      requires Resolved(raw, k) && k < |raw| && !raw[k].implicit
      modifies this`byId
      ensures ok <==> KnownSources(raw[k].ins, sources)
      ensures ok ==> Resolved(raw, k + 1)
    {
      var step := byId[order[k]];
      var deps := StepDeps(step);
      if deps.None? {
        return false;
      }
      SetDeps(k, deps.value, raw);
      return true;
    }

    method SetDeps(k: nat, deps: seq<string>, ghost raw: seq<Step>)
      requires Resolved(raw, k) && k < |raw|
      requires EdgesResolved(byId[order[k]].(deps := deps), sources)
      modifies this`byId
      ensures Resolved(raw, k + 1)
    {
      ghost var was := byId;
      var step := byId[order[k]];
      byId := byId[step.id := step.(deps := deps)];
      assert byId.Keys == was.Keys;
      forall j | 0 <= j < |raw| && j != k ensures byId[order[j]] == was[order[j]] {
        assert order[j] != order[k];
      }
    }

    /** Resolves every step's edges and checks the workflow outputs' sources. */
    method ResolveEdges(outputs: seq<Sink>, ghost raw: seq<Step>) returns (ok: bool)
      requires Resolved(raw, 0)
      requires forall k :: 0 <= k < |raw| ==> !raw[k].implicit
      modifies this`byId
      ensures ok <==>
          && (forall k :: 0 <= k < |raw| ==> KnownSources(raw[k].ins, sources))
          && KnownSources(outputs, sources)
      ensures ok ==> Resolved(raw, |raw|)
    {
      for k := 0 to |order|
        invariant Resolved(raw, k)
        invariant forall j :: 0 <= j < k ==> KnownSources(raw[j].ins, sources)
      {
        ok := ResolveStep(k, raw);
        if !ok {
          return;
        }
      }
      for k := 0 to |outputs|
        invariant forall j :: 0 <= j < k ==> forall s :: s in outputs[j].sources ==> s in sources
      {
        if exists s :: s in outputs[k].sources && s !in sources {
          return false;
        }
      }
      return true;
    }
  }

  /** Step `a` reads an output of step `b`. */
  ghost predicate DrawsOn(steps: seq<Step>, table: map<string, SourceRef>, a: string, b: string) {
    exists i :: 0 <= i < |steps| && steps[i].id == a && Reads(steps[i].ins, table, b)
  }

  /** A walk of steps, each reading the next, back to its start. */
  ghost predicate ReadCycle(steps: seq<Step>, table: map<string, SourceRef>, walk: seq<string>) {
    && |walk| >= 2 && walk[0] == walk[|walk| - 1]
    && forall i :: 0 <= i < |walk| - 1 ==> DrawsOn(steps, table, walk[i], walk[i + 1])
  }

  ghost predicate AllSourcesKnown(steps: seq<Step>, table: map<string, SourceRef>, outputs: seq<Sink>) {
    (forall k :: 0 <= k < |steps| ==> KnownSources(steps[k].ins, table)) && KnownSources(outputs, table)
  }

  /** The resolved edges are exactly the reads. */
  lemma EdgesAreReads(p: Planner, steps: seq<Step>, a: string, b: string)
    requires p.Resolved(steps, |steps|)
    requires forall k :: 0 <= k < |steps| ==> !steps[k].implicit
    ensures a in Edges(p.byId) && b in Edges(p.byId)[a] <==> DrawsOn(steps, p.sources, a, b)
  {
    if a in p.byId {
      var k :| 0 <= k < |p.order| && p.order[k] == a;
      assert steps[k].id == a && EdgesResolved(p.byId[a], p.sources);
      forall i | 0 <= i < |steps| && steps[i].id == a ensures i == k {
        assert p.order[i] == a;
      }
    } else {
      forall i | 0 <= i < |steps| ensures steps[i].id != a {
        assert p.order[i] in p.byId;
      }
    }
  }

  lemma ReadCyclesAreCycles(p: Planner, steps: seq<Step>, walk: seq<string>)
    requires p.Resolved(steps, |steps|)
    requires forall k :: 0 <= k < |steps| ==> !steps[k].implicit
    ensures IsCycle(Edges(p.byId), walk) <==> ReadCycle(steps, p.sources, walk)
  {
    if IsCycle(Edges(p.byId), walk) {
      forall i | 0 <= i < |walk| - 1 ensures DrawsOn(steps, p.sources, walk[i], walk[i + 1]) {
        EdgesAreReads(p, steps, walk[i], walk[i + 1]);
      }
    }
    if ReadCycle(steps, p.sources, walk) {
      forall i | 0 <= i < |walk| - 1 ensures walk[i] in Edges(p.byId) && walk[i + 1] in Edges(p.byId)[walk[i]] {
        EdgesAreReads(p, steps, walk[i], walk[i + 1]);
      }
    }
  }

  /** Every dependency names a planned step, because every source does. */
  lemma ResolvedIsClosed(p: Planner, steps: seq<Step>)
    requires p.Resolved(steps, |steps|) && SourcesNameSteps(p.sources, p.byId)
    requires forall k :: 0 <= k < |steps| ==> !steps[k].implicit
    ensures Closed(Edges(p.byId))
    ensures forall id :: id in p.byId ==> EdgesResolved(p.byId[id], p.sources)
  {
    forall id | id in p.byId ensures EdgesResolved(p.byId[id], p.sources) {
      var k :| 0 <= k < |p.order| && p.order[k] == id;
    }
  }

  /**
   * Plans a workflow: each refusal names its cause exactly, and a plan comes with a rank that falls along
   * every edge.
   */
  method NewPlan(inputs: seq<OutPort>, steps: seq<Step>, outputs: seq<Sink>)
    returns (r: Result<Plan>, ghost rank: map<string, nat>)
    requires forall k :: 0 <= k < |steps| ==> !steps[k].implicit
    ensures r.Ok? ==> WellFormed(r.value) && Ranking(Edges(r.value.byId), rank)
    ensures r.Ok? ==> r.value.sources == SourceTable(inputs, steps) && Tabled(inputs, steps, r.value.sources)
    ensures r.Ok? ==> |r.value.order| == |steps| && r.value.outputs == outputs
    ensures r.Ok? ==> forall k :: 0 <= k < |steps| ==>
              r.value.order[k] == steps[k].id &&
                r.value.byId[steps[k].id] == steps[k].(deps := r.value.byId[steps[k].id].deps)
    ensures r.Err? ==> r.error in {DuplicateStep, UnknownSource, Cycle}
    ensures r == Err(DuplicateStep) <==> !DistinctIds(steps)
    ensures r == Err(UnknownSource) <==>
        DistinctIds(steps) && !AllSourcesKnown(steps, SourceTable(inputs, steps), outputs)
    ensures r == Err(Cycle) <==>
              && DistinctIds(steps) && AllSourcesKnown(steps, SourceTable(inputs, steps), outputs)
              && exists walk :: ReadCycle(steps, SourceTable(inputs, steps), walk)
  {
    hide Tabled;
    SourceTableIs(inputs, steps);
    rank := map[];
    var p := new Planner();
    var distinct := p.AddSteps(inputs, steps);
    if !distinct {
      return Err(DuplicateStep), rank;
    }
    forall s | s in p.sources ensures p.sources[s].step == "" || p.sources[s].step in p.byId {
      SourceTableNames(inputs, steps, s);
    }
    var ids := p.byId.Keys;
    var known := p.ResolveEdges(outputs, steps);
    if !known {
      return Err(UnknownSource), rank;
    }
    assert p.byId.Keys == ids;
    ResolvedIsClosed(p, steps);
    var acyclic, found, cycle := CheckAcyclic(Edges(p.byId), p.order);
    forall walk ensures IsCycle(Edges(p.byId), walk) <==> ReadCycle(steps, p.sources, walk) {
      ReadCyclesAreCycles(p, steps, walk);
    }
    if !acyclic {
      return Err(Cycle), rank;
    }
    forall walk | IsCycle(Edges(p.byId), walk) ensures false {
      CycleHasNoRanking(Edges(p.byId), walk);
    }
    rank := found;
    return Ok(Plan(p.order, p.byId, p.sources, outputs)), rank;
  }

  /** Plans a bare process as a single implicit step whose outputs are the run's own. */
  method BarePlan(step: Step, settle: seq<Value> -> Result<Value>) returns (plan: Plan, ghost rank: map<string, nat>)
    requires step.implicit && step.deps == [] && step.id != ""
    ensures WellFormed(plan) && Ranking(Edges(plan.byId), rank)
    ensures plan.order == [step.id] && plan.byId == map[step.id := step]
    ensures |plan.outputs| == |step.outs|
    ensures forall k :: 0 <= k < |step.outs| ==>
              && plan.outputs[k].name == step.outs[k].port
              && plan.outputs[k].sources == [step.id + "/" + step.outs[k].port]
              && plan.outputs[k].sources[0] in plan.sources
              && plan.sources[plan.outputs[k].sources[0]] == SourceRef(step.id, step.outs[k].port)
  {
    var sources: map<string, SourceRef> := map[];
    var outputs: seq<Sink> := [];
    for k := 0 to |step.outs|
      invariant |outputs| == k
      invariant forall s :: s in sources ==> sources[s].step == step.id
      invariant forall j :: 0 <= j < k ==>
                  && outputs[j].name == step.outs[j].port && outputs[j].sources == [step.id + "/" + step.outs[j].port]
                  && outputs[j].sources[0] in sources
                  && sources[outputs[j].sources[0]] == SourceRef(step.id, step.outs[j].port)
    {
      var port := step.outs[k].port;
      var id := step.id + "/" + port;
      forall j | 0 <= j < k ensures outputs[j].sources[0] == id ==> step.outs[j].port == port {
        assert outputs[j].sources[0][|step.id| + 1..] == step.outs[j].port && id[|step.id| + 1..] == port;
      }
      sources := sources[id := SourceRef(step.id, port)];
      outputs := outputs + [Sink(port, [id], settle)];
    }
    plan := Plan([step.id], map[step.id := step], sources, outputs);
    rank := map[step.id := 0];
  }
}
