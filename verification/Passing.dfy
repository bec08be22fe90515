/**
 * An end-to-end law. In a plan whose steps hand on what they are given, a value entered at a run input is the
 * value of every output that a chain of sources leads to from there.
 */
module Passing {
  import opened Common
  import opened Graph
  import opened Workflow
  import opened Meaning
  import opened Stability
  import opened RunState
  import opened Reporting
  import opened Outcomes
  import opened Dataflow
  import opened RunLoop
  import Scatter

  /** One source, whose value is taken as it is. */
  ghost predicate PassSink(sink: Sink) {
    |sink.sources| == 1 && forall v :: sink.settle([v]) == Ok(v)
  }

  ghost predicate PassSinks(sinks: seq<Sink>) {
    && (forall i :: 0 <= i < |sinks| ==> PassSink(sinks[i]))
    && forall i, j :: 0 <= i < j < |sinks| ==> sinks[i].name != sinks[j].name
  }

  /** The step runs once, changes no input, shows its handler all of them, and the handler returns what it is shown. */
  ghost predicate PassStep(step: Step) {
    && !step.implicit && step.scatter == [] && PassSinks(step.ins)
    && (forall x :: step.fill(x) == Ok(x)) && (forall x :: step.valueFrom(x) == Ok(x))
    && (forall x :: step.when(x) == Ok(true)) && (forall x, c :: step.prepare(x, c).Ok?)
    && (forall i :: 0 <= i < |step.ins| ==> step.ins[i].name in step.declaredIn)
    && (forall x, c :: step.handler(x, c) == Reply(Success, Some(x), None, false))
  }

  ghost predicate PassPlan(plan: Plan) {
    PassSinks(plan.outputs) && forall id :: id in plan.byId ==> PassStep(plan.byId[id])
  }

  /** The source is a port that a step fills from the input of that name, which reads `from`. */
  predicate Feeds(plan: Plan, from: string, to: string) {
    && to in plan.sources && plan.sources[to].step != "" && plan.sources[to].step in plan.byId
    && IsPort(plan.byId[plan.sources[to].step], plan.sources[to].port)
    && Wired(plan.byId[plan.sources[to].step].ins, plan.sources[to].port, from)
  }

  predicate Wired(sinks: seq<Sink>, name: string, from: string) {
    exists i :: 0 <= i < |sinks| && sinks[i].name == name && sinks[i].sources == [from]
  }

  /** From a run input, each source feeding the next. */
  predicate Chain(plan: Plan, chain: seq<string>) {
    && chain != [] && chain[0] in plan.sources && plan.sources[chain[0]].step == ""
    && forall i :: 0 < i < |chain| ==> LinkedAt(plan, chain, i)
  }

  predicate LinkedAt(plan: Plan, chain: seq<string>, i: nat)
    requires 0 < i < |chain|
  {
    Feeds(plan, chain[i - 1], chain[i])
  }

  // ---- every step of such a plan succeeds ----

  lemma PassJudged(step: Step, inj: Injected, x: Obj)
    requires PassStep(step)
    ensures Judge(step, inj, Ok(x)).Done? && Judge(step, inj, Ok(x)).status == Success
  {
    var e := Expand(step, x).value;
    assert GateOf(step, e.seeds[0].inputs) == Admitted(x);
    assert AllSettled(step, inj, e)[0].status == Success;
  }

  lemma {:induction false} PassBinds(plan: Plan, inputs: Obj, produced: map<string, Obj>, ins: seq<Sink>)
    requires PassSinks(ins) && KnownSources(ins, plan.sources)
    requires forall d :: Reads(ins, plan.sources, d) ==> d in produced
    ensures BoundInputs(plan, inputs, produced, ins).Ok?
  {
    if ins != [] {
      var n := |ins| - 1;
      forall d | Reads(ins[..n], plan.sources, d) ensures d in produced {
        assert Reads(ins, plan.sources, d);
      }
      PassBinds(plan, inputs, produced, ins[..n]);
      var source := ins[n].sources[0];
      assert source in plan.sources && PassSink(ins[n]);
      assert plan.sources[source].step != "" ==> Reads(ins, plan.sources, plan.sources[source].step);
      OneSource(plan, inputs, produced, ins[n].sources);
      var values := SourceValues(plan, inputs, produced, ins[n].sources).value;
      assert values == [values[0]];
    }
  }

  lemma OneSource(plan: Plan, inputs: Obj, produced: map<string, Obj>, sources: seq<string>)
    requires |sources| == 1 && SourceValue(plan, inputs, produced, sources[0]).Some?
    ensures SourceValues(plan, inputs, produced, sources).Some?
    ensures |SourceValues(plan, inputs, produced, sources).value| == 1
  {
    assert sources[..0] == [];
  }

  lemma {:induction false} PassSucceeds(env: Env, inj: Injected, id: string)
    requires EnvOk(env) && WellFormed(env.plan) && PassPlan(env.plan) && id in env.plan.byId
    ensures VerdictOf(env, inj, id).Done? && VerdictOf(env, inj, id).status == Success
    decreases RankOf(env, id)
  {
    hide Judge, PassStep;
    var step := env.plan.byId[id];
    forall d | d in step.deps ensures d in env.plan.byId && ProducedVerdict(VerdictOf(env, inj, d)) {
      PassSucceeds(env, inj, d);
    }
    PassInputs(env, inj, id);
    PassJudged(step, inj, InputsOf(env, inj, id).value);
  }

  lemma PassInputs(env: Env, inj: Injected, id: string)
    requires EnvOk(env) && WellFormed(env.plan) && PassPlan(env.plan) && id in env.plan.byId
    requires DepsProduce(env, inj, id)
    ensures InputsOf(env, inj, id).Ok?
  {
    hide VerdictOf, PassSinks;
    var step := env.plan.byId[id];
    assert PassStep(step);
    PassBinds(env.plan, env.inputs, DepOutputs(env, inj, id), step.ins);
  }

  // ---- what they hand on ----

  /** A pass-through sink gives what its source reads. */
  lemma SinkHandsOn(plan: Plan, inputs: Obj, steps: Steps, sink: Sink, v: Value)
    requires PassSink(sink) && SinkGives(plan, inputs, steps, sink, Ok(v))
    ensures Reading(plan, inputs, steps, sink.sources[0], v)
  {
    hide Reading;
    var values :| Readings(plan, inputs, steps, sink.sources, values) && Ok(v) == sink.settle(values);
    assert values == [values[0]];
  }

  lemma OneOfName(sinks: seq<Sink>, i: nat, j: nat)
    requires PassSinks(sinks) && i < |sinks| && j < |sinks| && sinks[i].name == sinks[j].name
    ensures i == j
  {}

  /** A pass-through step holds, on a port named like one of its inputs, what that input reads. */
  lemma StepHandsOn(plan: Plan, inputs: Obj, inj: Injected, steps: Steps, id: string, port: string, from: string)
    requires id in plan.byId && id in steps && PassStep(plan.byId[id]) && RecordFollows(plan, inputs, inj, steps, id)
    requires steps[id].status == Success && IsPort(plan.byId[id], port) && Wired(plan.byId[id].ins, port, from)
    ensures port in steps[id].outputs && Reading(plan, inputs, steps, from, steps[id].outputs[port])
  {
    hide Reading, Comes, InputsFollow;
    var step := plan.byId[id];
    var r :| InputsFollow(plan, inputs, steps, step, r) &&
      Comes(step, inj, r, Done(steps[id].status, steps[id].outputs));
    ComesToSuccess(step, inj, r, steps[id].outputs, port);
    BoundHandsOn(plan, inputs, steps, step, r.value, port, from);
  }

  /** What such a step comes to is what it was given. */
  lemma ComesToSuccess(step: Step, inj: Injected, r: Result<Obj>, outputs: Obj, port: string)
    requires PassStep(step) && Comes(step, inj, r, Done(Success, outputs)) && IsPort(step, port)
    ensures r.Ok? && port in outputs
    ensures port in step.declaredIn ==> outputs[port] == if port in r.value then r.value[port] else Null
  {
    hide PassSinks;
    var seeds, shape, jobs :| ComesOf(step, inj, r.value, seeds, shape, jobs, Done(Success, outputs));
    assert seeds == [Scatter.ScatterJob(r.value, [])];
    assert InvocationLeaves(step, inj, seeds[0], jobs[0]);
    var shown :| Shown(step, r.value, shown) && HandlerLeaves(step, inj, shown, [], jobs[0]);
    var i :| 0 <= i < |step.outs| && step.outs[i].port == port;
    assert HeldOn(step.outs[i].port, shown, outputs);
  }

  lemma BoundHandsOn(plan: Plan, inputs: Obj, steps: Steps, step: Step, x: Obj, port: string, from: string)
    requires PassStep(step) && InputsFollow(plan, inputs, steps, step, Ok(x)) && Wired(step.ins, port, from)
    ensures port in step.declaredIn && port in x && Reading(plan, inputs, steps, from, x[port])
  {
    hide Reading, SinkGives, PassSinks, PassSink;
    assert Bound(plan, inputs, steps, step.ins, x);
    var i :| 0 <= i < |step.ins| && step.ins[i].name == port && step.ins[i].sources == [from];
    var j :| 0 <= j < |step.ins| && LastNamed(step.ins, j, port) &&
      SinkGives(plan, inputs, steps, step.ins[j], Ok(x[port]));
    OneOfName(step.ins, i, j);
    SinkPasses(step.ins, i);
    SinkHandsOn(plan, inputs, steps, step.ins[i], x[port]);
  }

  lemma SinkPasses(sinks: seq<Sink>, i: nat)
    requires PassSinks(sinks) && i < |sinks|
    ensures PassSink(sinks[i])
  {}

  /** Along a chain every source reads the value entered at its beginning. */
  lemma {:induction false} ChainReads(plan: Plan, inputs: Obj, inj: Injected, steps: Steps, chain: seq<string>,
                                      v: Value)
    requires WellFormed(plan) && PassPlan(plan) && Chain(plan, chain) && RecordsFollow(plan, inputs, inj, steps)
    requires forall id :: id in plan.byId ==> id in steps && steps[id].started && steps[id].status == Success
    requires Reading(plan, inputs, steps, chain[|chain| - 1], v)
    ensures v == Lookup(inputs, plan.sources[chain[0]].port)
  {
    hide WellFormed, RecordFollows, IsPort, Wired, PassStep, PassSinks;
    if |chain| > 1 {
      var n := |chain| - 1;
      var front, from, to := chain[..n], chain[n - 1], chain[n];
      assert LinkedAt(plan, chain, n);
      var id, port := plan.sources[to].step, plan.sources[to].port;
      StepHandsOn(plan, inputs, inj, steps, id, port, from);
      forall i | 0 < i < |front| ensures LinkedAt(plan, front, i) {
        assert LinkedAt(plan, chain, i);
      }
      ChainReads(plan, inputs, inj, steps, front, v);
    }
  }

  /** Every output name is the name of one sink, and that sink's source reads the output's value. */
  lemma OutputHandsOn(plan: Plan, inputs: Obj, steps: Steps, outputs: Obj, k: nat)
    requires PassSinks(plan.outputs) && OutputsFollow(plan, inputs, steps, outputs) && k < |plan.outputs|
    ensures plan.outputs[k].name in outputs
    ensures Reading(plan, inputs, steps, plan.outputs[k].sources[0], outputs[plan.outputs[k].name])
  {
    hide Reading, SinkGives, PassSink;
    var name := plan.outputs[k].name;
    assert OutputAt(plan, inputs, steps, plan.outputs, name, outputs[name]);
    var i :| 0 <= i < |plan.outputs| && LastNamed(plan.outputs, i, name) &&
      if plan.outputs[i].sources == [] then outputs[name] == Null
      else SinkGives(plan, inputs, steps, plan.outputs[i], Ok(outputs[name]));
    OneOfName(plan.outputs, i, k);
    NotUnwired(plan.outputs, k);
    SinkHandsOn(plan, inputs, steps, plan.outputs[k], outputs[name]);
  }

  lemma NotUnwired(sinks: seq<Sink>, k: nat)
    requires PassSinks(sinks) && k < |sinks|
    ensures PassSink(sinks[k]) && sinks[k].sources != []
  {}

  lemma AllSucceeded(env: Env, inj: Injected, steps: Steps)
    requires EnvOk(env) && WellFormed(env.plan) && PassPlan(env.plan) && FinalState(env, inj, steps)
    ensures forall id :: id in env.plan.byId ==> id in steps && steps[id].started && steps[id].status == Success
  {
    hide VerdictOf, EnvOk, WellFormed, PassStep, PassSinks;
    forall id | id in env.plan.byId ensures id in steps && steps[id].started && steps[id].status == Success {
      PassSucceeds(env, inj, id);
      assert Matches(VerdictOf(env, inj, id), Rec(steps, id));
    }
  }

  lemma NothingFails(env: Env, inj: Injected)
    requires EnvOk(env) && WellFormed(env.plan) && PassPlan(env.plan)
    ensures !SomeFails(env, inj) && !SomeWaits(env, inj)
  {
    hide VerdictOf, EnvOk, WellFormed, PassStep, PassSinks;
    forall id | id in env.plan.byId ensures VerdictOf(env, inj, id).Done? && VerdictOf(env, inj, id).status == Success {
      PassSucceeds(env, inj, id);
    }
  }

  lemma PassOutputs(env: Env, inj: Injected)
    requires EnvOk(env) && WellFormed(env.plan) && PassPlan(env.plan)
    ensures RunOutputs(env.plan, env.inputs, MeantOutputs(env, inj), env.plan.outputs).Ok?
  {
    hide VerdictOf, WellFormed, EnvOk, PassStep, PassSinks;
    forall id | id in env.plan.byId ensures id in MeantOutputs(env, inj) {
      PassSucceeds(env, inj, id);
    }
    assert KnownSources(env.plan.outputs, env.plan.sources) && SourcesNameSteps(env.plan.sources, env.plan.byId) by {
      OutputsAreKnown(env.plan);
    }
    OutputsResolve(env.plan, env.inputs, MeantOutputs(env, inj), env.plan.outputs);
  }

  lemma OutputsAreKnown(plan: Plan)
    requires WellFormed(plan)
    ensures KnownSources(plan.outputs, plan.sources) && SourcesNameSteps(plan.sources, plan.byId)
  {}

  lemma {:induction false} OutputsResolve(plan: Plan, inputs: Obj, produced: map<string, Obj>, sinks: seq<Sink>)
    requires PassSinks(sinks) && KnownSources(sinks, plan.sources) && SourcesNameSteps(plan.sources, plan.byId)
    requires forall id :: id in plan.byId ==> id in produced
    ensures RunOutputs(plan, inputs, produced, sinks).Ok?
  {
    if sinks != [] {
      var n := |sinks| - 1;
      OutputsResolve(plan, inputs, produced, sinks[..n]);
      var source := sinks[n].sources[0];
      assert source in plan.sources && PassSink(sinks[n]);
      OneSource(plan, inputs, produced, sinks[n].sources);
      var values := SourceValues(plan, inputs, produced, sinks[n].sources).value;
      assert values == [values[0]];
    }
  }

  /**
   * Runs a plan of pass-through steps. It succeeds whatever the cap and the order of completions, and each
   * output is the run input that any chain ending at the output's source begins with.
   */
  method RunPasses(plan: Plan, cfg: Config, inputs: Obj, ghost rank: map<string, nat>)
    returns (r: RunResult, err: Option<Error>)
    requires WellFormed(plan) && EnvOk(Env(plan, rank, inputs)) && PassPlan(plan)
    ensures err.None? && r.status == Success
    ensures PassedOn(plan, inputs, r.outputs)
  {
    hide WellFormed, EnvOk, SnapOk, FinalState, RecordsFollow, OutputsFollow, PassPlan, RunOutputs, SomeFails;
    hide SomeWaits, EndsAs, Lists, PassedOn, MeantOutputs;
    ghost var env := Env(plan, rank, inputs);
    NothingFails(env, map[]);
    PassOutputs(env, map[]);
    ghost var launches;
    r, err, launches := Run(plan, cfg, inputs, None, rank);
    AllSucceeded(env, map[], r.state.steps);
    AllHandedOn(plan, inputs, r.state.steps, r.outputs);
  }

  /** Each output has the run input that any chain to its source begins with. */
  ghost predicate PassedOn(plan: Plan, inputs: Obj, outputs: Obj) {
    forall k, chain :: 0 <= k < |plan.outputs| && ChainsTo(plan, chain, k) ==>
      plan.outputs[k].name in outputs && outputs[plan.outputs[k].name] == Lookup(inputs, plan.sources[chain[0]].port)
  }

  predicate ChainsTo(plan: Plan, chain: seq<string>, k: nat)
    requires k < |plan.outputs|
  {
    |plan.outputs[k].sources| == 1 && ChainTo(plan, chain, plan.outputs[k].sources[0])
  }

  lemma AllHandedOn(plan: Plan, inputs: Obj, steps: Steps, outputs: Obj)
    requires WellFormed(plan) && PassPlan(plan)
    requires RecordsFollow(plan, inputs, map[], steps) && OutputsFollow(plan, inputs, steps, outputs)
    requires forall id :: id in plan.byId ==> id in steps && steps[id].started && steps[id].status == Success
    ensures PassedOn(plan, inputs, outputs)
  {
    hide WellFormed, PassPlan, RecordsFollow, OutputsFollow;
    forall k, chain | 0 <= k < |plan.outputs| && ChainsTo(plan, chain, k)
      ensures plan.outputs[k].name in outputs
      ensures outputs[plan.outputs[k].name] == Lookup(inputs, plan.sources[chain[0]].port)
    {
      HandedOn(plan, inputs, steps, outputs, k, chain);
    }
  }

  predicate ChainTo(plan: Plan, chain: seq<string>, source: string) {
    Chain(plan, chain) && chain[|chain| - 1] == source
  }

  lemma HandedOn(plan: Plan, inputs: Obj, steps: Steps, outputs: Obj, k: nat, chain: seq<string>)
    requires WellFormed(plan) && PassPlan(plan) && k < |plan.outputs|
    requires RecordsFollow(plan, inputs, map[], steps) && OutputsFollow(plan, inputs, steps, outputs)
    requires forall id :: id in plan.byId ==> id in steps && steps[id].started && steps[id].status == Success
    requires |plan.outputs[k].sources| == 1 && ChainTo(plan, chain, plan.outputs[k].sources[0])
    ensures plan.outputs[k].name in outputs
    ensures outputs[plan.outputs[k].name] == Lookup(inputs, plan.sources[chain[0]].port)
  {
    hide WellFormed, PassStep, PassSinks, RecordsFollow, OutputsFollow, Reading;
    OutputHandsOn(plan, inputs, steps, outputs, k);
    ChainReads(plan, inputs, map[], steps, chain, outputs[plan.outputs[k].name]);
  }
}
