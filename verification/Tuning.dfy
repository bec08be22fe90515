/** Plans whose steps are given chosen behaviours while keeping every id, input and edge. */
module Tuning {
  import opened Common
  import opened Workflow
  import opened Meaning
  import opened Stability
  import opened Graph
  import Scatter

  function TunedSink(sink: Sink): Sink {
    sink.(settle := (values: seq<Value>) => Ok(Null))
  }

  /**
   * The same step, with the same inputs and dependencies: every input resolves, its `when` says `admitted`,
   * its handler `reply`.
   */
  function TunedStep(step: Step, admitted: bool, reply: Reply): Step {
    step.(ins := seq(|step.ins|, k requires 0 <= k < |step.ins| => TunedSink(step.ins[k])),
          fill := (x: Obj) => Ok(x), scatter := [], valueFrom := (x: Obj) => Ok(x), when := (x: Obj) => Ok(admitted),
          prepare := (x: Obj, index: seq<int>) => Ok(()), handler := (x: Obj, index: seq<int>) => reply)
  }

  function TunedPlan(plan: Plan, admitted: bool, reply: Reply): Plan {
    plan.(byId := map id | id in plan.byId :: TunedStep(plan.byId[id], admitted, reply))
  }

  /** Every step of the plan is tuned. */
  ghost predicate Tuned(plan: Plan, admitted: bool, reply: Reply) {
    forall id :: id in plan.byId ==> IsTuned(plan.byId[id], admitted, reply)
  }

  ghost predicate IsTuned(step: Step, admitted: bool, reply: Reply) {
    && step.scatter == []
    && (forall k, values :: 0 <= k < |step.ins| ==> step.ins[k].settle(values).Ok?)
    && (forall x :: step.fill(x).Ok?) && (forall x :: step.valueFrom(x).Ok?)
    && (forall x :: step.when(x) == Ok(admitted))
    && (forall x, index :: step.prepare(x, index).Ok?) && (forall x, index :: step.handler(x, index) == reply)
  }

  lemma TunedEdges(step: Step, sources: map<string, SourceRef>, admitted: bool, reply: Reply)
    requires EdgesResolved(step, sources)
    ensures EdgesResolved(TunedStep(step, admitted, reply), sources)
    ensures IsTuned(TunedStep(step, admitted, reply), admitted, reply)
    ensures TunedStep(step, admitted, reply).deps == step.deps && TunedStep(step, admitted, reply).id == step.id
  {
    var tuned := TunedStep(step, admitted, reply);
    forall d ensures Reads(tuned.ins, sources, d) <==> Reads(step.ins, sources, d) {
      if Reads(step.ins, sources, d) {
        var k, s :| 0 <= k < |step.ins| && s in step.ins[k].sources && s in sources && sources[s].step == d;
        assert s in tuned.ins[k].sources;
      }
      if Reads(tuned.ins, sources, d) {
        var k, s :| 0 <= k < |tuned.ins| && s in tuned.ins[k].sources && s in sources && sources[s].step == d;
        assert s in step.ins[k].sources;
      }
    }
  }

  lemma TunedWellFormed(plan: Plan, rank: map<string, nat>, inputs: Obj, admitted: bool, reply: Reply)
    requires WellFormed(plan) && EnvOk(Env(plan, rank, inputs))
    ensures WellFormed(TunedPlan(plan, admitted, reply)) && Tuned(TunedPlan(plan, admitted, reply), admitted, reply)
    ensures EnvOk(Env(TunedPlan(plan, admitted, reply), rank, inputs))
  {
    hide EdgesResolved, IsTuned, Tuned, TunedStep;
    var plan' := TunedPlan(plan, admitted, reply);
    forall id | id in plan.byId
      ensures id in plan'.byId && plan'.byId[id] == TunedStep(plan.byId[id], admitted, reply)
      ensures EdgesResolved(plan'.byId[id], plan'.sources) && IsTuned(plan'.byId[id], admitted, reply)
      ensures plan'.byId[id].deps == plan.byId[id].deps && plan'.byId[id].id == plan.byId[id].id
    {
      TunedEdges(plan.byId[id], plan.sources, admitted, reply);
    }
    TunedIsTuned(plan, admitted, reply);
    SameEdgesSameRank(Env(plan, rank, inputs), Env(plan', rank, inputs));
    assert Edges(plan'.byId) == Edges(plan.byId);
    assert Indexed(plan'.order, plan'.byId);
  }

  lemma TunedIsTuned(plan: Plan, admitted: bool, reply: Reply)
    requires forall id :: id in plan.byId ==> id in TunedPlan(plan, admitted, reply).byId
    requires forall id :: id in plan.byId ==> IsTuned(TunedPlan(plan, admitted, reply).byId[id], admitted, reply)
    ensures Tuned(TunedPlan(plan, admitted, reply), admitted, reply)
  {
    hide TunedStep, IsTuned;
  }

  /** Sources that are run inputs or outputs of produced steps are available. */
  lemma {:induction false} KnownAreAvailable(plan: Plan, inputs: Obj, produced: map<string, Obj>, sources: seq<string>)
    requires forall s :: s in sources ==>
        s in plan.sources && (plan.sources[s].step == "" || plan.sources[s].step in produced)
    ensures SourceValues(plan, inputs, produced, sources).Some?
  {
    if sources != [] {
      assert sources[|sources| - 1] in sources;
      KnownAreAvailable(plan, inputs, produced, sources[..|sources| - 1]);
    }
  }

  lemma {:induction false} TunedBinds(plan: Plan, inputs: Obj, produced: map<string, Obj>, ins: seq<Sink>)
    requires forall k, values :: 0 <= k < |ins| ==> ins[k].settle(values).Ok?
    requires KnownSources(ins, plan.sources)
    requires forall d :: Reads(ins, plan.sources, d) ==> d in produced
    ensures BoundInputs(plan, inputs, produced, ins).Ok?
  {
    if ins != [] {
      var n := |ins| - 1;
      forall d | Reads(ins[..n], plan.sources, d) ensures d in produced {
        assert Reads(ins, plan.sources, d);
      }
      TunedBinds(plan, inputs, produced, ins[..n]);
      forall s | s in ins[n].sources
        ensures s in plan.sources && (plan.sources[s].step == "" || plan.sources[s].step in produced)
      {
        assert plan.sources[s].step != "" ==> Reads(ins, plan.sources, plan.sources[s].step);
      }
      KnownAreAvailable(plan, inputs, produced, ins[n].sources);
    }
  }

  /** The inputs of a tuned step resolve as soon as what it reads has produced. */
  lemma TunedInputs(env: Env, inj: Injected, id: string, admitted: bool, reply: Reply)
    requires EnvOk(env) && WellFormed(env.plan) && Tuned(env.plan, admitted, reply) && id in env.plan.byId
    requires DepsProduce(env, inj, id)
    ensures InputsOf(env, inj, id).Ok?
  {
    hide VerdictOf;
    var step := env.plan.byId[id];
    if !step.implicit {
      TunedBinds(env.plan, env.inputs, DepOutputs(env, inj, id), step.ins);
    }
  }
}
