/** From a process to a run: whatever the planner accepts can be run and resumed. */
module Runner {
  import opened Common
  import opened Workflow
  import opened Graph
  import opened Meaning
  import opened RunState
  import opened RunLoop
  import opened Reporting
  import Dataflow

  /** A plan's snapshot is right, and unless cut short by a failure or a cancellation the run ends as its meaning. */
  ghost predicate RunsAsMeant(plan: Plan, rank: map<string, nat>, cfg: Config, inputs: Obj, patience: Option<nat>,
                              r: RunResult, err: Option<Error>)
  {
    var env := Env(plan, rank, inputs);
    && WellFormed(plan) && EnvOk(env) && SnapOk(env, map[], r.state.steps)
    && r.state.inputs == inputs && r.state.version == Version
    && (patience.None? && RunsOn(cfg, env, map[]) ==>
          FinalState(env, map[], r.state.steps) && Reports(env, map[], r, err))
    && (SomeFails(env, map[]) ==> err.Some? && Failing(r.status))
  }

  method RunPlanned(plan: Plan, ghost rank: map<string, nat>, cfg: Config, inputs: Obj, patience: Option<nat>)
    returns (r: RunResult, err: Option<Error>)
    requires WellFormed(plan) && Ranking(Edges(plan.byId), rank)
    ensures RunsAsMeant(plan, rank, cfg, inputs, patience, r, err)
  {
    hide WellFormed, EnvOk, SnapOk, FinalState, Reports, SomeFails, Dataflow.EndsAs, RunsOn;
    PlanGivesEnv(plan, rank, inputs);
    ghost var launches;
    r, err, launches := Run(plan, cfg, inputs, patience, rank);
  }

  /**
   * Plans a workflow and runs it. It is run exactly if its step ids differ, its sources are known and no step
   * reads itself through others; the run is then the plan's.
   */
  method RunWorkflow(ports: seq<OutPort>, steps: seq<Step>, outputs: seq<Sink>, cfg: Config, inputs: Obj,
                     patience: Option<nat>)
    returns (p: Result<Plan>, r: Option<RunResult>, err: Option<Error>, ghost rank: map<string, nat>)
    requires forall k :: 0 <= k < |steps| ==> !steps[k].implicit
    ensures p.Ok? <==>
              && DistinctIds(steps) && AllSourcesKnown(steps, SourceTable(ports, steps), outputs)
              && !exists walk :: ReadCycle(steps, SourceTable(ports, steps), walk)
    ensures p.Ok? ==> r.Some? && RunsAsMeant(p.value, rank, cfg, inputs, patience, r.value, err)
    ensures p.Err? ==> r.None? && err == Some(p.error)
  {
    hide WellFormed, RunsAsMeant, DistinctIds, AllSourcesKnown, ReadCycle, Ranking;
    p, rank := NewPlan(ports, steps, outputs);
    if p.Err? {
      return p, None, Some(p.error), rank;
    }
    var result;
    result, err := RunPlanned(p.value, rank, cfg, inputs, patience);
    r := Some(result);
  }

  /** Plans a lone process as one step and runs it; this always can be planned. */
  method RunProcess(step: Step, settle: seq<Value> -> Result<Value>, cfg: Config, inputs: Obj, patience: Option<nat>)
    returns (plan: Plan, r: RunResult, err: Option<Error>, ghost rank: map<string, nat>)
    requires step.implicit && step.deps == [] && step.id != ""
    ensures plan.order == [step.id] && plan.byId == map[step.id := step]
    ensures RunsAsMeant(plan, rank, cfg, inputs, patience, r, err)
  {
    hide WellFormed, RunsAsMeant, Ranking;
    plan, rank := BarePlan(step, settle);
    r, err := RunPlanned(plan, rank, cfg, inputs, patience);
  }
}
