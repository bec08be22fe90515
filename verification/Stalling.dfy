/**
 * When a plan is not listed in dependency order, a caller-driven run can lose work: if every invocation
 * is skipped by its `when`, the one start pass leaves ready steps unstarted and hands out nothing.
 */
module Stalling {
  import opened Common
  import opened Workflow
  import opened Meaning
  import opened Stability
  import opened RunState
  import opened RunLoop
  import opened Dispatch
  import opened Graph
  import opened Tuning
  import Reporting
  import Scatter

  /** Every step of the plan is declined by its `when`. */
  ghost predicate Muted(plan: Plan) {
    Tuned(plan, false, NoReply)
  }

  ghost predicate IsMuted(step: Step) {
    IsTuned(step, false, NoReply)
  }

  function MutedPlan(plan: Plan): Plan {
    TunedPlan(plan, false, NoReply)
  }

  lemma MutedJudged(step: Step, inj: Injected, x: Result<Obj>)
    requires IsMuted(step) && x.Ok?
    ensures Judge(step, inj, x) == Done(Skipped, NullPorts(Ports(step)))
  {
    var e := Expand(step, x.value).value;
    assert GateOf(step, e.seeds[0].inputs) == Declined;
    assert AllSettled(step, inj, e)[0] == SkippedJob(step, []);
  }

  lemma {:induction false} MutedSkips(env: Env, inj: Injected, id: string)
    requires EnvOk(env) && WellFormed(env.plan) && Muted(env.plan) && id in env.plan.byId
    ensures VerdictOf(env, inj, id) == Done(Skipped, NullPorts(Ports(env.plan.byId[id])))
    decreases RankOf(env, id)
  {
    hide Judge, Tuned, IsTuned;
    var step := env.plan.byId[id];
    forall d | d in step.deps ensures d in env.plan.byId && ProducedVerdict(VerdictOf(env, inj, d)) {
      MutedSkips(env, inj, d);
    }
    assert InputsOf(env, inj, id).Ok? by { TunedInputs(env, inj, id, false, NoReply); }
    assert IsMuted(step) by { MutedOne(env.plan, id); }
    MutedJudged(step, inj, InputsOf(env, inj, id));
  }

  lemma MutedOne(plan: Plan, id: string)
    requires Muted(plan) && id in plan.byId
    ensures IsMuted(plan.byId[id])
  {}

  /** Nothing can be out in a muted plan: no invocation is ever admitted. */
  lemma MutedNeverFlies(l: Loop)
    requires l.Valid() && Muted(l.plan)
    ensures l.inFlight == {} && !l.stopped
  {
    hide Loop.Core, IsMuted, BusyBut, Judge;
    forall f ensures f !in l.inFlight {
      if f in l.inFlight {
        FlyingIsNotMuted(l, f);
        MutedOne(l.plan, f.step);
      }
    }
    if l.stopped {
      l.StoppedByFailure();
      MutedHasNoFailure(l);
    }
  }

  lemma FlyingIsNotMuted(l: Loop, f: Flight)
    requires l.Valid() && f in l.inFlight
    ensures f.step in l.plan.byId && !IsMuted(l.plan.byId[f.step])
  {
    hide Loop.Core, IsMuted, BusyBut;
    var x := l.Admits(f);
    AdmittedIsNotMuted(l.plan.byId[f.step], x);
  }

  lemma AdmittedIsNotMuted(step: Step, x: Obj)
    requires GateOf(step, x).Admitted?
    ensures !IsMuted(step)
  {
    assert step.when(step.valueFrom(x).value) != Ok(false);
  }

  lemma MutedHasNoFailure(l: Loop)
    requires l.Core() && Muted(l.plan)
    ensures !Reporting.SomeFails(l.E(), l.inj)
  {
    hide SnapOk, LiveOk, FlightsOk, LaunchesOk, CallsOk, Loop.Counted, Muted, IsMuted, VerdictOf;
    forall id | id in l.plan.byId
      ensures VerdictOf(l.E(), l.inj, id).Done? && VerdictOf(l.E(), l.inj, id).status == Skipped
    {
      MutedSkips(l.E(), l.inj, id);
    }
  }

  /**
   * For every plan that lists a step before one it depends on, there are steps' behaviours, keeping every
   * id and edge, for which the caller-driven loop stops at once with a step unstarted that should have run.
   */
  method StallsOutOfOrder(plan: Plan, cfg: Config, inputs: Obj, ghost rank: map<string, nat>, ghost i: nat,
                          ghost j: nat)
    returns (d: DispatchLoop, batch: seq<nat>)
    requires WellFormed(plan) && EnvOk(Env(plan, rank, inputs))
    requires i < j < |plan.order| && DependsAt(plan, i, j)
    ensures d.Valid() && d.l.plan == MutedPlan(plan) && d.l.rank == rank && d.l.inputs == inputs && d.l.inj == map[]
    ensures batch == [] && d.InFlight() == 0 && !d.l.stopped
    ensures !Rec(d.l.steps, plan.order[i]).started
    ensures EnvOk(d.l.E()) && !FinalState(d.l.E(), map[], d.l.steps)
  {
    hide WellFormed, EnvOk, SnapOk, Tuned, TunedStep, VerdictOf;
    TunedWellFormed(plan, rank, inputs, false, NoReply);
    d := Begin(MutedPlan(plan), cfg, inputs, rank);
    batch := d.Pending();
    MutedNeverFlies(d.l);
    FirstWaits(plan, d.l.steps, i, j);
    Unfinished(d.l.E(), d.l.steps, plan.order[i]);
  }

  lemma FirstWaits(plan: Plan, steps: Steps, i: nat, j: nat)
    requires i < j < |plan.order| && DependsAt(plan, i, j)
    requires WaitsForLater(MutedPlan(plan), map[], steps, |plan.order|)
    ensures !Rec(steps, plan.order[i]).started && plan.order[i] in MutedPlan(plan).byId
  {
    assert DependsAt(MutedPlan(plan), i, j);
  }

  lemma Unfinished(env: Env, steps: Steps, id: string)
    requires EnvOk(env) && WellFormed(env.plan) && Muted(env.plan) && id in env.plan.byId && !Rec(steps, id).started
    ensures !FinalState(env, map[], steps)
  {
    MutedSkips(env, map[], id);
    assert !Matches(VerdictOf(env, map[], id), Rec(steps, id));
  }
}
