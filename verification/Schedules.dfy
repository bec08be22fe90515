/**
 * What the final records of whole runs have in common: any two schedules of one plan agree, a resumed run
 * agrees with one answered at once, and no step is left without a reason.
 */
module Schedules {
  import opened Common
  import opened Workflow
  import opened Meaning
  import opened Stability
  import opened Answering
  import opened RunState
  import opened Reporting

  // ---- any two schedules ----

  /** A step's verdict does not depend on which rank is used to walk the graph. */
  lemma {:induction false} RankIrrelevant(env: Env, other: Env, inj: Injected, id: string)
    requires EnvOk(env) && EnvOk(other) && other == env.(rank := other.rank) && id in env.plan.byId
    ensures VerdictOf(env, inj, id) == VerdictOf(other, inj, id)
    decreases RankOf(env, id)
  {
    hide Judge;
    forall d | d in env.plan.byId[id].deps
      ensures d in env.plan.byId && VerdictOf(env, inj, d) == VerdictOf(other, inj, d)
    {
      RankIrrelevant(env, other, inj, d);
    }
    assert DepOutputs(env, inj, id) == DepOutputs(other, inj, id);
  }

  /** Same start, same status and the same value on every port. */
  ghost predicate SameRecord(a: StepState, b: StepState) {
    a.started == b.started && a.status == b.status && SameReads(a.outputs, b.outputs)
  }

  /** Final records of one plan agree on every step, whatever order and whatever cap produced them. */
  lemma SchedulesAgree(env: Env, other: Env, inj: Injected, a: Steps, b: Steps, id: string)
    requires EnvOk(env) && EnvOk(other) && other == env.(rank := other.rank) && id in env.plan.byId
    requires FinalState(env, inj, a) && FinalState(other, inj, b)
    ensures Rec(a, id).started == Rec(b, id).started && Rec(a, id).status == Rec(b, id).status
    ensures Rec(a, id).status != Unset ==> Rec(a, id).outputs == Rec(b, id).outputs
  {
    hide VerdictOf;
    RankIrrelevant(env, other, inj, id);
    assert Matches(VerdictOf(env, inj, id), Rec(a, id)) && Matches(VerdictOf(other, inj, id), Rec(b, id));
    if VerdictOf(env, inj, id).Done? {
      DoneStatus(env, inj, id);
    }
  }

  /** Two reports of one plan agree on whether they fail, wait or succeed, on outputs and on suspensions. */
  lemma ReportsAgree(env: Env, inj: Injected, r: RunResult, err: Option<Error>, r': RunResult, err': Option<Error>)
    requires EnvOk(env) && Reports(env, inj, r, err) && Reports(env, inj, r', err')
    ensures r.status == r'.status && err.Some? == err'.Some?
    ensures r.status == Success ==> r.outputs == r'.outputs
    ensures r.status == Suspended ==> r.suspensions == r'.suspensions
  {}

  // ---- resumed, or answered at once ----

  /**
   * A run that suspends and is resumed, in however many batches, with the outcomes in `inj` ends with the
   * records of a run whose handlers returned those outcomes directly.
   */
  lemma ResumedAgrees(env: Env, direct: Env, inj: Injected, resumed: Steps, atOnce: Steps, id: string)
    requires EnvOk(env) && EnvOk(direct) && WellFormed(env.plan) && Answers(env, direct, inj)
    requires FinalState(env, inj, resumed) && FinalState(direct, map[], atOnce) && id in env.plan.byId
    requires SnapOk(env, inj, resumed) && SnapOk(direct, map[], atOnce)
    ensures SameRecord(Rec(resumed, id), Rec(atOnce, id))
  {
    hide VerdictOf, StepOk, Grounded, AnswersStep;
    AnsweredDirectly(env, direct, inj, id);
    assert Matches(VerdictOf(env, inj, id), Rec(resumed, id));
    assert Matches(VerdictOf(direct, map[], id), Rec(atOnce, id));
    OpenHoldsNothing(env, inj, resumed, id);
    OpenHoldsNothing(direct, map[], atOnce, id);
  }

  lemma OpenHoldsNothing(env: Env, inj: Injected, steps: Steps, id: string)
    requires EnvOk(env) && SnapOk(env, inj, steps)
    ensures Open(Rec(steps, id)) ==> Rec(steps, id).outputs == map[]
  {
    if id in steps {
      assert StepOk(env, inj, id, steps[id]);
    }
  }

  lemma {:induction false} RunOutputsAgree(plan: Plan, direct: Plan, inputs: Obj, a: map<string, Obj>,
                                           b: map<string, Obj>, sinks: seq<Sink>)
    requires direct.sources == plan.sources && Agree(plan.order, a, b)
    requires forall s :: s in plan.sources && plan.sources[s].step != "" ==> plan.sources[s].step in plan.order
    ensures RunOutputs(plan, inputs, a, sinks) == RunOutputs(direct, inputs, b, sinks)
  {
    if sinks != [] {
      var n := |sinks| - 1;
      RunOutputsAgree(plan, direct, inputs, a, b, sinks[..n]);
      SourceValuesAgree(plan, inputs, plan.order, a, b, sinks[n].sources);
      SourceValuesSamePlan(plan, direct, inputs, b, sinks[n].sources);
    }
  }

  lemma {:induction false} SameWaitingJobs(a: seq<JobState>, b: seq<JobState>)
    requires |a| == |b| && forall k :: 0 <= k < |a| ==> SameJob(a[k], b[k])
    ensures WaitingJobs(a) == WaitingJobs(b)
  {
    hide SameReads;
    if a != [] {
      var n := |a| - 1;
      assert SameJob(a[n], b[n]);
      SameWaitingJobs(a[..n], b[..n]);
    }
  }

  /** A step that waits does so on the same suspensions in both runs. */
  lemma SameMeantJobs(env: Env, direct: Env, inj: Injected, id: string)
    requires EnvOk(env) && EnvOk(direct) && Answers(env, direct, inj) && WellFormed(env.plan)
    requires id in env.plan.byId && VerdictOf(env, inj, id).Waiting?
    ensures WaitingJobs(MeantJobs(env, inj, id)) == WaitingJobs(MeantJobs(direct, map[], id))
  {
    hide VerdictOf, WellFormed, AnswersStep, AllSettled, Expand, EnvOk;
    SameJudged(env, direct, inj, id);
    WaitingExpands(env.plan.byId[id], inj, InputsOf(env, inj, id));
    SameSettledJobs(env.plan.byId[id], direct.plan.byId[id], inj, InputsOf(env, inj, id));
  }

  lemma SameJudged(env: Env, direct: Env, inj: Injected, id: string)
    requires EnvOk(env) && EnvOk(direct) && Answers(env, direct, inj) && WellFormed(env.plan)
    requires id in env.plan.byId && VerdictOf(env, inj, id).Waiting?
    ensures InputsOf(env, inj, id) == InputsOf(direct, map[], id)
    ensures Judge(env.plan.byId[id], inj, InputsOf(env, inj, id)).Waiting?
  {
    hide InputsOf, WellFormed, Judge, SameVerdict, DepsProduce, AnswersStep;
    forall d | d in env.plan.byId[id].deps
      ensures d in env.plan.byId && SameVerdict(VerdictOf(env, inj, d), VerdictOf(direct, map[], d))
    {
      AnsweredDirectly(env, direct, inj, d);
    }
    InputsAnswered(env, direct, inj, id);
  }

  lemma WaitingExpands(step: Step, inj: Injected, x: Result<Obj>)
    requires Judge(step, inj, x).Waiting?
    ensures x.Ok? && Expand(step, x.value).Ok?
  {
    hide Expand, Reduce, Rejects;
  }

  lemma SameSettledJobs(step: Step, direct: Step, inj: Injected, x: Result<Obj>)
    requires AnswersStep(step, direct, inj) && x.Ok? && Expand(step, x.value).Ok?
    ensures Expand(direct, x.value) == Expand(step, x.value)
    ensures WaitingJobs(AllSettled(step, inj, Expand(step, x.value).value))
         == WaitingJobs(AllSettled(direct, map[], Expand(step, x.value).value))
  {
    hide Settled, SameJob, AnswersAt;
    var e := Expand(step, x.value).value;
    forall k | 0 <= k < |e.seeds| ensures SameJob(AllSettled(step, inj, e)[k], AllSettled(direct, map[], e)[k]) {
      SettledAnswered(step, direct, inj, e.seeds[k]);
    }
    SameWaitingJobs(AllSettled(step, inj, e), AllSettled(direct, map[], e));
  }

  lemma {:induction false} SameWaiting(env: Env, direct: Env, inj: Injected, order: seq<string>)
    requires EnvOk(env) && EnvOk(direct) && WellFormed(env.plan) && Answers(env, direct, inj)
    ensures MeantWaiting(env, inj, order) == MeantWaiting(direct, map[], order)
  {
    hide VerdictOf, WellFormed, MeantJobs, EnvOk, AnswersStep;
    if order != [] {
      var id := order[|order| - 1];
      SameWaiting(env, direct, inj, order[..|order| - 1]);
      if id in env.plan.byId {
        AnsweredDirectly(env, direct, inj, id);
        if VerdictOf(env, inj, id).Waiting? {
          SameMeantJobs(env, direct, inj, id);
        }
      }
    }
  }

  /** A resumed run reports what the run answered at once reports, the same suspensions included. */
  lemma ResumedReports(env: Env, direct: Env, inj: Injected, r: RunResult, err: Option<Error>, r': RunResult,
                       err': Option<Error>)
    requires EnvOk(env) && EnvOk(direct) && WellFormed(env.plan) && Answers(env, direct, inj)
    requires Reports(env, inj, r, err) && Reports(direct, map[], r', err')
    ensures r.status == r'.status && err.Some? == err'.Some?
    ensures r.status == Success ==> r.outputs == r'.outputs
    ensures r.status == Suspended ==> r.suspensions == r'.suspensions
  {
    hide MeantWaiting, VerdictOf, WellFormed, SomeFails, FailsForGood, SomeWaits, MeantOutputs, EnvOk, AnswersStep;
    SameWaiting(env, direct, inj, env.plan.order);
    forall id | id in env.plan.byId
      ensures id in direct.plan.byId && SameVerdict(VerdictOf(env, inj, id), VerdictOf(direct, map[], id))
    {
      AnsweredDirectly(env, direct, inj, id);
    }
    SameClasses(env, inj, direct);
    SameRunOutputs(env, inj, direct);
  }

  lemma SameMeant(env: Env, inj: Injected, direct: Env)
    requires EnvOk(env) && EnvOk(direct) && direct.plan.byId.Keys == env.plan.byId.Keys
    requires forall id :: id in env.plan.byId ==> SameVerdict(VerdictOf(env, inj, id), VerdictOf(direct, map[], id))
    ensures Agree(env.plan.order, MeantOutputs(env, inj), MeantOutputs(direct, map[]))
  {
    hide VerdictOf, EnvOk;
    forall id | id in env.plan.byId ensures SameVerdict(VerdictOf(env, inj, id), VerdictOf(direct, map[], id)) {}
  }

  lemma SameRunOutputs(env: Env, inj: Injected, direct: Env)
    requires EnvOk(env) && EnvOk(direct) && WellFormed(env.plan)
    requires direct.plan.byId.Keys == env.plan.byId.Keys && direct.plan.sources == env.plan.sources
    requires forall id :: id in env.plan.byId ==> SameVerdict(VerdictOf(env, inj, id), VerdictOf(direct, map[], id))
    ensures RunOutputs(env.plan, env.inputs, MeantOutputs(env, inj), env.plan.outputs)
         == RunOutputs(direct.plan, env.inputs, MeantOutputs(direct, map[]), env.plan.outputs)
  {
    hide VerdictOf, EdgesResolved, EnvOk, MeantOutputs, Agree, SameVerdict;
    SameMeant(env, inj, direct);
    RunOutputsAgree(env.plan, direct.plan, env.inputs, MeantOutputs(env, inj), MeantOutputs(direct, map[]),
                    env.plan.outputs);
  }

  lemma SameClasses(env: Env, inj: Injected, direct: Env)
    requires EnvOk(env) && EnvOk(direct) && direct.plan.byId.Keys == env.plan.byId.Keys
    requires forall id :: id in env.plan.byId ==> SameVerdict(VerdictOf(env, inj, id), VerdictOf(direct, map[], id))
    ensures SomeFails(env, inj) == SomeFails(direct, map[]) && FailsForGood(env, inj) == FailsForGood(direct, map[])
    ensures SomeWaits(env, inj) == SomeWaits(direct, map[])
  {
    hide VerdictOf;
    forall id | id in env.plan.byId
      ensures SameVerdict(VerdictOf(env, inj, id), VerdictOf(direct, map[], id))
      ensures id in direct.plan.byId
    {}
  }

  // ---- nothing is lost ----

  /** Waiting: open, every invocation has an outcome, and at least one of them is suspended. */
  ghost predicate WaitsOnSuspended(r: StepState) {
    && Open(r) && (forall k :: 0 <= k < |r.jobs| ==> r.jobs[k].status != Unset)
    && exists k :: 0 <= k < |r.jobs| && r.jobs[k].status == Suspended
  }

  /** The step at the far end of a walk along dependencies failed, or is waiting. */
  ghost predicate HeldUpBy(plan: Plan, steps: Steps, id: string, walk: seq<string>) {
    && Upstream(plan, walk) && |walk| >= 2 && walk[0] == id
    && var cause := Rec(steps, walk[|walk| - 1]); Failing(cause.status) || WaitsOnSuspended(cause)
  }

  /**
   * In a final state every step has its outcome, or waits on a suspended invocation with all the others
   * done or suspended, or never started because an ancestor failed or waits.
   */
  lemma NoLostWork(env: Env, inj: Injected, steps: Steps, id: string)
    requires EnvOk(env) && FinalState(env, inj, steps) && id in env.plan.byId
    ensures var r := Rec(steps, id);
            || r.status in {Success, Skipped, PermanentFail, TemporaryFail}
            || WaitsOnSuspended(r)
            || (r == FreshStep && exists walk :: HeldUpBy(env.plan, steps, id, walk))
  {
    hide VerdictOf, EnvOk;
    assert Matches(VerdictOf(env, inj, id), Rec(steps, id));
    if VerdictOf(env, inj, id).Done? {
      DoneStatus(env, inj, id);
    } else if VerdictOf(env, inj, id).Blocked? {
      var walk := BlockedHasCause(env, inj, id);
      var cause := walk[|walk| - 1];
      assert Matches(VerdictOf(env, inj, cause), Rec(steps, cause));
      if VerdictOf(env, inj, cause).Done? {
        DoneStatus(env, inj, cause);
      }
      assert HeldUpBy(env.plan, steps, id, walk);
    }
  }

  /** With no failure and nothing suspended, every step has produced and every workflow output is available. */
  lemma AllWorkDone(env: Env, inj: Injected, steps: Steps)
    requires EnvOk(env) && WellFormed(env.plan) && FinalState(env, inj, steps)
    requires forall id :: id in env.plan.byId ==> !Failing(Rec(steps, id).status) && !WaitsOnSuspended(Rec(steps, id))
    ensures forall id :: id in env.plan.byId ==> ProducedStep(Rec(steps, id))
    ensures forall i :: 0 <= i < |env.plan.outputs| ==>
              SourceValues(env.plan, env.inputs, ProducedOf(steps), env.plan.outputs[i].sources).Some?
  {
    hide VerdictOf, WellFormed;
    forall id | id in env.plan.byId
      ensures !VerdictOf(env, inj, id).Waiting?
      ensures !(VerdictOf(env, inj, id).Done? && Failing(VerdictOf(env, inj, id).status))
    {
      assert Matches(VerdictOf(env, inj, id), Rec(steps, id));
    }
    FinalOutputs(env, inj, steps);
  }
}
