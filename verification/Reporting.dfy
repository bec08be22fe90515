/** What a run reports once nothing is running: a failure before a suspension before its outputs. */
module Reporting {
  import opened Common
  import opened Workflow
  import opened Meaning
  import opened Stability
  import opened RunState
  import Answering
  import Scatter

  /** A snapshot a caller can persist and hand back. */
  datatype Snapshot = Snapshot(steps: Steps, inputs: Obj, version: int)

  const Version := 1

  datatype RunResult = RunResult(status: Status, outputs: Obj, suspensions: seq<Suspension>, state: Snapshot)

  /** The suspensions of the waiting invocations, in order. */
  function WaitingJobs(jobs: seq<JobState>): seq<Suspension> {
    if jobs == [] then []
    else
      var last := jobs[|jobs| - 1];
      WaitingJobs(jobs[..|jobs| - 1]) +
        (if last.status == Suspended && last.suspension.Some? then [last.suspension.value] else [])
  }

  function WaitingSteps(steps: Steps, order: seq<string>): seq<Suspension> {
    if order == [] then []
    else WaitingSteps(steps, order[..|order| - 1]) + WaitingJobs(Rec(steps, order[|order| - 1]).jobs)
  }

  lemma {:induction false} WaitingJobsEmpty(jobs: seq<JobState>)
    ensures WaitingJobs(jobs) == [] <==> forall k :: 0 <= k < |jobs| ==>
        !(jobs[k].status == Suspended && jobs[k].suspension.Some?)
  {
    if jobs != [] {
      WaitingJobsEmpty(jobs[..|jobs| - 1]);
    }
  }

  lemma {:induction false} WaitingStepsEmpty(steps: Steps, order: seq<string>)
    ensures WaitingSteps(steps, order) == [] <==> forall i :: 0 <= i < |order| ==>
        WaitingJobs(Rec(steps, order[i]).jobs) == []
  {
    hide WaitingJobs, Rec;
    var n := |order|;
    if order != [] {
      WaitingStepsEmpty(steps, order[..n - 1]);
      assert forall i :: 0 <= i < n - 1 ==> order[..n - 1][i] == order[i];
    }
  }

  /** The run's own outputs: an unwired output is null. */
  function RunOutputs(plan: Plan, inputs: Obj, produced: map<string, Obj>, sinks: seq<Sink>): Result<Obj> {
    if sinks == [] then Ok(map[])
    else
      var n := |sinks| - 1;
      match RunOutputs(plan, inputs, produced, sinks[..n])
      case Err(e) => Err(e)
      case Ok(outputs) =>
        if sinks[n].sources == [] then Ok(outputs[sinks[n].name := Null])
        else match SinkValue(plan, inputs, produced, sinks[n])
          case Err(e) => Err(e)
          case Ok(v) => Ok(outputs[sinks[n].name := v])
  }

  lemma {:induction false} OutputErrStays(plan: Plan, inputs: Obj, produced: map<string, Obj>, sinks: seq<Sink>, i: nat)
    requires i <= |sinks| && RunOutputs(plan, inputs, produced, sinks[..i]).Err?
    ensures RunOutputs(plan, inputs, produced, sinks) == RunOutputs(plan, inputs, produced, sinks[..i])
    decreases |sinks| - i
  {
    if i == |sinks| {
      assert sinks[..i] == sinks;
    } else {
      assert sinks[..i + 1][..i] == sinks[..i];
      OutputErrStays(plan, inputs, produced, sinks, i + 1);
    }
  }

  ghost predicate SomeFails(env: Env, inj: Injected)
    requires EnvOk(env)
  {
    exists id :: id in env.plan.byId && VerdictOf(env, inj, id).Done? && Failing(VerdictOf(env, inj, id).status)
  }

  ghost predicate FailsForGood(env: Env, inj: Injected)
    requires EnvOk(env)
  {
    exists id :: id in env.plan.byId && VerdictOf(env, inj, id).Done? && VerdictOf(env, inj, id).status == PermanentFail
  }

  ghost predicate SomeWaits(env: Env, inj: Injected)
    requires EnvOk(env)
  {
    exists id :: id in env.plan.byId && VerdictOf(env, inj, id).Waiting?
  }

  // ---- in a final state, the records tell the meaning ----

  lemma FinalFailure(env: Env, inj: Injected, steps: Steps, id: string)
    requires EnvOk(env) && FinalState(env, inj, steps) && id in env.plan.byId
    ensures Failing(Rec(steps, id).status) <==> VerdictOf(env, inj, id).Done? && Failing(VerdictOf(env, inj, id).status)
    ensures Rec(steps, id).status == PermanentFail <==>
        VerdictOf(env, inj, id).Done? && VerdictOf(env, inj, id).status == PermanentFail
  {
    assert Matches(VerdictOf(env, inj, id), Rec(steps, id));
  }

  /** A suspended invocation always carries its suspension. */
  lemma SuspendedCarries(env: Env, inj: Injected, steps: Steps, id: string, k: nat)
    requires EnvOk(env) && SnapOk(env, inj, steps) && id in steps && k < |steps[id].jobs|
    requires steps[id].jobs[k].status == Suspended
    ensures steps[id].jobs[k].suspension.Some? && Open(steps[id])
  {
    assert StepOk(env, inj, id, steps[id]);
    var step := env.plan.byId[id];
    assert JobOk(step, inj, SeedsOf(step, InputsOf(env, inj, id))[k], steps[id].jobs[k]);
    SettledSuspension(env.plan, step, inj, SeedsOf(step, InputsOf(env, inj, id))[k].inputs, steps[id].jobs[k],
                      SeedsOf(step, InputsOf(env, inj, id))[k].index);
  }

  lemma SettledSuspension(plan: Plan, step: Step, inj: Injected, x: Obj, job: JobState, index: seq<int>)
    requires Answering.InjectedOk(plan, inj) && job.status == Suspended
    requires JobOk(step, inj, Scatter.ScatterJob(x, index), job)
    ensures job.suspension.Some?
  {}

  /** In a final state something waits exactly when a suspension is reported. */
  lemma FinalWaiting(env: Env, inj: Injected, steps: Steps)
    requires EnvOk(env) && SnapOk(env, inj, steps) && FinalState(env, inj, steps)
    requires forall id :: id in env.plan.order <==> id in env.plan.byId
    ensures SomeWaits(env, inj) <==> WaitingSteps(steps, env.plan.order) != []
  {
    hide Judge, InputsOf, DepsProduce, StepOk, VerdictOf, SnapOk, FinalState, WaitingSteps, WaitingJobs;
    WaitingStepsEmpty(steps, env.plan.order);
    forall id | id in env.plan.byId
      ensures VerdictOf(env, inj, id).Waiting? <==> WaitingJobs(Rec(steps, id).jobs) != []
    {
      WaitingJobsEmpty(Rec(steps, id).jobs);
      assert Matches(VerdictOf(env, inj, id), Rec(steps, id)) by { FinalMatches(env, inj, steps, id); }
      WaitingOne(env, inj, steps, id);
    }
    if WaitingSteps(steps, env.plan.order) != [] {
      var i :| 0 <= i < |env.plan.order| && WaitingJobs(Rec(steps, env.plan.order[i]).jobs) != [];
      assert env.plan.order[i] in env.plan.byId;
    }
    if SomeWaits(env, inj) {
      var id :| id in env.plan.byId && VerdictOf(env, inj, id).Waiting?;
      var i :| 0 <= i < |env.plan.order| && env.plan.order[i] == id;
    }
  }

  lemma FinalMatches(env: Env, inj: Injected, steps: Steps, id: string)
    requires EnvOk(env) && FinalState(env, inj, steps) && id in env.plan.byId
    ensures Matches(VerdictOf(env, inj, id), Rec(steps, id))
  {
    hide VerdictOf, Matches;
  }

  lemma WaitingOne(env: Env, inj: Injected, steps: Steps, id: string)
    requires EnvOk(env) && SnapOk(env, inj, steps) && id in env.plan.byId
    requires Matches(VerdictOf(env, inj, id), Rec(steps, id))
    ensures VerdictOf(env, inj, id).Waiting? <==>
              exists k :: 0 <= k < |Rec(steps, id).jobs| && Rec(steps, id).jobs[k].status == Suspended &&
                Rec(steps, id).jobs[k].suspension.Some?
  {
    hide StepOk;
    forall k: nat | k < |Rec(steps, id).jobs| && Rec(steps, id).jobs[k].status == Suspended
      ensures Rec(steps, id).jobs[k].suspension.Some? && Open(Rec(steps, id))
    {
      SuspendedCarries(env, inj, steps, id, k);
    }
  }

  /** With no failure and nothing waiting, every output's sources are available. */
  lemma FinalOutputs(env: Env, inj: Injected, steps: Steps)
    requires EnvOk(env) && WellFormed(env.plan) && FinalState(env, inj, steps)
    requires !SomeFails(env, inj) && !SomeWaits(env, inj)
    ensures env.plan.byId.Keys <= ProducedOf(steps).Keys
    ensures forall i :: 0 <= i < |env.plan.outputs| ==>
              SourceValues(env.plan, env.inputs, ProducedOf(steps), env.plan.outputs[i].sources).Some?
  {
    forall id | id in env.plan.byId ensures id in ProducedOf(steps) {
      AllProduce(env, inj, id);
      assert Matches(VerdictOf(env, inj, id), Rec(steps, id));
    }
    forall i | 0 <= i < |env.plan.outputs|
      ensures SourceValues(env.plan, env.inputs, ProducedOf(steps), env.plan.outputs[i].sources).Some?
    {
      SourcesAvailable(env.plan, env.inputs, ProducedOf(steps), env.plan.outputs[i].sources);
    }
  }

  /** The outputs of the steps that produce any. */
  ghost function MeantOutputs(env: Env, inj: Injected): map<string, Obj>
    requires EnvOk(env)
  {
    map id | id in env.plan.byId && ProducedVerdict(VerdictOf(env, inj, id)) :: OutputsOf(VerdictOf(env, inj, id))
  }

  lemma FinalProduced(env: Env, inj: Injected, steps: Steps)
    requires EnvOk(env) && SnapOk(env, inj, steps) && FinalState(env, inj, steps)
    ensures ProducedOf(steps) == MeantOutputs(env, inj)
  {
    hide StepOk, VerdictOf, Grounded;
    var produced, meant := ProducedOf(steps), MeantOutputs(env, inj);
    forall id ensures (id in produced <==> id in meant) && (id in produced ==> produced[id] == meant[id]) {
      if id in env.plan.byId {
        assert Matches(VerdictOf(env, inj, id), Rec(steps, id));
      }
    }
  }

  /** A step's invocations settled, if its inputs resolve and expand. */
  ghost function MeantJobs(env: Env, inj: Injected, id: string): seq<JobState>
    requires EnvOk(env) && id in env.plan.byId
  {
    var step, x := env.plan.byId[id], InputsOf(env, inj, id);
    if x.Ok? && Expand(step, x.value).Ok? then AllSettled(step, inj, Expand(step, x.value).value) else []
  }

  /** The suspensions of the waiting steps, in the order given. */
  ghost function MeantWaiting(env: Env, inj: Injected, order: seq<string>): seq<Suspension>
    requires EnvOk(env)
  {
    if order == [] then []
    else
      var id := order[|order| - 1];
      MeantWaiting(env, inj, order[..|order| - 1]) +
      (if id in env.plan.byId && VerdictOf(env, inj, id).Waiting? then WaitingJobs(MeantJobs(env, inj, id)) else [])
  }

  /** A waiting step's record holds exactly its settled invocations. */
  lemma WaitingHoldsMeant(env: Env, inj: Injected, steps: Steps, id: string)
    requires EnvOk(env) && SnapOk(env, inj, steps) && FinalState(env, inj, steps)
    requires id in env.plan.byId && VerdictOf(env, inj, id).Waiting?
    ensures Rec(steps, id).jobs == MeantJobs(env, inj, id)
  {
    hide VerdictOf, InputsOf, DepsProduce, Settled, Grounded;
    assert Matches(VerdictOf(env, inj, id), Rec(steps, id));
    assert StepOk(env, inj, id, steps[id]);
    SettledJobs(env.plan.byId[id], inj, InputsOf(env, inj, id), steps[id]);
  }

  lemma SettledJobs(step: Step, inj: Injected, x: Result<Obj>, r: StepState)
    requires OpenOk(step, inj, x, r) && forall k :: 0 <= k < |r.jobs| ==> r.jobs[k].status != Unset
    ensures r.jobs == AllSettled(step, inj, Expand(step, x.value).value)
  {
    hide Settled, Expand;
    forall k | 0 <= k < |r.jobs| ensures r.jobs[k] == Settled(step, inj, SeedsOf(step, x)[k]) {
      assert JobOk(step, inj, SeedsOf(step, x)[k], r.jobs[k]);
    }
  }

  /** In a final state the reported suspensions are those the meaning gives, in plan order. */
  lemma {:induction false} FinalSuspensions(env: Env, inj: Injected, steps: Steps, order: seq<string>)
    requires EnvOk(env) && SnapOk(env, inj, steps) && FinalState(env, inj, steps)
    requires forall i :: 0 <= i < |order| ==> order[i] in env.plan.byId
    ensures WaitingSteps(steps, order) == MeantWaiting(env, inj, order)
  {
    hide VerdictOf, MeantJobs, SnapOk;
    if order != [] {
      var id := order[|order| - 1];
      FinalSuspensions(env, inj, steps, order[..|order| - 1]);
      assert Matches(VerdictOf(env, inj, id), Rec(steps, id));
      if VerdictOf(env, inj, id).Waiting? {
        WaitingHoldsMeant(env, inj, steps, id);
      } else {
        WaitingJobsEmpty(Rec(steps, id).jobs);
        NotWaitingHoldsNone(env, inj, steps, id);
      }
    }
  }

  lemma NotWaitingHoldsNone(env: Env, inj: Injected, steps: Steps, id: string)
    requires EnvOk(env) && SnapOk(env, inj, steps) && id in env.plan.byId
    requires Matches(VerdictOf(env, inj, id), Rec(steps, id)) && !VerdictOf(env, inj, id).Waiting?
    ensures forall k :: 0 <= k < |Rec(steps, id).jobs| ==> Rec(steps, id).jobs[k].status != Suspended
  {
    hide VerdictOf, Grounded;
    if VerdictOf(env, inj, id).Done? {
      DoneStatus(env, inj, id);
      assert StepOk(env, inj, id, steps[id]);
    }
  }

  /** What a run reports, by its meaning alone: failure, then suspension, then outputs. */
  ghost predicate Reports(env: Env, inj: Injected, r: RunResult, err: Option<Error>)
    requires EnvOk(env)
  {
    if SomeFails(env, inj) then err.Some? && r.status == if FailsForGood(env, inj) then PermanentFail else TemporaryFail
    else if SomeWaits(env, inj) then
      err.None? && r.status == Suspended && r.suspensions == MeantWaiting(env, inj, env.plan.order) && r.suspensions !=
        []
    else match RunOutputs(env.plan, env.inputs, MeantOutputs(env, inj), env.plan.outputs)
      case Ok(outputs) => err.None? && r.status == Success && r.suspensions == [] && r.outputs == outputs
      case Err(e) => err == Some(e) && r.status == PermanentFail
  }
}
