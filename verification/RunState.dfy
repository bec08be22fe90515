/** The recorded progress of a run, and what every reachable record means. */
module RunState {
  import opened Common
  import opened Grid
  import opened Nesting
  import opened Workflow
  import opened Meaning
  import opened Stability
  import opened Answering
  import Scatter

  datatype StepState = StepState(started: bool, status: Status, outputs: Obj, jobs: seq<JobState>, shape: Option<Dims>)

  type Steps = map<string, StepState>

  const FreshStep := StepState(false, Unset, map[], [], None)

  /** A step's record; one that was never touched reads as fresh. */
  function Rec(steps: Steps, id: string): StepState {
    if id in steps then steps[id] else FreshStep
  }

  /** Started and not finished. */
  predicate Open(r: StepState) {
    r.started && r.status == Unset
  }

  predicate ProducedStep(r: StepState) {
    r.status == Success || r.status == Skipped
  }

  function ProducedOf(steps: Steps): map<string, Obj> {
    map id | id in steps && ProducedStep(steps[id]) :: steps[id].outputs
  }

  // ---- the meaning of one record ----

  /** The seeds a step expands to, if its inputs resolve and expand. */
  function SeedsOf(step: Step, inputs: Result<Obj>): seq<Scatter.ScatterJob> {
    if inputs.Ok? && Expand(step, inputs.value).Ok? then Expand(step, inputs.value).value.seeds else []
  }

  /** An invocation is either settled as the meaning says, or admitted and still to run. */
  ghost predicate JobOk(step: Step, inj: Injected, seed: Scatter.ScatterJob, job: JobState) {
    || (job == Settled(step, inj, seed) && !GateOf(step, seed.inputs).Rejected?)
    || (job == FreshJob(seed.index) && GateOf(step, seed.inputs).Admitted? && Address(step.id, seed.index) !in inj)
  }

  ghost predicate OpenOk(step: Step, inj: Injected, inputs: Result<Obj>, r: StepState) {
    && inputs.Ok? && Expand(step, inputs.value).Ok?
    && r.shape == Expand(step, inputs.value).value.shape && r.outputs == map[]
    && |r.jobs| == |SeedsOf(step, inputs)|
    && forall k :: 0 <= k < |r.jobs| ==> JobOk(step, inj, SeedsOf(step, inputs)[k], r.jobs[k])
  }

  ghost predicate StepOk(env: Env, inj: Injected, id: string, r: StepState)
    requires EnvOk(env) && id in env.plan.byId
  {
    if !r.started then r == FreshStep
    else
      && DepsProduce(env, inj, id)
      && if r.status == Unset then OpenOk(env.plan.byId[id], inj, InputsOf(env, inj, id), r)
         else VerdictOf(env, inj, id) == Done(r.status, r.outputs) && NoneSuspended(r)
  }

  predicate NoneSuspended(r: StepState) {
    forall k :: 0 <= k < |r.jobs| ==> r.jobs[k].status != Suspended
  }

  /** All dependencies have recorded outputs. */
  predicate Grounded(plan: Plan, steps: Steps, id: string)
    requires id in plan.byId
  {
    forall d :: d in plan.byId[id].deps ==> d in steps && ProducedStep(steps[d])
  }

  /** Every record means what the dependency graph says, and a started step stands on finished ones. */
  ghost predicate SnapOk(env: Env, inj: Injected, steps: Steps)
    requires EnvOk(env)
  {
    && InjectedOk(env.plan, inj)
    && (forall a :: a in inj ==> a.step in steps && steps[a.step].started)
    && (forall id :: id in steps ==> id in env.plan.byId && StepOk(env, inj, id, steps[id]))
    && (forall id :: id in steps && steps[id].started ==> id in env.plan.byId && Grounded(env.plan, steps, id))
  }

  lemma EmptySnapOk(env: Env)
    requires EnvOk(env)
    ensures SnapOk(env, map[], map[])
  {}

  lemma PutKeepsSnap(env: Env, inj: Injected, steps: Steps, id: string, r: StepState)
    requires EnvOk(env) && SnapOk(env, inj, steps) && id in env.plan.byId
    requires StepOk(env, inj, id, r) && (r.started ==> Grounded(env.plan, steps, id))
    requires Rec(steps, id).started ==> r.started
    requires ProducedStep(Rec(steps, id)) ==> ProducedStep(r)
    ensures SnapOk(env, inj, steps[id := r])
  {}

  /** A grounded step's inputs, read from the records, are the inputs it is judged on. */
  lemma GroundedInputs(env: Env, inj: Injected, steps: Steps, id: string)
    requires EnvOk(env) && WellFormed(env.plan) && SnapOk(env, inj, steps) && id in env.plan.byId
    requires Grounded(env.plan, steps, id)
    ensures DepsProduce(env, inj, id)
    ensures StepInputs(env.plan, env.inputs, ProducedOf(steps), env.plan.byId[id]) == InputsOf(env, inj, id)
  {
    var step := env.plan.byId[id];
    forall d | d in step.deps
      ensures d in env.plan.byId && d in ProducedOf(steps)
      ensures VerdictOf(env, inj, d) == Done(steps[d].status, ProducedOf(steps)[d])
    {
      assert StepOk(env, inj, d, steps[d]);
    }
    assert Agree(step.deps, ProducedOf(steps), DepOutputs(env, inj, id));
    StepInputsAgree(env.plan, env.inputs, step, ProducedOf(steps), DepOutputs(env, inj, id));
  }

  // ---- finishing a step ----

  ghost predicate AllTerminal(r: StepState) {
    forall k :: 0 <= k < |r.jobs| ==> Terminal(r.jobs[k])
  }

  /** Once all its invocations are terminal, the record determines the verdict. */
  lemma TerminalDecides(step: Step, inj: Injected, inputs: Result<Obj>, r: StepState)
    requires OpenOk(step, inj, inputs, r) && AllTerminal(r)
    ensures |r.jobs| == match r.shape { case None => 1 case Some(dims) => Product(dims) }
    ensures Judge(step, inj, inputs) == Reduce(step, r.shape, r.jobs)
  {
    var e := Expand(step, inputs.value).value;
    forall k | 0 <= k < |r.jobs|
      ensures r.jobs[k] == Settled(step, inj, e.seeds[k]) && !GateOf(step, e.seeds[k].inputs).Rejected?
    {
      assert JobOk(step, inj, SeedsOf(step, inputs)[k], r.jobs[k]) && Terminal(r.jobs[k]);
    }
    assert r.jobs == AllSettled(step, inj, e);
  }

  /** With every invocation settled and one suspended, the step is waiting. */
  lemma SuspendedWaits(step: Step, inj: Injected, inputs: Result<Obj>, r: StepState)
    requires OpenOk(step, inj, inputs, r)
    requires forall k :: 0 <= k < |r.jobs| ==> r.jobs[k].status != Unset
    requires !AllTerminal(r)
    ensures Judge(step, inj, inputs) == Waiting
  {
    var e := Expand(step, inputs.value).value;
    forall k | 0 <= k < |r.jobs|
      ensures r.jobs[k] == Settled(step, inj, e.seeds[k]) && !GateOf(step, e.seeds[k].inputs).Rejected?
    {
      assert JobOk(step, inj, SeedsOf(step, inputs)[k], r.jobs[k]);
    }
    assert r.jobs == AllSettled(step, inj, e);
  }

  // ---- progress over a whole run ----

  /** A finished step's record never changes, and a recorded invocation outcome is never overwritten. */
  ghost predicate StepAdvances(a: StepState, b: StepState) {
    && (a.status != Unset ==> b == a)
    && (a.started ==> b.started && |b.jobs| == |a.jobs|)
    && (Open(a) ==> forall k :: 0 <= k < |a.jobs| && |b.jobs| == |a.jobs| && a.jobs[k].status != Unset ==>
        b.jobs[k] == a.jobs[k])
  }

  ghost predicate Advances(a: Steps, b: Steps) {
    forall id :: StepAdvances(Rec(a, id), Rec(b, id))
  }

  lemma AdvancesTransitive(a: Steps, b: Steps, c: Steps)
    requires Advances(a, b) && Advances(b, c)
    ensures Advances(a, c)
  {
    forall id ensures StepAdvances(Rec(a, id), Rec(c, id)) {
      assert StepAdvances(Rec(a, id), Rec(b, id)) && StepAdvances(Rec(b, id), Rec(c, id));
    }
  }

  // ---- the state a completed run ends in ----

  ghost predicate Matches(v: Verdict, r: StepState) {
    match v
    case Done(status, outputs) => r.started && r.status == status && r.outputs == outputs
    case Waiting =>
      && Open(r) && (forall k :: 0 <= k < |r.jobs| ==> r.jobs[k].status != Unset)
      && exists k :: 0 <= k < |r.jobs| && r.jobs[k].status == Suspended
    case Blocked => r == FreshStep
  }

  /** Every step is recorded exactly as the meaning of the run says. */
  ghost predicate FinalState(env: Env, inj: Injected, steps: Steps)
    requires EnvOk(env)
  {
    forall id :: id in env.plan.byId ==> Matches(VerdictOf(env, inj, id), Rec(steps, id))
  }

  /** No unstarted step is ready, and every started one has an outcome for each invocation. */
  ghost predicate Quiet(plan: Plan, steps: Steps) {
    && (forall id :: id in plan.byId && !Rec(steps, id).started ==> !Grounded(plan, steps, id))
    && (forall id :: id in steps && Open(steps[id]) ==>
          (forall k :: 0 <= k < |steps[id].jobs| ==> steps[id].jobs[k].status != Unset) && !AllTerminal(steps[id]))
  }

  lemma UngroundedIsBlocked(env: Env, inj: Injected, steps: Steps, id: string, d: string)
    requires EnvOk(env) && id in env.plan.byId && d in env.plan.byId[id].deps && d in env.plan.byId
    requires Matches(VerdictOf(env, inj, d), Rec(steps, d)) && !ProducedStep(Rec(steps, d))
    ensures VerdictOf(env, inj, id) == Blocked
  {
    assert !ProducedVerdict(VerdictOf(env, inj, d));
  }

  lemma OpenMatches(env: Env, inj: Injected, steps: Steps, id: string)
    requires EnvOk(env) && id in env.plan.byId && id in steps && Open(steps[id]) && StepOk(env, inj, id, steps[id])
    requires forall k :: 0 <= k < |steps[id].jobs| ==> steps[id].jobs[k].status != Unset
    requires !AllTerminal(steps[id])
    ensures Matches(VerdictOf(env, inj, id), steps[id])
  {
    SuspendedWaits(env.plan.byId[id], inj, InputsOf(env, inj, id), steps[id]);
  }

  /** A quiet state is final: no work is lost, whatever order it was done in. */
  lemma {:induction false} QuietMatches(env: Env, inj: Injected, steps: Steps, id: string)
    requires EnvOk(env) && SnapOk(env, inj, steps) && Quiet(env.plan, steps) && id in env.plan.byId
    ensures Matches(VerdictOf(env, inj, id), Rec(steps, id))
    decreases RankOf(env, id)
  {
    var r := Rec(steps, id);
    if !r.started {
      var d :| d in env.plan.byId[id].deps && !(d in steps && ProducedStep(steps[d]));
      QuietMatches(env, inj, steps, d);
      UngroundedIsBlocked(env, inj, steps, id, d);
    } else if r.status == Unset {
      OpenMatches(env, inj, steps, id);
    } else {
      assert StepOk(env, inj, id, r);
    }
  }

  lemma QuietIsFinal(env: Env, inj: Injected, steps: Steps)
    requires EnvOk(env) && SnapOk(env, inj, steps) && Quiet(env.plan, steps)
    ensures FinalState(env, inj, steps)
  {
    forall id | id in env.plan.byId ensures Matches(VerdictOf(env, inj, id), Rec(steps, id)) {
      QuietMatches(env, inj, steps, id);
    }
  }
}
