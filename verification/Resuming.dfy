/**
 * Whole histories of a run: started, suspended, and resumed in one batch or several, in any order, against a
 * run whose handlers answer at once.
 */
module Resuming {
  import opened Common
  import opened Workflow
  import opened Meaning
  import opened Answering
  import opened RunState
  import opened Injecting
  import opened Reporting
  import Dataflow
  import opened RunLoop
  import opened Schedules

  /** All outcomes of a list of batches, in order. */
  function AllOf(batches: seq<seq<ResumedStep>>): seq<ResumedStep> {
    if batches == [] then [] else batches[0] + AllOf(batches[1..])
  }

  /** Two reports that agree on how the run ended, on its outputs and on what it waits for. */
  predicate SameReport(r: RunResult, err: Option<Error>, r': RunResult, err': Option<Error>) {
    && r.status == r'.status && err.Some? == err'.Some?
    && (r.status == Success ==> r.outputs == r'.outputs)
    && (r.status == Suspended ==> r.suspensions == r'.suspensions)
  }

  /** Records and reports agree on every step. */
  ghost predicate SameEnd(plan: Plan, r: RunResult, err: Option<Error>, r': RunResult, err': Option<Error>) {
    && SameReport(r, err, r', err')
    && forall id :: id in plan.byId ==> SameRecord(Rec(r.state.steps, id), Rec(r'.state.steps, id))
  }

  /** How a run that has the outcomes `inj` ends when nothing cuts it short. */
  ghost predicate EndsWith(env: Env, inj: Injected, r: RunResult, err: Option<Error>)
    requires EnvOk(env)
  {
    SnapOk(env, inj, r.state.steps) && FinalState(env, inj, r.state.steps) && Reports(env, inj, r, err)
  }

  /**
   * A caller resumes with one batch after another, each on the state the last one returned. If the joined
   * batch is acceptable at the start, each part is when its turn comes.
   */
  method ResumeInTurn(plan: Plan, cfg: Config, state: Snapshot, batches: seq<seq<ResumedStep>>,
                      ghost rank: map<string, nat>, ghost inj: Injected)
    returns (r: RunResult, err: Option<Error>, accepted: bool)
    requires WellFormed(plan) && EnvOk(Env(plan, rank, state.inputs))
    requires SnapOk(Env(plan, rank, state.inputs), inj, state.steps)
    requires batches != [] && state.version == Version
    ensures Accepts(plan, state.steps, AllOf(batches)) ==> accepted
    ensures accepted ==> r.state.inputs == state.inputs && r.state.version == Version
    ensures accepted ==> SnapOk(Env(plan, rank, state.inputs), Answered(plan, inj, AllOf(batches)), r.state.steps)
    ensures accepted && RunsOn(cfg, Env(plan, rank, state.inputs), Answered(plan, inj, AllOf(batches))) ==>
              EndsWith(Env(plan, rank, state.inputs), Answered(plan, inj, AllOf(batches)), r, err)
    decreases |batches|
  {
    hide EnvOk, WellFormed, SnapOk, FinalState, Reports, Accepts, Answered, RunsOn, AddressesJob, AnsweredBy;
    hide Dataflow.EndsAs;
    r, err, accepted := Resume(plan, cfg, state, batches[0], None, rank, inj);
    BatchesCompose(plan, inj, batches[0], AllOf(batches[1..]));
    if Accepts(plan, state.steps, AllOf(batches)) {
      FirstAccepted(plan, state.steps, batches[0], AllOf(batches[1..]));
    }
    if accepted {
      if Accepts(plan, state.steps, AllOf(batches)) {
        PartsAccepted(plan, state.steps, batches[0], AllOf(batches[1..]), r.state.steps);
      }
      if |batches| == 1 {
        OnlyBatch(batches);
        return;
      }
      r, err, accepted := ResumeInTurn(plan, cfg, r.state, batches[1..], rank, Answered(plan, inj, batches[0]));
    }
  }

  lemma OnlyBatch(batches: seq<seq<ResumedStep>>)
    requires |batches| == 1
    ensures AllOf(batches) == batches[0]
  {
    assert batches[0] + [] == batches[0];
  }

  lemma FirstAccepted(plan: Plan, steps: Steps, a: seq<ResumedStep>, b: seq<ResumedStep>)
    requires Accepts(plan, steps, a + b)
    ensures Accepts(plan, steps, a)
  {
    hide Acceptable;
    var all := a + b;
    forall i | 0 <= i < |a| ensures Acceptable(plan, steps, a[i]) {
      assert Acceptable(plan, steps, all[i]);
    }
    forall i, j | 0 <= i < j < |a| ensures AddressOf(a[i]) != AddressOf(a[j]) {
      assert AddressOf(all[i]) != AddressOf(all[j]);
    }
  }

  // ---- handlers that answer at once ----

  /** The handler asks to be resumed later. */
  predicate Suspends(reply: Reply) {
    !reply.failed && reply.status == Suspended && reply.suspension.Some? && reply.outputs.None?
  }

  /** The outcome a batch has for an invocation, the first if there are several. */
  function OutcomeFor(batch: seq<ResumedStep>, step: string, index: seq<int>): Option<ResumedStep> {
    if batch == [] then None
    else if batch[0].stepId == step && batch[0].scatterIndex == index then Some(batch[0])
    else OutcomeFor(batch[1..], step, index)
  }

  /** The step whose handler, where it would suspend, returns the outcome a caller has for it. */
  function DirectStep(step: Step, batch: seq<ResumedStep>): Step {
    step.(handler := (x: Obj, c: seq<int>) =>
      var own := step.handler(x, c);
      var outcome := OutcomeFor(batch, step.id, c);
      if Suspends(own) && outcome.Some? then Reply(outcome.value.status, Some(outcome.value.outputs), None, false)
      else own)
  }

  function DirectPlan(plan: Plan, batch: seq<ResumedStep>): Plan {
    plan.(byId := map id | id in plan.byId :: DirectStep(plan.byId[id], batch))
  }

  lemma {:induction false} OutcomeIs(batch: seq<ResumedStep>, step: string, index: seq<int>)
    ensures match OutcomeFor(batch, step, index)
            case None => forall i :: 0 <= i < |batch| ==> AddressOf(batch[i]) != Address(step, index)
            case Some(r) => exists i :: 0 <= i < |batch| && batch[i] == r && AddressOf(r) == Address(step, index)
  {
    if batch != [] && AddressOf(batch[0]) != Address(step, index) {
      OutcomeIs(batch[1..], step, index);
      if OutcomeFor(batch, step, index).Some? {
        var i :| 0 <= i < |batch[1..]| && batch[1..][i] == OutcomeFor(batch, step, index).value;
        assert batch[i + 1] == batch[1..][i];
      }
      assert forall i :: 0 < i < |batch| ==> batch[i] == batch[1..][i - 1];
    }
  }

  /** What is recorded for an accepted outcome reads as what a handler that returned it would leave. */
  lemma ReturnedIsAccepted(step: Step, r: ResumedStep, c: seq<int>)
    requires Usable(r.status) && r.scatterIndex == c
    ensures SameJob(AcceptedJob(step, r), Recorded(step, Reply(r.status, Some(r.outputs), None, false), c))
  {}

  lemma SuspendsIs(step: Step, reply: Reply, c: seq<int>)
    ensures Recorded(step, reply, c).status == Suspended <==> Suspends(reply)
  {}

  /** A batch's outcome for an address is what accepting the batch holds there. */
  lemma HeldIsSupplied(plan: Plan, batch: seq<ResumedStep>, id: string, c: seq<int>)
    requires DistinctAddresses(batch) && forall i :: 0 <= i < |batch| ==> batch[i].stepId in plan.byId
    requires id in plan.byId
    ensures var inj := Answered(plan, map[], batch);
            match OutcomeFor(batch, id, c)
            case None => Address(id, c) !in inj
            case Some(r) => Address(id, c) in inj && inj[Address(id, c)] == AcceptedJob(plan.byId[id], r)
                            && r in batch && r.scatterIndex == c
  {
    hide AcceptedJob, DistinctAddresses;
    OutcomeIs(batch, id, c);
    match OutcomeFor(batch, id, c) {
      case None =>
        if Address(id, c) in Answered(plan, map[], batch) {
          AnsweredOnly(plan, map[], batch, Address(id, c));
        }
      case Some(r) =>
        var i :| 0 <= i < |batch| && batch[i] == r;
        AnsweredHolds(plan, map[], batch, i);
    }
  }

  lemma StepAnswers(plan: Plan, batch: seq<ResumedStep>, id: string)
    requires DistinctAddresses(batch) && forall i :: 0 <= i < |batch| ==> batch[i].stepId in plan.byId
    requires forall i :: 0 <= i < |batch| ==> Usable(batch[i].status)
    requires id in plan.byId && plan.byId[id].id == id
    ensures AnswersStep(plan.byId[id], DirectStep(plan.byId[id], batch), Answered(plan, map[], batch))
  {
    hide AcceptedJob, DistinctAddresses, Recorded, Answered, OutcomeFor, Usable, SameJob;
    var step, direct, inj := plan.byId[id], DirectStep(plan.byId[id], batch), Answered(plan, map[], batch);
    assert Ports(direct) == Ports(step);
    forall x, c ensures AnswersAt(step, direct, inj, x, c) {
      var own := step.handler(x, c);
      SuspendsIs(step, own, c);
      HeldIsSupplied(plan, batch, id, c);
      SamePorts(step, direct, direct.handler(x, c), c);
      SameJobItself(Recorded(step, own, c));
      if OutcomeFor(batch, id, c).Some? {
        ReturnedIsAccepted(step, OutcomeFor(batch, id, c).value, c);
      }
    }
  }

  lemma SamePorts(step: Step, direct: Step, reply: Reply, c: seq<int>)
    requires Ports(direct) == Ports(step)
    ensures Recorded(direct, reply, c) == Recorded(step, reply, c)
  {}

  lemma SameJobItself(job: JobState)
    ensures SameJob(job, job)
  {}

  lemma PlanAnswers(env: Env, steps: Steps, batch: seq<ResumedStep>)
    requires WellFormed(env.plan) && Accepts(env.plan, steps, batch)
    ensures Answers(env, env.(plan := DirectPlan(env.plan, batch)), Answered(env.plan, map[], batch))
  {
    hide AnswersStep, DirectStep, Answered, EdgesResolved, AddressesJob, OutputsAccepted, DistinctAddresses;
    var plan := env.plan;
    forall i | 0 <= i < |batch| ensures batch[i].stepId in plan.byId && Usable(batch[i].status) {
      assert Acceptable(plan, steps, batch[i]);
    }
    forall id | id in plan.byId
      ensures AnswersStep(plan.byId[id], DirectStep(plan.byId[id], batch), Answered(plan, map[], batch))
    {
      StepAnswers(plan, batch, id);
    }
  }

  /**
   * A run is started once and suspends. It is then resumed with one batch, resumed with the same outcomes in
   * another order and in several batches, and the plan is run anew with handlers that return those statuses
   * and outputs where they would suspend. If the one batch is acceptable, so are the several, and unless a
   * failure must stop them the three end alike, whatever order completions arrive in and whatever the caps.
   */
  method AnyBatchesAgree(plan: Plan, cfg: Config, other: Config, inputs: Obj, one: seq<ResumedStep>,
                         batches: seq<seq<ResumedStep>>, ghost rank: map<string, nat>)
    returns (first: RunResult, once: RunResult, onceErr: Option<Error>, many: RunResult, manyErr: Option<Error>,
             direct: RunResult, directErr: Option<Error>, accepted: bool)
    requires WellFormed(plan) && EnvOk(Env(plan, rank, inputs))
    requires batches != [] && multiset(one) == multiset(AllOf(batches))
    ensures accepted <==> Accepts(plan, first.state.steps, one)
    ensures var inj := Answered(plan, map[], one);
            accepted && RunsOn(cfg, Env(plan, rank, inputs), inj) && RunsOn(other, Env(plan, rank, inputs), inj) ==>
              SameEnd(plan, once, onceErr, direct, directErr) && SameEnd(plan, many, manyErr, direct, directErr)
  {
    hide EnvOk, WellFormed, SnapOk, FinalState, Reports, Accepts, Answered, RunsOn, AddressesJob, DirectPlan;
    hide SomeFails, Dataflow.EndsAs, AnsweredBy, FirstRefused, BatchRefusal, EndsWith, SameEnd, Answers;
    ghost var env := Env(plan, rank, inputs);
    var firstErr;
    ghost var launches;
    first, firstErr, launches := Run(plan, cfg, inputs, None, rank);
    var joined := AllOf(batches);
    OrderIrrelevant(plan, map[], first.state.steps, one, joined);
    var ok;
    once, onceErr, ok := Resume(plan, cfg, first.state, one, None, rank, map[]);
    many, manyErr, accepted := once, onceErr, ok;
    direct, directErr := once, onceErr;
    if !ok {
      return;
    }
    many, manyErr, accepted := ResumeInTurn(plan, other, first.state, batches, rank, map[]);
    ghost var inj := Answered(plan, map[], one);
    ghost var atOnce := Env(DirectPlan(plan, one), rank, inputs);
    DirectSetting(env, first.state.steps, one);
    direct, directErr, launches := Run(DirectPlan(plan, one), other, inputs, None, rank);
    if RunsOn(cfg, env, inj) && RunsOn(other, env, inj) {
      EndsAre(env, inj, once, onceErr);
      DirectRunsOn(other, env, atOnce, inj);
      EndsAre(atOnce, map[], direct, directErr);
      EndsAlike(env, atOnce, inj, once, onceErr, direct, directErr);
      EndsAlike(env, atOnce, inj, many, manyErr, direct, directErr);
    }
  }

  lemma EndsAre(env: Env, inj: Injected, r: RunResult, err: Option<Error>)
    requires EnvOk(env)
    ensures SnapOk(env, inj, r.state.steps) && FinalState(env, inj, r.state.steps) && Reports(env, inj, r, err) ==>
        EndsWith(env, inj, r, err)
  {}

  lemma DirectSetting(env: Env, steps: Steps, batch: seq<ResumedStep>)
    requires EnvOk(env) && WellFormed(env.plan) && Accepts(env.plan, steps, batch)
    ensures var direct := Env(DirectPlan(env.plan, batch), env.rank, env.inputs);
            && Answers(env, direct, Answered(env.plan, map[], batch))
            && EnvOk(direct) && WellFormed(direct.plan)
  {
    hide Answers, Accepts, DirectPlan, EnvOk, WellFormed, Answered;
    var direct, inj := env.(plan := DirectPlan(env.plan, batch)), Answered(env.plan, map[], batch);
    PlanAnswers(env, steps, batch);
    AnswersEnvOk(env, direct, inj);
    AnswersWellFormed(env, direct, inj);
  }

  /** Answering at once brings no failure that was not there. */
  lemma DirectRunsOn(cfg: Config, env: Env, direct: Env, inj: Injected)
    requires EnvOk(env) && EnvOk(direct) && WellFormed(env.plan) && Answers(env, direct, inj) && RunsOn(cfg, env, inj)
    ensures RunsOn(cfg, direct, map[])
  {
    hide SomeFails, VerdictOf, WellFormed, EnvOk, AnswersStep;
    forall id | id in env.plan.byId ensures SameVerdict(VerdictOf(env, inj, id), VerdictOf(direct, map[], id)) {
      AnsweredDirectly(env, direct, inj, id);
    }
    SameClasses(env, inj, direct);
  }

  lemma EndsAlike(env: Env, atOnce: Env, inj: Injected, r: RunResult, err: Option<Error>, direct: RunResult,
                  directErr: Option<Error>)
    requires EnvOk(env) && EnvOk(atOnce) && WellFormed(env.plan) && Answers(env, atOnce, inj)
    requires EndsWith(env, inj, r, err) && EndsWith(atOnce, map[], direct, directErr)
    ensures SameEnd(env.plan, r, err, direct, directErr)
  {
    hide WellFormed, EnvOk, SnapOk, FinalState, Reports, Answers, SameRecord;
    ResumedReports(env, atOnce, inj, r, err, direct, directErr);
    forall id | id in env.plan.byId ensures SameRecord(Rec(r.state.steps, id), Rec(direct.state.steps, id)) {
      ResumedAgrees(env, atOnce, inj, r.state.steps, direct.state.steps, id);
    }
  }
}
