/** A run whose suspended invocations are answered later means what a run answered at once means. */
module Answering {
  import opened Common
  import opened Grid
  import opened Nesting
  import opened Graph
  import opened Workflow
  import opened Meaning
  import opened Stability
  import Scatter

  /** What accepting an outcome for a suspended invocation records. */
  ghost predicate AcceptedOk(step: Step, at: Address, job: JobState) {
    && job.index == at.index && job.suspension.None?
    && match job.status
       case Success => job.outputs.Keys == set port | port in Ports(step)
       case Skipped => job.outputs == NullPorts(Ports(step))
       case PermanentFail | TemporaryFail => job.outputs == map[]
       case _ => false
  }

  ghost predicate InjectedOk(plan: Plan, inj: Injected) {
    forall a :: a in inj ==> a.step in plan.byId && AcceptedOk(plan.byId[a.step], a, inj[a])
  }

  /** One call: `direct` answers at once what `inj` holds for it, or else as `step` does. */
  ghost predicate AnswersAt(step: Step, direct: Step, inj: Injected, x: Obj, c: seq<int>) {
    var own, now := Recorded(step, step.handler(x, c), c), Recorded(direct, direct.handler(x, c), c);
    if own.status == Suspended && Address(step.id, c) in inj then SameJob(inj[Address(step.id, c)], now)
    else SameJob(own, now)
  }

  /** The same step but for its handler, which answers at once what `inj` holds. */
  ghost predicate AnswersStep(step: Step, direct: Step, inj: Injected) {
    direct == step.(handler := direct.handler) && forall x, c :: AnswersAt(step, direct, inj, x, c)
  }

  /** `direct` is the plan of `env` with every handler answering at once. */
  ghost predicate Answers(env: Env, direct: Env, inj: Injected) {
    && direct.plan == env.plan.(byId := direct.plan.byId) && direct.inputs == env.inputs && direct.rank == env.rank
    && direct.plan.byId.Keys == env.plan.byId.Keys
    && forall id :: id in env.plan.byId ==> AnswersStep(env.plan.byId[id], direct.plan.byId[id], inj)
  }

  lemma AnswersEnvOk(env: Env, direct: Env, inj: Injected)
    requires EnvOk(env) && Answers(env, direct, inj)
    ensures EnvOk(direct)
  {
    hide AnswersAt, EnvOk;
    forall id | id in env.plan.byId ensures direct.plan.byId[id].deps == env.plan.byId[id].deps {
      assert AnswersStep(env.plan.byId[id], direct.plan.byId[id], inj);
    }
    SameEdgesSameRank(env, direct);
  }

  lemma AnswersWellFormed(env: Env, direct: Env, inj: Injected)
    requires WellFormed(env.plan) && Answers(env, direct, inj)
    ensures WellFormed(direct.plan)
  {
    hide AnswersAt, EdgesResolved;
    var plan, plan' := env.plan, direct.plan;
    forall id | id in plan.byId ensures plan'.byId[id] == plan.byId[id].(handler := plan'.byId[id].handler) {
      assert AnswersStep(plan.byId[id], plan'.byId[id], inj);
    }
    assert Edges(plan'.byId) == Edges(plan.byId);
    assert Indexed(plan'.order, plan'.byId);
    assert SourcesNameSteps(plan'.sources, plan'.byId);
    forall id | id in plan'.byId ensures EdgesResolved(plan'.byId[id], plan'.sources) {
      EdgesKept(plan.byId[id], plan'.byId[id], plan.sources);
    }
  }

  lemma EdgesKept(step: Step, step': Step, sources: map<string, SourceRef>)
    requires EdgesResolved(step, sources)
    requires step'.implicit == step.implicit && step'.ins == step.ins && step'.deps == step.deps
    ensures EdgesResolved(step', sources)
  {}

  ghost predicate SameJob(a: JobState, b: JobState) {
    a.status == b.status && a.suspension == b.suspension && a.index == b.index && SameReads(a.outputs, b.outputs)
  }

  /** Equal status, and outputs that read the same on every port. */
  ghost predicate SameVerdict(a: Verdict, b: Verdict) {
    match (a, b)
    case (Done(s, o), Done(t, p)) => s == t && SameReads(o, p)
    case (Waiting, Waiting) => true
    case (Blocked, Blocked) => true
    case _ => false
  }

  lemma SettledAnswered(step: Step, direct: Step, inj: Injected, seed: Scatter.ScatterJob)
    requires AnswersStep(step, direct, inj)
    ensures SameJob(Settled(step, inj, seed), Settled(direct, map[], seed))
  {
    hide Recorded, AnswersAt;
    assert GateOf(direct, seed.inputs) == GateOf(step, seed.inputs);
    if GateOf(step, seed.inputs).Admitted? {
      var x := GateOf(step, seed.inputs).inputs;
      assert Declared(direct, x) == Declared(step, x) && AnswersAt(step, direct, inj, Declared(step, x), seed.index);
      RanAnswered(step, direct, inj, x, seed.index);
    }
  }

  lemma RanAnswered(step: Step, direct: Step, inj: Injected, x: Obj, c: seq<int>)
    requires direct == step.(handler := direct.handler) && AnswersAt(step, direct, inj, Declared(step, x), c)
    ensures var own, now := Ran(step, x, c), Ran(direct, x, c);
            if own.status == Suspended && Address(step.id, c) in inj then SameJob(inj[Address(step.id, c)], now)
            else SameJob(own, now)
  {
    assert Declared(direct, x) == Declared(step, x) && Ports(direct) == Ports(step);
  }

  lemma ReduceSame(step: Step, step': Step, shape: Option<Dims>, a: seq<JobState>, b: seq<JobState>)
    requires Ports(step) == Ports(step') && |a| == |b|
    requires |a| == match shape { case None => 1 case Some(dims) => Product(dims) }
    requires forall k :: 0 <= k < |a| ==> SameJob(a[k], b[k])
    ensures SameVerdict(Reduce(step, shape, a), Reduce(step', shape, b))
  {
    assert forall k :: 0 <= k < |a| ==> a[k].status == b[k].status;
    if shape.Some? {
      forall port ensures PortColumn(a, port) == PortColumn(b, port) {}
    }
  }

  lemma JudgeAnswered(step: Step, direct: Step, inj: Injected, inputs: Result<Obj>)
    requires AnswersStep(step, direct, inj)
    ensures SameVerdict(Judge(step, inj, inputs), Judge(direct, map[], inputs))
  {
    hide AnswersAt, Settled;
    if inputs.Ok? {
      assert Expand(direct, inputs.value) == Expand(step, inputs.value);
      if Expand(step, inputs.value).Ok? {
        var e := Expand(step, inputs.value).value;
        assert forall k :: 0 <= k < |e.seeds| ==> GateOf(direct, e.seeds[k].inputs) == GateOf(step, e.seeds[k].inputs);
        forall k | 0 <= k < |e.seeds| ensures SameJob(AllSettled(step, inj, e)[k], AllSettled(direct, map[], e)[k]) {
          SettledAnswered(step, direct, inj, e.seeds[k]);
        }
        ReduceSame(step, direct, e.shape, AllSettled(step, inj, e), AllSettled(direct, map[], e));
      }
    }
  }

  /** With dependencies judged alike, a step is judged on the same inputs in both. */
  lemma InputsAnswered(env: Env, direct: Env, inj: Injected, id: string)
    requires EnvOk(env) && EnvOk(direct) && Answers(env, direct, inj) && id in env.plan.byId && WellFormed(env.plan)
    requires forall d :: d in env.plan.byId[id].deps ==>
               d in env.plan.byId && SameVerdict(VerdictOf(env, inj, d), VerdictOf(direct, map[], d))
    ensures DepsProduce(env, inj, id) <==> DepsProduce(direct, map[], id)
    ensures DepsProduce(env, inj, id) ==> InputsOf(env, inj, id) == InputsOf(direct, map[], id)
  {
    hide AnswersAt, VerdictOf, EnvOk, SameVerdict, StepInputs, WellFormed;
    var step, step' := env.plan.byId[id], direct.plan.byId[id];
    assert AnswersStep(step, step', inj);
    forall d | d in step.deps
      ensures ProducedVerdict(VerdictOf(env, inj, d)) <==> ProducedVerdict(VerdictOf(direct, map[], d))
      ensures SameReads(OutputsOf(VerdictOf(env, inj, d)), OutputsOf(VerdictOf(direct, map[], d)))
    {
      SameProduce(VerdictOf(env, inj, d), VerdictOf(direct, map[], d));
    }
    if DepsProduce(env, inj, id) {
      var was, now := DepOutputs(env, inj, id), DepOutputs(direct, map[], id);
      assert Agree(step.deps, was, now);
      DepsAreReads(env.plan, id);
      StepInputsAgree(env.plan, env.inputs, step, was, now);
      StepInputsSamePlan(env.plan, direct.plan, env.inputs, now, step, step');
    }
  }

  lemma SameProduce(a: Verdict, b: Verdict)
    requires SameVerdict(a, b)
    ensures ProducedVerdict(a) <==> ProducedVerdict(b)
    ensures SameReads(OutputsOf(a), OutputsOf(b))
  {}

  lemma DepsAreReads(plan: Plan, id: string)
    requires WellFormed(plan) && id in plan.byId
    ensures EdgesResolved(plan.byId[id], plan.sources) && SourcesNameSteps(plan.sources, plan.byId)
  {}

  lemma StepAnswered(env: Env, direct: Env, inj: Injected, id: string)
    requires EnvOk(env) && EnvOk(direct) && Answers(env, direct, inj) && id in env.plan.byId
    requires WellFormed(env.plan)
    requires forall d :: d in env.plan.byId[id].deps ==>
               d in env.plan.byId && SameVerdict(VerdictOf(env, inj, d), VerdictOf(direct, map[], d))
    ensures SameVerdict(VerdictOf(env, inj, id), VerdictOf(direct, map[], id))
  {
    InputsAnswered(env, direct, inj, id);
    if DepsProduce(env, inj, id) {
      JudgeAnswered(env.plan.byId[id], direct.plan.byId[id], inj, InputsOf(env, inj, id));
    }
  }

  /**
   * Every step's verdict with the accepted outcomes injected is its verdict in a run whose handlers
   * return those outcomes directly: same status, and the same value on every port.
   */
  lemma {:induction false} AnsweredDirectly(env: Env, direct: Env, inj: Injected, id: string)
    requires EnvOk(env) && EnvOk(direct) && Answers(env, direct, inj) && id in env.plan.byId
    requires WellFormed(env.plan)
    ensures SameVerdict(VerdictOf(env, inj, id), VerdictOf(direct, map[], id))
    decreases RankOf(env, id)
  {
    hide AnswersStep, Judge, InputsOf, SameVerdict;
    forall d | d in env.plan.byId[id].deps
      ensures d in env.plan.byId && SameVerdict(VerdictOf(env, inj, d), VerdictOf(direct, map[], d))
    {
      AnsweredDirectly(env, direct, inj, d);
    }
    StepAnswered(env, direct, inj, id);
  }

  lemma {:induction false} BoundInputsSamePlan(plan: Plan, plan': Plan, inputs: Obj, produced: map<string, Obj>,
                                               ins: seq<Sink>)
    requires plan.sources == plan'.sources
    ensures BoundInputs(plan, inputs, produced, ins) == BoundInputs(plan', inputs, produced, ins)
  {
    if ins != [] {
      BoundInputsSamePlan(plan, plan', inputs, produced, ins[..|ins| - 1]);
      SourceValuesSamePlan(plan, plan', inputs, produced, ins[|ins| - 1].sources);
    }
  }

  lemma {:induction false} SourceValuesSamePlan(plan: Plan, plan': Plan, inputs: Obj, produced: map<string, Obj>,
                                                sources: seq<string>)
    requires plan.sources == plan'.sources
    ensures SourceValues(plan, inputs, produced, sources) == SourceValues(plan', inputs, produced, sources)
  {
    if sources != [] {
      SourceValuesSamePlan(plan, plan', inputs, produced, sources[..|sources| - 1]);
    }
  }

  lemma StepInputsSamePlan(plan: Plan, plan': Plan, inputs: Obj, produced: map<string, Obj>, step: Step, step': Step)
    requires plan.sources == plan'.sources && step' == step.(handler := step'.handler)
    ensures StepInputs(plan, inputs, produced, step) == StepInputs(plan', inputs, produced, step')
  {
    BoundInputsSamePlan(plan, plan', inputs, produced, step.ins);
  }
}
