/** How verdicts behave: what they depend on, and what answering suspended invocations changes. */
module Stability {
  import opened Common
  import opened Grid
  import opened Nesting
  import opened Graph
  import opened Workflow
  import opened Meaning
  import Scatter

  // ---- inputs depend only on what the dependencies' ports read as ----

  ghost predicate SameReads(a: Obj, b: Obj) {
    forall port :: Lookup(a, port) == Lookup(b, port)
  }

  /** Two views of the produced outputs that read alike on the given steps. */
  ghost predicate Agree(deps: seq<string>, a: map<string, Obj>, b: map<string, Obj>) {
    forall d :: d in deps ==> (d in a <==> d in b) && (d in a && d in b ==> SameReads(a[d], b[d]))
  }

  lemma {:induction false} SourceValuesAgree(plan: Plan, inputs: Obj, deps: seq<string>,
                                             a: map<string, Obj>, b: map<string, Obj>, sources: seq<string>)
    requires Agree(deps, a, b)
    requires forall s :: s in sources && s in plan.sources && plan.sources[s].step != "" ==>
        plan.sources[s].step in deps
    ensures SourceValues(plan, inputs, a, sources) == SourceValues(plan, inputs, b, sources)
  {
    if sources != [] {
      var n := |sources| - 1;
      SourceValuesAgree(plan, inputs, deps, a, b, sources[..n]);
      assert sources[n] in sources;
    }
  }

  lemma {:induction false} BoundInputsAgree(plan: Plan, inputs: Obj, deps: seq<string>,
                                            a: map<string, Obj>, b: map<string, Obj>, ins: seq<Sink>)
    requires Agree(deps, a, b)
    requires forall d :: Reads(ins, plan.sources, d) ==> d in deps
    ensures BoundInputs(plan, inputs, a, ins) == BoundInputs(plan, inputs, b, ins)
  {
    if ins != [] {
      var n := |ins| - 1;
      forall d | Reads(ins[..n], plan.sources, d) ensures d in deps {
        assert Reads(ins, plan.sources, d);
      }
      BoundInputsAgree(plan, inputs, deps, a, b, ins[..n]);
      forall s | s in ins[n].sources && s in plan.sources && plan.sources[s].step != ""
        ensures plan.sources[s].step in deps
      {
        assert Reads(ins, plan.sources, plan.sources[s].step);
      }
      SourceValuesAgree(plan, inputs, deps, a, b, ins[n].sources);
    }
  }

  lemma StepInputsAgree(plan: Plan, inputs: Obj, step: Step, a: map<string, Obj>, b: map<string, Obj>)
    requires EdgesResolved(step, plan.sources) && Agree(step.deps, a, b)
    ensures StepInputs(plan, inputs, a, step) == StepInputs(plan, inputs, b, step)
  {
    if !step.implicit {
      BoundInputsAgree(plan, inputs, step.deps, a, b, step.ins);
    }
  }

  // ---- a job's coordinates name it ----

  lemma SeedsDiffer(step: Step, inputs: Obj, i: nat, j: nat)
    requires Expand(step, inputs).Ok?
    requires i < j < |Expand(step, inputs).value.seeds|
    ensures Expand(step, inputs).value.seeds[i].index != Expand(step, inputs).value.seeds[j].index
  {
    var how := if step.how.None? then Scatter.Dotproduct else step.how.value;
    Scatter.ExpansionIsRowMajor(inputs, step.scatter, how);
    Scatter.RowMajorIndexesDiffer(Scatter.Expansion(inputs, step.scatter, how).value, i, j);
  }

  // ---- accepting more outcomes never changes a verdict already reached ----

  ghost predicate Extends(inj: Injected, more: Injected) {
    forall a :: a in inj ==> a in more && more[a] == inj[a]
  }

  lemma SettledStable(step: Step, inj: Injected, more: Injected, seed: Scatter.ScatterJob)
    requires Extends(inj, more)
    requires Settled(step, inj, seed).status != Suspended
    ensures Settled(step, more, seed) == Settled(step, inj, seed)
  {}

  lemma JudgeStable(step: Step, inj: Injected, more: Injected, inputs: Result<Obj>)
    requires Extends(inj, more) && Judge(step, inj, inputs).Done?
    ensures Judge(step, more, inputs) == Judge(step, inj, inputs)
  {
    if inputs.Ok? && Expand(step, inputs.value).Ok? && !Rejects(step, Expand(step, inputs.value).value) {
      var e := Expand(step, inputs.value).value;
      forall k | 0 <= k < |e.seeds| ensures Settled(step, more, e.seeds[k]) == Settled(step, inj, e.seeds[k]) {
        assert Terminal(AllSettled(step, inj, e)[k]);
        SettledStable(step, inj, more, e.seeds[k]);
      }
      assert AllSettled(step, more, e) == AllSettled(step, inj, e);
    }
  }

  lemma StepStable(env: Env, inj: Injected, more: Injected, id: string)
    requires EnvOk(env) && id in env.plan.byId && Extends(inj, more)
    requires forall d :: d in env.plan.byId[id].deps ==>
               && d in env.plan.byId
               && (ProducedVerdict(VerdictOf(env, inj, d)) ==> VerdictOf(env, more, d) == VerdictOf(env, inj, d))
    ensures DepsProduce(env, inj, id) ==>
        DepsProduce(env, more, id) && InputsOf(env, more, id) == InputsOf(env, inj, id)
  {
    if DepsProduce(env, inj, id) {
      assert DepOutputs(env, inj, id) == DepOutputs(env, more, id);
    }
  }

  /** A verdict that is reached stays, and so does the input object of a step that has one. */
  lemma {:induction false} VerdictStable(env: Env, inj: Injected, more: Injected, id: string)
    requires EnvOk(env) && id in env.plan.byId && Extends(inj, more)
    ensures VerdictOf(env, inj, id).Done? ==> VerdictOf(env, more, id) == VerdictOf(env, inj, id)
    ensures DepsProduce(env, inj, id) ==>
        DepsProduce(env, more, id) && InputsOf(env, more, id) == InputsOf(env, inj, id)
    decreases RankOf(env, id)
  {
    forall d | d in env.plan.byId[id].deps
      ensures d in env.plan.byId
      ensures ProducedVerdict(VerdictOf(env, inj, d)) ==> VerdictOf(env, more, d) == VerdictOf(env, inj, d)
    {
      VerdictStable(env, inj, more, d);
    }
    StepStable(env, inj, more, id);
    if DepsProduce(env, inj, id) && Judge(env.plan.byId[id], inj, InputsOf(env, inj, id)).Done? {
      JudgeStable(env.plan.byId[id], inj, more, InputsOf(env, inj, id));
    }
  }

  // ---- nothing is lost ----

  /** A walk from a step along its dependencies. */
  ghost predicate Upstream(plan: Plan, walk: seq<string>) {
    && |walk| >= 1 && walk[0] in plan.byId
    && forall i :: 0 <= i < |walk| - 1 ==> walk[i] in plan.byId && walk[i + 1] in plan.byId[walk[i]].deps
  }

  /** A blocked step has an ancestor that failed or is waiting on a suspended invocation. */
  lemma {:induction false} BlockedHasCause(env: Env, inj: Injected, id: string) returns (walk: seq<string>)
    requires EnvOk(env) && id in env.plan.byId && VerdictOf(env, inj, id).Blocked?
    ensures Upstream(env.plan, walk) && |walk| >= 2 && walk[0] == id
    ensures walk[|walk| - 1] in env.plan.byId
    ensures var cause := VerdictOf(env, inj, walk[|walk| - 1]);
            cause.Waiting? || (cause.Done? && !ProducedVerdict(cause))
    decreases RankOf(env, id)
  {
    var d := BlockedByDep(env, inj, id);
    if VerdictOf(env, inj, d).Blocked? {
      var rest := BlockedHasCause(env, inj, d);
      walk := Prepend(env.plan, id, rest);
    } else {
      walk := [id, d];
    }
  }

  lemma BlockedByDep(env: Env, inj: Injected, id: string) returns (d: string)
    requires EnvOk(env) && id in env.plan.byId && VerdictOf(env, inj, id).Blocked?
    ensures d in env.plan.byId[id].deps && d in env.plan.byId && RankOf(env, d) < RankOf(env, id)
    ensures !ProducedVerdict(VerdictOf(env, inj, d))
  {
    var step := env.plan.byId[id];
    d :| d in step.deps && !ProducedVerdict(VerdictOf(env, inj, d));
  }

  lemma Prepend(plan: Plan, id: string, rest: seq<string>) returns (walk: seq<string>)
    requires Upstream(plan, rest) && id in plan.byId && rest[0] in plan.byId[id].deps
    ensures Upstream(plan, walk) && walk == [id] + rest
  {
    walk := [id] + rest;
    forall i | 0 <= i < |walk| - 1 ensures walk[i] in plan.byId && walk[i + 1] in plan.byId[walk[i]].deps {
      if i > 0 {
        assert walk[i] == rest[i - 1] && walk[i + 1] == rest[i - 1 + 1];
      }
    }
  }

  /** A Done verdict carries a final status, and a failure carries no outputs. */
  lemma DoneStatus(env: Env, inj: Injected, id: string)
    requires EnvOk(env) && id in env.plan.byId && VerdictOf(env, inj, id).Done?
    ensures VerdictOf(env, inj, id).status in {Success, Skipped, PermanentFail, TemporaryFail}
    ensures Failing(VerdictOf(env, inj, id).status) ==> VerdictOf(env, inj, id).outputs == map[]
  {}

  /** With no failure and nothing suspended, every step produces. */
  lemma {:induction false} AllProduce(env: Env, inj: Injected, id: string)
    requires EnvOk(env) && id in env.plan.byId
    requires forall a :: a in env.plan.byId ==>
               var v := VerdictOf(env, inj, a); !v.Waiting? && !(v.Done? && Failing(v.status))
    ensures ProducedVerdict(VerdictOf(env, inj, id))
  {
    if VerdictOf(env, inj, id).Blocked? {
      var walk := BlockedHasCause(env, inj, id);
      DoneStatus(env, inj, walk[|walk| - 1]);
    } else {
      DoneStatus(env, inj, id);
    }
  }

  /** Once every step has produced, every known source has a value: no sink reads an unfinished step. */
  lemma {:induction false} SourcesAvailable(plan: Plan, inputs: Obj, produced: map<string, Obj>, sources: seq<string>)
    requires SourcesNameSteps(plan.sources, plan.byId) && plan.byId.Keys <= produced.Keys
    requires forall s :: s in sources ==> s in plan.sources
    ensures SourceValues(plan, inputs, produced, sources).Some?
  {
    if sources != [] {
      SourcesAvailable(plan, inputs, produced, sources[..|sources| - 1]);
      assert sources[|sources| - 1] in sources;
    }
  }
}
