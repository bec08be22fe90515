/**
 * Stopping on the first failure does not empty the hands of a caller: the pass that collects pending
 * invocations never looks at the stop flag, so a stopped loop goes on handing out work already started.
 */
module Stopping {
  import opened Common
  import opened Workflow
  import opened Meaning
  import opened Stability
  import opened RunState
  import opened RunLoop
  import opened Dispatch
  import opened Tuning
  import Scatter

  const Fails := Reply(PermanentFail, None, None, false)

  /** Every step runs, and fails for good. */
  function FailingPlan(plan: Plan): Plan {
    TunedPlan(plan, true, Fails)
  }

  lemma FailsJudged(step: Step, inj: Injected, x: Result<Obj>)
    requires IsTuned(step, true, Fails) && x.Ok?
    ensures Judge(step, inj, x) == Done(PermanentFail, map[])
  {
    var e := Expand(step, x.value).value;
    assert GateOf(step, e.seeds[0].inputs).Admitted?;
    assert AllSettled(step, inj, e)[0].status == PermanentFail;
  }

  lemma NothingProduces(env: Env, inj: Injected, id: string)
    requires EnvOk(env) && WellFormed(env.plan) && Tuned(env.plan, true, Fails) && id in env.plan.byId
    ensures VerdictOf(env, inj, id) == if env.plan.byId[id].deps == [] then Done(PermanentFail, map[]) else Blocked
    ensures DepsProduce(env, inj, id) ==> InputsOf(env, inj, id).Ok?
    decreases RankOf(env, id)
  {
    hide Judge, IsTuned, InputsOf;
    var step := env.plan.byId[id];
    if step.deps != [] {
      var d := step.deps[0];
      assert d in step.deps;
      NothingProduces(env, inj, d);
    } else {
      TunedInputs(env, inj, id, true, Fails);
      FailsJudged(step, inj, InputsOf(env, inj, id));
    }
  }

  /** A step that fails starts with its one invocation waiting to be launched. */
  lemma StartsWaiting(step: Step, x: Result<Obj>, r: StepState)
    requires IsTuned(step, true, Fails) && x.Ok? && StartsAs(step, x, r)
    ensures Open(r) && |r.jobs| == 1 && r.jobs[0].status == Unset
  {
    var e := Expand(step, x.value).value;
    assert GateOf(step, e.seeds[0].inputs).Admitted?;
    assert !Rejects(step, e);
    assert r.jobs[0] == StartJob(step, e.seeds[0]);
  }

  /** All started steps are open, with one invocation that has no outcome. */
  ghost predicate AllWaiting(steps: Steps) {
    forall id :: id in steps && steps[id].started ==>
      Open(steps[id]) && |steps[id].jobs| == 1 && steps[id].jobs[0].status == Unset
  }

  lemma FirstPass(l: Loop)
    requires l.Valid() && Tuned(l.plan, true, Fails) && JustStarted(l.E(), l.inj, map[], l.steps)
    ensures AllWaiting(l.steps) && !NewFailure(map[], l.steps)
  {
    hide Judge, IsTuned, InputsOf, BusyBut, LiveOk, FlightsOk, LaunchesOk, CallsOk, Loop.Counted, StartsAs, VerdictOf;
    forall id | id in l.steps && l.steps[id].started
      ensures Open(l.steps[id]) && |l.steps[id].jobs| == 1 && l.steps[id].jobs[0].status == Unset
    {
      assert StepOk(l.E(), l.inj, id, l.steps[id]);
      NothingProduces(l.E(), l.inj, id);
      assert IsTuned(l.plan.byId[id], true, Fails);
      assert !Rec(map[], id).started && Rec(l.steps, id) == l.steps[id];
      StartsWaiting(l.plan.byId[id], InputsOf(l.E(), l.inj, id), l.steps[id]);
    }
    forall id | id in l.steps ensures !Failing(l.steps[id].status) {
      assert StepOk(l.E(), l.inj, id, l.steps[id]);
    }
  }

  /** A step that depends on nothing has started, once nothing is ready. */
  lemma RootStarted(l: Loop, id: string)
    requires l.Valid() && NoneReady(l.plan, l.steps, |l.plan.order|)
    requires id in l.plan.byId && l.plan.byId[id].deps == []
    ensures id in l.steps && l.steps[id].started
  {
    hide BusyBut, SnapOk, LiveOk, FlightsOk, LaunchesOk, CallsOk, Loop.Counted, EnvOk, EdgesResolved, KnownSources;
    assert id in l.plan.order;
    assert Grounded(l.plan, l.steps, id);
  }

  lemma WaitsToLaunch(l: Loop, id: string)
    requires l.Valid() && AllWaiting(l.steps) && id in l.steps && l.steps[id].started && Flight(id, 0) !in l.inFlight
    ensures IsPending(l.steps, l.jobs, Flight(id, 0))
  {
    hide Loop.Core, BusyBut;
    l.Outstanding(id, 0);
  }

  /** With a cap of one, exactly one invocation is out. */
  lemma OneIsOut(l: Loop, f: Flight)
    requires l.Valid() && l.cfg.maxParallel == 1 && f in l.inFlight
    ensures l.inFlight == {f} && l.running == 1
  {
    hide Loop.Core, BusyBut;
    l.InEveryState();
    assert |l.inFlight - {f}| == 0;
  }

  /** Once its invocation has replied, a step has failed. */
  lemma HasFailed(l: Loop, id: string)
    requires l.Valid() && Tuned(l.plan, true, Fails) && id in l.steps && l.steps[id].started && |l.steps[id].jobs| == 1
    requires !Unrecorded(l.steps, Flight(id, 0))
    ensures Failing(l.steps[id].status)
  {
    hide Judge, Tuned, IsTuned, InputsOf, LiveOk, FlightsOk, LaunchesOk, CallsOk, Loop.Counted, VerdictOf, WellFormed;
    hide EnvOk, OpenOk, DepsProduce;
    var r := l.steps[id];
    assert StepOk(l.E(), l.inj, id, r);
    NothingProduces(l.E(), l.inj, id);
    if Open(r) {
      assert !AllTerminal(r) && r.jobs[0].status != Unset;
      NotWaiting(l.E(), l.inj, id, r);
    }
  }

  lemma NotWaiting(env: Env, inj: Injected, id: string, r: StepState)
    requires EnvOk(env) && WellFormed(env.plan) && Tuned(env.plan, true, Fails) && id in env.plan.byId
    requires DepsProduce(env, inj, id)
    requires OpenOk(env.plan.byId[id], inj, InputsOf(env, inj, id), r) && |r.jobs| == 1 && r.jobs[0].status != Unset
    ensures AllTerminal(r)
  {
    hide Judge, IsTuned, OpenOk, InputsOf;
    NothingProduces(env, inj, id);
    if !AllTerminal(r) {
      SuspendedWaits(env.plan.byId[id], inj, InputsOf(env, inj, id), r);
    }
  }

  lemma AlwaysBuilds(plan: Plan)
    requires Tuned(plan, true, Fails)
    ensures AlwaysBuilt(plan)
  {
    forall id, x, index | id in plan.byId ensures plan.byId[id].prepare(x, index).Ok? {
      assert IsTuned(plan.byId[id], true, Fails);
    }
  }

  lemma FailingWellFormed(plan: Plan, rank: map<string, nat>, inputs: Obj)
    requires WellFormed(plan) && EnvOk(Env(plan, rank, inputs))
    ensures WellFormed(FailingPlan(plan)) && Tuned(FailingPlan(plan), true, Fails)
    ensures EnvOk(Env(FailingPlan(plan), rank, inputs))
  {
    hide WellFormed, EnvOk, Tuned, TunedPlan;
    TunedWellFormed(plan, rank, inputs, true, Fails);
  }

  lemma FailingTopological(plan: Plan)
    requires Topological(plan) && Indexed(plan.order, plan.byId)
    ensures Topological(FailingPlan(plan))
  {
    forall i, j | 0 <= i < |plan.order| && 0 <= j < |plan.order| && DependsAt(FailingPlan(plan), i, j) ensures j < i {
      assert DependsAt(plan, i, j);
    }
  }

  lemma StillRoot(plan: Plan, id: string)
    requires id in plan.byId && plan.byId[id].deps == []
    ensures id in FailingPlan(plan).byId && FailingPlan(plan).byId[id].deps == []
  {}

  /** After the first request something is out, and of two steps that depend on nothing the other one still waits. */
  lemma OneOutOneLeft(l: Loop, a: string, b: string)
    requires l.Valid() && l.cfg.maxParallel == 1 && AllWaiting(l.steps) && NoneReady(l.plan, l.steps, |l.plan.order|)
    requires l.HasCapacity() ==> forall f :: !IsPending(l.steps, l.jobs, f)
    requires a in l.plan.byId && b in l.plan.byId && l.plan.byId[a].deps == [] && l.plan.byId[b].deps == [] && a != b
    ensures l.inFlight != {}
    ensures forall f :: f in l.inFlight ==> exists g: Flight :: g.step != f.step && IsPending(l.steps, l.jobs, g)
  {
    hide Loop.Core, BusyBut, AllWaiting, NoneReady, IsPending;
    RootStarted(l, a);
    RootStarted(l, b);
    if l.inFlight == {} {
      WaitsToLaunch(l, a);
      NothingIsOut(l);
    }
    forall f | f in l.inFlight ensures exists g: Flight :: g.step != f.step && IsPending(l.steps, l.jobs, g) {
      OneIsOut(l, f);
      WaitsToLaunch(l, if f.step == a then b else a);
    }
  }

  lemma NothingIsOut(l: Loop)
    requires l.Valid() && l.inFlight == {} && l.cfg.maxParallel == 1
    ensures l.HasCapacity()
  {
    hide Loop.Core, BusyBut;
    l.InEveryState();
  }

  /** What waited besides the failed step still does, and the loop has stopped. */
  lemma AfterFailure(l: Loop, f: Flight, g: Flight, steps: Steps)
    requires l.Valid() && Tuned(l.plan, true, Fails) && !l.cfg.continueOnError && l.cfg.maxParallel == 1
    requires AllWaiting(steps) && Unrecorded(steps, f) && Advances(steps, l.steps) && !Unrecorded(l.steps, f)
    requires f.step in l.steps && l.steps == steps[f.step := l.steps[f.step]]
    requires g.step != f.step && IsPending(steps, l.jobs, g)
    ensures Failing(l.steps[f.step].status) && SomeCallable(l.plan, l.steps, l.jobs)
  {
    hide Loop.Core, BusyBut, Tuned;
    assert StepAdvances(Rec(steps, f.step), Rec(l.steps, f.step));
    assert f == Flight(f.step, 0);
    HasFailed(l, f.step);
    AlwaysBuilds(l.plan);
    l.PendingFacts(g);
    assert CallBuilt(l.plan, l.jobs, g);
    assert Callable(l.plan, l.steps, l.jobs, g);
  }

  /**
   * Of any plan listed in dependency order with two steps that depend on nothing there is a version, keeping
   * every id and edge, that stops on the first failure with work left to call.
   */
  method StopsWithWorkLeft(plan: Plan, cfg: Config, inputs: Obj, ghost rank: map<string, nat>, ghost a: string,
                           ghost b: string)
    returns (d: DispatchLoop)
    requires WellFormed(plan) && EnvOk(Env(plan, rank, inputs)) && Topological(plan)
    requires cfg.maxParallel == 1 && !cfg.continueOnError
    requires a != b && a in plan.byId && b in plan.byId && plan.byId[a].deps == [] && plan.byId[b].deps == []
    ensures fresh(d) && fresh(d.l) && d.Valid() && d.l.plan == FailingPlan(plan) && d.l.cfg == cfg
    ensures d.l.inputs == inputs
    ensures d.l.stopped && d.l.HasCapacity() && SomeCallable(d.l.plan, d.l.steps, d.l.jobs)
  {
    hide EnvOk, SnapOk, Tuned, Loop.Core, BusyBut, JustStarted, NoneReady, NewFailure, AllWaiting, AlwaysBuilt;
    hide Advances, SameStarted, NoMorePending, WaitsForLater, StartedKept, SomeCallable, IsPending, CallBuilt;
    hide Unrecorded, Topological, Unstarted;
    hide FailingPlan, EdgesResolved, KnownSources;
    FailingWellFormed(plan, rank, inputs);
    d := Begin(FailingPlan(plan), cfg, inputs, rank);
    FailingTopological(plan);
    StillRoot(plan, a);
    StillRoot(plan, b);
    var batch := d.Pending();
    AlwaysBuilds(d.l.plan);
    FirstPass(d.l);
    OneOutOneLeft(d.l, a, b);
    var f :| f in d.l.inFlight;
    var id :| 0 <= id < |d.dispatched| && d.dispatched[id] == f;
    ghost var g: Flight :| g.step != f.step && IsPending(d.l.steps, d.l.jobs, g);
    d.l.InFlightFacts(f);
    OneIsOut(d.l, f);
    ghost var steps := d.l.steps;
    d.Complete(id, d.l.ReplyOf(f));
    AfterFailure(d.l, f, g, steps);
  }

  /** Asked again after it stopped, that loop hands out more work. */
  method HandsOutStopped(plan: Plan, cfg: Config, inputs: Obj, ghost rank: map<string, nat>, ghost a: string,
                         ghost b: string)
    returns (d: DispatchLoop, stopped: bool, batch: seq<nat>)
    requires WellFormed(plan) && EnvOk(Env(plan, rank, inputs)) && Topological(plan)
    requires cfg.maxParallel == 1 && !cfg.continueOnError
    requires a != b && a in plan.byId && b in plan.byId && plan.byId[a].deps == [] && plan.byId[b].deps == []
    ensures d.Valid() && d.l.plan == FailingPlan(plan) && d.l.cfg == cfg
    ensures stopped && batch != []
  {
    d := StopsWithWorkLeft(plan, cfg, inputs, rank, a, b);
    stopped := d.l.stopped;
    batch := d.Pending();
  }
}
