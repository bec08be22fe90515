/**
 * The scheduler: one loop owns all run state, starts ready steps, launches invocations up to the
 * parallelism cap, and folds each completion in, in whatever order completions arrive.
 */
module RunLoop {
  import opened Common
  import opened Grid
  import opened Nesting
  import opened Workflow
  import opened Meaning
  import opened Stability
  import opened RunState
  import opened Injecting
  import opened Reporting
  import opened Dataflow
  import Answering
  import Scatter

  /** `maxParallel` below one means unbounded. */
  datatype Config = Config(maxParallel: int, continueOnError: bool)

  /** The in-memory side of one invocation. */
  datatype RunJob = RunJob(inputs: Obj, index: seq<int>, dispatched: bool)

  /** One invocation of one step. */
  datatype Flight = Flight(step: string, job: nat)

  // ---- invariants over the values the loop holds ----

  /** An invocation still to be recorded holds its gated inputs; it is dispatched exactly while it is out. */
  ghost predicate LiveJob(step: Step, seed: Scatter.ScatterJob, job: RunJob, out: bool) {
    && job.index == seed.index && job.dispatched == out
    && GateOf(step, seed.inputs) == Admitted(job.inputs)
  }

  ghost predicate LiveStep(step: Step, inputs: Result<Obj>, id: string, r: StepState, live: seq<RunJob>,
                           out: set<Flight>)
  {
    && |live| == |r.jobs| == |SeedsOf(step, inputs)|
    && forall k :: 0 <= k < |live| && r.jobs[k].status == Unset ==>
         LiveJob(step, SeedsOf(step, inputs)[k], live[k], Flight(id, k) in out)
  }

  ghost predicate LiveOk(env: Env, inj: Injected, steps: Steps, jobs: map<string, seq<RunJob>>, out: set<Flight>)
    requires EnvOk(env)
  {
    forall id :: id in steps && Open(steps[id]) ==>
      id in env.plan.byId && id in jobs &&
        LiveStep(env.plan.byId[id], InputsOf(env, inj, id), id, steps[id], jobs[id], out)
  }

  /** An invocation that is out belongs to an open step and has no outcome yet. */
  ghost predicate Unrecorded(steps: Steps, f: Flight) {
    f.step in steps && Open(steps[f.step]) && f.job < |steps[f.step].jobs| && steps[f.step].jobs[f.job].status == Unset
  }

  lemma NowRecorded(steps: Steps, f: Flight)
    requires f.step in steps && f.job < |steps[f.step].jobs| && steps[f.step].jobs[f.job].status != Unset
    ensures !Unrecorded(steps, f)
  {}

  ghost predicate FlightsOk(steps: Steps, out: set<Flight>) {
    forall f :: f in out ==> Unrecorded(steps, f)
  }

  /** An invocation that is out was given a call. */
  ghost predicate CallBuilt(plan: Plan, jobs: map<string, seq<RunJob>>, f: Flight) {
    && f.step in plan.byId && f.step in jobs && f.job < |jobs[f.step]|
    && plan.byId[f.step].prepare(jobs[f.step][f.job].inputs, jobs[f.step][f.job].index).Ok?
  }

  ghost predicate CallsOk(plan: Plan, jobs: map<string, seq<RunJob>>, inFlight: set<Flight>) {
    forall f :: f in inFlight ==> CallBuilt(plan, jobs, f)
  }

  /** Waiting to be launched, with a call that can be built. */
  ghost predicate Callable(plan: Plan, steps: Steps, jobs: map<string, seq<RunJob>>, f: Flight) {
    IsPending(steps, jobs, f) && CallBuilt(plan, jobs, f)
  }

  /** Handing out or failing one invocation leaves every other one callable. */
  ghost predicate StillCallable(plan: Plan, steps: Steps, jobs: map<string, seq<RunJob>>, steps': Steps,
                                jobs': map<string, seq<RunJob>>, f: Flight)
  {
    forall g :: g != f && Callable(plan, steps, jobs, g) ==> Callable(plan, steps', jobs', g)
  }

  /** Every call the plan's steps make can be built. */
  ghost predicate AlwaysBuilt(plan: Plan) {
    forall id, x, index :: id in plan.byId ==> plan.byId[id].prepare(x, index).Ok?
  }

  ghost predicate Dispatched(steps: Steps, jobs: map<string, seq<RunJob>>, f: Flight) {
    && f.step in steps && steps[f.step].started
    && f.step in jobs && f.job < |jobs[f.step]| && jobs[f.step][f.job].dispatched
  }

  /** No invocation was launched twice. */
  ghost predicate LaunchesOk(steps: Steps, jobs: map<string, seq<RunJob>>, launches: seq<Flight>) {
    && (forall f :: f in launches ==> Dispatched(steps, jobs, f))
    && forall i, j :: 0 <= i < j < |launches| ==> launches[i] != launches[j]
  }

  /**
   * A step as starting leaves it: failed for good if its inputs do not resolve, expand or pass the gate; else
   * with every declined invocation skipped and every other one untried, finished only if none is left to try.
   */
  ghost predicate StartsAs(step: Step, inputs: Result<Obj>, r: StepState) {
    && r.started
    && if inputs.Err? || Expand(step, inputs.value).Err? || Rejects(step, Expand(step, inputs.value).value) then
         r.status == PermanentFail
       else
         var seeds := Expand(step, inputs.value).value.seeds;
         && |r.jobs| == |seeds|
         && (forall k :: 0 <= k < |seeds| ==> r.jobs[k] == StartJob(step, seeds[k]))
         && (r.status == Unset <==> exists k :: 0 <= k < |seeds| && GateOf(step, seeds[k].inputs).Admitted?)
  }

  /** Every step started since is as starting leaves it. */
  ghost predicate JustStarted(env: Env, inj: Injected, steps: Steps, steps': Steps)
    requires EnvOk(env)
  {
    forall id :: id in env.plan.byId && !Rec(steps, id).started && Rec(steps', id).started ==>
      StartsAs(env.plan.byId[id], InputsOf(env, inj, id), Rec(steps', id))
  }

  /** A step started since has failed. */
  ghost predicate NewFailure(steps: Steps, steps': Steps) {
    exists id :: id in steps' && !Rec(steps, id).started && Failing(steps'[id].status)
  }

  lemma OneMoreStarted(env: Env, inj: Injected, steps0: Steps, steps: Steps, id: string, r: StepState)
    requires EnvOk(env) && JustStarted(env, inj, steps0, steps) && id in env.plan.byId && !Rec(steps0, id).started
    requires StartsAs(env.plan.byId[id], InputsOf(env, inj, id), r) && Rec(steps, id) == FreshStep
    ensures JustStarted(env, inj, steps0, steps[id := r])
    ensures NewFailure(steps0, steps) || Failing(r.status) ==> NewFailure(steps0, steps[id := r])
  {
    hide StartsAs, EnvOk, InputsOf;
    if NewFailure(steps0, steps) {
      var k :| k in steps && !Rec(steps0, k).started && Failing(steps[k].status);
      assert k in steps[id := r] && steps[id := r][k] == steps[k];
    }
    if Failing(r.status) {
      assert Failing(steps[id := r][id].status);
    }
  }

  lemma NoneStartedYet(env: Env, inj: Injected, steps: Steps)
    requires EnvOk(env)
    ensures JustStarted(env, inj, steps, steps)
  {}

  function StartJob(step: Step, seed: Scatter.ScatterJob): JobState {
    if GateOf(step, seed.inputs).Declined? then SkippedJob(step, seed.index) else FreshJob(seed.index)
  }

  /** Every open step, but for the one being finished, has an invocation without a final outcome. */
  ghost predicate BusyBut(steps: Steps, but: Option<string>) {
    forall id :: id in steps && Open(steps[id]) && but != Some(id) ==> !AllTerminal(steps[id])
  }

  ghost predicate SomeFailed(steps: Steps) {
    exists id :: id in steps && Failing(steps[id].status)
  }

  /** Steps not yet started. */
  ghost function Unstarted(plan: Plan, steps: Steps): set<string> {
    set id | id in plan.byId && !Rec(steps, id).started
  }

  /** Invocations waiting to be launched. */
  ghost function Pending(steps: Steps, jobs: map<string, seq<RunJob>>): set<Flight> {
    set id, k | id in steps && id in jobs && 0 <= k < |jobs[id]| && IsPending(steps, jobs, Flight(id, k)) ::
      Flight(id, k)
  }

  ghost predicate IsPending(steps: Steps, jobs: map<string, seq<RunJob>>, f: Flight) {
    && f.step in steps && Open(steps[f.step]) && f.job < |steps[f.step].jobs|
    && steps[f.step].jobs[f.job].status == Unset
    && f.step in jobs && f.job < |jobs[f.step]| && !jobs[f.step][f.job].dispatched
  }

  lemma PendingIs(steps: Steps, jobs: map<string, seq<RunJob>>, f: Flight)
    ensures f in Pending(steps, jobs) <==> IsPending(steps, jobs, f)
  {
    if IsPending(steps, jobs, f) {
      assert f == Flight(f.step, f.job);
    }
  }

  // ---- how one record's update keeps them ----

  lemma PutKeepsLive(env: Env, inj: Injected, steps: Steps, jobs: map<string, seq<RunJob>>, before: set<Flight>,
                     after: set<Flight>, id: string, r: StepState)
    requires EnvOk(env) && LiveOk(env, inj, steps, jobs, before) && id in env.plan.byId
    requires after <= before && forall f :: f in before - after ==> f.step == id
    requires Open(r) ==> id in jobs && LiveStep(env.plan.byId[id], InputsOf(env, inj, id), id, r, jobs[id], after)
    ensures LiveOk(env, inj, steps[id := r], jobs, after)
  {
    forall other | other in steps && Open(steps[other]) && other != id
      ensures other in env.plan.byId && other in jobs &&
              LiveStep(env.plan.byId[other], InputsOf(env, inj, other), other, steps[other], jobs[other], after)
    {
      SameOut(env.plan.byId[other], InputsOf(env, inj, other), other, steps[other], jobs[other], before, after);
    }
  }

  lemma SameOut(step: Step, inputs: Result<Obj>, id: string, r: StepState, live: seq<RunJob>, before: set<Flight>,
                after: set<Flight>)
    requires LiveStep(step, inputs, id, r, live, before)
    requires after <= before && forall f :: f in before - after ==> f.step != id
    ensures LiveStep(step, inputs, id, r, live, after)
  {
    forall k: nat | k < |live| ensures Flight(id, k) in before <==> Flight(id, k) in after {
      assert Flight(id, k) !in before - after;
    }
  }

  lemma PutKeepsFlights(steps: Steps, before: set<Flight>, out: set<Flight>, id: string, r: StepState)
    requires FlightsOk(steps, before) && out <= before
    requires forall f :: f in out && f.step == id ==> Open(r) && f.job < |r.jobs| && r.jobs[f.job].status == Unset
    ensures FlightsOk(steps[id := r], out)
  {}

  lemma PutKeepsLaunches(steps: Steps, jobs: map<string, seq<RunJob>>, launches: seq<Flight>, id: string, r: StepState)
    requires LaunchesOk(steps, jobs, launches) && (Rec(steps, id).started ==> r.started)
    ensures LaunchesOk(steps[id := r], jobs, launches)
  {}

  function Marked(jobs: map<string, seq<RunJob>>, f: Flight): map<string, seq<RunJob>>
    requires f.step in jobs && f.job < |jobs[f.step]|
  {
    jobs[f.step := jobs[f.step][f.job := jobs[f.step][f.job].(dispatched := true)]]
  }

  lemma MarkKeepsLive(env: Env, inj: Injected, steps: Steps, jobs: map<string, seq<RunJob>>, out: set<Flight>,
                      f: Flight)
    requires EnvOk(env) && LiveOk(env, inj, steps, jobs, out) && IsPending(steps, jobs, f)
    ensures LiveOk(env, inj, steps, Marked(jobs, f), out + {f})
  {
    forall id | id in steps && Open(steps[id])
      ensures id in env.plan.byId && id in jobs &&
              LiveStep(env.plan.byId[id], InputsOf(env, inj, id), id, steps[id], Marked(jobs, f)[id], out + {f})
    {
      assert LiveStep(env.plan.byId[id], InputsOf(env, inj, id), id, steps[id], jobs[id], out);
      MarkKeepsLiveStep(env.plan.byId[id], InputsOf(env, inj, id), id, steps[id], jobs, out, f);
    }
  }

  lemma MarkKeepsLiveStep(step: Step, inputs: Result<Obj>, id: string, r: StepState, jobs: map<string, seq<RunJob>>,
                          out: set<Flight>, f: Flight)
    requires id in jobs && LiveStep(step, inputs, id, r, jobs[id], out)
    requires f.step in jobs && f.job < |jobs[f.step]|
    ensures LiveStep(step, inputs, id, r, Marked(jobs, f)[id], out + {f})
  {
    var live := Marked(jobs, f)[id];
    forall k: nat | k < |live| && r.jobs[k].status == Unset
      ensures LiveJob(step, SeedsOf(step, inputs)[k], live[k], Flight(id, k) in out + {f})
    {
      assert LiveJob(step, SeedsOf(step, inputs)[k], jobs[id][k], Flight(id, k) in out);
      assert Flight(id, k) == f <==> id == f.step && k == f.job;
    }
  }

  lemma MarkKeepsLaunches(steps: Steps, jobs: map<string, seq<RunJob>>, launches: seq<Flight>, f: Flight)
    requires LaunchesOk(steps, jobs, launches) && IsPending(steps, jobs, f)
    ensures LaunchesOk(steps, Marked(jobs, f), launches + [f])
  {
    forall g | g in launches + [f] ensures Dispatched(steps, Marked(jobs, f), g) {
      assert g in launches || g == f;
    }
    forall i, j | 0 <= i < j < |launches + [f]| ensures (launches + [f])[i] != (launches + [f])[j] {
      if j == |launches| {
        assert launches[i] in launches && Dispatched(steps, jobs, launches[i]);
      }
    }
  }

  lemma MarkedOnlyFlags(jobs: map<string, seq<RunJob>>, f: Flight)
    requires f.step in jobs && f.job < |jobs[f.step]|
    ensures Marked(jobs, f).Keys == jobs.Keys && |Marked(jobs, f)[f.step]| == |jobs[f.step]|
    ensures Marked(jobs, f)[f.step][f.job] == jobs[f.step][f.job].(dispatched := true)
  {}

  lemma MarkKeepsCalls(plan: Plan, jobs: map<string, seq<RunJob>>, inFlight: set<Flight>, f: Flight)
    requires CallsOk(plan, jobs, inFlight) && f.step in jobs && f.job < |jobs[f.step]|
    ensures CallsOk(plan, Marked(jobs, f), inFlight)
    ensures CallBuilt(plan, jobs, f) ==> CallsOk(plan, Marked(jobs, f), inFlight + {f})
  {
    forall g | CallBuilt(plan, jobs, g) ensures CallBuilt(plan, Marked(jobs, f), g) {}
  }

  lemma TakeOffKeepsFlights(steps: Steps, out: set<Flight>, f: Flight)
    requires FlightsOk(steps, out) && Unrecorded(steps, f)
    ensures FlightsOk(steps, out + {f})
  {}

  lemma CrashReply(step: Step, x: Obj, index: seq<int>)
    requires step.prepare(x, index).Err?
    ensures Recorded(step, NoReply, index) == Ran(step, x, index)
  {}

  /** Nothing new is waiting to be launched. */
  ghost predicate NoMorePending(steps: Steps, jobs: map<string, seq<RunJob>>, steps': Steps,
                                jobs': map<string, seq<RunJob>>)
  {
    forall f :: IsPending(steps', jobs', f) ==> IsPending(steps, jobs, f)
  }

  ghost predicate SameStarted(steps: Steps, steps': Steps) {
    forall id :: Rec(steps', id).started == Rec(steps, id).started
  }

  lemma NoMorePendingTransitive(s0: Steps, j0: map<string, seq<RunJob>>, s1: Steps, j1: map<string, seq<RunJob>>,
                                s2: Steps, j2: map<string, seq<RunJob>>)
    requires NoMorePending(s0, j0, s1, j1) && NoMorePending(s1, j1, s2, j2)
    ensures NoMorePending(s0, j0, s2, j2)
  {}

  lemma MarkRemovesPending(steps: Steps, jobs: map<string, seq<RunJob>>, f: Flight)
    requires IsPending(steps, jobs, f)
    ensures NoMorePending(steps, jobs, steps, Marked(jobs, f)) && !IsPending(steps, Marked(jobs, f), f)
  {}

  lemma MarkKeepsCallable(plan: Plan, steps: Steps, jobs: map<string, seq<RunJob>>, f: Flight)
    requires IsPending(steps, jobs, f)
    ensures StillCallable(plan, steps, jobs, steps, Marked(jobs, f), f)
  {
    forall g | g != f && Callable(plan, steps, jobs, g) ensures Callable(plan, steps, Marked(jobs, f), g) {
      assert g == Flight(g.step, g.job) && f == Flight(f.step, f.job);
    }
  }

  /** A step that loses one invocation to a crash stays open while another waits. */
  lemma CrashKeepsCallable(plan: Plan, steps: Steps, jobs: map<string, seq<RunJob>>, f: Flight, r: StepState)
    requires IsPending(steps, jobs, f) && r.started && |r.jobs| == |steps[f.step].jobs|
    requires forall j :: 0 <= j < |r.jobs| && j != f.job ==> r.jobs[j] == steps[f.step].jobs[j]
    requires r.status == Unset || AllTerminal(r)
    ensures StillCallable(plan, steps, jobs, steps[f.step := r], jobs, f)
  {
    forall g | g != f && Callable(plan, steps, jobs, g) ensures Callable(plan, steps[f.step := r], jobs, g) {
      assert g == Flight(g.step, g.job) && f == Flight(f.step, f.job);
      if g.step == f.step {
        assert r.jobs[g.job].status == Unset;
      }
    }
  }

  /** One more outcome of an open step makes nothing pending. */
  lemma OneMoreKeepsPending(steps: Steps, jobs: map<string, seq<RunJob>>, id: string, r: StepState, k: nat)
    requires id in steps && Open(steps[id]) && r.started && k < |steps[id].jobs| && |r.jobs| == |steps[id].jobs|
    requires forall j :: 0 <= j < |r.jobs| && j != k ==> r.jobs[j] == steps[id].jobs[j]
    requires r.jobs[k].status != Unset
    ensures NoMorePending(steps, jobs, steps[id := r], jobs) && SameStarted(steps, steps[id := r])
    ensures !IsPending(steps[id := r], jobs, Flight(id, k))
  {}

  lemma OneStepAdvances(steps: Steps, id: string, r: StepState)
    requires id in steps && StepAdvances(steps[id], r)
    ensures Advances(steps, steps[id := r])
  {}

  lemma AdvancesReflexive(steps: Steps)
    ensures Advances(steps, steps)
  {}

  /** Plan order lists every step after the steps it depends on. */
  ghost predicate Topological(plan: Plan) {
    forall i, j :: 0 <= i < |plan.order| && 0 <= j < |plan.order| && DependsAt(plan, i, j) ==> j < i
  }

  predicate DependsAt(plan: Plan, i: nat, j: nat)
    requires i < |plan.order| && j < |plan.order|
  {
    plan.order[i] in plan.byId && plan.order[j] in plan.byId[plan.order[i]].deps
  }

  /** No unstarted step among the first `n` is ready. */
  ghost predicate NoneReady(plan: Plan, steps: Steps, n: nat) {
    forall i :: 0 <= i < n && i < |plan.order| && plan.order[i] in plan.byId && !Rec(steps, plan.order[i]).started ==>
      !Grounded(plan, steps, plan.order[i])
  }

  /** Started steps keep their records. */
  ghost predicate StartedKept(steps: Steps, steps': Steps) {
    forall id :: Rec(steps, id).started ==> Rec(steps', id) == Rec(steps, id)
  }

  /** A step listed before an unstarted step it depends on does not start. */
  ghost predicate WaitsForLater(plan: Plan, steps: Steps, steps': Steps, n: nat) {
    forall i, j :: 0 <= i < j < |plan.order| && i < n && DependsAt(plan, i, j) &&
                   !Rec(steps, plan.order[i]).started && !Rec(steps, plan.order[j]).started ==>
      !Rec(steps', plan.order[i]).started
  }

  /** In topological order, starting a later step makes no earlier one ready. */
  lemma LaterKeepsNoneReady(plan: Plan, steps: Steps, n: nat, r: StepState)
    requires Topological(plan) && Indexed(plan.order, plan.byId) && n < |plan.order|
    requires NoneReady(plan, steps, n) && r.started
    ensures NoneReady(plan, steps[plan.order[n] := r], n + 1)
  {
    var steps' := steps[plan.order[n] := r];
    forall i | 0 <= i < n && !Rec(steps', plan.order[i]).started
      ensures !Grounded(plan, steps', plan.order[i])
    {
      var d :| d in plan.byId[plan.order[i]].deps && !(d in steps && ProducedStep(steps[d]));
      assert d == plan.order[n] ==> DependsAt(plan, i, n);
    }
  }

  lemma BeginPass(plan: Plan, steps: Steps)
    ensures NoneReady(plan, steps, 0) && WaitsForLater(plan, steps, steps, |plan.order|)
    ensures WaitsForLater(plan, steps, steps, 0)
  {}

  lemma SkipKeeps(plan: Plan, steps0: Steps, steps: Steps, i: nat)
    requires i < |plan.order| && plan.order[i] in plan.byId
    requires Rec(steps, plan.order[i]) == Rec(steps0, plan.order[i]) && WaitsForLater(plan, steps0, steps, i)
    requires Rec(steps, plan.order[i]).started || !Grounded(plan, steps, plan.order[i])
    ensures WaitsForLater(plan, steps0, steps, i + 1)
    ensures NoneReady(plan, steps, i) ==> NoneReady(plan, steps, i + 1)
  {}

  /** A step that is started had no later, unstarted dependency. */
  lemma StartKeepsWaits(plan: Plan, steps0: Steps, steps: Steps, i: nat, r: StepState)
    requires Indexed(plan.order, plan.byId) && i < |plan.order| && plan.order[i] in plan.byId
    requires WaitsForLater(plan, steps0, steps, i) && Grounded(plan, steps, plan.order[i])
    requires forall j :: i <= j < |plan.order| ==> Rec(steps, plan.order[j]) == Rec(steps0, plan.order[j])
    requires forall id :: !Rec(steps0, id).started ==> Rec(steps0, id) == FreshStep
    ensures WaitsForLater(plan, steps0, steps[plan.order[i] := r], i + 1)
  {
    forall j | i < j < |plan.order| && plan.order[j] in plan.byId[plan.order[i]].deps
      ensures Rec(steps0, plan.order[j]).started
    {
      assert ProducedStep(Rec(steps, plan.order[j]));
    }
    forall k | 0 <= k < i ensures plan.order[k] != plan.order[i] {}
  }

  ghost predicate NewlyStarted(plan: Plan, steps: Steps, steps': Steps) {
    exists id :: id in plan.byId && !Rec(steps, id).started && Rec(steps', id).started
  }

  /** Something that was pending no longer is. */
  ghost predicate Used(steps: Steps, jobs: map<string, seq<RunJob>>, steps': Steps, jobs': map<string, seq<RunJob>>) {
    exists f :: IsPending(steps, jobs, f) && !IsPending(steps', jobs', f)
  }

  /** The measure of the loop fell: a step started, or an invocation was launched. */
  ghost predicate Shrunk(plan: Plan, steps: Steps, jobs: map<string, seq<RunJob>>, steps': Steps,
                         jobs': map<string, seq<RunJob>>)
  {
    || Unstarted(plan, steps') < Unstarted(plan, steps)
    || (Unstarted(plan, steps') == Unstarted(plan, steps) && Pending(steps', jobs') < Pending(steps, jobs))
  }

  lemma ShrunkTransitive(plan: Plan, s0: Steps, j0: map<string, seq<RunJob>>, s1: Steps, j1: map<string, seq<RunJob>>,
                         s2: Steps, j2: map<string, seq<RunJob>>)
    requires (s1 == s0 && j1 == j0) || Shrunk(plan, s0, j0, s1, j1)
    requires Shrunk(plan, s1, j1, s2, j2)
    ensures Shrunk(plan, s0, j0, s2, j2)
  {
    hide Unstarted, Pending;
  }

  lemma StartingShrinks(plan: Plan, steps: Steps, steps': Steps)
    requires NewlyStarted(plan, steps, steps') && StartedKept(steps, steps')
    ensures Unstarted(plan, steps') < Unstarted(plan, steps)
  {
    var id :| id in plan.byId && !Rec(steps, id).started && Rec(steps', id).started;
    assert id in Unstarted(plan, steps);
  }

  lemma SameUnstarted(plan: Plan, steps: Steps, steps': Steps)
    requires SameStarted(steps, steps')
    ensures Unstarted(plan, steps') == Unstarted(plan, steps)
  {}

  lemma PendingShrinks(steps: Steps, jobs: map<string, seq<RunJob>>, steps': Steps, jobs': map<string, seq<RunJob>>)
    requires NoMorePending(steps, jobs, steps', jobs')
    ensures Pending(steps', jobs') <= Pending(steps, jobs)
    ensures Used(steps, jobs, steps', jobs') ==> Pending(steps', jobs') < Pending(steps, jobs)
  {
    hide Pending, IsPending;
    forall f ensures f in Pending(steps', jobs') ==> f in Pending(steps, jobs) {
      PendingIs(steps', jobs', f);
      PendingIs(steps, jobs, f);
    }
    if Used(steps, jobs, steps', jobs') {
      var f :| IsPending(steps, jobs, f) && !IsPending(steps', jobs', f);
      PendingIs(steps', jobs', f);
      PendingIs(steps, jobs, f);
    }
  }

  /** One round of starting and launching lowers the measure if it did anything. */
  lemma IterationShrinks(plan: Plan, s0: Steps, j0: map<string, seq<RunJob>>, s1: Steps, j1: map<string, seq<RunJob>>,
                         s2: Steps, j2: map<string, seq<RunJob>>, started: bool)
    requires if started then NewlyStarted(plan, s0, s1) && StartedKept(s0, s1)
        else s1 == s0 && j1 == j0 && Used(s1, j1, s2, j2)
    requires SameStarted(s1, s2) && NoMorePending(s1, j1, s2, j2)
    ensures Shrunk(plan, s0, j0, s2, j2)
  {
    hide Pending, Unstarted, NewlyStarted, StartedKept, NoMorePending, SameStarted, Used;
    SameUnstarted(plan, s1, s2);
    PendingShrinks(s1, j1, s2, j2);
    if started {
      StartingShrinks(plan, s0, s1);
    }
  }

  lemma KeptAdvances(steps: Steps, steps': Steps)
    requires StartedKept(steps, steps')
    requires forall id :: !Rec(steps, id).started ==> Rec(steps, id).status == Unset
    ensures Advances(steps, steps')
  {}

  /** An accepted outcome is final and is recorded at its own coordinates. */
  ghost predicate AcceptedFit(step: Step, inj: Injected) {
    forall a :: a in inj && a.step == step.id ==> inj[a].index == a.index && Terminal(inj[a])
  }

  /** Recording one more outcome keeps an open step's record right. */
  lemma RecordKeepsOpen(step: Step, inj: Injected, inputs: Result<Obj>, r: StepState, k: nat, x: Obj, job: JobState)
    requires OpenOk(step, inj, inputs, r) && k < |r.jobs| && r.jobs[k].status == Unset
    requires GateOf(step, SeedsOf(step, inputs)[k].inputs) == Admitted(x)
    requires job == Ran(step, x, r.jobs[k].index) && AcceptedFit(step, inj)
    ensures OpenOk(step, inj, inputs, r.(jobs := r.jobs[k := job]))
    ensures job.status != Unset
  {
    var seed := SeedsOf(step, inputs)[k];
    assert JobOk(step, inj, seed, r.jobs[k]);
    RanIsSet(step, x, seed.index);
    assert Address(step.id, seed.index) !in inj;
    assert job == Settled(step, inj, seed);
  }

  lemma JobIndex(step: Step, inj: Injected, seed: Scatter.ScatterJob, job: JobState)
    requires JobOk(step, inj, seed, job) && AcceptedFit(step, inj)
    ensures job.index == seed.index
  {}

  /** Whatever a handler replies, the invocation gets an outcome. */
  lemma RanIsSet(step: Step, x: Obj, index: seq<int>)
    ensures Ran(step, x, index).status in {Success, PermanentFail, TemporaryFail, Skipped, Suspended}
    ensures Ran(step, x, index).index == index
  {}

  lemma RecordKeepsLive(step: Step, inputs: Result<Obj>, id: string, r: StepState, live: seq<RunJob>,
                        before: set<Flight>, after: set<Flight>, k: nat, job: JobState)
    requires LiveStep(step, inputs, id, r, live, before) && k < |r.jobs| && job.status != Unset
    requires after <= before && before <= after + {Flight(id, k)}
    ensures LiveStep(step, inputs, id, r.(jobs := r.jobs[k := job]), live, after)
  {}

  method ExpandJobs(step: Step, x: Obj) returns (r: Result<Expanded>)
    ensures r == Expand(step, x)
  {
    if step.scatter == [] {
      return Ok(Expanded([Scatter.ScatterJob(x, [])], None));
    }
    var how := if step.how.None? then Scatter.Dotproduct else step.how.value;
    var expanded := Scatter.ExpandScatter(x, step.scatter, how);
    if expanded.Err? {
      return Err(expanded.error);
    }
    Scatter.ExpansionIsRowMajor(x, step.scatter, how);
    return Ok(Expanded(expanded.value.jobs, Some(expanded.value.dims)));
  }

  /** What gating makes of one pending invocation. */
  ghost predicate Gated(step: Step, job: RunJob, recorded: JobState, job': RunJob, recorded': JobState) {
    match GateOf(step, job.inputs)
    case Rejected(_) => false
    case Declined =>
      recorded' == recorded.(status := Skipped, outputs := NullPorts(Ports(step))) && job'.dispatched == job.dispatched
    case Admitted(x) => recorded' == recorded && job' == job.(inputs := x)
  }

  /** Applies valueFrom and `when` to each pending invocation, until one is refused. */
  method GateJobs(step: Step, jobs: seq<RunJob>, recorded: seq<JobState>)
    returns (jobs': seq<RunJob>, recorded': seq<JobState>, ok: bool)
    requires |jobs| == |recorded|
    ensures |jobs'| == |jobs| && |recorded'| == |recorded|
    ensures forall k :: 0 <= k < |jobs| && recorded[k].status != Unset ==>
        jobs'[k] == jobs[k] && recorded'[k] == recorded[k]
    ensures forall k :: 0 <= k < |jobs| && recorded'[k] != recorded[k] ==> recorded'[k].status == Skipped
    ensures ok ==> forall k :: 0 <= k < |jobs| && recorded[k].status == Unset ==>
                     Gated(step, jobs[k], recorded[k], jobs'[k], recorded'[k])
    ensures !ok ==> exists k :: 0 <= k < |jobs| && recorded[k].status == Unset && GateOf(step, jobs[k].inputs).Rejected?
  {
    jobs', recorded' := jobs, recorded;
    for k := 0 to |jobs|
      invariant |jobs'| == |jobs| && |recorded'| == |recorded|
      invariant forall j :: k <= j < |jobs| ==> jobs'[j] == jobs[j] && recorded'[j] == recorded[j]
      invariant forall j :: 0 <= j < |jobs| && recorded[j].status != Unset ==>
          jobs'[j] == jobs[j] && recorded'[j] == recorded[j]
      invariant forall j :: 0 <= j < |jobs| && recorded'[j] != recorded[j] ==> recorded'[j].status == Skipped
      invariant forall j :: 0 <= j < k && recorded[j].status == Unset ==>
                  Gated(step, jobs[j], recorded[j], jobs'[j], recorded'[j])
    {
      if recorded'[k].status != Unset {
        continue;
      }
      var resolved := step.valueFrom(jobs'[k].inputs);
      if resolved.Err? {
        return jobs', recorded', false;
      }
      var admitted := step.when(resolved.value);
      jobs' := jobs'[k := jobs'[k].(inputs := resolved.value)];
      if admitted.Err? {
        return jobs', recorded', false;
      }
      if !admitted.value {
        recorded' := recorded'[k := recorded'[k].(status := Skipped, outputs := NullPorts(Ports(step)))];
      }
    }
    return jobs', recorded', true;
  }

  /** Gating a step's untried invocations leaves a right record. */
  lemma GatedIsOpen(step: Step, inj: Injected, inputs: Result<Obj>, untried: seq<RunJob>, gated: seq<RunJob>,
                    marked: seq<JobState>, shape: Option<Dims>, out: set<Flight>)
    requires forall f :: f in out ==> f.step != step.id
    requires inputs.Ok? && Expand(step, inputs.value).Ok? && shape == Expand(step, inputs.value).value.shape
    requires |untried| == |gated| == |marked| == |SeedsOf(step, inputs)|
    requires forall k :: 0 <= k < |untried| ==>
        untried[k] == RunJob(SeedsOf(step, inputs)[k].inputs, SeedsOf(step, inputs)[k].index, false)
    requires forall k :: 0 <= k < |untried| ==>
               Gated(step, untried[k], FreshJob(SeedsOf(step, inputs)[k].index), gated[k], marked[k])
    requires forall a :: a in inj ==> a.step != step.id
    ensures OpenOk(step, inj, inputs, StepState(true, Unset, map[], marked, shape))
    ensures LiveStep(step, inputs, step.id, StepState(true, Unset, map[], marked, shape), gated, out)
  {
    var seeds := SeedsOf(step, inputs);
    forall k | 0 <= k < |untried|
      ensures JobOk(step, inj, seeds[k], marked[k])
      ensures marked[k].status == Unset ==> LiveJob(step, seeds[k], gated[k], false)
    {
      assert Gated(step, untried[k], FreshJob(seeds[k].index), gated[k], marked[k]);
    }
  }

  /** Gating an untried invocation leaves it as starting does. */
  lemma GatedStarts(step: Step, x: Obj, untried: seq<RunJob>, gated: seq<RunJob>, marked: seq<JobState>)
    requires Expand(step, x).Ok? && |untried| == |gated| == |marked| == |Expand(step, x).value.seeds|
    requires forall k :: 0 <= k < |untried| ==>
               untried[k] == RunJob(Expand(step, x).value.seeds[k].inputs, Expand(step, x).value.seeds[k].index, false)
    requires forall k :: 0 <= k < |untried| ==>
               Gated(step, untried[k], FreshJob(Expand(step, x).value.seeds[k].index), gated[k], marked[k])
    ensures !Rejects(step, Expand(step, x).value)
    ensures forall k :: 0 <= k < |marked| ==> marked[k] == StartJob(step, Expand(step, x).value.seeds[k])
  {
    hide Expand;
    var seeds := Expand(step, x).value.seeds;
    forall k | 0 <= k < |untried|
      ensures marked[k] == StartJob(step, seeds[k]) && !GateOf(step, seeds[k].inputs).Rejected?
    {
      assert Gated(step, untried[k], FreshJob(seeds[k].index), gated[k], marked[k]);
    }
  }

  /** Open, with one invocation a seed, each as starting leaves it. */
  ghost predicate StartsOpen(step: Step, x: Obj, r: StepState) {
    && Expand(step, x).Ok? && !Rejects(step, Expand(step, x).value) && Open(r)
    && |r.jobs| == |Expand(step, x).value.seeds|
    && forall k :: 0 <= k < |r.jobs| ==> r.jobs[k] == StartJob(step, Expand(step, x).value.seeds[k])
  }

  lemma GatedStep(step: Step, inj: Injected, x: Obj, untried: seq<RunJob>, gated: seq<RunJob>, marked: seq<JobState>,
                  out: set<Flight>)
    requires forall f :: f in out ==> f.step != step.id
    requires Expand(step, x).Ok? && |untried| == |gated| == |marked| == |Expand(step, x).value.seeds|
    requires forall k :: 0 <= k < |untried| ==>
               untried[k] == RunJob(Expand(step, x).value.seeds[k].inputs, Expand(step, x).value.seeds[k].index, false)
    requires forall k :: 0 <= k < |untried| ==>
               Gated(step, untried[k], FreshJob(Expand(step, x).value.seeds[k].index), gated[k], marked[k])
    requires forall a :: a in inj ==> a.step != step.id
    ensures var r := StepState(true, Unset, map[], marked, Expand(step, x).value.shape);
            StartsOpen(step, x, r) && OpenOk(step, inj, Ok(x), r) && LiveStep(step, Ok(x), step.id, r, gated, out)
  {
    hide Expand, Gated, OpenOk, LiveStep, Rejects;
    GatedIsOpen(step, inj, Ok(x), untried, gated, marked, Expand(step, x).value.shape, out);
    GatedStarts(step, x, untried, gated, marked);
  }

  lemma IsStarted(step: Step, inputs: Result<Obj>, r: StepState)
    requires StartsAs(step, inputs, r)
    ensures r.started
  {
    hide Expand, Rejects;
  }

  /** A step left open, or finished once nothing is left to try, is as starting leaves it. */
  lemma InstalledAs(step: Step, x: Obj, r: StepState, done: StepState)
    requires StartsOpen(step, x, r)
    requires if AllTerminal(r) then done.status != Unset && StepAdvances(r, done) else done == r
    ensures StartsAs(step, Ok(x), done)
  {
    hide Expand, Rejects;
    var seeds := Expand(step, x).value.seeds;
    OpenIfAdmitted(step, x, r);
  }

  lemma OpenIfAdmitted(step: Step, x: Obj, r: StepState)
    requires Expand(step, x).Ok? && !Rejects(step, Expand(step, x).value) && |r.jobs| == |Expand(step, x).value.seeds|
    requires forall k :: 0 <= k < |r.jobs| ==> r.jobs[k] == StartJob(step, Expand(step, x).value.seeds[k])
    ensures AllTerminal(r) <==>
        !exists k :: 0 <= k < |r.jobs| && GateOf(step, Expand(step, x).value.seeds[k].inputs).Admitted?
  {
    hide Expand;
    var seeds := Expand(step, x).value.seeds;
    forall k | 0 <= k < |r.jobs| ensures Terminal(r.jobs[k]) <==> !GateOf(step, seeds[k].inputs).Admitted? {
      assert r.jobs[k] == StartJob(step, seeds[k]) && !GateOf(step, seeds[k].inputs).Rejected?;
    }
  }

  lemma RefusedAs(step: Step, x: Result<Obj>, r: StepState)
    requires x.Err? || Expand(step, x.value).Err? || Rejects(step, Expand(step, x.value).value)
    requires r.started && r.status == PermanentFail
    ensures StartsAs(step, x, r)
  {
    hide Expand, Rejects;
  }

  lemma RejectedVerdict(step: Step, inj: Injected, x: Obj)
    requires Expand(step, x).Ok? && Rejects(step, Expand(step, x).value)
    ensures Judge(step, inj, Ok(x)) == Done(PermanentFail, map[])
  {}

  /** A started step has its in-memory invocations back. */
  ghost predicate IsLive(env: Env, inj: Injected, steps: Steps, jobs: map<string, seq<RunJob>>, id: string)
    requires EnvOk(env)
  {
    id in steps && Open(steps[id]) ==>
      && id in env.plan.byId && id in jobs && !AllTerminal(steps[id])
      && LiveStep(env.plan.byId[id], InputsOf(env, inj, id), id, steps[id], jobs[id], {})
  }

  /** The started steps among the first `n` have their in-memory invocations back. */
  ghost predicate LiveUpTo(env: Env, inj: Injected, steps: Steps, jobs: map<string, seq<RunJob>>, n: nat)
    requires EnvOk(env)
  {
    forall j :: 0 <= j < n && j < |env.plan.order| ==> IsLive(env, inj, steps, jobs, env.plan.order[j])
  }

  lemma LiveOneMore(env: Env, inj: Injected, steps: Steps, jobs: map<string, seq<RunJob>>,
                    steps': Steps, jobs': map<string, seq<RunJob>>, n: nat)
    requires EnvOk(env) && Indexed(env.plan.order, env.plan.byId) && n < |env.plan.order|
    requires LiveUpTo(env, inj, steps, jobs, n)
    requires steps' == steps ||
        (env.plan.order[n] in steps' && steps' == steps[env.plan.order[n] := steps'[env.plan.order[n]]])
    requires jobs' == jobs ||
        (env.plan.order[n] in jobs' && jobs' == jobs[env.plan.order[n] := jobs'[env.plan.order[n]]])
    requires IsLive(env, inj, steps', jobs', env.plan.order[n])
    ensures LiveUpTo(env, inj, steps', jobs', n + 1)
  {
    hide LiveStep, AllTerminal;
    forall j | 0 <= j < n ensures IsLive(env, inj, steps', jobs', env.plan.order[j]) {
      assert IsLive(env, inj, steps, jobs, env.plan.order[j]) && env.plan.order[j] != env.plan.order[n];
    }
  }

  /** Re-deriving a started step's invocations leaves its record as it was. */
  lemma RegatedIsLive(step: Step, inj: Injected, inputs: Result<Obj>, r: StepState, untried: seq<RunJob>,
                      gated: seq<RunJob>, marked: seq<JobState>)
    requires OpenOk(step, inj, inputs, r) && AcceptedFit(step, inj)
    requires |untried| == |gated| == |marked| == |r.jobs|
    requires forall k :: 0 <= k < |untried| ==>
        untried[k] == RunJob(SeedsOf(step, inputs)[k].inputs, SeedsOf(step, inputs)[k].index, false)
    requires forall k :: 0 <= k < |r.jobs| && r.jobs[k].status != Unset ==> marked[k] == r.jobs[k]
    requires forall k :: 0 <= k < |r.jobs| && r.jobs[k].status == Unset ==>
        Gated(step, untried[k], r.jobs[k], gated[k], marked[k])
    ensures marked == r.jobs
    ensures LiveStep(step, inputs, step.id, r, gated, {})
  {
    var seeds := SeedsOf(step, inputs);
    forall k | 0 <= k < |r.jobs|
      ensures marked[k] == r.jobs[k]
      ensures r.jobs[k].status == Unset ==> LiveJob(step, seeds[k], gated[k], false)
    {
      if r.jobs[k].status == Unset {
        assert JobOk(step, inj, seeds[k], r.jobs[k]);
        UnsetIsAdmitted(step, inj, seeds[k], r.jobs[k]);
        assert Gated(step, untried[k], r.jobs[k], gated[k], marked[k]);
      }
    }
  }

  /** An invocation without an outcome was admitted by its gate. */
  lemma UnsetIsAdmitted(step: Step, inj: Injected, seed: Scatter.ScatterJob, job: JobState)
    requires JobOk(step, inj, seed, job) && job.status == Unset && AcceptedFit(step, inj)
    ensures GateOf(step, seed.inputs).Admitted?
  {
    if GateOf(step, seed.inputs).Admitted? {
      RanIsSet(step, GateOf(step, seed.inputs).inputs, seed.index);
    }
  }

  lemma NoneRejected(step: Step, inj: Injected, inputs: Result<Obj>, r: StepState, k: nat)
    requires OpenOk(step, inj, inputs, r) && k < |r.jobs|
    ensures !GateOf(step, SeedsOf(step, inputs)[k].inputs).Rejected?
  {
    assert JobOk(step, inj, SeedsOf(step, inputs)[k], r.jobs[k]);
  }

  /** Gathers the recorded invocations of a scattered step by their coordinates. */
  method GatherJobs(ports: seq<string>, jobs: seq<JobState>, dims: Dims) returns (gathered: Result<Obj>)
    requires dims != [] && Scatter.ShapeOk(dims) && |jobs| == Product(dims)
    requires forall k :: 0 <= k < |jobs| ==> jobs[k].index == CoordAt(k, dims)
    ensures gathered.Ok? && gathered.value == map port | port in ports :: Nested(PortColumn(jobs, port), dims)
  {
    var expanded := Scatter.ScatterPlan(
      seq(|jobs|, k requires 0 <= k < |jobs| => Scatter.ScatterJob(map[], jobs[k].index)), dims);
    var outputs := OutputsByJob(jobs);
    hide Scatter.Gathers, Scatter.GatherProblem, Scatter.FlatColumn, Scatter.Column, OutputsByJob, PortColumn;
    Scatter.RowMajorGathers(expanded, outputs, ports);
    gathered := Scatter.Gather(expanded, outputs, ports);
    forall port ensures Scatter.FlatColumn(expanded, outputs, port) == PortColumn(jobs, port) {
      ColumnIsPort(jobs, port);
    }
  }

  function OutputsByJob(jobs: seq<JobState>): map<int, Obj> {
    map k | 0 <= k < |jobs| :: jobs[k].outputs
  }

  lemma ColumnIsPort(jobs: seq<JobState>, port: string)
    ensures Scatter.Column(OutputsByJob(jobs), |jobs|, port) == PortColumn(jobs, port)
  {}

  class Loop {
    const plan: Plan
    const inputs: Obj
    const cfg: Config
    ghost const rank: map<string, nat>
    ghost var inj: Injected
    var steps: Steps
    var jobs: map<string, seq<RunJob>>
    var running: int
    var stopped: bool
    var inFlight: set<Flight>           // invocations handed to handlers, any of which may report next
    ghost var reporting: set<Flight>    // the invocation whose report is being folded in
    ghost var launches: seq<Flight>

    ghost function E(): Env {
      Env(plan, rank, inputs)
    }

    ghost predicate Counted()
      reads this
    {
      && running == |inFlight|
      && (cfg.maxParallel > 0 ==> running <= cfg.maxParallel)
      && (stopped ==> !cfg.continueOnError && SomeFailed(steps))
    }

    ghost predicate Core()
      reads this
    {
      && WellFormed(plan) && EnvOk(E())
      && SnapOk(E(), inj, steps)
      && LiveOk(E(), inj, steps, jobs, inFlight + reporting)
      && FlightsOk(steps, inFlight + reporting)
      && LaunchesOk(steps, jobs, launches)
      && CallsOk(plan, jobs, inFlight)
      && Counted()
    }

    ghost predicate Valid()
      reads this
    {
      Core() && reporting == {} && BusyBut(steps, None)
    }

    /** Records a step's new state; a report being folded in for it is thereby done. */
    method Put(id: string, r: StepState)
      requires Core() && id in plan.byId
      requires StepOk(E(), inj, id, r) && (r.started ==> Grounded(plan, steps, id))
      requires StepAdvances(Rec(steps, id), r)
      requires forall f :: f in reporting ==> f.step == id
      requires Open(r) ==> id in jobs && LiveStep(plan.byId[id], InputsOf(E(), inj, id), id, r, jobs[id], inFlight)
      requires forall f :: f in inFlight && f.step == id ==>
          Open(r) && f.job < |r.jobs| && r.jobs[f.job].status == Unset
      modifies this`steps, this`reporting
      ensures Core() && reporting == {} && steps == old(steps)[id := r]
    {
      hide WellFormed, EnvOk, SnapOk, LiveOk, FlightsOk, LaunchesOk, StepOk, LiveStep, Grounded, SomeFailed, OpenOk;
      hide CallsOk;
      PutKeepsSnap(E(), inj, steps, id, r);
      PutKeepsLive(E(), inj, steps, jobs, inFlight + reporting, inFlight, id, r);
      PutKeepsFlights(steps, inFlight + reporting, inFlight, id, r);
      PutKeepsLaunches(steps, jobs, launches, id, r);
      StillFailing(id, r);
      steps := steps[id := r];
      reporting := {};
      assert inFlight + reporting == inFlight;
    }

    lemma StillFailing(id: string, r: StepState)
      requires StepAdvances(Rec(steps, id), r)
      ensures SomeFailed(steps) ==> SomeFailed(steps[id := r])
    {
      if SomeFailed(steps) {
        var k :| k in steps && Failing(steps[k].status);
        var after := steps[id := r];
        assert k in after && Failing(after[k].status);
      }
    }

    // ---- finishing a step ----

    /** Records a step's failure, and stops the loop unless failures are to be outlived. */
    method FailStepWith(id: string, recorded: StepState, status: Status)
      requires Core() && id in plan.byId && Rec(steps, id).status == Unset
      requires Failing(status) && recorded.outputs == map[] && NoneSuspended(recorded)
      requires |recorded.jobs| >= |Rec(steps, id).jobs|
      requires Grounded(plan, steps, id) && DepsProduce(E(), inj, id) && VerdictOf(E(), inj, id) == Done(status, map[])
      requires StepAdvances(Rec(steps, id), recorded.(started := true, status := status))
      requires forall f :: f in reporting ==> f.step == id
      requires forall f :: f in inFlight ==> f.step != id
      modifies this`steps, this`reporting, this`stopped
      ensures Core() && reporting == {}
      ensures steps == old(steps)[id := recorded.(started := true, status := status)]
      ensures stopped == (old(stopped) || !cfg.continueOnError)
    {
      hide SnapOk, LiveOk, FlightsOk, LaunchesOk, CallsOk, WellFormed, EnvOk, Grounded, LiveStep;
      Put(id, recorded.(started := true, status := status));
      assert Failing(steps[id].status);
      if !cfg.continueOnError {
        stopped := true;
      }
    }

    /** The failure among a step's invocations, the first permanent one before any temporary one. */
    method JobsOutcome(r: StepState) returns (status: Status, failed: bool)
      requires r.shape.None? ==> |r.jobs| == 1
      ensures failed <==> exists k :: 0 <= k < |r.jobs| && Failing(r.jobs[k].status)
      ensures failed ==>
          status == if exists k :: 0 <= k < |r.jobs| && r.jobs[k].status == PermanentFail then PermanentFail
                    else TemporaryFail
      ensures !failed ==> status == if r.shape.None? && r.jobs[0].status == Skipped then Skipped else Success
    {
      var worst := Success;
      failed := false;
      for k := 0 to |r.jobs|
        invariant failed <==> exists j :: 0 <= j < k && Failing(r.jobs[j].status)
        invariant failed ==>
            worst == if exists j :: 0 <= j < k && r.jobs[j].status == PermanentFail then PermanentFail
                     else TemporaryFail
      {
        var status := r.jobs[k].status;
        if Failing(status) {
          if !failed || (worst == TemporaryFail && status == PermanentFail) {
            worst := status;
          }
          failed := true;
        }
      }
      if failed {
        return worst, true;
      }
      if r.shape.None? && r.jobs[0].status == Skipped {
        return Skipped, false;
      }
      return Success, false;
    }

    /** Assembles a step's outputs from its invocations; the recorded coordinates always fit the recorded shape. */
    method GatherStep(step: Step, ghost x: Result<Obj>, r: StepState) returns (gathered: Result<Obj>)
      requires OpenOk(step, inj, x, r) && AcceptedFit(step, inj)
      ensures |r.jobs| == match r.shape { case None => 1 case Some(dims) => Product(dims) }
      ensures gathered.Ok? && gathered.value == match r.shape
        case None => r.jobs[0].outputs
        case Some(dims) => map port | port in Ports(step) :: Nested(PortColumn(r.jobs, port), dims)
    {
      RecordedIndexes(step, x, r);
      if r.shape.None? {
        return Ok(r.jobs[0].outputs);
      }
      gathered := GatherJobs(Ports(step), r.jobs, r.shape.value);
    }

    /** The recorded coordinates are the row-major ones the step expanded to. */
    lemma RecordedIndexes(step: Step, x: Result<Obj>, r: StepState)
      requires OpenOk(step, inj, x, r) && AcceptedFit(step, inj)
      ensures |r.jobs| == match r.shape { case None => 1 case Some(dims) => Product(dims) }
      ensures forall k :: 0 <= k < |r.jobs| ==> r.jobs[k].index == SeedsOf(step, x)[k].index
      ensures r.shape.Some? ==>
                && r.shape.value != [] && Scatter.ShapeOk(r.shape.value)
                && forall k :: 0 <= k < |r.jobs| ==> r.jobs[k].index == CoordAt(k, r.shape.value)
    {
      forall k | 0 <= k < |r.jobs| ensures r.jobs[k].index == SeedsOf(step, x)[k].index {
        assert JobOk(step, inj, SeedsOf(step, x)[k], r.jobs[k]);
      }
      if r.shape.Some? {
        var how := if step.how.None? then Scatter.Dotproduct else step.how.value;
        Scatter.ExpansionIsRowMajor(x.value, step.scatter, how);
      }
    }

    /** The verdict of a step all of whose invocations are terminal. */
    lemma Decided(id: string)
      requires Core() && id in steps && Open(steps[id]) && AllTerminal(steps[id])
      ensures id in plan.byId && plan.byId[id].id == id && Grounded(plan, steps, id) && DepsProduce(E(), inj, id)
      ensures OpenOk(plan.byId[id], inj, InputsOf(E(), inj, id), steps[id]) && AcceptedFit(plan.byId[id], inj)
      ensures |steps[id].jobs| == match steps[id].shape { case None => 1 case Some(dims) => Product(dims) }
      ensures VerdictOf(E(), inj, id) == Reduce(plan.byId[id], steps[id].shape, steps[id].jobs)
      ensures forall f :: f in inFlight ==> f.step != id
    {
      hide LiveOk, LaunchesOk, Reduce, Judge, CallsOk, Counted, OpenOk, Grounded, EdgesResolved, KnownSources;
      assert StepOk(E(), inj, id, steps[id]);
      TerminalDecides(plan.byId[id], inj, InputsOf(E(), inj, id), steps[id]);
      forall f | f in inFlight ensures f.step != id {
        assert Unrecorded(steps, f);
      }
    }

    lemma FailedVerdict(step: Step, r: StepState, status: Status)
      requires |r.jobs| == match r.shape { case None => 1 case Some(dims) => Product(dims) }
      requires AllTerminal(r) && exists k :: 0 <= k < |r.jobs| && Failing(r.jobs[k].status)
      requires status == if exists k :: 0 <= k < |r.jobs| && r.jobs[k].status == PermanentFail then PermanentFail
          else TemporaryFail
      ensures Reduce(step, r.shape, r.jobs) == Done(status, map[])
    {}

    lemma SucceededVerdict(step: Step, r: StepState, status: Status, outputs: Obj)
      requires |r.jobs| == match r.shape { case None => 1 case Some(dims) => Product(dims) }
      requires AllTerminal(r) && !exists k :: 0 <= k < |r.jobs| && Failing(r.jobs[k].status)
      requires status == if r.shape.None? && r.jobs[0].status == Skipped then Skipped else Success
      requires outputs == match r.shape
                 case None => r.jobs[0].outputs
                 case Some(dims) => map port | port in Ports(step) :: Nested(PortColumn(r.jobs, port), dims)
      ensures Reduce(step, r.shape, r.jobs) == Done(status, outputs)
    {}

    lemma FinishedOk(id: string, r: StepState)
      requires EnvOk(E()) && id in plan.byId && DepsProduce(E(), inj, id) && r.started && r.status != Unset
      requires VerdictOf(E(), inj, id) == Done(r.status, r.outputs) && NoneSuspended(r)
      ensures StepOk(E(), inj, id, r)
    {}

    /** Completes the step once all its invocations have final outcomes. */
    method FinishIfComplete(id: string)
      requires Core() && reporting == {} && id in steps && Open(steps[id]) && BusyBut(steps, Some(id))
      modifies this`steps, this`reporting, this`stopped
      ensures Valid()
      ensures !AllTerminal(old(steps[id])) ==> steps == old(steps) && stopped == old(stopped)
      ensures AllTerminal(old(steps[id])) ==>
                && id in steps && steps == old(steps)[id := steps[id]] && steps[id].status != Unset
                && StepAdvances(old(steps[id]), steps[id])
                && stopped == (old(stopped) || (Failing(steps[id].status) && !cfg.continueOnError))
    {
      hide WellFormed, EnvOk, SnapOk, LiveOk, FlightsOk, LaunchesOk, StepOk, LiveStep, Grounded, SomeFailed, OpenOk;
      hide Reduce, Counted;
      var r := steps[id];
      for k := 0 to |r.jobs|
        invariant forall j :: 0 <= j < k ==> Terminal(r.jobs[j])
      {
        if !Terminal(r.jobs[k]) {
          return;
        }
      }
      Decided(id);
      Complete(id, r);
    }

    /** The finished record of a step all of whose invocations are terminal. */
    method Reduced(step: Step, ghost x: Result<Obj>, r: StepState) returns (done: StepState)
      requires OpenOk(step, inj, x, r) && AcceptedFit(step, inj) && AllTerminal(r)
      ensures |r.jobs| == match r.shape { case None => 1 case Some(dims) => Product(dims) }
      ensures done == r.(status := done.status, outputs := done.outputs) && done.status != Unset
      ensures Reduce(step, r.shape, r.jobs) == Done(done.status, done.outputs)
    {
      hide OpenOk, Reduce;
      RecordedIndexes(step, x, r);
      OpenHasNoOutputs(step, x, r);
      var status, failed := JobsOutcome(r);
      if failed {
        FailedVerdict(step, r, status);
        return r.(status := status);
      }
      var gathered := GatherStep(step, x, r);
      SucceededVerdict(step, r, status, gathered.value);
      return r.(status := status, outputs := gathered.value);
    }

    lemma OpenHasNoOutputs(step: Step, x: Result<Obj>, r: StepState)
      requires OpenOk(step, inj, x, r)
      ensures r.outputs == map[]
    {}

    method Complete(id: string, r: StepState)
      requires Core() && reporting == {} && id in steps && steps[id] == r && Open(r) && AllTerminal(r)
      requires BusyBut(steps, Some(id))
      requires id in plan.byId && plan.byId[id].id == id && Grounded(plan, steps, id) && DepsProduce(E(), inj, id)
      requires OpenOk(plan.byId[id], inj, InputsOf(E(), inj, id), r) && AcceptedFit(plan.byId[id], inj)
      requires |r.jobs| == match r.shape { case None => 1 case Some(dims) => Product(dims) }
      requires VerdictOf(E(), inj, id) == Reduce(plan.byId[id], r.shape, r.jobs)
      requires forall f :: f in inFlight ==> f.step != id
      modifies this`steps, this`reporting, this`stopped
      ensures Valid()
      ensures id in steps && steps == old(steps)[id := steps[id]] && steps[id].status != Unset
      ensures StepAdvances(r, steps[id])
      ensures stopped == (old(stopped) || (Failing(steps[id].status) && !cfg.continueOnError))
    {
      hide WellFormed, EnvOk, SnapOk, LiveOk, FlightsOk, LaunchesOk, LiveStep, Grounded, SomeFailed, Counted, StepOk;
      hide Reduce, VerdictOf, OpenOk, CallsOk;
      var done := Reduced(plan.byId[id], InputsOf(E(), inj, id), r);
      if Failing(done.status) {
        FailureHasNoOutputs(plan.byId[id], r);
        FailStepWith(id, done, done.status);
      } else {
        FinishedOk(id, done);
        Put(id, done);
      }
    }

    lemma FailureHasNoOutputs(step: Step, r: StepState)
      requires |r.jobs| == match r.shape { case None => 1 case Some(dims) => Product(dims) }
      ensures var v := Reduce(step, r.shape, r.jobs); v.Done? && Failing(v.status) ==> v.outputs == map[]
    {}

    // ---- folding a report in ----

    /** The record of a step with one more outcome. */
    ghost predicate OneMore(was: StepState, now: StepState, k: nat) {
      && k < |was.jobs| && |now.jobs| == |was.jobs| && now.jobs[k].status != Unset
      && forall j :: 0 <= j < |was.jobs| && j != k ==> now.jobs[j] == was.jobs[j]
    }

    lemma Fits(id: string)
      requires Core() && id in plan.byId
      ensures AcceptedFit(plan.byId[id], inj)
    {
      hide LiveOk, LaunchesOk, FlightsOk, CallsOk, Counted, StepOk, Grounded, EdgesResolved, KnownSources;
      assert plan.byId[id].id == id;
    }

    /** What is known of an invocation that is about to be recorded. */
    lemma Outstanding(id: string, k: nat)
      requires Core() && Unrecorded(steps, Flight(id, k))
      ensures id in plan.byId && id in jobs && k < |jobs[id]| && Grounded(plan, steps, id)
      ensures OpenOk(plan.byId[id], inj, InputsOf(E(), inj, id), steps[id]) && DepsProduce(E(), inj, id)
      ensures LiveStep(plan.byId[id], InputsOf(E(), inj, id), id, steps[id], jobs[id], inFlight + reporting)
      ensures AcceptedFit(plan.byId[id], inj)
      ensures GateOf(plan.byId[id], SeedsOf(plan.byId[id], InputsOf(E(), inj, id))[k].inputs) ==
          Admitted(jobs[id][k].inputs)
      ensures jobs[id][k].index == steps[id].jobs[k].index
      ensures jobs[id][k].dispatched <==> Flight(id, k) in inFlight + reporting
    {
      hide LaunchesOk, FlightsOk, CallsOk, Counted, AcceptedFit, EdgesResolved, KnownSources, Answering.InjectedOk;
      hide JobOk, Settled;
      Fits(id);
      assert StepOk(E(), inj, id, steps[id]);
      assert LiveJob(plan.byId[id], SeedsOf(plan.byId[id], InputsOf(E(), inj, id))[k], jobs[id][k],
                     Flight(id, k) in inFlight + reporting);
      assert JobOk(plan.byId[id], inj, SeedsOf(plan.byId[id], InputsOf(E(), inj, id))[k], steps[id].jobs[k]);
      JobIndex(plan.byId[id], inj, SeedsOf(plan.byId[id], InputsOf(E(), inj, id))[k], steps[id].jobs[k]);
    }

    /** Folds an invocation's reply into the run state, and finishes its step if it was the last. */
    method Record(id: string, k: nat, reply: Reply)
      requires Core() && BusyBut(steps, None) && Unrecorded(steps, Flight(id, k))
      requires reporting <= {Flight(id, k)} && Flight(id, k) !in inFlight
      requires id in plan.byId && id in jobs && k < |jobs[id]|
      requires Recorded(plan.byId[id], reply, steps[id].jobs[k].index) ==
          Ran(plan.byId[id], jobs[id][k].inputs, steps[id].jobs[k].index)
      modifies this`steps, this`reporting, this`stopped
      ensures Valid()
      ensures id in steps && steps == old(steps)[id := steps[id]] && StepAdvances(old(steps[id]), steps[id])
      ensures OneMore(old(steps[id]), steps[id], k) && steps[id].started
      ensures steps[id].status == Unset || AllTerminal(steps[id])
      ensures stopped == (old(stopped) || (Failing(steps[id].status) && !cfg.continueOnError))
    {
      hide WellFormed, EnvOk, SnapOk, LiveOk, FlightsOk, LaunchesOk, LiveStep, Grounded, SomeFailed, Counted, StepOk;
      hide VerdictOf, OpenOk, Recorded, Ran;
      Outstanding(id, k);
      var step, r := plan.byId[id], steps[id];
      var job := Recorded(step, reply, r.jobs[k].index);
      RecordKeepsOpen(step, inj, InputsOf(E(), inj, id), r, k, jobs[id][k].inputs, job);
      RecordKeepsLive(step, InputsOf(E(), inj, id), id, r, jobs[id], inFlight + reporting, inFlight, k, job);
      NoFlightLeft(id, k, job);
      SetJob(id, k, job);
      ghost var recorded := steps[id];
      FinishIfComplete(id);
      if AllTerminal(recorded) {
        StaysTerminal(recorded, steps[id]);
      }
    }

    lemma StaysTerminal(r: StepState, done: StepState)
      requires Open(r) && AllTerminal(r) && StepAdvances(r, done)
      ensures AllTerminal(done)
    {}

    lemma NoFlightLeft(id: string, k: nat, job: JobState)
      requires FlightsOk(steps, inFlight + reporting) && id in steps && Flight(id, k) !in inFlight
      requires k < |steps[id].jobs|
      ensures forall f :: f in inFlight && f.step == id ==>
                Open(steps[id]) && f.job < |steps[id].jobs[k := job]| && steps[id].jobs[k := job][f.job].status == Unset
    {
      forall f | f in inFlight && f.step == id ensures f.job != k && Unrecorded(steps, f) {
        assert f == Flight(f.step, f.job);
      }
    }

    method SetJob(id: string, k: nat, job: JobState)
      requires Core() && BusyBut(steps, None) && id in plan.byId && id in steps && Open(steps[id])
      requires reporting <= {Flight(id, k)}
      requires k < |steps[id].jobs| && steps[id].jobs[k].status == Unset && job.status != Unset
      requires OpenOk(plan.byId[id], inj, InputsOf(E(), inj, id), steps[id].(jobs := steps[id].jobs[k := job]))
      requires DepsProduce(E(), inj, id) && Grounded(plan, steps, id) && id in jobs
      requires LiveStep(plan.byId[id], InputsOf(E(), inj, id), id, steps[id].(jobs := steps[id].jobs[k := job]),
                        jobs[id], inFlight)
      requires forall f :: f in inFlight && f.step == id ==>
          f.job < |steps[id].jobs| && steps[id].jobs[k := job][f.job].status == Unset
      modifies this`steps, this`reporting
      ensures Core() && reporting == {} && BusyBut(steps, Some(id))
      ensures steps == old(steps)[id := old(steps[id]).(jobs := old(steps[id]).jobs[k := job])]
    {
      hide WellFormed, EnvOk, SnapOk, LiveOk, FlightsOk, LaunchesOk, LiveStep, Grounded, SomeFailed, Counted, VerdictOf;
      hide OpenOk;
      var r := steps[id].(jobs := steps[id].jobs[k := job]);
      assert StepOk(E(), inj, id, r);
      Put(id, r);
    }

    // ---- launching ----

    predicate HasCapacity()
      reads this
    {
      cfg.maxParallel <= 0 || running < cfg.maxParallel
    }

    /** What launching leaves alone and what it uses up. */
    ghost predicate LaunchStepped(steps0: Steps, jobs0: map<string, seq<RunJob>>)
      reads this
    {
      Advances(steps0, steps) && SameStarted(steps0, steps) && NoMorePending(steps0, jobs0, steps, jobs)
    }

    lemma PendingFacts(f: Flight)
      requires Core() && IsPending(steps, jobs, f)
      ensures f !in inFlight + reporting && f.step in plan.byId && Unrecorded(steps, f)
      ensures f.step in jobs && f.job < |jobs[f.step]| && jobs[f.step][f.job].index == steps[f.step].jobs[f.job].index
    {
      hide WellFormed, SnapOk, LaunchesOk, Counted, FlightsOk;
      Outstanding(f.step, f.job);
      assert f == Flight(f.step, f.job);
    }

    /** Marks a pending invocation dispatched and counts it as running. */
    method TakeOff(f: Flight)
      requires Valid() && IsPending(steps, jobs, f) && HasCapacity() && CallBuilt(plan, jobs, f)
      modifies this`jobs, this`inFlight, this`running, this`launches
      ensures Valid() && jobs == Marked(old(jobs), f) && launches == old(launches) + [f]
      ensures f !in old(inFlight) && inFlight == old(inFlight) + {f} && running == old(running) + 1
    {
      hide WellFormed, EnvOk, SnapOk, SomeFailed, LaunchesOk, LiveOk, FlightsOk, BusyBut, Marked, Unrecorded, CallsOk;
      hide CallBuilt;
      PendingFacts(f);
      assert inFlight + reporting == inFlight;
      MarkKeepsLive(E(), inj, steps, jobs, inFlight, f);
      MarkKeepsLaunches(steps, jobs, launches, f);
      MarkKeepsCalls(plan, jobs, inFlight, f);
      TakeOffKeepsFlights(steps, inFlight, f);
      jobs := Marked(jobs, f);
      launches := launches + [f];
      inFlight := inFlight + {f};
      running := running + 1;
      assert inFlight + reporting == inFlight;
    }

    /** Marks an invocation dispatched that never reaches its handler. */
    method MarkCrashed(f: Flight)
      requires Valid() && IsPending(steps, jobs, f)
      modifies this`jobs, this`reporting, this`launches
      ensures Core() && reporting == {f} && BusyBut(steps, None)
      ensures jobs == Marked(old(jobs), f) && launches == old(launches) + [f]
    {
      hide WellFormed, EnvOk, SnapOk, SomeFailed, LaunchesOk, LiveOk, FlightsOk, BusyBut, Marked, Unrecorded, CallsOk;
      hide CallBuilt;
      PendingFacts(f);
      assert inFlight + reporting == inFlight;
      MarkKeepsLive(E(), inj, steps, jobs, inFlight, f);
      MarkKeepsLaunches(steps, jobs, launches, f);
      MarkKeepsCalls(plan, jobs, inFlight, f);
      TakeOffKeepsFlights(steps, inFlight, f);
      jobs := Marked(jobs, f);
      launches := launches + [f];
      reporting := {f};
    }

    /** An invocation whose call could not be built is recorded as failed without running. */
    method Crash(f: Flight)
      requires Valid() && IsPending(steps, jobs, f)
      requires f.step in plan.byId
      requires plan.byId[f.step].prepare(jobs[f.step][f.job].inputs, jobs[f.step][f.job].index).Err?
      modifies this
      ensures Valid() && inFlight == old(inFlight) && running == old(running)
      ensures jobs == Marked(old(jobs), f) && launches == old(launches) + [f]
      ensures LaunchStepped(old(steps), old(jobs)) && !IsPending(steps, jobs, f)
      ensures f.step in steps && steps == old(steps)[f.step := steps[f.step]]
      ensures inj == old(inj) && (old(stopped) ==> stopped)
    {
      hide Core, BusyBut, StepAdvances, Marked, Unrecorded, Recorded, Ran, NoMorePending, SameStarted, Advances;
      PendingFacts(f);
      MarkedOnlyFlags(jobs, f);
      MarkRemovesPending(steps, jobs, f);
      CrashReply(plan.byId[f.step], jobs[f.step][f.job].inputs, jobs[f.step][f.job].index);
      assert f == Flight(f.step, f.job) && f !in inFlight;
      MarkCrashed(f);
      label marked:
      assert Open(steps[f.step]);
      Record(f.step, f.job, NoReply);
      OneMoreKeepsPending(old(steps), jobs, f.step, steps[f.step], f.job);
      OneStepAdvances(old(steps), f.step, steps[f.step]);
      NoMorePendingTransitive(old(steps), old(jobs), old(steps), jobs, steps, jobs);
    }

    /** Builds one invocation's call and hands it to its handler. */
    method Launch(f: Flight)
      requires Valid() && IsPending(steps, jobs, f) && HasCapacity()
      modifies this
      ensures Valid() && LaunchStepped(old(steps), old(jobs)) && !IsPending(steps, jobs, f)
      ensures f.step in steps && steps == old(steps)[f.step := steps[f.step]] && jobs.Keys == old(jobs.Keys)
      ensures inj == old(inj) && (old(stopped) ==> stopped)
      ensures jobs == Marked(old(jobs), f) && launches == old(launches) + [f]
      ensures if CallBuilt(plan, old(jobs), f) then
                steps == old(steps) && inFlight == old(inFlight) + {f} && f !in old(inFlight)
              else inFlight == old(inFlight)
    {
      hide Core, BusyBut, StepAdvances, Marked, NoMorePending;
      PendingFacts(f);
      MarkedOnlyFlags(jobs, f);
      var job := jobs[f.step][f.job];
      var call := plan.byId[f.step].prepare(job.inputs, job.index);
      if call.Err? {
        Crash(f);
        return;
      }
      MarkRemovesPending(steps, jobs, f);
      AdvancesReflexive(steps);
      TakeOff(f);
      assert old(steps)[f.step := steps[f.step]] == steps;
    }

    /** The state is as it was. */
    twostate predicate Untouched()
      reads this
    {
      && steps == old(steps) && jobs == old(jobs) && inFlight == old(inFlight) && running == old(running)
      && stopped == old(stopped) && launches == old(launches)
    }

    lemma LiveLengths(id: string)
      requires Core() && id in steps && Open(steps[id])
      ensures id in plan.byId && id in jobs && |jobs[id]| == |steps[id].jobs|
    {
      hide WellFormed, SnapOk, LaunchesOk, FlightsOk, Counted;
    }

    lemma SteppedTransitive(steps0: Steps, jobs0: map<string, seq<RunJob>>, steps1: Steps,
                            jobs1: map<string, seq<RunJob>>)
      requires Advances(steps0, steps1) && SameStarted(steps0, steps1) && NoMorePending(steps0, jobs0, steps1, jobs1)
      requires LaunchStepped(steps1, jobs1)
      ensures LaunchStepped(steps0, jobs0)
    {
      hide StepAdvances, IsPending;
      AdvancesTransitive(steps0, steps1, steps);
      NoMorePendingTransitive(steps0, jobs0, steps1, jobs1, steps, jobs);
    }

    /** Launches one step's pending invocations; stops early when the cap is full. */
    method LaunchStep(id: string) returns (proceed: bool, launched: bool)
      requires Valid() && id in steps && Open(steps[id])
      modifies this
      ensures Valid() && LaunchStepped(old(steps), old(jobs)) && inj == old(inj) && (old(stopped) ==> stopped)
      ensures launched ==> Used(old(steps), old(jobs), steps, jobs)
      ensures !launched ==> Untouched()
      ensures !launched && !proceed ==> !HasCapacity()
      ensures !launched && proceed ==> forall k: nat :: !IsPending(steps, jobs, Flight(id, k))
    {
      hide Core, BusyBut, StepAdvances, NoMorePending, SameStarted, Advances;
      LiveLengths(id);
      launched := false;
      StartsStepped();
      var n := |jobs[id]|;
      for k := 0 to n
        invariant Valid() && LaunchStepped(old(steps), old(jobs)) && inj == old(inj) && (old(stopped) ==> stopped)
        invariant id in steps && id in jobs
        invariant launched ==> Used(old(steps), old(jobs), steps, jobs)
        invariant !launched ==> Untouched() && forall j: nat :: j < k ==> !IsPending(steps, jobs, Flight(id, j))
      {
        if !HasCapacity() || steps[id].status != Unset {
          return false, launched;
        }
        StillOpen(id, old(steps), old(jobs));
        if jobs[id][k].dispatched || steps[id].jobs[k].status != Unset {
          continue;
        }
        label before:
        Launch(Flight(id, k));
        SteppedTransitive(old(steps), old(jobs), old@before(steps), old@before(jobs));
        NowUsed(old(steps), old(jobs), old@before(steps), old@before(jobs), Flight(id, k));
        launched := true;
      }
      return true, launched;
    }

    lemma StartsStepped()
      ensures LaunchStepped(steps, jobs)
    {
      AdvancesReflexive(steps);
    }

    lemma StillOpen(id: string, steps0: Steps, jobs0: map<string, seq<RunJob>>)
      requires Core() && id in steps && steps[id].status == Unset && LaunchStepped(steps0, jobs0)
      requires id in steps0 && Open(steps0[id])
      ensures Open(steps[id]) && |steps[id].jobs| == |steps0[id].jobs| && id in jobs && |jobs[id]| == |steps[id].jobs|
    {
      hide Core;
      assert StepAdvances(Rec(steps0, id), Rec(steps, id));
      LiveLengths(id);
    }

    lemma NowUsed(steps0: Steps, jobs0: map<string, seq<RunJob>>, steps1: Steps, jobs1: map<string, seq<RunJob>>,
                  f: Flight)
      requires NoMorePending(steps0, jobs0, steps1, jobs1) && IsPending(steps1, jobs1, f) && !IsPending(steps, jobs, f)
      ensures Used(steps0, jobs0, steps, jobs)
    {
      assert IsPending(steps0, jobs0, f);
    }

    /** Launches pending invocations in document order, up to the cap; a stopped loop launches nothing. */
    method LaunchPending() returns (launched: bool)
      requires Valid()
      modifies this
      ensures Valid() && LaunchStepped(old(steps), old(jobs)) && inj == old(inj) && (old(stopped) ==> stopped)
      ensures launched ==> Used(old(steps), old(jobs), steps, jobs) && !old(stopped)
      ensures !launched ==> Untouched()
      ensures !launched && !stopped && HasCapacity() ==> forall f :: !IsPending(steps, jobs, f)
    {
      hide Core, BusyBut, StepAdvances, NoMorePending, SameStarted, Advances, WellFormed;
      StartsStepped();
      launched := false;
      if stopped {
        return;
      }
      for i := 0 to |plan.order|
        invariant Valid() && LaunchStepped(old(steps), old(jobs)) && inj == old(inj) && (old(stopped) ==> stopped)
        invariant launched ==> Used(old(steps), old(jobs), steps, jobs)
        invariant !launched ==> Untouched() && forall j, k: nat :: 0 <= j < i ==>
            !IsPending(steps, jobs, Flight(plan.order[j], k))
      {
        var id := plan.order[i];
        if id !in steps || !Open(steps[id]) {
          continue;
        }
        label before:
        var proceed, some := LaunchStep(id);
        SteppedTransitive(old(steps), old(jobs), old@before(steps), old@before(jobs));
        if some {
          UsedBefore(old(steps), old(jobs), old@before(steps), old@before(jobs));
          launched := true;
        }
        if !proceed {
          return;
        }
      }
      if !launched {
        NothingPending();
      }
    }

    lemma UsedBefore(steps0: Steps, jobs0: map<string, seq<RunJob>>, steps1: Steps, jobs1: map<string, seq<RunJob>>)
      requires NoMorePending(steps0, jobs0, steps1, jobs1) && Used(steps1, jobs1, steps, jobs)
      ensures Used(steps0, jobs0, steps, jobs)
    {
      var f :| IsPending(steps1, jobs1, f) && !IsPending(steps, jobs, f);
      assert IsPending(steps0, jobs0, f);
    }

    lemma NothingPending()
      requires Core()
      requires forall j, k: nat :: 0 <= j < |plan.order| ==> !IsPending(steps, jobs, Flight(plan.order[j], k))
      ensures forall f :: !IsPending(steps, jobs, f)
    {
      hide LiveOk, FlightsOk, LaunchesOk, Counted, StepOk, Grounded;
      forall f ensures !IsPending(steps, jobs, f) {
        if f.step in plan.order {
          var j :| 0 <= j < |plan.order| && plan.order[j] == f.step;
          assert f == Flight(plan.order[j], f.job);
        } else {
          assert f.step !in steps;
        }
      }
    }

    // ---- starting ----

    method SourceLookup(source: string) returns (v: Option<Value>)
      ensures v == SourceValue(plan, inputs, ProducedOf(steps), source)
    {
      if source !in plan.sources {
        return None;
      }
      var ref := plan.sources[source];
      if ref.step == "" {
        return Some(Lookup(inputs, ref.port));
      }
      if ref.step !in steps || !ProducedStep(steps[ref.step]) {
        return None;
      }
      return Some(Lookup(steps[ref.step].outputs, ref.port));
    }

    method ReadSink(sink: Sink) returns (r: Result<Value>)
      ensures r == SinkValue(plan, inputs, ProducedOf(steps), sink)
    {
      var values := [];
      for i := 0 to |sink.sources|
        invariant SourceValues(plan, inputs, ProducedOf(steps), sink.sources[..i]) == Some(values)
      {
        assert sink.sources[..i + 1][..i] == sink.sources[..i];
        var v := SourceLookup(sink.sources[i]);
        if v.None? {
          NoneStays(ProducedOf(steps), sink.sources, i + 1);
          return Err(Incomplete);
        }
        values := values + [v.value];
      }
      assert sink.sources[..|sink.sources|] == sink.sources;
      return sink.settle(values);
    }

    lemma {:induction false} NoneStays(produced: map<string, Obj>, sources: seq<string>, i: nat)
      requires i <= |sources| && SourceValues(plan, inputs, produced, sources[..i]).None?
      ensures SourceValues(plan, inputs, produced, sources).None?
      decreases |sources| - i
    {
      if i == |sources| {
        assert sources[..i] == sources;
      } else {
        assert sources[..i + 1][..i] == sources[..i];
        NoneStays(produced, sources, i + 1);
      }
    }

    /** A step's input object: its sources, defaults and loads, or the run's own inputs for an implicit step. */
    method StepInputObject(step: Step) returns (r: Result<Obj>)
      ensures r == StepInputs(plan, inputs, ProducedOf(steps), step) && InputsFollow(plan, inputs, steps, step, r)
    {
      hide InputsFollow;
      StepInputsFollow(plan, inputs, steps, step);
      if step.implicit {
        return Ok(WithDefaults(inputs, step.defaults));
      }
      var bound: Obj := map[];
      for i := 0 to |step.ins|
        invariant BoundInputs(plan, inputs, ProducedOf(steps), step.ins[..i]) == Ok(bound)
      {
        assert step.ins[..i + 1][..i] == step.ins[..i];
        var v := ReadSink(step.ins[i]);
        if v.Err? {
          ErrStays(ProducedOf(steps), step.ins, i + 1);
          return Err(v.error);
        }
        bound := bound[step.ins[i].name := v.value];
      }
      assert step.ins[..|step.ins|] == step.ins;
      return step.fill(bound);
    }

    lemma {:induction false} ErrStays(produced: map<string, Obj>, ins: seq<Sink>, i: nat)
      requires i <= |ins| && BoundInputs(plan, inputs, produced, ins[..i]).Err?
      ensures BoundInputs(plan, inputs, produced, ins) == BoundInputs(plan, inputs, produced, ins[..i])
      decreases |ins| - i
    {
      if i == |ins| {
        assert ins[..i] == ins;
      } else {
        assert ins[..i + 1][..i] == ins[..i];
        ErrStays(produced, ins, i + 1);
      }
    }

    /** What is known of a step that is about to start. */
    lemma Groundwork(id: string)
      requires Core() && id in plan.byId && !Rec(steps, id).started && Grounded(plan, steps, id)
      ensures DepsProduce(E(), inj, id) && VerdictOf(E(), inj, id) == Judge(plan.byId[id], inj, InputsOf(E(), inj, id))
      ensures StepInputs(plan, inputs, ProducedOf(steps), plan.byId[id]) == InputsOf(E(), inj, id)
      ensures plan.byId[id].id == id && Rec(steps, id) == FreshStep
      ensures forall a :: a in inj ==> a.step != id
      ensures forall f :: f in inFlight ==> f.step != id
    {
      hide LiveOk, LaunchesOk, Counted, Judge;
      GroundedInputs(E(), inj, steps, id);
      forall f | f in inFlight ensures f.step != id {
        assert Unrecorded(steps, f);
      }
    }

    lemma AdoptKeeps(id: string, live: seq<RunJob>)
      requires Core() && !Rec(steps, id).started
      ensures LiveOk(E(), inj, steps, jobs[id := live], inFlight + reporting)
      ensures LaunchesOk(steps, jobs[id := live], launches) && CallsOk(plan, jobs[id := live], inFlight)
    {
      hide WellFormed, SnapOk, LiveStep, Counted;
      forall f | f in inFlight ensures f.step != id && CallBuilt(plan, jobs, f) {
        assert f in inFlight + reporting && Unrecorded(steps, f);
      }
    }

    /** Installs the invocations of a step that has not started. */
    method Adopt(id: string, live: seq<RunJob>)
      requires Valid() && !Rec(steps, id).started
      modifies this`jobs
      ensures Valid() && jobs == old(jobs)[id := live]
    {
      hide WellFormed, SnapOk, BusyBut, SomeFailed, EnvOk;
      AdoptKeeps(id, live);
      jobs := jobs[id := live];
    }

    /** A step that cannot start fails for good. */
    method Refuse(id: string, marked: seq<JobState>, shape: Option<Dims>)
      requires Valid() && id in plan.byId && Rec(steps, id) == FreshStep && Grounded(plan, steps, id)
      requires DepsProduce(E(), inj, id) && VerdictOf(E(), inj, id) == Done(PermanentFail, map[])
      requires forall f :: f in inFlight ==> f.step != id
      requires forall k :: 0 <= k < |marked| ==> marked[k].status != Suspended
      modifies this`steps, this`reporting, this`stopped
      ensures Valid() && id in steps && steps == old(steps)[id := steps[id]] && steps[id].started
      ensures steps[id].status == PermanentFail && stopped == (old(stopped) || !cfg.continueOnError)
    {
      hide WellFormed, EnvOk, SnapOk, LiveOk, FlightsOk, LaunchesOk, SomeFailed, Counted, VerdictOf, Grounded;
      FailStepWith(id, StepState(true, Unset, map[], marked, shape), PermanentFail);
    }

    /** Records a step as started with its gated invocations. */
    method Install(id: string, r: StepState)
      requires Valid() && id in plan.byId && Rec(steps, id) == FreshStep && Grounded(plan, steps, id) && Open(r)
      requires DepsProduce(E(), inj, id) && OpenOk(plan.byId[id], inj, InputsOf(E(), inj, id), r)
      requires id in jobs && LiveStep(plan.byId[id], InputsOf(E(), inj, id), id, r, jobs[id], inFlight)
      requires forall f :: f in inFlight ==> f.step != id
      modifies this`steps, this`reporting
      ensures Core() && reporting == {} && BusyBut(steps, Some(id)) && steps == old(steps)[id := r]
    {
      hide WellFormed, EnvOk, SnapOk, LiveOk, FlightsOk, LaunchesOk, SomeFailed, Counted, VerdictOf, Grounded, LiveStep;
      hide OpenOk;
      assert StepOk(E(), inj, id, r);
      Put(id, r);
    }

    /** Resolves a ready step's inputs, expands its scatter, gates its invocations and records them. */
    method StartStep(id: string)
      requires Valid() && id in plan.byId && !Rec(steps, id).started && Grounded(plan, steps, id)
      modifies this
      ensures Valid() && id in steps && steps == old(steps)[id := steps[id]] && steps[id].started
      ensures StartsAs(plan.byId[id], InputsOf(E(), inj, id), steps[id])
      ensures inFlight == old(inFlight) && running == old(running) && inj == old(inj) && launches == old(launches)
      ensures stopped == (old(stopped) || (Failing(steps[id].status) && !cfg.continueOnError))
    {
      hide Core, BusyBut, VerdictOf, InputsOf, DepsProduce, Expand, StepInputs, Grounded, OpenOk, LiveStep, Reduce;
      Groundwork(id);
      var step := plan.byId[id];
      var resolved := StepInputObject(step);
      if resolved.Err? {
        Refuse(id, [], None);
        RefusedAs(step, resolved, steps[id]);
        return;
      }
      var expanded := ExpandJobs(step, resolved.value);
      if expanded.Err? {
        Refuse(id, [], None);
        RefusedAs(step, resolved, steps[id]);
        return;
      }
      AdmitJobs(id, resolved.value, expanded.value);
    }

    /** Gates a starting step's invocations and records them. */
    method AdmitJobs(id: string, x: Obj, expanded: Expanded)
      requires Valid() && id in plan.byId && Rec(steps, id) == FreshStep && Grounded(plan, steps, id)
      requires DepsProduce(E(), inj, id) && VerdictOf(E(), inj, id) == Judge(plan.byId[id], inj, InputsOf(E(), inj, id))
      requires InputsOf(E(), inj, id) == Ok(x) && Expand(plan.byId[id], x) == Ok(expanded)
      requires plan.byId[id].id == id
      requires (forall a :: a in inj ==> a.step != id) && forall f :: f in inFlight ==> f.step != id
      modifies this
      ensures Valid() && id in steps && steps == old(steps)[id := steps[id]] && steps[id].started
      ensures StartsAs(plan.byId[id], InputsOf(E(), inj, id), steps[id])
      ensures inFlight == old(inFlight) && running == old(running) && inj == old(inj) && launches == old(launches)
      ensures stopped == (old(stopped) || (Failing(steps[id].status) && !cfg.continueOnError))
    {
      hide Core, BusyBut, VerdictOf, InputsOf, DepsProduce, Expand, StepInputs, Grounded, OpenOk, LiveStep, Reduce;
      hide StartsAs, Judge, AllTerminal, StepAdvances, SeedsOf, StartsOpen, Gated;
      var step := plan.byId[id];
      var seeds := expanded.seeds;
      var untried := seq(|seeds|, k requires 0 <= k < |seeds| => RunJob(seeds[k].inputs, seeds[k].index, false));
      var recorded := seq(|seeds|, k requires 0 <= k < |seeds| => FreshJob(seeds[k].index));
      var gated, marked, ok := GateJobs(step, untried, recorded);
      Adopt(id, gated);
      if !ok {
        RejectedVerdict(step, inj, x);
        Refuse(id, marked, expanded.shape);
        RefusedAs(step, Ok(x), steps[id]);
        IsStarted(step, Ok(x), steps[id]);
        return;
      }
      GatedStep(step, inj, x, untried, gated, marked, inFlight);
      InstallJobs(id, x, StepState(true, Unset, map[], marked, expanded.shape));
    }

    /** Records a step whose invocations were gated, and finishes it if all of them were skipped. */
    method InstallJobs(id: string, ghost x: Obj, r: StepState)
      requires Valid() && id in plan.byId && Rec(steps, id) == FreshStep && Grounded(plan, steps, id) && Open(r)
      requires DepsProduce(E(), inj, id) && OpenOk(plan.byId[id], inj, InputsOf(E(), inj, id), r)
      requires id in jobs && LiveStep(plan.byId[id], InputsOf(E(), inj, id), id, r, jobs[id], inFlight)
      requires forall f :: f in inFlight ==> f.step != id
      requires InputsOf(E(), inj, id) == Ok(x) && StartsOpen(plan.byId[id], x, r)
      modifies this`steps, this`reporting, this`stopped
      ensures Valid() && id in steps && steps == old(steps)[id := steps[id]] && steps[id].started
      ensures StartsAs(plan.byId[id], InputsOf(E(), inj, id), steps[id])
      ensures stopped == (old(stopped) || (Failing(steps[id].status) && !cfg.continueOnError))
    {
      hide Core, BusyBut, VerdictOf, InputsOf, DepsProduce, Expand, Grounded, OpenOk, LiveStep, Reduce, StartsAs;
      hide StartsOpen, AllTerminal, StepAdvances;
      Install(id, r);
      FinishIfComplete(id);
      InstalledAs(plan.byId[id], x, r, steps[id]);
      IsStarted(plan.byId[id], Ok(x), steps[id]);
    }

    method Ready(id: string) returns (ready: bool)
      requires id in plan.byId
      ensures ready <==> Grounded(plan, steps, id)
    {
      var deps := plan.byId[id].deps;
      for i := 0 to |deps|
        invariant forall k :: 0 <= k < i ==> deps[k] in steps && ProducedStep(steps[deps[k]])
      {
        if deps[i] !in steps || !ProducedStep(steps[deps[i]]) {
          return false;
        }
      }
      return true;
    }

    lemma UnstartedAreFresh()
      requires Core()
      ensures Indexed(plan.order, plan.byId)
      ensures forall id :: !Rec(steps, id).started ==> Rec(steps, id) == FreshStep
    {
      hide LiveOk, FlightsOk, LaunchesOk, Counted;
    }

    /** Starts every ready step in one pass over the plan; the stop flag is read only on entry. */
    method StartReadySteps() returns (progressed: bool)
      requires Valid()
      modifies this
      ensures Valid() && inFlight == old(inFlight) && running == old(running) && inj == old(inj)
      ensures launches == old(launches)
      ensures StartedKept(old(steps), steps) && Advances(old(steps), steps) && (old(stopped) ==> stopped)
      ensures progressed ==> !old(stopped) && NewlyStarted(plan, old(steps), steps)
      ensures !progressed ==> Untouched()
      ensures !progressed && !stopped ==> NoneReady(plan, steps, |plan.order|)
      ensures !old(stopped) && Topological(plan) ==> NoneReady(plan, steps, |plan.order|)
      ensures WaitsForLater(plan, old(steps), steps, |plan.order|)
      ensures JustStarted(E(), inj, old(steps), steps) && (stopped ==> old(stopped) || NewFailure(old(steps), steps))
    {
      hide Core, BusyBut, StepAdvances, Topological, Advances, Grounded, NoneReady, WaitsForLater, Indexed;
      hide StartsAs, JustStarted, NewFailure;
      EnvHere();
      NoneStartedYet(E(), inj, steps);
      UnstartedAreFresh();
      progressed := false;
      KeptAdvances(steps, steps);
      BeginPass(plan, steps);
      if stopped {
        return;
      }
      for i := 0 to |plan.order|
        invariant Valid() && inFlight == old(inFlight) && running == old(running) && inj == old(inj)
        invariant launches == old(launches)
        invariant StartedKept(old(steps), steps) && (old(stopped) ==> stopped)
        invariant progressed ==> NewlyStarted(plan, old(steps), steps)
        invariant !progressed ==> Untouched() && NoneReady(plan, steps, i)
        invariant Topological(plan) ==> NoneReady(plan, steps, i)
        invariant WaitsForLater(plan, old(steps), steps, i)
        invariant EnvOk(E()) && JustStarted(E(), inj, old(steps), steps) && (stopped ==> NewFailure(old(steps), steps))
        invariant forall j :: i <= j < |plan.order| ==> Rec(steps, plan.order[j]) == Rec(old(steps), plan.order[j])
      {
        OrderIsPlan(i);
        var id := plan.order[i];
        var ready := Ready(id);
        if Rec(steps, id).started || !ready {
          SkipKeeps(plan, old(steps), steps, i);
          continue;
        }
        ghost var before := steps;
        StartStep(id);
        StartKeepsWaits(plan, old(steps), before, i, steps[id]);
        OneMoreStarted(E(), inj, old(steps), before, id, steps[id]);
        if Topological(plan) {
          LaterKeepsNoneReady(plan, before, i, steps[id]);
        }
        assert NewlyStarted(plan, old(steps), steps);
        progressed := true;
      }
      KeptAdvances(old(steps), steps);
    }

    lemma EnvHere()
      requires Valid()
      ensures EnvOk(E())
    {}

    lemma OrderIsPlan(i: nat)
      requires Indexed(plan.order, plan.byId) && i < |plan.order|
      ensures plan.order[i] in plan.byId
      ensures forall j :: 0 <= j < |plan.order| && j != i ==> plan.order[j] != plan.order[i]
    {}

    // ---- the loop ----

    /** Starts ready steps and launches pending invocations until neither makes progress. */
    method Dispatch()
      requires Valid()
      modifies this
      ensures Valid() && Advances(old(steps), steps) && inj == old(inj) && (old(stopped) ==> stopped)
      ensures !stopped ==> NoneReady(plan, steps, |plan.order|)
      ensures !stopped && HasCapacity() ==> forall f :: !IsPending(steps, jobs, f)
      ensures Untouched() || Shrunk(plan, old(steps), old(jobs), steps, jobs)
    {
      hide Core, BusyBut, StepAdvances, Advances, NoneReady, StartedKept, NewlyStarted, SameStarted, NoMorePending;
      hide Pending, Unstarted;
      AdvancesReflexive(steps);
      while true
        invariant Valid() && Advances(old(steps), steps) && inj == old(inj) && (old(stopped) ==> stopped)
        invariant Untouched() || Shrunk(plan, old(steps), old(jobs), steps, jobs)
        decreases Unstarted(plan, steps), Pending(steps, jobs)
      {
        ghost var steps0, jobs0 := steps, jobs;
        var started := StartReadySteps();
        ghost var steps1, jobs1 := steps, jobs;
        var launched := LaunchPending();
        if !started && !launched {
          return;
        }
        IterationShrinks(plan, steps0, jobs0, steps1, jobs1, steps, jobs, started);
        AdvancesTransitive(old(steps), steps0, steps1);
        AdvancesTransitive(old(steps), steps1, steps);
        ShrunkTransitive(plan, old(steps), old(jobs), steps0, jobs0, steps, jobs);
      }
    }

    /** The handler's reply to one invocation. */
    function ReplyOf(f: Flight): Reply
      requires CallBuilt(plan, jobs, f)
      reads this
    {
      var step, job := plan.byId[f.step], jobs[f.step][f.job];
      step.handler(Declared(step, job.inputs), job.index)
    }

    /** Takes an invocation's report off the channel. */
    method Land(f: Flight)
      requires Valid() && f in inFlight
      modifies this`inFlight, this`running, this`reporting
      ensures Core() && BusyBut(steps, None) && reporting == {f}
      ensures inFlight == old(inFlight) - {f} && running == old(running) - 1
    {
      hide WellFormed, EnvOk, SnapOk, SomeFailed, LaunchesOk, LiveOk, BusyBut, FlightsOk, CallBuilt;
      inFlight := inFlight - {f};
      running := running - 1;
      reporting := {f};
      assert inFlight + reporting == old(inFlight) + old(reporting);
    }

    /** One invocation reports back: its handler's reply is folded in. */
    method Finish(f: Flight, reply: Reply)
      requires Valid() && f in inFlight && CallBuilt(plan, jobs, f) && reply == ReplyOf(f)
      modifies this
      ensures Valid() && inFlight == old(inFlight) - {f} && running == old(running) - 1
      ensures jobs == old(jobs) && inj == old(inj) && launches == old(launches)
      ensures f.step in steps && steps == old(steps)[f.step := steps[f.step]] && Advances(old(steps), steps)
      ensures stopped == (old(stopped) || (Failing(steps[f.step].status) && !cfg.continueOnError))
      ensures !Unrecorded(steps, f)
      ensures SameStarted(old(steps), steps) && NoMorePending(old(steps), jobs, steps, jobs)
    {
      hide Core, BusyBut, StepAdvances, NoMorePending, SameStarted, Advances, Recorded, Unrecorded;
      InFlightFacts(f);
      Land(f);
      Record(f.step, f.job, reply);
      OneMoreKeepsPending(old(steps), jobs, f.step, steps[f.step], f.job);
      OneStepAdvances(old(steps), f.step, steps[f.step]);
      NowRecorded(steps, f);
    }

    lemma InFlightFacts(f: Flight)
      requires Valid() && f in inFlight
      ensures Unrecorded(steps, f) && f == Flight(f.step, f.job) && CallBuilt(plan, jobs, f)
      ensures f.step in steps && Open(steps[f.step]) && f.job < |steps[f.step].jobs|
      ensures Recorded(plan.byId[f.step], ReplyOf(f), steps[f.step].jobs[f.job].index)
           == Ran(plan.byId[f.step], jobs[f.step][f.job].inputs, steps[f.step].jobs[f.job].index)
    {
      hide LaunchesOk, Counted, Recorded, BusyBut;
      assert Unrecorded(steps, f);
      Outstanding(f.step, f.job);
    }

    /**
     * What every reachable state of either driver keeps: the invocations out are exactly those dispatched and
     * not yet recorded, `running` counts them and stays within the cap, none is launched twice, and a started
     * step stands on dependencies that produced.
     */
    lemma InEveryState()
      requires Valid()
      ensures forall f :: f in inFlight <==> Unrecorded(steps, f) && Dispatched(steps, jobs, f)
      ensures running == |inFlight| && (cfg.maxParallel > 0 ==> running <= cfg.maxParallel)
      ensures forall i, j :: 0 <= i < j < |launches| ==> launches[i] != launches[j]
      ensures forall id :: id in steps && steps[id].started ==> id in plan.byId && Grounded(plan, steps, id)
      ensures RecordsFollow(plan, inputs, inj, steps)
    {
      hide LiveOk, FlightsOk, CallsOk, SomeFailed, BusyBut, WellFormed, EnvOk, Unrecorded, Dispatched, StepOk, Grounded;
      hide RecordFollows;
      SnapFollows(E(), inj, steps);
      forall f ensures f in inFlight <==> Unrecorded(steps, f) && Dispatched(steps, jobs, f) {
        OutIsDispatched(f);
      }
    }

    lemma OutIsDispatched(f: Flight)
      requires Valid()
      ensures f in inFlight <==> Unrecorded(steps, f) && Dispatched(steps, jobs, f)
    {
      hide SnapOk, LiveOk, LaunchesOk, CallsOk, Counted, BusyBut, WellFormed, EnvOk, OpenOk, LiveStep, DepsProduce;
      hide AcceptedFit;
      assert f == Flight(f.step, f.job);
      if Unrecorded(steps, f) {
        Outstanding(f.step, f.job);
      }
    }

    /** Whatever is out was let through by its step's gate. */
    lemma Admits(f: Flight) returns (x: Obj)
      requires Valid() && f in inFlight
      ensures f.step in plan.byId && GateOf(plan.byId[f.step], x).Admitted?
    {
      hide SnapOk, LiveOk, FlightsOk, LaunchesOk, CallsOk, Counted, EnvOk, WellFormed, BusyBut, Recorded, CallBuilt;
      hide Ran, GateOf, OpenOk, Grounded, AcceptedFit;
      InFlightFacts(f);
      Outstanding(f.step, f.job);
      x := SeedsOf(plan.byId[f.step], InputsOf(E(), inj, f.step))[f.job].inputs;
    }

    lemma QuietHere()
      requires Valid() && inFlight == {} && NoneReady(plan, steps, |plan.order|)
      requires forall f :: !IsPending(steps, jobs, f)
      ensures Quiet(plan, steps)
    {
      hide SnapOk, LaunchesOk, Counted, CallsOk, EnvOk;
      forall id | id in plan.byId && !Rec(steps, id).started ensures !Grounded(plan, steps, id) {
        var i :| 0 <= i < |plan.order| && plan.order[i] == id;
      }
      forall id, k: nat | id in steps && Open(steps[id]) && k < |steps[id].jobs|
        ensures steps[id].jobs[k].status != Unset
      {
        if steps[id].jobs[k].status == Unset {
          OutstandingIsPending(id, k);
        }
      }
    }

    lemma OutstandingIsPending(id: string, k: nat)
      requires Valid() && inFlight == {} && Unrecorded(steps, Flight(id, k))
      ensures IsPending(steps, jobs, Flight(id, k))
    {
      hide SnapOk, LaunchesOk, Counted, CallsOk, EnvOk, LiveOk, LiveStep, WellFormed, FlightsOk;
      Outstanding(id, k);
    }

    /** A loop that stopped has recorded a failure, so the meaning of the run has one. */
    lemma StoppedByFailure()
      requires Core() && stopped
      ensures !cfg.continueOnError && SomeFails(E(), inj)
    {
      hide LiveOk, FlightsOk, LaunchesOk, CallsOk, WellFormed, Grounded;
      var id :| id in steps && Failing(steps[id].status);
      assert StepOk(E(), inj, id, steps[id]);
    }

    /**
     * Dispatches and waits until nothing is running; `patience` is how many completions arrive before
     * the context is cancelled. Which invocation reports next is arbitrary.
     */
    method Execute(patience: Option<nat>) returns (finished: bool)
      requires Valid()
      modifies this
      ensures Valid() && Advances(old(steps), steps) && inj == old(inj)
      ensures patience.None? ==> finished
      ensures finished ==> running == 0 && inFlight == {}
      ensures finished && !stopped ==> FinalState(E(), inj, steps)
      ensures stopped ==> !cfg.continueOnError && SomeFails(E(), inj)
    {
      hide Core, BusyBut, StepAdvances, Advances, NoneReady, NoMorePending, Pending, Unstarted, FinalState, Quiet;
      hide SomeFails, CallBuilt;
      AdvancesReflexive(steps);
      var completions := 0;
      while true
        invariant Valid() && Advances(old(steps), steps) && inj == old(inj)
        invariant patience.Some? ==> completions <= patience.value
        decreases Unstarted(plan, steps), Pending(steps, jobs), inFlight
      {
        ghost var steps0, jobs0, flying := steps, jobs, inFlight;
        Dispatch();
        AdvancesTransitive(old(steps), steps0, steps);
        if stopped {
          StoppedByFailure();
        }
        if running == 0 {
          NothingFlies();
          if !stopped {
            QuietHere();
            FinalHere();
          }
          return true;
        }
        if patience == Some(completions) {
          return false;
        }
        SomethingFlies();
        var f :| f in inFlight;
        ghost var steps1 := steps;
        InFlightFacts(f);
        Finish(f, ReplyOf(f));
        completions := completions + 1;
        AdvancesTransitive(old(steps), steps1, steps);
        SameUnstarted(plan, steps1, steps);
        PendingShrinks(steps1, jobs, steps, jobs);
      }
    }

    lemma NothingFlies()
      requires Core() && running == 0
      ensures inFlight == {} && HasCapacity()
    {
      hide WellFormed, SnapOk, LiveOk, FlightsOk, LaunchesOk, CallsOk;
    }

    lemma SomethingFlies()
      requires Core() && running != 0
      ensures inFlight != {}
    {
      hide WellFormed, SnapOk, LiveOk, FlightsOk, LaunchesOk, CallsOk;
    }

    lemma FinalHere()
      requires Core() && Quiet(plan, steps)
      ensures FinalState(E(), inj, steps)
    {
      hide LiveOk, FlightsOk, LaunchesOk, CallsOk, WellFormed, SnapOk, Quiet;
      QuietIsFinal(E(), inj, steps);
    }

    // ---- starting and resuming ----

    constructor (plan: Plan, inputs: Obj, cfg: Config, steps: Steps, ghost rank: map<string, nat>, ghost inj: Injected)
      ensures this.plan == plan && this.inputs == inputs && this.cfg == cfg && this.rank == rank
      ensures this.steps == steps && this.inj == inj && jobs == map[] && running == 0 && !stopped
      ensures inFlight == {} && reporting == {} && launches == []
    {
      this.plan, this.inputs, this.cfg, this.rank := plan, inputs, cfg, rank;
      this.steps, this.inj, this.jobs := steps, inj, map[];
      running, stopped, inFlight, reporting, launches := 0, false, {}, {}, [];
    }

    /** Before the loop runs: a right snapshot, and no in-memory invocations. */
    ghost predicate Thawed()
      reads this
    {
      && WellFormed(plan) && EnvOk(E()) && SnapOk(E(), inj, steps)
      && inFlight == {} && reporting == {} && running == 0 && launches == []
      && (stopped ==> !cfg.continueOnError && SomeFailed(steps))
    }

    lemma ThawedIsValid()
      requires Thawed() && LiveUpTo(E(), inj, steps, jobs, |plan.order|)
      ensures Valid()
    {
      hide SomeFailed, LiveStep, WellFormed, EnvOk, SnapOk, AllTerminal;
      assert inFlight + reporting == {};
      AllLive();
    }

    lemma AllLive()
      requires Thawed() && LiveUpTo(E(), inj, steps, jobs, |plan.order|)
      ensures forall id :: id in steps && Open(steps[id]) ==> IsLive(E(), inj, steps, jobs, id)
    {
      hide SomeFailed, StepOk, Grounded, LiveStep, IsLive;
      forall id | id in steps && Open(steps[id]) ensures IsLive(E(), inj, steps, jobs, id) {
        var j :| 0 <= j < |plan.order| && plan.order[j] == id;
      }
    }

    lemma EmptyIsValid()
      requires Thawed() && steps == map[]
      ensures Valid()
    {
      ThawedIsValid();
    }

    /** Finds the suspended invocation an outcome addresses, and records the outcome if it is usable. */
    method InjectOne(r: ResumedStep) returns (err: Option<Error>)
      requires Thawed()
      modifies this`steps, this`inj
      ensures Thawed()
      ensures err.Some? ==> steps == old(steps) && inj == old(inj)
      ensures err.None? ==> r.stepId in plan.byId && Address(r.stepId, r.scatterIndex) !in old(inj)
      ensures err.None? ==> inj == old(inj)[Address(r.stepId, r.scatterIndex) := AcceptedJob(plan.byId[r.stepId], r)]
      ensures err.None? ==> Records(plan, old(steps), r, steps) && HoldsOutcome(plan, steps, r)
      ensures err == Refusal(plan, old(steps), r)
    {
      hide SnapOk, WellFormed, EnvOk, SomeFailed, AcceptedJob, HoldsOutcome;
      var found, at := FindSuspended(r);
      if !found {
        return Some(NoSuspension);
      }
      InjectSetting(r, at);
      var step := plan.byId[r.stepId];
      if !Usable(r.status) {
        return Some(ResumedStatus);
      }
      if r.status == Success && !OutputsAccepted(step, r.outputs) {
        return Some(UndeclaredResumedOutput);
      }
      ghost var before := steps;
      steps := WithJob(steps, r.stepId, at, AcceptedJob(step, r));
      assert RecordsAt(plan, before, r, at, steps);
      JobsAreStarted(E(), inj, before);
      RecordsHolds(plan, before, r, steps);
      inj := inj[Address(r.stepId, r.scatterIndex) := AcceptedJob(step, r)];
      return None;
    }

    lemma InjectSetting(r: ResumedStep, k: nat)
      requires Thawed() && AddressesJob(steps, r, k)
      ensures r.stepId in plan.byId
      ensures Usable(r.status) ==>
                && Address(r.stepId, r.scatterIndex) !in inj
                && SnapOk(E(), inj[Address(r.stepId, r.scatterIndex) := AcceptedJob(plan.byId[r.stepId], r)],
                          WithJob(steps, r.stepId, k, AcceptedJob(plan.byId[r.stepId], r)))
                && (SomeFailed(steps) ==> SomeFailed(WithJob(steps, r.stepId, k, AcceptedJob(plan.byId[r.stepId], r))))
    {
      hide StepOk, AcceptedJob;
      if Usable(r.status) {
        InjectKeepsSnap(E(), inj, steps, r, k);
        if SomeFailed(steps) {
          var id :| id in steps && Failing(steps[id].status);
          assert Failing(WithJob(steps, r.stepId, k, AcceptedJob(plan.byId[r.stepId], r))[id].status);
        }
      }
    }

    method FindSuspended(r: ResumedStep) returns (found: bool, at: nat)
      ensures found ==> AddressesJob(steps, r, at)
      ensures !found ==> forall k: nat :: !AddressesJob(steps, r, k)
    {
      at := 0;
      if r.stepId !in steps {
        return false, 0;
      }
      var recorded := steps[r.stepId].jobs;
      for k := 0 to |recorded|
        invariant forall j: nat :: j < k ==> !AddressesJob(steps, r, j)
      {
        if recorded[k].status == Suspended && recorded[k].index == r.scatterIndex {
          return true, k;
        }
      }
      return false, 0;
    }

    /**
     * Applies a batch of outcomes in order, stopping at the first one refused, with its error. A batch is
     * accepted exactly when each outcome is acceptable in the snapshot and no two answer one invocation.
     */
    method Inject(batch: seq<ResumedStep>) returns (err: Option<Error>)
      requires Thawed()
      modifies this`steps, this`inj
      ensures Thawed()
      ensures err == BatchRefusal(plan, old(steps), batch) && (err.None? <==> Accepts(plan, old(steps), batch))
      ensures var taken := batch[..FirstRefused(plan, old(steps), batch)];
              && inj == Answered(plan, old(inj), taken) && StillSuspended(old(steps), taken, steps)
              && forall i :: 0 <= i < |taken| ==> Usable(taken[i].status) && HoldsOutcome(plan, steps, taken[i])
      ensures err.None? ==> forall i :: 0 <= i < |batch| ==>
                batch[i].stepId in plan.byId && Address(batch[i].stepId, batch[i].scatterIndex) !in old(inj)
    {
      hide Thawed, AcceptedJob, AddressesJob, OutputsAccepted, FirstRefused, Refusal, StillSuspended, Accepts, Taken;
      hide BatchRefusal, Records, Answered, Usable, HoldsOutcome;
      FirstRefusedIs(plan, steps, batch);
      NothingTaken(plan, steps, inj, batch);
      for i := 0 to |batch|
        invariant Thawed() && Taken(plan, old(steps), old(inj), batch, i, steps, inj)
      {
        ghost var steps1, inj1 := steps, inj;
        ThawedSnap();
        var refused := InjectOne(batch[i]);
        if refused.Some? {
          NextRefusal(plan, old(steps), old(inj), batch, i, steps1, inj1);
          WhatIsTaken(old(steps), old(inj), batch, i);
          return refused;
        }
        TakenOneMore(E(), old(steps), old(inj), batch, i, steps1, inj1, steps, inj);
      }
      WhatIsTaken(old(steps), old(inj), batch, |batch|);
      assert batch[..|batch|] == batch;
      return None;
    }

    lemma ThawedSnap()
      requires Thawed()
      ensures EnvOk(E()) && Indexed(plan.order, plan.byId) && SnapOk(E(), inj, steps)
    {}

    lemma WhatIsTaken(steps0: Steps, inj0: Injected, batch: seq<ResumedStep>, i: nat)
      requires Taken(plan, steps0, inj0, batch, i, steps, inj)
      ensures i <= |batch| && inj == Answered(plan, inj0, batch[..i]) && StillSuspended(steps0, batch[..i], steps)
      ensures forall j :: 0 <= j < i ==> Usable(batch[..i][j].status) && HoldsOutcome(plan, steps, batch[..i][j])
      ensures forall j :: 0 <= j < i ==> batch[j].stepId in plan.byId && AddressOf(batch[j]) !in inj0
      ensures i == |batch| ==> FirstRefused(plan, steps0, batch) == i && BatchRefusal(plan, steps0, batch).None?
    {
      hide StillSuspended, FirstRefused;
      if i == |batch| {
        assert batch[..i] == batch;
      }
    }

    /** What is known of a started step when the loop resumes. */
    lemma RestartFacts(id: string)
      requires Thawed() && id in steps && Open(steps[id])
      ensures id in plan.byId && plan.byId[id].id == id && Grounded(plan, steps, id) && DepsProduce(E(), inj, id)
      ensures OpenOk(plan.byId[id], inj, InputsOf(E(), inj, id), steps[id]) && AcceptedFit(plan.byId[id], inj)
      ensures StepInputs(plan, inputs, ProducedOf(steps), plan.byId[id]) == InputsOf(E(), inj, id)
      ensures VerdictOf(E(), inj, id) == Judge(plan.byId[id], inj, InputsOf(E(), inj, id))
    {
      hide SomeFailed, Judge, OpenOk, EdgesResolved, KnownSources;
      assert StepOk(E(), inj, id, steps[id]);
      GroundedInputs(E(), inj, steps, id);
    }

    /**
     * Re-derives a started step's invocations, unless all of them are final. Against the same plan the
     * expansion always matches the record, and no gate refuses what it admitted before.
     */
    method Restart(id: string)
      requires Thawed() && id in steps && Open(steps[id])
      modifies this`jobs
      ensures Thawed()
      ensures jobs == old(jobs) || (id in jobs && jobs == old(jobs)[id := jobs[id]])
      ensures AllTerminal(steps[id]) || (EnvOk(E()) && IsLive(E(), inj, steps, jobs, id))
    {
      hide WellFormed, EnvOk, SnapOk, SomeFailed, VerdictOf, InputsOf, DepsProduce, StepInputs, Grounded, OpenOk;
      hide LiveStep, AcceptedFit, Judge;
      if !(exists k :: 0 <= k < |steps[id].jobs| && !Terminal(steps[id].jobs[k])) {
        return;
      }
      RestartFacts(id);
      OpenExpands(plan.byId[id], inj, InputsOf(E(), inj, id), steps[id]);
      var step, r := plan.byId[id], steps[id];
      var resolved := StepInputObject(step);
      var expanded := ExpandJobs(step, resolved.value);
      var seeds := expanded.value.seeds;
      if |seeds| != |r.jobs| || expanded.value.shape != r.shape {
        assert false;    // a state mismatch
      }
      var untried := seq(|seeds|, k requires 0 <= k < |seeds| => RunJob(seeds[k].inputs, seeds[k].index, false));
      var gated, marked, ok := GateJobs(step, untried, r.jobs);
      if !ok {
        ghost var k: nat :| k < |r.jobs| && GateOf(step, seeds[k].inputs).Rejected?;
        NoneRejected(step, inj, resolved, r, k);
        assert false;    // a gate that refuses
      }
      RegatedIsLive(step, inj, resolved, r, untried, gated, marked);
      jobs := jobs[id := gated];
      assert steps[id].(jobs := marked) == steps[id];
    }

    lemma OpenExpands(step: Step, inj: Injected, x: Result<Obj>, r: StepState)
      requires OpenOk(step, inj, x, r)
      ensures x.Ok? && Expand(step, x.value).Ok? && |Expand(step, x.value).value.seeds| == |r.jobs|
      ensures Expand(step, x.value).value.shape == r.shape && SeedsOf(step, x) == Expand(step, x.value).value.seeds
    {}

    /** Finishes a resumed step whose invocations are all final. */
    method FinishThawed(id: string)
      requires Thawed() && id in steps && Open(steps[id])
      modifies this`steps, this`stopped
      ensures Thawed() && Advances(old(steps), steps)
      ensures id in steps && steps == old(steps)[id := steps[id]]
      ensures if AllTerminal(old(steps[id])) then !Open(steps[id]) else steps == old(steps)
    {
      hide WellFormed, EnvOk, SnapOk, SomeFailed, VerdictOf, InputsOf, DepsProduce, StepInputs, Grounded, OpenOk;
      hide AcceptedFit, Judge, Reduce;
      AdvancesReflexive(steps);
      var r := steps[id];
      if exists k :: 0 <= k < |r.jobs| && !Terminal(r.jobs[k]) {
        return;
      }
      RestartFacts(id);
      TerminalDecides(plan.byId[id], inj, InputsOf(E(), inj, id), r);
      var done := Reduced(plan.byId[id], InputsOf(E(), inj, id), r);
      FinishedOk(id, done);
      PutKeepsSnap(E(), inj, steps, id, done);
      StillFailing(id, done);
      OneStepAdvances(steps, id, done);
      steps := steps[id := done];
      if Failing(done.status) && !cfg.continueOnError {
        FailedNow(id);
        stopped := true;
      }
    }

    lemma FailedNow(id: string)
      requires id in steps && Failing(steps[id].status)
      ensures SomeFailed(steps)
    {}

    /** Rebuilds the in-memory state of every started step; the resumed loop is then ready to run. */
    method RehydrateSteps()
      requires Thawed()
      modifies this`steps, this`jobs, this`stopped
      ensures Valid() && Advances(old(steps), steps)
    {
      hide Thawed, Advances, IsLive, Valid, AllTerminal, LiveUpTo, Indexed, EnvOk;
      AdvancesReflexive(steps);
      ThawedEnvOk();
      NoneLiveYet();
      for i := 0 to |plan.order|
        invariant Thawed() && Advances(old(steps), steps) && EnvOk(E()) && LiveUpTo(E(), inj, steps, jobs, i)
      {
        ThawedEnvOk();
        ghost var steps0, jobs0 := steps, jobs;
        var id := plan.order[i];
        if id in steps && Open(steps[id]) {
          Restart(id);
          FinishThawed(id);
          AdvancesTransitive(old(steps), steps0, steps);
        }
        ClosedIsLive(id);
        LiveOneMore(E(), inj, steps0, jobs0, steps, jobs, i);
      }
      ThawedIsValid();
    }

    lemma NoneLiveYet()
      requires EnvOk(E())
      ensures LiveUpTo(E(), inj, steps, jobs, 0)
    {}

    lemma ThawedEnvOk()
      requires Thawed()
      ensures EnvOk(E()) && Indexed(plan.order, plan.byId)
    {}

    lemma ClosedIsLive(id: string)
      requires EnvOk(E())
      ensures id !in steps || !Open(steps[id]) ==> IsLive(E(), inj, steps, jobs, id)
    {}

    // ---- the same state, driven from outside ----

    /** No step produces that had not. */
    ghost predicate NoneProduced(steps0: Steps)
      reads this
    {
      forall id :: ProducedStep(Rec(steps, id)) ==> ProducedStep(Rec(steps0, id))
    }

    /** A step one of whose invocations cannot be called never produces. */
    lemma CrashVerdict(f: Flight)
      requires Core() && IsPending(steps, jobs, f)
      requires f.step in plan.byId
      requires plan.byId[f.step].prepare(jobs[f.step][f.job].inputs, jobs[f.step][f.job].index).Err?
      ensures !ProducedVerdict(VerdictOf(E(), inj, f.step))
    {
      hide LaunchesOk, FlightsOk, CallsOk, Counted, LiveOk, SnapOk, WellFormed, LiveStep, Grounded, OpenOk;
      Outstanding(f.step, f.job);
      PendingFacts(f);
      CrashJudged(plan.byId[f.step], inj, InputsOf(E(), inj, f.step), steps[f.step], f.job, jobs[f.step][f.job]);
    }

    lemma CrashJudged(step: Step, inj: Injected, x: Result<Obj>, r: StepState, k: nat, job: RunJob)
      requires OpenOk(step, inj, x, r) && k < |r.jobs| && r.jobs[k].status == Unset && AcceptedFit(step, inj)
      requires GateOf(step, SeedsOf(step, x)[k].inputs) == Admitted(job.inputs) && job.index == r.jobs[k].index
      requires step.prepare(job.inputs, job.index).Err?
      ensures !ProducedVerdict(Judge(step, inj, x))
    {
      var e := Expand(step, x.value).value;
      assert JobOk(step, inj, e.seeds[k], r.jobs[k]);
      JobIndex(step, inj, e.seeds[k], r.jobs[k]);
      assert AllSettled(step, inj, e)[k].status == PermanentFail;
    }

    lemma ProducedIsVerdict(id: string)
      requires Core() && ProducedStep(Rec(steps, id))
      ensures id in plan.byId && ProducedVerdict(VerdictOf(E(), inj, id))
    {
      hide LaunchesOk, FlightsOk, CallsOk, Counted, LiveOk, WellFormed, Grounded;
      assert StepOk(E(), inj, id, steps[id]);
    }

    /** Prepares one invocation for the caller to run; one whose call cannot be built is recorded as failed. */
    method Build(f: Flight) returns (ok: bool)
      requires Valid() && IsPending(steps, jobs, f) && HasCapacity()
      modifies this
      ensures Valid() && LaunchStepped(old(steps), old(jobs)) && !IsPending(steps, jobs, f) && NoneProduced(old(steps))
      ensures f.step in steps && steps == old(steps)[f.step := steps[f.step]] && jobs.Keys == old(jobs.Keys)
      ensures inj == old(inj) && (old(stopped) ==> stopped) && running >= old(running)
      ensures ok ==> f !in old(inFlight) && inFlight == old(inFlight) + {f} && launches == old(launches) + [f]
      ensures !ok ==> inFlight == old(inFlight) && launches == old(launches)
      ensures !ok ==> running == old(running) && jobs == old(jobs)
      ensures ok <==> CallBuilt(plan, old(jobs), f)
      ensures ok ==> steps == old(steps) && stopped == old(stopped)
      ensures StillCallable(plan, old(steps), old(jobs), steps, jobs, f)
    {
      hide Core, BusyBut, StepAdvances, Marked, NoMorePending, Recorded, Ran, Unrecorded;
      PendingFacts(f);
      MarkedOnlyFlags(jobs, f);
      var job := jobs[f.step][f.job];
      var call := plan.byId[f.step].prepare(job.inputs, job.index);
      if call.Err? {
        CrashVerdict(f);
        CrashReply(plan.byId[f.step], job.inputs, job.index);
        assert f == Flight(f.step, f.job) && f !in inFlight;
        Record(f.step, f.job, NoReply);
        OneMoreKeepsPending(old(steps), jobs, f.step, steps[f.step], f.job);
        OneStepAdvances(old(steps), f.step, steps[f.step]);
        if ProducedStep(steps[f.step]) {
          ProducedIsVerdict(f.step);
        }
        CrashKeepsCallable(plan, old(steps), jobs, f, steps[f.step]);
        return false;
      }
      MarkKeepsCallable(plan, steps, jobs, f);
      MarkRemovesPending(steps, jobs, f);
      AdvancesReflexive(steps);
      TakeOff(f);
      assert old(steps)[f.step := steps[f.step]] == steps;
      return true;
    }

    // ---- reporting ----

    /** The worst failure among the steps. */
    method FailureStatus() returns (worst: Status, failed: bool)
      ensures failed <==> exists i :: 0 <= i < |plan.order| && Failing(Rec(steps, plan.order[i]).status)
      ensures failed ==>
          worst == if exists i :: 0 <= i < |plan.order| && Rec(steps, plan.order[i]).status == PermanentFail
                   then PermanentFail else TemporaryFail
    {
      worst, failed := Success, false;
      for i := 0 to |plan.order|
        invariant failed <==> exists j :: 0 <= j < i && Failing(Rec(steps, plan.order[j]).status)
        invariant failed ==> worst == if exists j :: 0 <= j < i && Rec(steps, plan.order[j]).status == PermanentFail
                                      then PermanentFail else TemporaryFail
      {
        var status := Rec(steps, plan.order[i]).status;
        if Failing(status) {
          if !failed || (worst == TemporaryFail && status == PermanentFail) {
            worst := status;
          }
          failed := true;
        }
      }
    }

    method Suspensions() returns (waiting: seq<Suspension>)
      ensures waiting == WaitingSteps(steps, plan.order)
    {
      waiting := [];
      for i := 0 to |plan.order|
        invariant waiting == WaitingSteps(steps, plan.order[..i])
      {
        assert plan.order[..i + 1][..i] == plan.order[..i];
        var jobs := Rec(steps, plan.order[i]).jobs;
        ghost var before := waiting;
        for k := 0 to |jobs|
          invariant waiting == before + WaitingJobs(jobs[..k])
        {
          assert jobs[..k + 1][..k] == jobs[..k];
          if jobs[k].status == Suspended && jobs[k].suspension.Some? {
            waiting := waiting + [jobs[k].suspension.value];
          }
        }
        assert jobs[..|jobs|] == jobs;
      }
      assert plan.order[..|plan.order|] == plan.order;
    }

    method ReadOutputs() returns (r: Result<Obj>)
      ensures r == RunOutputs(plan, inputs, ProducedOf(steps), plan.outputs)
      ensures match r
              case Ok(outputs) => OutputsFollow(plan, inputs, steps, outputs)
              case Err(e) => OutputErr(plan, inputs, steps, plan.outputs, e)
    {
      hide OutputsFollow, OutputErr;
      OutputsErr(plan, inputs, steps, plan.outputs);
      if RunOutputs(plan, inputs, ProducedOf(steps), plan.outputs).Ok? {
        RunOutputsFollow(plan, inputs, steps);
      }
      var outputs: Obj := map[];
      for i := 0 to |plan.outputs|
        invariant RunOutputs(plan, inputs, ProducedOf(steps), plan.outputs[..i]) == Ok(outputs)
      {
        assert plan.outputs[..i + 1][..i] == plan.outputs[..i];
        var sink := plan.outputs[i];
        if sink.sources == [] {
          outputs := outputs[sink.name := Null];
          continue;
        }
        var v := ReadSink(sink);
        if v.Err? {
          OutputErrStays(plan, inputs, ProducedOf(steps), plan.outputs, i + 1);
          return Err(v.error);
        }
        outputs := outputs[sink.name := v.value];
      }
      assert plan.outputs[..|plan.outputs|] == plan.outputs;
      return Ok(outputs);
    }

    function Clone(): Snapshot
      reads this
    {
      Snapshot(steps, inputs, Version)
    }

    /** The run's outcome. In a final state it is what the verdicts say. */
    method Outcome() returns (r: RunResult, err: Option<Error>)
      requires Valid()
      ensures r.state == Clone()
      ensures FinalState(E(), inj, steps) ==> Reports(E(), inj, r, err)
      ensures EndsAs(plan, inputs, r, err) && Tells(plan, inputs, r)
    {
      hide Core, BusyBut, FinalState, SomeWaits, SomeFails, FailsForGood, Tells, OutputErr;
      OrderHoldsSteps();
      ghost var final := FinalNow();
      var status, failed := FailureStatus();
      if final {
        FinalReports();
      }
      if failed {
        r := RunResult(status, map[], [], Clone());
        TellsIf(plan, inputs, r);
        return r, Some(Failed);
      }
      var waiting := Suspensions();
      WaitingExist(steps, plan.order);
      if waiting != [] {
        r := RunResult(Suspended, map[], waiting, Clone());
        TellsIf(plan, inputs, r);
        return r, None;
      }
      var outputs := ReadOutputs();
      if outputs.Err? {
        r := RunResult(PermanentFail, map[], [], Clone());
        TellsIf(plan, inputs, r);
        return r, Some(outputs.error);
      }
      r := RunResult(Success, outputs.value, [], Clone());
      TellsIf(plan, inputs, r);
      return r, None;
    }

    /** Every record is of a planned step. */
    lemma OrderHoldsSteps()
      requires Valid()
      ensures forall id :: id in steps ==> exists i :: 0 <= i < |plan.order| && plan.order[i] == id
    {
      hide LiveOk, FlightsOk, LaunchesOk, CallsOk, Counted, StepOk, Grounded, BusyBut, EnvOk;
      forall id | id in steps ensures exists i :: 0 <= i < |plan.order| && plan.order[i] == id {
        assert id in plan.byId && id in plan.order;
      }
    }

    ghost predicate FinalNow()
      requires Valid()
      reads this
    {
      FinalState(E(), inj, steps)
    }

    lemma FinalReports()
      requires Valid() && FinalState(E(), inj, steps)
      ensures SomeFails(E(), inj) <==> exists i :: 0 <= i < |plan.order| && Failing(Rec(steps, plan.order[i]).status)
      ensures FailsForGood(E(), inj) <==>
          exists i :: 0 <= i < |plan.order| && Rec(steps, plan.order[i]).status == PermanentFail
      ensures SomeWaits(E(), inj) <==> WaitingSteps(steps, plan.order) != []
      ensures WaitingSteps(steps, plan.order) == MeantWaiting(E(), inj, plan.order)
      ensures ProducedOf(steps) == MeantOutputs(E(), inj)
    {
      hide FinalState, LiveOk, FlightsOk, LaunchesOk, CallsOk, Counted, SnapOk, BusyBut, SomeWaits, EnvOk, VerdictOf;
      FinalWaiting(E(), inj, steps);
      FinalProduced(E(), inj, steps);
      FinalSuspensions(E(), inj, steps, plan.order);
      forall id | id in plan.byId
        ensures Failing(Rec(steps, id).status) <==>
            VerdictOf(E(), inj, id).Done? && Failing(VerdictOf(E(), inj, id).status)
        ensures Rec(steps, id).status == PermanentFail <==>
            VerdictOf(E(), inj, id).Done? && VerdictOf(E(), inj, id).status == PermanentFail
      {
        FinalFailure(E(), inj, steps, id);
      }
      forall id ensures id in plan.byId <==> exists i :: 0 <= i < |plan.order| && plan.order[i] == id {
        assert id in plan.order <==> id in plan.byId;
      }
    }
  }

  // ---- whole runs ----

  /** A run that meets no failure it must stop at ends final. */
  ghost predicate RunsOn(cfg: Config, env: Env, inj: Injected)
    requires EnvOk(env)
  {
    cfg.continueOnError || !SomeFails(env, inj)
  }

  /** Executes a prepared loop and reports. */
  method Drive(loop: Loop, patience: Option<nat>) returns (r: RunResult, err: Option<Error>)
    requires loop.Valid()
    modifies loop
    ensures loop.Valid() && loop.inj == old(loop.inj) && Advances(old(loop.steps), loop.steps)
    ensures r.state == loop.Clone()
    ensures patience.None? && RunsOn(loop.cfg, loop.E(), loop.inj) ==>
              FinalState(loop.E(), loop.inj, loop.steps) && Reports(loop.E(), loop.inj, r, err)
    ensures patience.None? ==> EndsAs(loop.plan, loop.inputs, r, err)
    ensures SomeFails(loop.E(), loop.inj) ==> err.Some? && Failing(r.status)
    ensures Tells(loop.plan, loop.inputs, r)
  {
    hide Loop.Core, FinalState, SomeFails, Advances, BusyBut, OutputsFollow, Lists;
    var finished := loop.Execute(patience);
    if !finished {
      return RunResult(PermanentFail, map[], [], loop.Clone()), Some(Cancelled);
    }
    if loop.stopped {
      StoppedHasFailed(loop);
    }
    r, err := loop.Outcome();
  }

  lemma StoppedHasFailed(loop: Loop)
    requires loop.Valid() && loop.stopped
    ensures SomeFailed(loop.steps)
  {}

  /**
   * Runs a plan. Whatever order completions arrive in and whatever the parallelism cap, a run that is not
   * cancelled and need not stop ends with every step recorded, and its result reported, as the dependency
   * graph alone determines. No invocation is launched twice.
   */
  method Run(plan: Plan, cfg: Config, inputs: Obj, patience: Option<nat>, ghost rank: map<string, nat>)
    returns (r: RunResult, err: Option<Error>, ghost launches: seq<Flight>)
    requires WellFormed(plan) && EnvOk(Env(plan, rank, inputs))
    ensures SnapOk(Env(plan, rank, inputs), map[], r.state.steps) && r.state.inputs == inputs
    ensures r.state.version == Version
    ensures patience.None? && RunsOn(cfg, Env(plan, rank, inputs), map[]) ==>
              FinalState(Env(plan, rank, inputs), map[], r.state.steps) &&
                Reports(Env(plan, rank, inputs), map[], r, err)
    ensures patience.None? ==> EndsAs(plan, inputs, r, err)
    ensures SomeFails(Env(plan, rank, inputs), map[]) ==> err.Some? && Failing(r.status)
    ensures forall i, j :: 0 <= i < j < |launches| ==> launches[i] != launches[j]
    ensures RecordsFollow(plan, inputs, map[], r.state.steps) && Tells(plan, inputs, r)
  {
    hide EnvOk, WellFormed, FinalState, SomeFails, SnapOk, RecordsFollow, Tells;
    EmptySnapOk(Env(plan, rank, inputs));
    var loop := new Loop(plan, inputs, cfg, map[], rank, map[]);
    loop.EmptyIsValid();
    r, err := Drive(loop, patience);
    launches := loop.launches;
    SnapFollows(Env(plan, rank, inputs), map[], r.state.steps);
  }

  /**
   * Resumes a snapshot of the same plan with a batch of outcomes. The batch is accepted exactly when each of
   * its outcomes is acceptable in the snapshot and no two answer one invocation; then it adds exactly its
   * outcomes, and the resumed run ends as a run that has them all. Otherwise the caller's snapshot stands, the
   * error is that of the first refused outcome, and the state returned holds those accepted before it. A
   * mismatch with the plan is never reported.
   */
  method Resume(plan: Plan, cfg: Config, state: Snapshot, batch: seq<ResumedStep>, patience: Option<nat>,
                ghost rank: map<string, nat>, ghost inj: Injected)
    returns (r: RunResult, err: Option<Error>, accepted: bool)
    requires WellFormed(plan) && EnvOk(Env(plan, rank, state.inputs))
    requires SnapOk(Env(plan, rank, state.inputs), inj, state.steps)
    ensures accepted <==> state.version == Version && Accepts(plan, state.steps, batch)
    ensures state.version != Version ==> err == Some(StateVersion)
    ensures !accepted && state.version == Version ==> err.Some? && err == BatchRefusal(plan, state.steps, batch)
    ensures !accepted && state.version == Version ==>
              SnapOk(Env(plan, rank, state.inputs),
                     Answered(plan, inj, batch[..FirstRefused(plan, state.steps, batch)]), r.state.steps)
    ensures r.state.inputs == state.inputs && (state.version == Version ==> r.state.version == Version)
    ensures accepted ==> forall i :: 0 <= i < |batch| ==>
              batch[i].stepId in plan.byId && Address(batch[i].stepId, batch[i].scatterIndex) !in inj
    ensures accepted ==> SnapOk(Env(plan, rank, state.inputs), Answered(plan, inj, batch), r.state.steps)
    ensures accepted ==> forall i :: 0 <= i < |batch| ==> HoldsOutcome(plan, r.state.steps, batch[i])
    ensures accepted ==> forall s, k: nat :: AddressesJob(state.steps, s, k) && !AnsweredBy(batch, s) ==>
        AddressesJob(r.state.steps, s, k)
    ensures accepted && patience.None? && RunsOn(cfg, Env(plan, rank, state.inputs), Answered(plan, inj, batch)) ==>
              && FinalState(Env(plan, rank, state.inputs), Answered(plan, inj, batch), r.state.steps)
              && Reports(Env(plan, rank, state.inputs), Answered(plan, inj, batch), r, err)
    ensures accepted && patience.None? ==> EndsAs(plan, state.inputs, r, err)
    ensures accepted && SomeFails(Env(plan, rank, state.inputs), Answered(plan, inj, batch)) ==>
        err.Some? && Failing(r.status)
    ensures accepted ==> RecordsFollow(plan, state.inputs, Answered(plan, inj, batch), r.state.steps)
    ensures accepted ==> Tells(plan, state.inputs, r)
  {
    hide RecordsFollow, Tells;
    hide EnvOk, WellFormed, FinalState, SomeFails, SnapOk, Accepts, RunOutputs, Advances, EndsAs;
    hide FirstRefused, RefusalAfter, AddressesJob, StillSuspended, AnsweredBy;
    ghost var env := Env(plan, rank, state.inputs);
    if state.version != Version {
      return RunResult(PermanentFail, map[], [], state), Some(StateVersion), false;
    }
    var loop := new Loop(plan, state.inputs, cfg, state.steps, rank, inj);
    var refused := loop.Inject(batch);
    if refused.Some? {
      return RunResult(PermanentFail, map[], [], loop.Clone()), refused, false;
    }
    ghost var injected := loop.steps;
    AllTaken(plan, state.steps, batch);
    loop.RehydrateSteps();
    AdvancesReflexive(injected);
    ghost var rehydrated := loop.steps;
    r, err := Drive(loop, patience);
    AdvancesTransitive(injected, rehydrated, loop.steps);
    StaySuspended(env, Answered(plan, inj, batch), state.steps, batch, injected, loop.steps);
    StayHeld(plan, injected, loop.steps, batch);
    SnapFollows(env, Answered(plan, inj, batch), loop.steps);
    accepted := true;
  }

  lemma AllTaken(plan: Plan, steps: Steps, batch: seq<ResumedStep>)
    ensures Accepts(plan, steps, batch) ==> batch[..FirstRefused(plan, steps, batch)] == batch
  {
    hide Accepts, FirstRefused;
    FirstRefusedIs(plan, steps, batch);
  }

  lemma StayHeld(plan: Plan, injected: Steps, later: Steps, batch: seq<ResumedStep>)
    requires Advances(injected, later)
    requires forall i :: 0 <= i < |batch| ==> Usable(batch[i].status) && HoldsOutcome(plan, injected, batch[i])
    ensures forall i :: 0 <= i < |batch| ==> HoldsOutcome(plan, later, batch[i])
  {
    hide HoldsOutcome, Advances, Usable;
    forall i | 0 <= i < |batch| ensures HoldsOutcome(plan, later, batch[i]) {
      HoldsLater(plan, injected, later, batch[i]);
    }
  }

  lemma StaySuspended(env: Env, inj: Injected, steps: Steps, batch: seq<ResumedStep>, injected: Steps, later: Steps)
    requires EnvOk(env) && SnapOk(env, inj, injected) && StillSuspended(steps, batch, injected)
    requires Advances(injected, later)
    ensures forall s, k: nat :: AddressesJob(steps, s, k) && !AnsweredBy(batch, s) ==> AddressesJob(later, s, k)
  {
    hide EnvOk, SnapOk, AddressesJob, AnsweredBy, Advances;
    forall s, k: nat | AddressesJob(steps, s, k) && !AnsweredBy(batch, s) ensures AddressesJob(later, s, k) {
      assert AddressesJob(injected, s, k);
      SuspendedStays(env, inj, injected, later, s, k);
    }
  }
}
