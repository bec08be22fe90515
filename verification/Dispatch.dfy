/** The scheduler's state driven by a caller: it asks for work, runs it, and reports each completion. */
module Dispatch {
  import opened Common
  import opened Workflow
  import opened Meaning
  import opened Stability
  import opened RunState
  import opened RunLoop
  import Scatter

  /** Nothing was callable among the first `k` invocations of a step, and what was callable still is. */
  ghost predicate NoneSoFar(plan: Plan, steps0: Steps, jobs0: map<string, seq<RunJob>>, steps: Steps, id: string,
                            k: nat)
  {
    && (forall j: nat :: j < k ==> !Callable(plan, steps0, jobs0, Flight(id, j)))
    && StillAll(plan, steps0, jobs0, steps)
  }

  ghost predicate StillAll(plan: Plan, steps0: Steps, jobs0: map<string, seq<RunJob>>, steps: Steps) {
    forall g :: Callable(plan, steps0, jobs0, g) ==> Callable(plan, steps, jobs0, g)
  }

  ghost predicate SomeCallable(plan: Plan, steps: Steps, jobs: map<string, seq<RunJob>>) {
    exists f :: Callable(plan, steps, jobs, f)
  }

  ghost predicate SomeCallableOf(plan: Plan, steps: Steps, jobs: map<string, seq<RunJob>>, id: string) {
    exists k: nat :: Callable(plan, steps, jobs, Flight(id, k))
  }

  lemma NoneSoFarYet(plan: Plan, steps: Steps, jobs: map<string, seq<RunJob>>, id: string)
    ensures NoneSoFar(plan, steps, jobs, steps, id, 0)
  {
    hide Callable;
  }

  /** An invocation that cannot be called does not change what can. */
  lemma NoneAtThis(plan: Plan, steps0: Steps, jobs: map<string, seq<RunJob>>, steps: Steps, id: string, k: nat,
                   after: Steps)
    requires NoneSoFar(plan, steps0, jobs, steps, id, k) && !Callable(plan, steps, jobs, Flight(id, k))
    requires after == steps || StillCallable(plan, steps, jobs, after, jobs, Flight(id, k))
    ensures NoneSoFar(plan, steps0, jobs, after, id, k + 1)
  {
    hide Callable;
  }

  /** Once a step is closed, or its invocations are through, none of its invocations was callable. */
  lemma NoneOfStep(plan: Plan, steps0: Steps, jobs: map<string, seq<RunJob>>, steps: Steps, id: string, k: nat)
    requires NoneSoFar(plan, steps0, jobs, steps, id, k)
    requires id !in steps || !Open(steps[id]) || id !in jobs || |jobs[id]| <= k
    ensures !SomeCallableOf(plan, steps0, jobs, id) && StillAll(plan, steps0, jobs, steps)
  {
    hide Callable;
    forall j: nat ensures !Callable(plan, steps0, jobs, Flight(id, j)) {
      if j >= k {
        NotCallable(plan, steps, jobs, Flight(id, j), k);
      }
    }
  }

  lemma NotCallable(plan: Plan, steps: Steps, jobs: map<string, seq<RunJob>>, f: Flight, k: nat)
    requires k <= f.job && (f.step !in steps || !Open(steps[f.step]) || f.step !in jobs || |jobs[f.step]| <= k)
    ensures !Callable(plan, steps, jobs, f)
  {}

  lemma CallableThen(plan: Plan, steps0: Steps, jobs0: map<string, seq<RunJob>>, steps: Steps, id: string, k: nat)
    requires NoMorePending(steps0, jobs0, steps, jobs0) && Callable(plan, steps, jobs0, Flight(id, k))
    ensures SomeCallableOf(plan, steps0, jobs0, id)
  {
    hide IsPending, CallBuilt;
    assert Callable(plan, steps0, jobs0, Flight(id, k));
  }

  // ---- document order ----

  /** Invocations of one step, in order, the first `k` at most. */
  ghost predicate OfStep(id: string, k: nat, s: seq<Flight>) {
    && (forall i :: 0 <= i < |s| ==> s[i].step == id && s[i].job < k)
    && (forall i, j :: 0 <= i < j < |s| ==> s[i].job < s[j].job)
  }

  lemma OneMoreOfStep(id: string, k: nat, was: seq<Flight>, now: seq<Flight>, n: nat)
    requires n <= |was| && OfStep(id, k, was[n..]) && (now == was || now == was + [Flight(id, k)])
    ensures OfStep(id, k + 1, now[n..])
  {
    assert now != was ==> now[n..] == was[n..] + [Flight(id, k)];
  }

  /** The step listed first comes first, and of one step the invocation numbered first. */
  ghost predicate Before(order: seq<string>, f: Flight, g: Flight) {
    if f.step == g.step then f.job < g.job
    else exists p, q :: 0 <= p < q < |order| && order[p] == f.step && order[q] == g.step
  }

  ghost predicate InOrder(order: seq<string>, s: seq<Flight>) {
    forall i, j :: 0 <= i < j < |s| ==> Before(order, s[i], s[j])
  }

  /** In document order, and of the first `n` steps only. */
  ghost predicate InOrderTo(order: seq<string>, n: nat, s: seq<Flight>) {
    InOrder(order, s) && forall i :: 0 <= i < |s| ==> ListedBefore(order, n, s[i].step)
  }

  ghost predicate ListedBefore(order: seq<string>, n: nat, id: string) {
    exists p :: 0 <= p < n && p < |order| && order[p] == id
  }

  lemma NothingYet(order: seq<string>, id: string, s: seq<Flight>)
    ensures OfStep(id, 0, s[|s|..]) && InOrderTo(order, 0, s[|s|..])
  {}

  lemma OneMoreInOrder(order: seq<string>, n: nat, k: nat, was: seq<Flight>, now: seq<Flight>, from: nat)
    requires n < |order| && from <= |was| <= |now| && was <= now && !ListedBefore(order, n, order[n])
    requires InOrderTo(order, n, was[from..]) && OfStep(order[n], k, now[|was|..])
    ensures InOrderTo(order, n + 1, now[from..])
  {
    var old', tail, all := was[from..], now[|was|..], now[from..];
    assert all == old' + tail;
    forall i | 0 <= i < |all| ensures ListedBefore(order, n + 1, all[i].step) {
      if i < |old'| {
        assert ListedBefore(order, n, old'[i].step);
      } else {
        assert all[i] == tail[i - |old'|] && order[n] == all[i].step;
      }
    }
    forall i, j | 0 <= i < j < |all| ensures Before(order, all[i], all[j]) {
      if j < |old'| {
        assert Before(order, old'[i], old'[j]);
      } else if |old'| <= i {
        assert all[i] == tail[i - |old'|] && all[j] == tail[j - |old'|];
      } else {
        assert ListedBefore(order, n, old'[i].step);
        assert all[j] == tail[j - |old'|] && order[n] == all[j].step;
      }
    }
  }

  class DispatchLoop {
    const l: Loop
    var dispatched: seq<Flight>    // every invocation handed out; its position is its identifier

    ghost predicate Valid()
      reads this, l
    {
      && l.Valid()
      && (forall f :: f in l.inFlight ==> f in dispatched)
      && (forall i, j :: 0 <= i < j < |dispatched| ==> dispatched[i] != dispatched[j])
      && (forall f :: f in dispatched ==> f in l.launches)
    }

    constructor (l: Loop)
      requires l.Valid() && l.inFlight == {}
      ensures Valid() && this.l == l && dispatched == []
    {
      this.l, dispatched := l, [];
    }

    /** How many invocations are out. */
    function InFlight(): int
      reads this, l
    {
      l.running
    }

    /** Hands out one invocation under the next identifier. */
    method Hand(f: Flight) returns (ok: bool)
      requires Valid() && IsPending(l.steps, l.jobs, f) && l.HasCapacity()
      modifies this, l
      ensures Valid() && l.LaunchStepped(old(l.steps), old(l.jobs)) && !IsPending(l.steps, l.jobs, f)
      ensures l.NoneProduced(old(l.steps))
      ensures f.step in l.steps && l.steps == old(l.steps)[f.step := l.steps[f.step]] && l.jobs.Keys == old(l.jobs.Keys)
      ensures l.inj == old(l.inj) && (old(l.stopped) ==> l.stopped) && l.running >= old(l.running)
      ensures dispatched == if ok then old(dispatched) + [f] else old(dispatched)
      ensures if ok then f !in old(l.inFlight) && l.inFlight == old(l.inFlight) + {f} else l.inFlight == old(l.inFlight)
      ensures ok <==> CallBuilt(l.plan, old(l.jobs), f)
      ensures ok ==> l.steps == old(l.steps) && l.stopped == old(l.stopped)
      ensures !ok ==> l.running == old(l.running) && l.jobs == old(l.jobs)
      ensures StillCallable(l.plan, old(l.steps), old(l.jobs), l.steps, l.jobs, f)
    {
      hide Loop.Core, Loop.Valid, Loop.LaunchStepped, Loop.NoneProduced, StillCallable, CallBuilt;
      label before:
      ok := l.Build(f);
      if ok {
        LaunchedOnce(old(l.launches), f);
        dispatched := dispatched + [f];
      }
    }

    lemma LaunchedOnce(before: seq<Flight>, f: Flight)
      requires l.Valid() && l.launches == before + [f]
      ensures f !in before
    {
      forall i | 0 <= i < |before| ensures before[i] != f {
        assert l.launches[i] == before[i] && l.launches[|before|] == f;
      }
    }

    /** What collecting work leaves alone. */
    ghost predicate Collected(steps0: Steps, jobs0: map<string, seq<RunJob>>, inj0: Injected, stopped0: bool,
                              running0: int)
      reads this, l
    {
      && l.LaunchStepped(steps0, jobs0) && l.NoneProduced(steps0)
      && l.inj == inj0 && (stopped0 ==> l.stopped) && l.running >= running0
    }

    lemma CollectedMore(steps0: Steps, jobs0: map<string, seq<RunJob>>, inj0: Injected, stopped0: bool, running0: int,
                        steps1: Steps, jobs1: map<string, seq<RunJob>>, inj1: Injected, stopped1: bool, running1: int)
      requires Advances(steps0, steps1) && SameStarted(steps0, steps1) && NoMorePending(steps0, jobs0, steps1, jobs1)
      requires forall id :: ProducedStep(Rec(steps1, id)) ==> ProducedStep(Rec(steps0, id))
      requires inj1 == inj0 && (stopped0 ==> stopped1) && running1 >= running0
      requires Collected(steps1, jobs1, inj1, stopped1, running1)
      ensures Collected(steps0, jobs0, inj0, stopped0, running0)
    {
      hide Advances, IsPending;
      l.SteppedTransitive(steps0, jobs0, steps1, jobs1);
    }

    /** Hands out one invocation of a started step, if it is pending and its call can be built. */
    method CollectOne(id: string, k: nat) returns (taken: bool)
      requires Valid() && l.HasCapacity() && id in l.steps && Open(l.steps[id]) && id in l.jobs
      requires k < |l.jobs[id]| == |l.steps[id].jobs|
      modifies this, l
      ensures Valid() && Collected(old(l.steps), old(l.jobs), old(l.inj), old(l.stopped), old(l.running))
      ensures id in l.steps && l.steps[id].started && id in l.jobs && |l.steps[id].jobs| == |old(l.steps[id].jobs)|
      ensures !IsPending(l.steps, l.jobs, Flight(id, k))
      ensures if taken then l.inFlight != {} && Used(old(l.steps), old(l.jobs), l.steps, l.jobs)
              else l.inFlight == old(l.inFlight) && l.running == old(l.running) && l.jobs == old(l.jobs)
      ensures dispatched == if taken then old(dispatched) + [Flight(id, k)] else old(dispatched)
      ensures taken <==> Callable(l.plan, old(l.steps), old(l.jobs), Flight(id, k))
      ensures StillCallable(l.plan, old(l.steps), old(l.jobs), l.steps, l.jobs, Flight(id, k))
      ensures AlwaysBuilt(l.plan) ==> l.steps == old(l.steps) && l.stopped == old(l.stopped)
    {
      hide Loop.Core, Loop.Valid, Advances, NoMorePending, SameStarted, Used, CallBuilt, AlwaysBuilt;
      AdvancesReflexive(l.steps);
      NothingChanged();
      if l.jobs[id][k].dispatched || l.steps[id].jobs[k].status != Unset {
        return false;
      }
      BuiltHere(Flight(id, k));
      taken := Hand(Flight(id, k));
      StillStarted(old(l.steps), id);
      WasUsed(old(l.steps), old(l.jobs), Flight(id, k));
    }

    lemma WasUsed(steps0: Steps, jobs0: map<string, seq<RunJob>>, f: Flight)
      requires IsPending(steps0, jobs0, f) && !IsPending(l.steps, l.jobs, f)
      ensures Used(steps0, jobs0, l.steps, l.jobs)
    {
      hide IsPending;
    }

    /** What one step's batch so far says of the state it began in. */
    ghost predicate Tallied(empty: bool, capacity0: bool, running0: int, steps0: Steps, jobs0: map<string, seq<RunJob>>,
                            id: string, k: nat)
      reads this, l
    {
      if empty then l.running == running0 && l.jobs == jobs0 && NoneSoFar(l.plan, steps0, jobs0, l.steps, id, k)
      else capacity0 && SomeCallableOf(l.plan, steps0, jobs0, id)
    }

    /**
     * Collects one step's pending invocations while there is capacity; the stop flag is not consulted.
     * Something is handed out exactly when there is capacity and an invocation that is pending can be called.
     */
    method CollectStep(id: string) returns (batch: seq<nat>)
      requires Valid()
      modifies this, l
      ensures Valid() && Collected(old(l.steps), old(l.jobs), old(l.inj), old(l.stopped), old(l.running))
      ensures l.HasCapacity() ==> forall k: nat :: !IsPending(l.steps, l.jobs, Flight(id, k))
      ensures if batch == [] then l.inFlight == old(l.inFlight)
              else l.inFlight != {} && Used(old(l.steps), old(l.jobs), l.steps, l.jobs)
      ensures old(dispatched) <= dispatched && |dispatched| == |old(dispatched)| + |batch|
      ensures forall b :: 0 <= b < |batch| ==> batch[b] == |old(dispatched)| + b
      ensures exists k: nat :: OfStep(id, k, dispatched[|old(dispatched)|..])
      ensures batch != [] <==> old(l.HasCapacity()) && SomeCallableOf(l.plan, old(l.steps), old(l.jobs), id)
      ensures batch == [] ==> l.running == old(l.running) && l.jobs == old(l.jobs)
      ensures batch == [] && old(l.HasCapacity()) ==> StillAll(l.plan, old(l.steps), l.jobs, l.steps)
      ensures AlwaysBuilt(l.plan) ==> l.steps == old(l.steps) && l.stopped == old(l.stopped)
    {
      hide Loop.Core, Loop.Valid, Advances, NoMorePending, SameStarted, Used, CallBuilt, StillCallable, NoneSoFar;
      hide StillAll;
      hide AlwaysBuilt, SomeCallableOf, Callable, IsPending, OfStep, InOrderTo;
      batch := [];
      AdvancesReflexive(l.steps);
      NothingChanged();
      TallyStarts(id);
      NothingYet([], id, dispatched);
      if id !in l.steps || !Open(l.steps[id]) {
        TallyEnds(batch == [], old(l.HasCapacity()), old(l.running), old(l.steps), old(l.jobs), id, 0);
        NoneHere(id, 0);
        return;
      }
      StepHasJobs(id);
      var n := |l.jobs[id]|;
      for k := 0 to n
        invariant Valid() && Collected(old(l.steps), old(l.jobs), old(l.inj), old(l.stopped), old(l.running))
        invariant id in l.steps && l.steps[id].started && id in l.jobs && |l.steps[id].jobs| == n
        invariant forall j: nat :: j < k ==> !IsPending(l.steps, l.jobs, Flight(id, j))
        invariant if batch == [] then l.inFlight == old(l.inFlight)
                  else l.inFlight != {} && Used(old(l.steps), old(l.jobs), l.steps, l.jobs)
        invariant old(dispatched) <= dispatched && |dispatched| == |old(dispatched)| + |batch|
        invariant forall b :: 0 <= b < |batch| ==> batch[b] == |old(dispatched)| + b
        invariant OfStep(id, k, dispatched[|old(dispatched)|..])
        invariant AlwaysBuilt(l.plan) ==> l.steps == old(l.steps) && l.stopped == old(l.stopped)
        invariant Tallied(batch == [], old(l.HasCapacity()), old(l.running), old(l.steps), old(l.jobs), id, k)
      {
        if !l.HasCapacity() || l.steps[id].status != Unset {
          TallyEnds(batch == [], old(l.HasCapacity()), old(l.running), old(l.steps), old(l.jobs), id, k);
          NoneHere(id, k);
          return;
        }
        StepHasJobs(id);
        label before:
        ghost var steps1, jobs1 := l.steps, l.jobs;
        var taken := CollectOne(id, k);
        Compose(old(l.steps), old(l.jobs), old(l.inj), old(l.stopped), old(l.running),
                steps1, jobs1, old@before(l.inj), old@before(l.stopped), old@before(l.running), taken);
        TallyOneMore(batch == [], taken, old(l.HasCapacity()), old(l.running), old@before(l.running), old(l.steps),
                     old(l.jobs),
                     steps1, jobs1, id, k);
        OneMoreOfStep(id, k, old@before(dispatched), dispatched, |old(dispatched)|);
        if taken {
          batch := batch + [|dispatched| - 1];
        }
      }
      TallyEnds(batch == [], old(l.HasCapacity()), old(l.running), old(l.steps), old(l.jobs), id, n);
      NoneHere(id, n);
    }

    lemma TallyStarts(id: string)
      ensures Tallied(true, l.HasCapacity(), l.running, l.steps, l.jobs, id, 0)
    {
      NoneSoFarYet(l.plan, l.steps, l.jobs, id);
    }

    /** What is not pending stays so, and what was used stays used. */
    lemma Compose(steps0: Steps, jobs0: map<string, seq<RunJob>>, inj0: Injected, stopped0: bool, running0: int,
                  steps1: Steps, jobs1: map<string, seq<RunJob>>, inj1: Injected, stopped1: bool, running1: int,
                  taken: bool)
      requires Advances(steps0, steps1) && SameStarted(steps0, steps1) && NoMorePending(steps0, jobs0, steps1, jobs1)
      requires forall id :: ProducedStep(Rec(steps1, id)) ==> ProducedStep(Rec(steps0, id))
      requires inj1 == inj0 && (stopped0 ==> stopped1) && running1 >= running0
      requires Collected(steps1, jobs1, inj1, stopped1, running1)
      requires taken ==> Used(steps1, jobs1, l.steps, l.jobs)
      ensures Collected(steps0, jobs0, inj0, stopped0, running0)
      ensures forall f :: !IsPending(steps1, jobs1, f) ==> !IsPending(l.steps, l.jobs, f)
      ensures Used(steps0, jobs0, steps1, jobs1) || taken ==> Used(steps0, jobs0, l.steps, l.jobs)
    {
      hide Advances, IsPending, Used;
      CollectedMore(steps0, jobs0, inj0, stopped0, running0, steps1, jobs1, inj1, stopped1, running1);
      StaysOut(steps1, jobs1);
      StillUsed(steps0, jobs0, steps1, jobs1);
    }

    lemma TallyOneMore(empty: bool, taken: bool, capacity0: bool, running0: int, running1: int, steps0: Steps,
                       jobs0: map<string, seq<RunJob>>, steps1: Steps, jobs1: map<string, seq<RunJob>>, id: string,
                       k: nat)
      requires if empty then
                 running1 == running0 && jobs1 == jobs0 && NoneSoFar(l.plan, steps0, jobs0, steps1, id, k) && capacity0
               else capacity0 && SomeCallableOf(l.plan, steps0, jobs0, id)
      requires !taken ==> l.running == running1 && l.jobs == jobs1
      requires taken <==> Callable(l.plan, steps1, jobs1, Flight(id, k))
      requires StillCallable(l.plan, steps1, jobs1, l.steps, l.jobs, Flight(id, k))
      requires NoMorePending(steps0, jobs0, steps1, jobs1)
      ensures Tallied(empty && !taken, capacity0, running0, steps0, jobs0, id, k + 1)
    {
      hide NoneSoFar, Callable, StillCallable, NoMorePending, SomeCallableOf;
      if empty && taken {
        CallableThen(l.plan, steps0, jobs0, steps1, id, k);
      } else if empty {
        NoneAtThis(l.plan, steps0, jobs0, steps1, id, k, l.steps);
      }
    }

    /** The tally decides whether anything was callable to begin with. */
    lemma TallyEnds(empty: bool, capacity0: bool, running0: int, steps0: Steps, jobs0: map<string, seq<RunJob>>,
                    id: string, k: nat)
      requires Tallied(empty, capacity0, running0, steps0, jobs0, id, k)
      requires capacity0 <==> (l.cfg.maxParallel <= 0 || running0 < l.cfg.maxParallel)
      requires !l.HasCapacity() || id !in l.steps || !Open(l.steps[id]) || id !in jobs0 || |jobs0[id]| <= k
      ensures !empty <==> capacity0 && SomeCallableOf(l.plan, steps0, jobs0, id)
      ensures empty ==> l.running == running0 && l.jobs == jobs0
      ensures empty && capacity0 ==> StillAll(l.plan, steps0, l.jobs, l.steps)
    {
      hide NoneSoFar, SomeCallableOf, StillAll, Callable;
      if empty && capacity0 {
        NoneOfStep(l.plan, steps0, jobs0, l.steps, id, k);
      }
    }

    lemma NoneHere(id: string, k: nat)
      requires !l.HasCapacity() || id !in l.steps || !Open(l.steps[id]) || |l.steps[id].jobs| <= k
      requires forall j: nat :: j < k ==> !IsPending(l.steps, l.jobs, Flight(id, j))
      ensures l.HasCapacity() ==> forall j: nat :: !IsPending(l.steps, l.jobs, Flight(id, j))
    {}

    lemma BuiltHere(f: Flight)
      requires l.Valid() && IsPending(l.steps, l.jobs, f)
      ensures AlwaysBuilt(l.plan) ==> CallBuilt(l.plan, l.jobs, f)
    {
      hide Loop.Core;
      l.PendingFacts(f);
    }

    lemma NothingChanged()
      ensures Collected(l.steps, l.jobs, l.inj, l.stopped, l.running)
    {
      l.StartsStepped();
    }

    lemma StepHasJobs(id: string)
      requires Valid() && id in l.steps && Open(l.steps[id])
      ensures id in l.jobs && |l.jobs[id]| == |l.steps[id].jobs|
    {
      hide Loop.Core;
      l.LiveLengths(id);
    }

    lemma StillStarted(steps1: Steps, id: string)
      requires Advances(steps1, l.steps) && id in steps1 && Open(steps1[id]) && id in l.steps
      ensures l.steps[id].started && |l.steps[id].jobs| == |steps1[id].jobs|
    {
      assert StepAdvances(Rec(steps1, id), Rec(l.steps, id));
    }

    /**
     * Collects what is pending in plan order, while there is capacity. Something is handed out exactly when
     * there is capacity and a pending invocation whose call can be built; the stop flag is not read.
     */
    method CollectAll() returns (batch: seq<nat>)
      requires Valid()
      modifies this, l
      ensures Valid() && Collected(old(l.steps), old(l.jobs), old(l.inj), old(l.stopped), old(l.running))
      ensures l.HasCapacity() ==> forall f :: !IsPending(l.steps, l.jobs, f)
      ensures if batch == [] then l.inFlight == old(l.inFlight)
              else l.inFlight != {} && Used(old(l.steps), old(l.jobs), l.steps, l.jobs)
      ensures old(dispatched) <= dispatched && |dispatched| == |old(dispatched)| + |batch|
      ensures forall b :: 0 <= b < |batch| ==> batch[b] == |old(dispatched)| + b
      ensures InOrder(l.plan.order, dispatched[|old(dispatched)|..])
      ensures batch != [] <==> old(l.HasCapacity()) && SomeCallable(l.plan, old(l.steps), old(l.jobs))
      ensures AlwaysBuilt(l.plan) ==> l.steps == old(l.steps) && l.stopped == old(l.stopped)
    {
      hide Loop.Core, Loop.Valid, Advances, NoMorePending, SameStarted, Used, AlwaysBuilt, SomeCallable;
      hide SomeCallableOf, StillAll, IsPending, InOrder, OfStep, ListedBefore;
      batch := [];
      NothingYet(l.plan.order, "", dispatched);
      PassStarts();
      for i := 0 to |l.plan.order|
        invariant Valid() && Collected(old(l.steps), old(l.jobs), old(l.inj), old(l.stopped), old(l.running))
        invariant l.HasCapacity() ==> forall j, k: nat :: 0 <= j < i ==>
            !IsPending(l.steps, l.jobs, Flight(l.plan.order[j], k))
        invariant if batch == [] then l.inFlight == old(l.inFlight)
                  else l.inFlight != {} && Used(old(l.steps), old(l.jobs), l.steps, l.jobs)
        invariant old(dispatched) <= dispatched && |dispatched| == |old(dispatched)| + |batch|
        invariant forall b :: 0 <= b < |batch| ==> batch[b] == |old(dispatched)| + b
        invariant InOrderTo(l.plan.order, i, dispatched[|old(dispatched)|..])
        invariant CollectedSoFar(batch == [], old(l.running), old(l.steps), old(l.jobs), i)
        invariant AlwaysBuilt(l.plan) ==> l.steps == old(l.steps) && l.stopped == old(l.stopped)
      {
        if !l.HasCapacity() {
          break;
        }
        label before:
        ghost var steps1, jobs1 := l.steps, l.jobs;
        var more := CollectStep(l.plan.order[i]);
        Compose(old(l.steps), old(l.jobs), old(l.inj), old(l.stopped), old(l.running),
                steps1, jobs1, old@before(l.inj), old@before(l.stopped), old@before(l.running), more != []);
        CollectedOneMore(batch == [], more == [], old(l.running), old@before(l.running), old(l.steps), old(l.jobs),
                         steps1, jobs1, i);
        ghost var k: nat :| OfStep(l.plan.order[i], k, dispatched[|old@before(dispatched)|..]);
        ListedOnce(i);
        OneMoreInOrder(l.plan.order, i, k, old@before(dispatched), dispatched, |old(dispatched)|);
        batch := batch + more;
      }
      PassEnds(batch == [], old(l.running), old(l.steps), old(l.jobs));
      NoneOfAny();
    }

    lemma ListedOnce(i: nat)
      requires l.Valid() && i < |l.plan.order|
      ensures !ListedBefore(l.plan.order, i, l.plan.order[i])
    {
      hide BusyBut, SnapOk, LiveOk, FlightsOk, LaunchesOk, CallsOk, Loop.Counted, EnvOk, EdgesResolved, KnownSources;
    }

    /** What is pending belongs to a planned step. */
    lemma NoneOfAny()
      requires l.Valid()
      ensures (forall j, k: nat :: 0 <= j < |l.plan.order| ==>
               !IsPending(l.steps, l.jobs, Flight(l.plan.order[j], k))) ==>
                forall f :: !IsPending(l.steps, l.jobs, f)
    {
      hide Loop.Core, IsPending, BusyBut;
      if forall j, k: nat :: 0 <= j < |l.plan.order| ==> !IsPending(l.steps, l.jobs, Flight(l.plan.order[j], k)) {
        l.NothingPending();
      }
    }

    /**
     * The invocations ready to run: one start pass, then whatever fits under the cap, in document order. A
     * loop that had stopped still hands something out exactly when there is capacity and a pending invocation
     * whose call can be built.
     */
    method Pending() returns (batch: seq<nat>)
      requires Valid()
      modifies this, l
      ensures Valid() && Advances(old(l.steps), l.steps) && l.inj == old(l.inj) && (old(l.stopped) ==> l.stopped)
      ensures !l.stopped && Topological(l.plan) ==> NoneReady(l.plan, l.steps, |l.plan.order|)
      ensures l.HasCapacity() ==> forall f :: !IsPending(l.steps, l.jobs, f)
      ensures WaitsForLater(l.plan, old(l.steps), l.steps, |l.plan.order|)
      ensures old(dispatched) <= dispatched && |dispatched| == |old(dispatched)| + |batch|
      ensures forall b :: 0 <= b < |batch| ==> batch[b] == |old(dispatched)| + b
      ensures InOrder(l.plan.order, dispatched[|old(dispatched)|..])
      ensures if batch == [] then l.inFlight == old(l.inFlight) else l.inFlight != {}
      ensures Unstarted(l.plan, l.steps) <= Unstarted(l.plan, old(l.steps))
      ensures Unstarted(l.plan, l.steps) == Unstarted(l.plan, old(l.steps)) ==>
                && StartedNothing(old(l.steps), old(l.jobs))
                && (batch == [] || Used(old(l.steps), old(l.jobs), l.steps, l.jobs))
      ensures old(l.stopped) ==>
          (batch != [] <==> old(l.HasCapacity()) && SomeCallable(l.plan, old(l.steps), old(l.jobs)))
      ensures AlwaysBuilt(l.plan) ==>
                && StartedKept(old(l.steps), l.steps) && JustStarted(l.E(), l.inj, old(l.steps), l.steps)
                && (l.stopped ==> old(l.stopped) || NewFailure(old(l.steps), l.steps))
    {
      hide Loop.Core, Loop.Valid, Advances, NoMorePending, SameStarted, NoneReady, WaitsForLater, StartedKept;
      hide NewlyStarted, Unstarted, Used, AlwaysBuilt, SomeCallable, JustStarted, NewFailure, IsPending, InOrder;
      var started := l.StartReadySteps();
      ghost var steps1, jobs1 := l.steps, l.jobs;
      batch := CollectAll();
      AfterPending(old(l.steps), old(l.jobs), steps1, jobs1, started);
    }

    /** What the batch so far says of the state after the start pass. */
    ghost predicate CollectedSoFar(empty: bool, running1: int, steps1: Steps, jobs1: map<string, seq<RunJob>>, i: nat)
      reads this, l
    {
      if empty then
        && l.running == running1 && l.jobs == jobs1 && StillAll(l.plan, steps1, jobs1, l.steps)
        && (forall j :: 0 <= j < i && j < |l.plan.order| && Roomy(running1) ==>
            !SomeCallableOf(l.plan, steps1, jobs1, l.plan.order[j]))
      else Roomy(running1) && SomeCallable(l.plan, steps1, jobs1)
    }

    /** Capacity left with so many running. */
    ghost predicate Roomy(running: int)
      reads this, l
    {
      l.cfg.maxParallel <= 0 || running < l.cfg.maxParallel
    }

    lemma PassStarts()
      ensures Collected(l.steps, l.jobs, l.inj, l.stopped, l.running)
      ensures CollectedSoFar(true, l.running, l.steps, l.jobs, 0)
    {
      hide Callable;
      NothingChanged();
    }

    lemma CollectedOneMore(empty: bool, none: bool, running1: int, running2: int, steps1: Steps,
                           jobs1: map<string, seq<RunJob>>, steps2: Steps, jobs2: map<string, seq<RunJob>>, i: nat)
      requires i < |l.plan.order| && Roomy(running2) && NoMorePending(steps1, jobs1, steps2, jobs2)
      requires if empty then
                 && running2 == running1 && jobs2 == jobs1 && StillAll(l.plan, steps1, jobs1, steps2)
                 && (forall j :: 0 <= j < i && Roomy(running1) ==>
                     !SomeCallableOf(l.plan, steps1, jobs1, l.plan.order[j]))
               else Roomy(running1) && SomeCallable(l.plan, steps1, jobs1)
      requires !none <==> SomeCallableOf(l.plan, steps2, jobs2, l.plan.order[i])
      requires none ==> l.running == running2 && l.jobs == jobs2 && StillAll(l.plan, steps2, l.jobs, l.steps)
      ensures CollectedSoFar(empty && none, running1, steps1, jobs1, i + 1)
    {
      hide Callable, NoMorePending;
      var id := l.plan.order[i];
      if empty && !none {
        var k: nat :| Callable(l.plan, steps2, jobs2, Flight(id, k));
        CallableThen(l.plan, steps1, jobs1, steps2, id, k);
      } else if empty {
        NoneOfIt(steps1, jobs1, steps2, id);
      }
    }

    lemma NoneOfIt(steps1: Steps, jobs1: map<string, seq<RunJob>>, steps2: Steps, id: string)
      requires StillAll(l.plan, steps1, jobs1, steps2) && !SomeCallableOf(l.plan, steps2, jobs1, id)
      ensures !SomeCallableOf(l.plan, steps1, jobs1, id)
    {
      hide Callable;
    }

    lemma PassEnds(empty: bool, running1: int, steps1: Steps, jobs1: map<string, seq<RunJob>>)
      requires CollectedSoFar(empty, running1, steps1, jobs1, |l.plan.order|) ||
          (CollectedSoFar(empty, running1, steps1, jobs1, 0) && !l.HasCapacity())
      requires l.Valid()
      ensures !empty <==> Roomy(running1) && SomeCallable(l.plan, steps1, jobs1)
    {
      hide StillAll, CallBuilt, Loop.Core;
      if empty && Roomy(running1) && SomeCallable(l.plan, steps1, jobs1) {
        var f :| Callable(l.plan, steps1, jobs1, f);
        assert f == Flight(f.step, f.job);
        StepListed(jobs1, f);
      }
    }

    lemma StepListed(jobs1: map<string, seq<RunJob>>, f: Flight)
      requires l.Valid() && CallBuilt(l.plan, jobs1, f)
      ensures exists j :: 0 <= j < |l.plan.order| && l.plan.order[j] == f.step
    {
      assert f.step in l.plan.byId && f.step in l.plan.order;
    }

    /** Nothing new is pending. */
    ghost predicate StartedNothing(steps0: Steps, jobs0: map<string, seq<RunJob>>)
      reads this, l
    {
      NoMorePending(steps0, jobs0, l.steps, l.jobs)
    }

    lemma StillUsed(steps1: Steps, jobs1: map<string, seq<RunJob>>, steps2: Steps, jobs2: map<string, seq<RunJob>>)
      requires NoMorePending(steps1, jobs1, steps2, jobs2) && NoMorePending(steps2, jobs2, l.steps, l.jobs)
      ensures Used(steps1, jobs1, steps2, jobs2) || Used(steps2, jobs2, l.steps, l.jobs) ==>
          Used(steps1, jobs1, l.steps, l.jobs)
    {
      hide IsPending;
      if Used(steps1, jobs1, steps2, jobs2) {
        var f :| IsPending(steps1, jobs1, f) && !IsPending(steps2, jobs2, f);
        assert !IsPending(l.steps, l.jobs, f);
      } else if Used(steps2, jobs2, l.steps, l.jobs) {
        var f :| IsPending(steps2, jobs2, f) && !IsPending(l.steps, l.jobs, f);
        assert IsPending(steps1, jobs1, f);
      }
    }

    lemma StaysOut(steps1: Steps, jobs1: map<string, seq<RunJob>>)
      requires NoMorePending(steps1, jobs1, l.steps, l.jobs)
      ensures forall f :: !IsPending(steps1, jobs1, f) ==> !IsPending(l.steps, l.jobs, f)
    {}

    lemma AfterPending(steps0: Steps, jobs0: map<string, seq<RunJob>>, steps1: Steps, jobs1: map<string, seq<RunJob>>,
                       started: bool)
      requires l.Valid() && l.LaunchStepped(steps1, jobs1) && l.NoneProduced(steps1)
      requires StartedKept(steps0, steps1) && Advances(steps0, steps1)
      requires if started then NewlyStarted(l.plan, steps0, steps1) else steps1 == steps0 && jobs1 == jobs0
      ensures Advances(steps0, l.steps)
      ensures NoneReady(l.plan, steps1, |l.plan.order|) ==> NoneReady(l.plan, l.steps, |l.plan.order|)
      ensures WaitsForLater(l.plan, steps0, steps1, |l.plan.order|) ==>
          WaitsForLater(l.plan, steps0, l.steps, |l.plan.order|)
      ensures Unstarted(l.plan, l.steps) <= Unstarted(l.plan, steps0)
      ensures Unstarted(l.plan, l.steps) == Unstarted(l.plan, steps0) ==> !started && StartedNothing(steps0, jobs0)
    {
      hide Loop.Core, Unstarted, StepAdvances, IsPending, StartedKept;
      AdvancesTransitive(steps0, steps1, l.steps);
      StillNoneReady(steps1);
      SameUnstarted(l.plan, steps1, l.steps);
      if started {
        StartingShrinks(l.plan, steps0, steps1);
      }
    }

    lemma StillNoneReady(steps1: Steps)
      requires SameStarted(steps1, l.steps) && l.NoneProduced(steps1)
      ensures NoneReady(l.plan, steps1, |l.plan.order|) ==> NoneReady(l.plan, l.steps, |l.plan.order|)
    {
      forall id | id in l.plan.byId && Grounded(l.plan, l.steps, id) ensures Grounded(l.plan, steps1, id) {
        forall d | d in l.plan.byId[id].deps ensures d in steps1 && ProducedStep(steps1[d]) {
          assert ProducedStep(Rec(l.steps, d)) && ProducedStep(Rec(steps1, d));
        }
      }
    }

    /** Feeds one invocation's result back; each is completed once, with the result its handler gave. */
    method Complete(id: nat, reply: Reply)
      requires Valid() && id < |dispatched| && dispatched[id] in l.inFlight
      requires CallBuilt(l.plan, l.jobs, dispatched[id]) && reply == l.ReplyOf(dispatched[id])
      modifies l
      ensures Valid() && l.inFlight == old(l.inFlight) - {dispatched[id]} && l.running == old(l.running) - 1
      ensures Advances(old(l.steps), l.steps) && SameStarted(old(l.steps), l.steps)
      ensures l.jobs == old(l.jobs) && NoMorePending(old(l.steps), l.jobs, l.steps, l.jobs)
      ensures l.inj == old(l.inj) && !Unrecorded(l.steps, dispatched[id])
      ensures dispatched[id].step in l.steps
      ensures l.steps == old(l.steps)[dispatched[id].step := l.steps[dispatched[id].step]]
      ensures l.stopped == (old(l.stopped) || (Failing(l.steps[dispatched[id].step].status) && !l.cfg.continueOnError))
    {
      hide Loop.Core, Advances, SameStarted, NoMorePending, BusyBut, Unrecorded;
      l.Finish(dispatched[id], reply);
    }

    /**
     * The loop a caller is told to run: ask for work, complete any invocation, until there is none and
     * nothing is out. If the plan lists every step after its dependencies, no work is lost.
     */
    method RunToEnd()
      requires Valid()
      modifies this, l
      ensures Valid() && l.running == 0 && l.inFlight == {} && Advances(old(l.steps), l.steps) && l.inj == old(l.inj)
      ensures Topological(l.plan) && !l.stopped ==> EnvOk(l.E()) && FinalState(l.E(), l.inj, l.steps)
    {
      hide Loop.Core, Loop.Valid, Advances, NoMorePending, SameStarted, NoneReady, WaitsForLater, Unstarted, Used,
           RunLoop.Pending, FinalState, EnvOk, Topological, CallBuilt;
      AdvancesReflexive(l.steps);
      while true
        invariant Valid() && Advances(old(l.steps), l.steps) && l.inj == old(l.inj)
        decreases Unstarted(l.plan, l.steps), RunLoop.Pending(l.steps, l.jobs), l.inFlight
      {
        ghost var steps0, jobs0, flying := l.steps, l.jobs, l.inFlight;
        var batch := Pending();
        AdvancesTransitive(old(l.steps), steps0, l.steps);
        if batch == [] && InFlight() == 0 {
          Quiesced();
          return;
        }
        SomethingOut(batch);
        ghost var steps1 := l.steps;
        var f :| f in l.inFlight;
        var id :| 0 <= id < |dispatched| && dispatched[id] == f;
        FlightFacts(f);
        Complete(id, l.ReplyOf(f));
        AdvancesTransitive(old(l.steps), steps1, l.steps);
        SameUnstarted(l.plan, steps1, l.steps);
        PendingShrinks(steps1, l.jobs, l.steps, l.jobs);
        if Unstarted(l.plan, steps1) == Unstarted(l.plan, steps0) {
          PendingShrinks(steps0, jobs0, steps1, l.jobs);
        }
      }
    }

    lemma FlightFacts(f: Flight)
      requires l.Valid() && f in l.inFlight
      ensures CallBuilt(l.plan, l.jobs, f)
    {
      l.InFlightFacts(f);
    }

    lemma SomethingOut(batch: seq<nat>)
      requires l.Valid() && (batch == [] ==> l.running != 0) && (batch != [] ==> l.inFlight != {})
      ensures l.inFlight != {}
    {
      hide BusyBut;
      if batch == [] {
        l.SomethingFlies();
      }
    }

    lemma Quiesced()
      requires l.Valid() && l.running == 0
      requires l.HasCapacity() ==> forall f :: !IsPending(l.steps, l.jobs, f)
      requires !l.stopped && Topological(l.plan) ==> NoneReady(l.plan, l.steps, |l.plan.order|)
      ensures l.inFlight == {}
      ensures Topological(l.plan) && !l.stopped ==> EnvOk(l.E()) && FinalState(l.E(), l.inj, l.steps)
    {
      hide BusyBut, NoneReady, Topological, FinalState, Quiet, IsPending;
      l.NothingFlies();
      if Topological(l.plan) && !l.stopped {
        l.QuietHere();
        l.FinalHere();
      }
    }
  }

  /** A loop that has not begun, for a caller to drive. */
  method Begin(plan: Plan, cfg: Config, inputs: Obj, ghost rank: map<string, nat>) returns (d: DispatchLoop)
    requires WellFormed(plan) && EnvOk(Env(plan, rank, inputs))
    ensures fresh(d) && fresh(d.l) && d.Valid() && d.l.plan == plan && d.l.cfg == cfg && d.l.inputs == inputs
    ensures d.l.rank == rank
    ensures d.l.steps == map[] && d.l.inj == map[] && !d.l.stopped
  {
    hide WellFormed, EnvOk, SnapOk;
    EmptySnapOk(Env(plan, rank, inputs));
    var l := new Loop(plan, inputs, cfg, map[], rank, map[]);
    l.EmptyIsValid();
    d := new DispatchLoop(l);
  }
}
