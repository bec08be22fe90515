/** Accepting the outcome of a suspended invocation: what it changes in a snapshot, and what it leaves alone. */
module Injecting {
  import opened Common
  import opened Workflow
  import opened Meaning
  import opened Stability
  import opened Answering
  import opened RunState
  import Scatter

  /** The outcome a caller supplies for a suspended invocation. */
  datatype ResumedStep = ResumedStep(stepId: string, status: Status, outputs: Obj, scatterIndex: seq<int>)

  /** Only declared ports are supplied, and each declared port's value fits its type. */
  predicate OutputsAccepted(step: Step, outputs: Obj) {
    && (forall name :: name in outputs ==> name in Ports(step))
    && (forall port :: port in Ports(step) ==> step.accepts(port, Lookup(outputs, port)))
  }

  /** What is recorded for an accepted outcome. */
  function AcceptedJob(step: Step, r: ResumedStep): JobState {
    JobState(r.status,
             match r.status
             case Success => Project(Ports(step), r.outputs)
             case Skipped => NullPorts(Ports(step))
             case _ => map[],
             None, r.scatterIndex)
  }

  /**
   * The record of an outcome as the caller supplied it: its status and, of a success, the value it gave for
   * each declared port, of a skip a null on each.
   */
  predicate RecordedAs(step: Step, r: ResumedStep, job: JobState) {
    && job.status == r.status && job.index == r.scatterIndex && job.suspension.None?
    && match r.status
       case Success =>
         && (forall port :: port in Ports(step) ==>
               port in job.outputs && job.outputs[port] == if port in r.outputs then r.outputs[port] else Null)
         && (forall port :: port in job.outputs ==> port in Ports(step))
       case Skipped =>
         && (forall port :: port in Ports(step) ==> port in job.outputs && job.outputs[port] == Null)
         && (forall port :: port in job.outputs ==> port in Ports(step))
       case _ => job.outputs == map[]
  }

  lemma AcceptedIsRecorded(step: Step, r: ResumedStep)
    ensures RecordedAs(step, r, AcceptedJob(step, r))
  {}

  /** The addressed invocation's record is the outcome supplied. */
  predicate HoldsAt(plan: Plan, steps: Steps, r: ResumedStep, k: nat) {
    && r.stepId in plan.byId && r.stepId in steps && steps[r.stepId].started
    && k < |steps[r.stepId].jobs| && RecordedAs(plan.byId[r.stepId], r, steps[r.stepId].jobs[k])
  }

  ghost predicate HoldsOutcome(plan: Plan, steps: Steps, r: ResumedStep) {
    exists k: nat :: HoldsAt(plan, steps, r, k)
  }

  /** What a run records later leaves it there. */
  lemma HoldsLater(plan: Plan, a: Steps, b: Steps, r: ResumedStep)
    requires HoldsOutcome(plan, a, r) && Advances(a, b) && Usable(r.status)
    ensures HoldsOutcome(plan, b, r)
  {
    hide RecordedAs;
    var k: nat :| HoldsAt(plan, a, r, k);
    assert RecordedAs(plan.byId[r.stepId], r, a[r.stepId].jobs[k]);
    assert a[r.stepId].jobs[k].status != Unset by { RecordedStatus(plan.byId[r.stepId], r, a[r.stepId].jobs[k]); }
    assert StepAdvances(Rec(a, r.stepId), Rec(b, r.stepId));
    assert HoldsAt(plan, b, r, k);
  }

  lemma RecordedStatus(step: Step, r: ResumedStep, job: JobState)
    requires RecordedAs(step, r, job)
    ensures job.status == r.status
  {}

  predicate Usable(status: Status) {
    status in {Success, Skipped, PermanentFail, TemporaryFail}
  }

  /** The position of the suspended invocation an outcome addresses. */
  ghost predicate AddressesJob(steps: Steps, r: ResumedStep, k: nat) {
    && r.stepId in steps && k < |steps[r.stepId].jobs|
    && steps[r.stepId].jobs[k].status == Suspended && steps[r.stepId].jobs[k].index == r.scatterIndex
  }

  function WithJob(steps: Steps, id: string, k: nat, job: JobState): Steps
    requires id in steps && k < |steps[id].jobs|
  {
    steps[id := steps[id].(jobs := steps[id].jobs[k := job])]
  }

  lemma AcceptedJobOk(step: Step, r: ResumedStep)
    requires Usable(r.status)
    ensures AcceptedOk(step, Address(r.stepId, r.scatterIndex), AcceptedJob(step, r))
  {}

  lemma SuspendedIsOpen(env: Env, inj: Injected, steps: Steps, r: ResumedStep, k: nat)
    requires EnvOk(env) && SnapOk(env, inj, steps) && AddressesJob(steps, r, k)
    ensures r.stepId in env.plan.byId && Open(steps[r.stepId])
    ensures DepsProduce(env, inj, r.stepId)
    ensures OpenOk(env.plan.byId[r.stepId], inj, InputsOf(env, inj, r.stepId), steps[r.stepId])
  {
    assert StepOk(env, inj, r.stepId, steps[r.stepId]);
  }

  /** A step that no new outcome addresses keeps a right record. */
  lemma OtherStepStable(env: Env, inj: Injected, more: Injected, id: string, r: StepState)
    requires EnvOk(env) && id in env.plan.byId && StepOk(env, inj, id, r) && Extends(inj, more)
    requires env.plan.byId[id].id == id
    requires forall a :: a in more && a !in inj ==> a.step != id
    ensures StepOk(env, more, id, r)
  {
    hide Settled;
    VerdictStable(env, inj, more, id);
    if Open(r) {
      OpenStable(env.plan.byId[id], inj, more, InputsOf(env, inj, id), r);
    }
  }

  lemma OpenStable(step: Step, inj: Injected, more: Injected, inputs: Result<Obj>, r: StepState)
    requires OpenOk(step, inj, inputs, r) && Extends(inj, more)
    requires forall a :: a in more && a !in inj ==> a.step != step.id
    ensures OpenOk(step, more, inputs, r)
  {
    forall k | 0 <= k < |r.jobs| ensures JobOk(step, more, SeedsOf(step, inputs)[k], r.jobs[k]) {
      SettledElsewhere(step, inj, more, SeedsOf(step, inputs)[k]);
    }
  }

  lemma SettledElsewhere(step: Step, inj: Injected, more: Injected, seed: Scatter.ScatterJob)
    requires Extends(inj, more) && (Address(step.id, seed.index) in more ==> Address(step.id, seed.index) in inj)
    ensures Settled(step, more, seed) == Settled(step, inj, seed)
  {}

  /** The addressed step's record is right once the outcome is recorded and accepted. */
  lemma OwnStepInjected(step: Step, inj: Injected, inputs: Result<Obj>, r: StepState, k: nat, job: JobState)
    requires OpenOk(step, inj, inputs, r) && k < |r.jobs| && r.jobs[k].status == Suspended
    requires AcceptedOk(step, Address(step.id, r.jobs[k].index), job)
    requires forall a :: a in inj && a.step == step.id ==> AcceptedOk(step, a, inj[a])
    ensures Address(step.id, r.jobs[k].index) !in inj
    ensures OpenOk(step, inj[Address(step.id, r.jobs[k].index) := job], inputs, r.(jobs := r.jobs[k := job]))
  {
    hide Expand;
    var seeds := SeedsOf(step, inputs);
    assert JobOk(step, inj, seeds[k], r.jobs[k]);
    SuspendedSeed(step, inj, seeds[k], r.jobs[k], job);
    var at := Address(step.id, seeds[k].index);
    var more := inj[at := job];
    forall j | 0 <= j < |r.jobs| && j != k ensures JobOk(step, more, seeds[j], r.jobs[j]) {
      OtherSeed(step, inputs.value, j, k);
      assert JobOk(step, inj, seeds[j], r.jobs[j]);
      SettledElsewhere(step, inj, more, seeds[j]);
    }
  }

  lemma OtherSeed(step: Step, x: Obj, j: nat, k: nat)
    requires Expand(step, x).Ok? && j != k && j < |Expand(step, x).value.seeds| && k < |Expand(step, x).value.seeds|
    ensures Expand(step, x).value.seeds[j].index != Expand(step, x).value.seeds[k].index
  {
    if j < k {
      SeedsDiffer(step, x, j, k);
    } else {
      SeedsDiffer(step, x, k, j);
    }
  }

  lemma SuspendedSeed(step: Step, inj: Injected, seed: Scatter.ScatterJob, was: JobState, job: JobState)
    requires JobOk(step, inj, seed, was) && was.status == Suspended
    requires forall a :: a in inj && a.step == step.id ==> AcceptedOk(step, a, inj[a])
    ensures was.index == seed.index && Address(step.id, seed.index) !in inj
    ensures Settled(step, inj[Address(step.id, seed.index) := job], seed) == job
    ensures !GateOf(step, seed.inputs).Rejected?
  {}

  /** Accepting an outcome keeps the snapshot right, with that outcome among the accepted ones. */
  lemma InjectKeepsSnap(env: Env, inj: Injected, steps: Steps, r: ResumedStep, k: nat)
    requires EnvOk(env) && Indexed(env.plan.order, env.plan.byId) && SnapOk(env, inj, steps)
    requires AddressesJob(steps, r, k) && Usable(r.status)
    ensures r.stepId in env.plan.byId && Address(r.stepId, r.scatterIndex) !in inj
    ensures var job := AcceptedJob(env.plan.byId[r.stepId], r);
            SnapOk(env, inj[Address(r.stepId, r.scatterIndex) := job], WithJob(steps, r.stepId, k, job))
  {
    hide StepOk, OpenOk, AcceptedOk, Grounded, AcceptedJob, EnvOk, DepsProduce, Settled;
    AddressedRecord(env, inj, steps, r, k);
    var id := r.stepId;
    var job := AcceptedJob(env.plan.byId[id], r);
    var more := inj[Address(id, r.scatterIndex) := job];
    var after := WithJob(steps, id, k, job);
    forall other | other in after ensures other in env.plan.byId && StepOk(env, more, other, after[other]) {
      if other != id {
        OtherStepStable(env, inj, more, other, steps[other]);
      }
    }
    StillGrounded(env.plan, steps, after, id);
  }

  /** The addressed step is open, was not answered, and its record with the outcome is right. */
  lemma AddressedRecord(env: Env, inj: Injected, steps: Steps, r: ResumedStep, k: nat)
    requires EnvOk(env) && Indexed(env.plan.order, env.plan.byId) && SnapOk(env, inj, steps)
    requires AddressesJob(steps, r, k) && Usable(r.status)
    ensures r.stepId in env.plan.byId && Address(r.stepId, r.scatterIndex) !in inj && steps[r.stepId].started
    ensures var id, job := r.stepId, AcceptedJob(env.plan.byId[r.stepId], r);
            && AcceptedOk(env.plan.byId[id], Address(id, r.scatterIndex), job)
            && Extends(inj, inj[Address(id, r.scatterIndex) := job])
            && StepOk(env, inj[Address(id, r.scatterIndex) := job], id, WithJob(steps, id, k, job)[id])
  {
    hide StepOk, OpenOk, AcceptedOk, Grounded, AcceptedJob, EnvOk, DepsProduce, Settled;
    SuspendedIsOpen(env, inj, steps, r, k);
    var id := r.stepId;
    var step, was := env.plan.byId[id], steps[id];
    var job := AcceptedJob(step, r);
    AcceptedJobOk(step, r);
    OwnStepInjected(step, inj, InputsOf(env, inj, id), was, k, job);
    OwnStepOk(env, inj, inj[Address(id, r.scatterIndex) := job], id, WithJob(steps, id, k, job)[id]);
  }

  lemma OwnStepOk(env: Env, inj: Injected, more: Injected, id: string, r: StepState)
    requires EnvOk(env) && id in env.plan.byId && DepsProduce(env, inj, id) && Extends(inj, more) && Open(r)
    requires OpenOk(env.plan.byId[id], more, InputsOf(env, inj, id), r)
    ensures StepOk(env, more, id, r)
  {
    VerdictStable(env, inj, more, id);
  }

  lemma StillGrounded(plan: Plan, steps: Steps, after: Steps, id: string)
    requires id in steps && after.Keys == steps.Keys
    requires forall d :: d in steps ==> after[d].started == steps[d].started && after[d].status == steps[d].status
    requires forall other :: other in steps && steps[other].started ==>
        other in plan.byId && Grounded(plan, steps, other)
    ensures forall other :: other in after && after[other].started ==>
        other in plan.byId && Grounded(plan, after, other)
  {}

  /** An address already answered names no suspended invocation. */
  lemma AnsweredIsNotSuspended(env: Env, inj: Injected, steps: Steps, r: ResumedStep, k: nat)
    requires EnvOk(env) && Indexed(env.plan.order, env.plan.byId) && SnapOk(env, inj, steps)
    requires Address(r.stepId, r.scatterIndex) in inj
    ensures !AddressesJob(steps, r, k)
  {
    if AddressesJob(steps, r, k) {
      SuspendedIsOpen(env, inj, steps, r, k);
      var step := env.plan.byId[r.stepId];
      SuspendedSeed(step, inj, SeedsOf(step, InputsOf(env, inj, r.stepId))[k], steps[r.stepId].jobs[k],
                    inj[Address(r.stepId, r.scatterIndex)]);
    }
  }

  /** The accepted outcomes after a whole batch. */
  function Answered(plan: Plan, inj: Injected, batch: seq<ResumedStep>): Injected {
    if batch == [] then inj
    else
      var r := batch[|batch| - 1];
      var before := Answered(plan, inj, batch[..|batch| - 1]);
      if r.stepId in plan.byId
      then before[Address(r.stepId, r.scatterIndex) := AcceptedJob(plan.byId[r.stepId], r)]
      else before
  }

  predicate DistinctAddresses(batch: seq<ResumedStep>) {
    forall i, j :: 0 <= i < j < |batch| ==>
      Address(batch[i].stepId, batch[i].scatterIndex) != Address(batch[j].stepId, batch[j].scatterIndex)
  }

  /** With distinct addresses, what is accepted does not depend on the order of the batch. */
  lemma {:induction false} AnsweredHolds(plan: Plan, inj: Injected, batch: seq<ResumedStep>, i: nat)
    requires i < |batch| && DistinctAddresses(batch) && batch[i].stepId in plan.byId
    ensures var at := Address(batch[i].stepId, batch[i].scatterIndex);
            at in Answered(plan, inj, batch) &&
              Answered(plan, inj, batch)[at] == AcceptedJob(plan.byId[batch[i].stepId], batch[i])
  {
    var n := |batch| - 1;
    if i < n {
      AnsweredHolds(plan, inj, batch[..n], i);
      assert Address(batch[i].stepId, batch[i].scatterIndex) != Address(batch[n].stepId, batch[n].scatterIndex);
    }
  }

  lemma {:induction false} AnsweredOnly(plan: Plan, inj: Injected, batch: seq<ResumedStep>, at: Address)
    requires at in Answered(plan, inj, batch)
    ensures (exists i :: 0 <= i < |batch| && at == Address(batch[i].stepId, batch[i].scatterIndex))
         || (at in inj && Answered(plan, inj, batch)[at] == inj[at])
  {
    if batch != [] {
      var n := |batch| - 1;
      if at != Address(batch[n].stepId, batch[n].scatterIndex) {
        AnsweredOnly(plan, inj, batch[..n], at);
      }
    }
  }

  lemma {:induction false} AnsweredKeeps(plan: Plan, inj: Injected, batch: seq<ResumedStep>, at: Address)
    requires at in inj && forall i :: 0 <= i < |batch| ==> at != Address(batch[i].stepId, batch[i].scatterIndex)
    ensures at in Answered(plan, inj, batch) && Answered(plan, inj, batch)[at] == inj[at]
  {
    if batch != [] {
      AnsweredKeeps(plan, inj, batch[..|batch| - 1], at);
    }
  }

  /** Two orders of one batch are accepted as the same outcomes. */
  lemma BatchOrderIrrelevant(plan: Plan, inj: Injected, a: seq<ResumedStep>, b: seq<ResumedStep>)
    requires DistinctAddresses(a) && DistinctAddresses(b) && multiset(a) == multiset(b)
    requires forall r :: r in a ==> r.stepId in plan.byId
    ensures Answered(plan, inj, a) == Answered(plan, inj, b)
  {
    forall r ensures r in a <==> r in b {
      assert r in multiset(a) <==> r in multiset(b);
    }
    AnsweredWithin(plan, inj, a, b);
    AnsweredWithin(plan, inj, b, a);
  }

  lemma AnsweredWithin(plan: Plan, inj: Injected, a: seq<ResumedStep>, b: seq<ResumedStep>)
    requires DistinctAddresses(a) && DistinctAddresses(b)
    requires forall r :: r in a <==> r in b
    requires forall r :: r in a ==> r.stepId in plan.byId
    ensures forall at :: at in Answered(plan, inj, a) ==>
              at in Answered(plan, inj, b) && Answered(plan, inj, b)[at] == Answered(plan, inj, a)[at]
  {
    forall at | at in Answered(plan, inj, a)
      ensures at in Answered(plan, inj, b) && Answered(plan, inj, b)[at] == Answered(plan, inj, a)[at]
    {
      if i :| 0 <= i < |a| && at == Address(a[i].stepId, a[i].scatterIndex) {
        assert a[i] in b;
        var j :| 0 <= j < |b| && b[j] == a[i];
        AnsweredHolds(plan, inj, a, i);
        AnsweredHolds(plan, inj, b, j);
      } else {
        AnsweredOnly(plan, inj, a, at);
        forall j | 0 <= j < |b| ensures at != Address(b[j].stepId, b[j].scatterIndex) {
          assert b[j] in a;
        }
        AnsweredKeeps(plan, inj, b, at);
      }
    }
  }

  /** Answering in two batches is answering in one. */
  lemma {:induction false} BatchesCompose(plan: Plan, inj: Injected, a: seq<ResumedStep>, b: seq<ResumedStep>)
    ensures Answered(plan, Answered(plan, inj, a), b) == Answered(plan, inj, a + b)
  {
    if b == [] {
      assert a + b == a;
    } else {
      BatchesCompose(plan, inj, a, b[..|b| - 1]);
      assert (a + b)[..|a + b| - 1] == a + b[..|b| - 1];
    }
  }

  // ---- which batches are accepted ----

  function AddressOf(r: ResumedStep): Address {
    Address(r.stepId, r.scatterIndex)
  }

  /** An outcome for a suspended invocation, with a usable status and, for a success, outputs that fit. */
  ghost predicate Acceptable(plan: Plan, steps: Steps, r: ResumedStep) {
    && (exists k: nat :: AddressesJob(steps, r, k)) && Usable(r.status) && r.stepId in plan.byId
    && (r.status == Success ==> OutputsAccepted(plan.byId[r.stepId], r.outputs))
  }

  /** Why one outcome is refused, if it is. */
  ghost function Refusal(plan: Plan, steps: Steps, r: ResumedStep): (e: Option<Error>)
    ensures e.None? <==> Acceptable(plan, steps, r)
  {
    if !exists k: nat :: AddressesJob(steps, r, k) then Some(NoSuspension)
    else if !Usable(r.status) then Some(ResumedStatus)
    else if Acceptable(plan, steps, r) then None
    else Some(UndeclaredResumedOutput)
  }

  /** Each refusal has exactly its cause, and the causes are looked for in this order. */
  lemma RefusalHasCause(plan: Plan, steps: Steps, r: ResumedStep)
    requires (exists k: nat :: AddressesJob(steps, r, k)) ==> r.stepId in plan.byId
    ensures Refusal(plan, steps, r) == Some(NoSuspension) <==> forall k: nat :: !AddressesJob(steps, r, k)
    ensures Refusal(plan, steps, r) == Some(ResumedStatus) <==>
              && (exists k: nat :: AddressesJob(steps, r, k))
              && r.status !in {Success, Skipped, PermanentFail, TemporaryFail}
    ensures Refusal(plan, steps, r) == Some(UndeclaredResumedOutput) <==>
              && (exists k: nat :: AddressesJob(steps, r, k))
              && r.status == Success && Misfits(plan.byId[r.stepId], r.outputs)
  {
    hide AddressesJob;
  }

  /** A name no port declares, or a port whose value its type does not accept. */
  predicate Misfits(step: Step, outputs: Obj) {
    || (exists name :: name in outputs && name !in Ports(step))
    || (exists port :: port in Ports(step) && !step.accepts(port, if port in outputs then outputs[port] else Null))
  }

  predicate AnsweredBy(batch: seq<ResumedStep>, r: ResumedStep) {
    exists j :: 0 <= j < |batch| && AddressOf(batch[j]) == AddressOf(r)
  }

  /** Why an outcome is refused after those of `before`: what they answered is no longer suspended. */
  ghost function RefusalAfter(plan: Plan, steps: Steps, before: seq<ResumedStep>, r: ResumedStep): Option<Error> {
    if AnsweredBy(before, r) then Some(NoSuspension) else Refusal(plan, steps, r)
  }

  /** How many outcomes of a batch are accepted before the first that is refused. */
  ghost function FirstRefused(plan: Plan, steps: Steps, batch: seq<ResumedStep>): (t: nat)
    ensures t <= |batch|
  {
    if batch == [] then 0
    else
      var n := |batch| - 1;
      var t := FirstRefused(plan, steps, batch[..n]);
      if t < n || RefusalAfter(plan, steps, batch[..n], batch[n]).Some? then t else n + 1
  }

  ghost function BatchRefusal(plan: Plan, steps: Steps, batch: seq<ResumedStep>): Option<Error> {
    var t := FirstRefused(plan, steps, batch);
    if t == |batch| then None else RefusalAfter(plan, steps, batch[..t], batch[t])
  }

  /** A batch is acceptable if each of its outcomes is, and no two answer one invocation. */
  ghost predicate Accepts(plan: Plan, steps: Steps, batch: seq<ResumedStep>) {
    DistinctAddresses(batch) && forall i :: 0 <= i < |batch| ==> Acceptable(plan, steps, batch[i])
  }

  /**
   * The first refused outcome is refused for its own reason, and there is one exactly in a batch that is
   * not acceptable.
   */
  lemma {:induction false} FirstRefusedIs(plan: Plan, steps: Steps, batch: seq<ResumedStep>)
    ensures var t := FirstRefused(plan, steps, batch);
            && Accepts(plan, steps, batch[..t])
            && (t < |batch| ==> RefusalAfter(plan, steps, batch[..t], batch[t]).Some?)
    ensures FirstRefused(plan, steps, batch) == |batch| <==> Accepts(plan, steps, batch)
  {
    hide Accepts, RefusalAfter;
    if batch == [] {
      NoneAccepted(plan, steps);
    } else {
      var n, t := |batch| - 1, FirstRefused(plan, steps, batch);
      FirstRefusedIs(plan, steps, batch[..n]);
      OneMoreAccepted(plan, steps, batch);
      assert t <= n ==> batch[..t] == batch[..n][..t];
      assert t == |batch| ==> batch[..t] == batch;
    }
  }

  lemma NoneAccepted(plan: Plan, steps: Steps)
    ensures Accepts(plan, steps, [])
  {}

  /** A batch is acceptable exactly if it is without its last outcome and that one is not refused after the others. */
  lemma OneMoreAccepted(plan: Plan, steps: Steps, batch: seq<ResumedStep>)
    requires batch != []
    ensures var n := |batch| - 1;
            Accepts(plan, steps, batch) <==>
              Accepts(plan, steps, batch[..n]) && RefusalAfter(plan, steps, batch[..n], batch[n]).None?
  {
    hide Acceptable;
    var n := |batch| - 1;
    if Accepts(plan, steps, batch) {
      forall i | 0 <= i < n
        ensures Acceptable(plan, steps, batch[..n][i]) && AddressOf(batch[i]) != AddressOf(batch[n])
      {
        assert Acceptable(plan, steps, batch[i]);
      }
    }
  }

  /** A prefix without a refusal, extended. */
  lemma TakeOneMore(plan: Plan, steps: Steps, batch: seq<ResumedStep>, i: nat)
    requires i < |batch| && FirstRefused(plan, steps, batch[..i]) == i
    ensures RefusalAfter(plan, steps, batch[..i], batch[i]).None? ==> FirstRefused(plan, steps, batch[..i + 1]) == i + 1
    ensures RefusalAfter(plan, steps, batch[..i], batch[i]).Some? ==> FirstRefused(plan, steps, batch) == i
  {
    hide RefusalAfter;
    assert batch[..i + 1][..i] == batch[..i];
    if RefusalAfter(plan, steps, batch[..i], batch[i]).Some? {
      RefusalStands(plan, steps, batch, i + 1);
    }
  }

  lemma {:induction false} RefusalStands(plan: Plan, steps: Steps, batch: seq<ResumedStep>, i: nat)
    requires i <= |batch| && FirstRefused(plan, steps, batch[..i]) < i
    ensures FirstRefused(plan, steps, batch) == FirstRefused(plan, steps, batch[..i])
    decreases |batch| - i
  {
    hide RefusalAfter;
    if i == |batch| {
      assert batch[..i] == batch;
    } else {
      assert batch[..i + 1][..i] == batch[..i];
      RefusalStands(plan, steps, batch, i + 1);
    }
  }

  /** What is suspended after a batch is what was, without what the batch answered. */
  ghost predicate StillSuspended(steps: Steps, batch: seq<ResumedStep>, after: Steps) {
    forall r, k: nat :: AddressesJob(after, r, k) <==> AddressesJob(steps, r, k) && !AnsweredBy(batch, r)
  }

  /** The outcome is recorded where it is addressed. */
  ghost predicate Records(plan: Plan, steps: Steps, r: ResumedStep, after: Steps) {
    r.stepId in plan.byId && exists k: nat :: RecordsAt(plan, steps, r, k, after)
  }

  ghost predicate RecordsAt(plan: Plan, steps: Steps, r: ResumedStep, k: nat, after: Steps)
    requires r.stepId in plan.byId
  {
    AddressesJob(steps, r, k) && after == WithJob(steps, r.stepId, k, AcceptedJob(plan.byId[r.stepId], r))
  }

  lemma RecordsHolds(plan: Plan, steps: Steps, r: ResumedStep, after: Steps)
    requires Records(plan, steps, r, after) && (forall id :: id in steps && steps[id].jobs != [] ==> steps[id].started)
    ensures HoldsOutcome(plan, after, r)
  {
    hide AcceptedJob, RecordedAs;
    var k: nat :| RecordsAt(plan, steps, r, k, after);
    AcceptedIsRecorded(plan.byId[r.stepId], r);
    assert HoldsAt(plan, after, r, k);
  }

  /** Recording one outcome leaves those recorded before. */
  lemma StillHolds(plan: Plan, steps: Steps, r: ResumedStep, after: Steps, s: ResumedStep)
    requires Records(plan, steps, r, after) && HoldsOutcome(plan, steps, s) && Usable(s.status)
    ensures HoldsOutcome(plan, after, s)
  {
    hide AcceptedJob, RecordedAs;
    var k: nat :| RecordsAt(plan, steps, r, k, after);
    var j: nat :| HoldsAt(plan, steps, s, j);
    RecordedStatus(plan.byId[s.stepId], s, steps[s.stepId].jobs[j]);
    assert HoldsAt(plan, after, s, j);
  }

  /** The first `i` outcomes of a batch are taken. */
  ghost predicate Taken(plan: Plan, steps0: Steps, inj0: Injected, batch: seq<ResumedStep>, i: nat, steps: Steps,
                        inj: Injected)
  {
    && i <= |batch| && FirstRefused(plan, steps0, batch[..i]) == i && StillSuspended(steps0, batch[..i], steps)
    && inj == Answered(plan, inj0, batch[..i]) && inj0.Keys <= inj.Keys
    && (forall j :: 0 <= j < i ==> batch[j].stepId in plan.byId && AddressOf(batch[j]) !in inj0)
    && forall j :: 0 <= j < i ==> Usable(batch[j].status) && HoldsOutcome(plan, steps, batch[j])
  }

  lemma NothingTaken(plan: Plan, steps: Steps, inj: Injected, batch: seq<ResumedStep>)
    ensures Taken(plan, steps, inj, batch, 0, steps, inj)
  {
    hide AddressesJob;
  }

  lemma RefusalLater(plan: Plan, steps: Steps, batch: seq<ResumedStep>, after: Steps, r: ResumedStep)
    requires StillSuspended(steps, batch, after)
    ensures Refusal(plan, after, r) == RefusalAfter(plan, steps, batch, r)
  {
    hide AddressesJob, AnsweredBy, OutputsAccepted;
    if exists k: nat :: AddressesJob(steps, r, k) {
      var k: nat :| AddressesJob(steps, r, k);
      assert AddressesJob(after, r, k) <==> !AnsweredBy(batch, r);
    }
  }

  /** One accepted outcome takes exactly its own address off the suspended ones. */
  lemma OneLessSuspended(env: Env, inj: Injected, steps: Steps, r: ResumedStep, k: nat, s: ResumedStep, j: nat)
    requires EnvOk(env) && Indexed(env.plan.order, env.plan.byId) && SnapOk(env, inj, steps)
    requires AddressesJob(steps, r, k) && Usable(r.status) && r.stepId in env.plan.byId
    ensures AddressesJob(WithJob(steps, r.stepId, k, AcceptedJob(env.plan.byId[r.stepId], r)), s, j)
       <==> AddressesJob(steps, s, j) && AddressOf(s) != AddressOf(r)
  {
    hide SnapOk, EnvOk, Indexed;
    var job := AcceptedJob(env.plan.byId[r.stepId], r);
    var after := WithJob(steps, r.stepId, k, job);
    if AddressOf(s) == AddressOf(r) {
      InjectKeepsSnap(env, inj, steps, r, k);
      AnsweredIsNotSuspended(env, inj[Address(r.stepId, r.scatterIndex) := job], after, s, j);
    }
  }

  lemma SuspendedOneMore(env: Env, inj: Injected, steps0: Steps, batch: seq<ResumedStep>, i: nat, steps: Steps, k: nat,
                         after: Steps)
    requires EnvOk(env) && Indexed(env.plan.order, env.plan.byId) && SnapOk(env, inj, steps)
    requires i < |batch| && StillSuspended(steps0, batch[..i], steps)
    requires AddressesJob(steps, batch[i], k) && Usable(batch[i].status) && batch[i].stepId in env.plan.byId
    requires after == WithJob(steps, batch[i].stepId, k, AcceptedJob(env.plan.byId[batch[i].stepId], batch[i]))
    ensures StillSuspended(steps0, batch[..i + 1], after)
  {
    hide SnapOk, EnvOk, Indexed, AddressesJob, WithJob, AcceptedJob, AnsweredBy;
    forall r, j: nat
      ensures AddressesJob(after, r, j) <==> AddressesJob(steps0, r, j) && !AnsweredBy(batch[..i + 1], r)
    {
      OneLessSuspended(env, inj, steps, batch[i], k, r, j);
      AnsweredByOneMore(batch, i, r);
    }
  }

  lemma AnsweredByOneMore(batch: seq<ResumedStep>, i: nat, r: ResumedStep)
    requires i < |batch|
    ensures AnsweredBy(batch[..i + 1], r) <==> AnsweredBy(batch[..i], r) || AddressOf(batch[i]) == AddressOf(r)
  {
    var more, less := batch[..i + 1], batch[..i];
    assert more == less + [batch[i]];
    if AnsweredBy(less, r) {
      var j :| 0 <= j < |less| && AddressOf(less[j]) == AddressOf(r);
      assert AddressOf(more[j]) == AddressOf(r);
    }
    if AddressOf(batch[i]) == AddressOf(r) {
      assert AddressOf(more[i]) == AddressOf(r);
    }
  }

  lemma HoldsOneMore(env: Env, inj: Injected, batch: seq<ResumedStep>, i: nat, steps: Steps, after: Steps)
    requires EnvOk(env) && SnapOk(env, inj, steps) && i < |batch| && Records(env.plan, steps, batch[i], after)
    requires Refusal(env.plan, steps, batch[i]).None?
    requires forall j :: 0 <= j < i ==> Usable(batch[j].status) && HoldsOutcome(env.plan, steps, batch[j])
    ensures forall j :: 0 <= j <= i ==> Usable(batch[j].status) && HoldsOutcome(env.plan, after, batch[j])
  {
    hide Records, HoldsOutcome, AddressesJob, OutputsAccepted, EnvOk, Usable;
    JobsAreStarted(env, inj, steps);
    RecordsHolds(env.plan, steps, batch[i], after);
    forall j | 0 <= j < i ensures HoldsOutcome(env.plan, after, batch[j]) {
      StillHolds(env.plan, steps, batch[i], after, batch[j]);
    }
  }

  lemma JobsAreStarted(env: Env, inj: Injected, steps: Steps)
    requires EnvOk(env) && SnapOk(env, inj, steps)
    ensures forall id :: id in steps && steps[id].jobs != [] ==> steps[id].started
  {
    hide EnvOk, OpenOk, VerdictOf, DepsProduce, InputsOf, Grounded;
    forall id | id in steps ensures steps[id].jobs != [] ==> steps[id].started {
      assert StepOk(env, inj, id, steps[id]);
    }
  }

  lemma TakenOneMore(env: Env, steps0: Steps, inj0: Injected, batch: seq<ResumedStep>, i: nat, steps: Steps,
                     inj: Injected, after: Steps, more: Injected)
    requires EnvOk(env) && Indexed(env.plan.order, env.plan.byId) && SnapOk(env, inj, steps)
    requires i < |batch| && Taken(env.plan, steps0, inj0, batch, i, steps, inj)
    requires Refusal(env.plan, steps, batch[i]).None? && Records(env.plan, steps, batch[i], after)
    requires AddressOf(batch[i]) !in inj
    requires more == inj[AddressOf(batch[i]) := AcceptedJob(env.plan.byId[batch[i].stepId], batch[i])]
    ensures Taken(env.plan, steps0, inj0, batch, i + 1, after, more)
  {
    hide SnapOk, EnvOk, Indexed, StillSuspended, AcceptedJob, OutputsAccepted, FirstRefused, RefusalAfter, WithJob;
    hide AddressesJob;
    var k: nat :| RecordsAt(env.plan, steps, batch[i], k, after);
    SuspendedOneMore(env, inj, steps0, batch, i, steps, k, after);
    RefusalLater(env.plan, steps0, batch[..i], steps, batch[i]);
    TakeOneMore(env.plan, steps0, batch, i);
    assert batch[..i + 1][..i] == batch[..i];
    HoldsOneMore(env, inj, batch, i, steps, after);
  }

  /** The next outcome is refused by the batch exactly when it is refused now. */
  lemma NextRefusal(plan: Plan, steps0: Steps, inj0: Injected, batch: seq<ResumedStep>, i: nat, steps: Steps,
                    inj: Injected)
    requires i < |batch| && Taken(plan, steps0, inj0, batch, i, steps, inj) && Refusal(plan, steps, batch[i]).Some?
    ensures FirstRefused(plan, steps0, batch) == i
    ensures BatchRefusal(plan, steps0, batch) == Refusal(plan, steps, batch[i])
  {
    hide StillSuspended, FirstRefused, RefusalAfter, Refusal;
    RefusalLater(plan, steps0, batch[..i], steps, batch[i]);
    TakeOneMore(plan, steps0, batch, i);
  }

  /** A suspended invocation stays suspended while a run goes on. */
  lemma SuspendedStays(env: Env, inj: Injected, steps: Steps, later: Steps, r: ResumedStep, k: nat)
    requires EnvOk(env) && SnapOk(env, inj, steps) && Advances(steps, later) && AddressesJob(steps, r, k)
    ensures AddressesJob(later, r, k)
  {
    hide SnapOk, OpenOk;
    SuspendedIsOpen(env, inj, steps, r, k);
    assert StepAdvances(Rec(steps, r.stepId), Rec(later, r.stepId));
  }

  // ---- order and grouping of batches ----

  lemma {:induction false} TwoPlaces<T>(s: seq<T>, x: T) returns (i: nat, j: nat)
    requires multiset(s)[x] >= 2
    ensures i < j < |s| && s[i] == x == s[j]
  {
    var n := |s| - 1;
    assert s == s[..n] + [s[n]];
    if s[n] == x {
      assert x in multiset(s[..n]);
      j := n;
      i :| 0 <= i < n && s[..n][i] == x;
    } else {
      i, j := TwoPlaces(s[..n], x);
    }
  }

  lemma OnlyOnce(a: seq<ResumedStep>, x: ResumedStep)
    requires DistinctAddresses(a)
    ensures multiset(a)[x] <= 1
  {
    if multiset(a)[x] >= 2 {
      var i, j := TwoPlaces(a, x);
    }
  }

  lemma OnlyOnceHere<T>(s: seq<T>, i: nat, j: nat)
    requires i < j < |s| && multiset(s)[s[i]] <= 1
    ensures s[i] != s[j]
  {
    assert s == s[..j] + [s[j]] + s[j + 1..];
    assert s[..j][i] == s[i];
    assert s[i] in multiset(s[..j]);
  }

  lemma PermutedDistinct(a: seq<ResumedStep>, b: seq<ResumedStep>)
    requires DistinctAddresses(a) && multiset(a) == multiset(b)
    ensures DistinctAddresses(b)
  {
    forall i, j | 0 <= i < j < |b| ensures AddressOf(b[i]) != AddressOf(b[j]) {
      assert b[i] in multiset(a) && b[j] in multiset(a);
      var p :| 0 <= p < |a| && a[p] == b[i];
      var q :| 0 <= q < |a| && a[q] == b[j];
      OnlyOnce(a, b[i]);
      OnlyOnceHere(b, i, j);
    }
  }

  /** A batch in another order is accepted exactly when it is, and with the same outcomes. */
  lemma OrderIrrelevant(plan: Plan, inj: Injected, steps: Steps, a: seq<ResumedStep>, b: seq<ResumedStep>)
    requires multiset(a) == multiset(b)
    ensures Accepts(plan, steps, a) <==> Accepts(plan, steps, b)
    ensures Accepts(plan, steps, a) ==> Answered(plan, inj, a) == Answered(plan, inj, b)
  {
    hide Answered, DistinctAddresses;
    if Accepts(plan, steps, a) {
      PermutedAccepts(plan, steps, a, b);
      forall r | r in a ensures r.stepId in plan.byId {
        var i :| 0 <= i < |a| && a[i] == r;
        assert Acceptable(plan, steps, a[i]);
      }
      BatchOrderIrrelevant(plan, inj, a, b);
    }
    if Accepts(plan, steps, b) {
      PermutedAccepts(plan, steps, b, a);
    }
  }

  lemma PermutedAccepts(plan: Plan, steps: Steps, a: seq<ResumedStep>, b: seq<ResumedStep>)
    requires multiset(a) == multiset(b) && Accepts(plan, steps, a)
    ensures Accepts(plan, steps, b)
  {
    hide Acceptable;
    PermutedDistinct(a, b);
    forall i | 0 <= i < |b| ensures Acceptable(plan, steps, b[i]) {
      assert b[i] in multiset(a);
      var j :| 0 <= j < |a| && a[j] == b[i];
    }
  }

  /**
   * A joined batch that is accepted is accepted in two parts, the second on any later snapshot that kept
   * its invocations suspended.
   */
  lemma PartsAccepted(plan: Plan, steps: Steps, a: seq<ResumedStep>, b: seq<ResumedStep>, later: Steps)
    requires Accepts(plan, steps, a + b)
    requires forall r, k: nat :: AddressesJob(steps, r, k) && !AnsweredBy(a, r) ==> AddressesJob(later, r, k)
    ensures Accepts(plan, steps, a) && Accepts(plan, later, b)
  {
    hide AddressesJob, OutputsAccepted;
    var all := a + b;
    forall i | 0 <= i < |a| ensures Acceptable(plan, steps, a[i]) {
      assert Acceptable(plan, steps, all[i]);
    }
    forall i, j | 0 <= i < j < |a| ensures AddressOf(a[i]) != AddressOf(a[j]) {
      assert AddressOf(all[i]) != AddressOf(all[j]);
    }
    forall i | 0 <= i < |b| ensures Acceptable(plan, later, b[i]) {
      assert Acceptable(plan, steps, all[|a| + i]);
      forall j | 0 <= j < |a| ensures AddressOf(a[j]) != AddressOf(b[i]) {
        assert AddressOf(all[j]) != AddressOf(all[|a| + i]);
      }
    }
    forall i, j | 0 <= i < j < |b| ensures AddressOf(b[i]) != AddressOf(b[j]) {
      assert AddressOf(all[|a| + i]) != AddressOf(all[|a| + j]);
    }
  }
}
