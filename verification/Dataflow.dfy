/**
 * Where values come from, said of a run's records: what a source reads, what a step's inputs and the run's
 * outputs are made of, and that every record of a right snapshot follows from these.
 */
module Dataflow {
  import opened Common
  import opened Workflow
  import opened Meaning
  import opened Stability
  import opened RunState
  import opened Reporting
  import opened Outcomes
  import Scatter

  /** A source is a run input, or a port of a step that has produced; a missing entry reads as null. */
  predicate Reading(plan: Plan, inputs: Obj, steps: Steps, source: string, v: Value) {
    && source in plan.sources
    && var ref := plan.sources[source];
       if ref.step == "" then v == if ref.port in inputs then inputs[ref.port] else Null
       else
         && ref.step in steps && steps[ref.step].status in {Success, Skipped}
         && v == if ref.port in steps[ref.step].outputs then steps[ref.step].outputs[ref.port] else Null
  }

  /** The values a sink is settled on: one a source, in the order of its sources. */
  predicate Readings(plan: Plan, inputs: Obj, steps: Steps, sources: seq<string>, values: seq<Value>) {
    |values| == |sources| && forall j :: 0 <= j < |sources| ==> Reading(plan, inputs, steps, sources[j], values[j])
  }

  /** The source reads nothing yet. */
  ghost predicate Missing(plan: Plan, inputs: Obj, steps: Steps, source: string) {
    forall v :: !Reading(plan, inputs, steps, source, v)
  }

  ghost predicate Unread(plan: Plan, inputs: Obj, steps: Steps, sources: seq<string>) {
    exists j :: 0 <= j < |sources| && Missing(plan, inputs, steps, sources[j])
  }

  /** A sink gives what it settles its readings to, and is incomplete if one of them is missing. */
  ghost predicate SinkGives(plan: Plan, inputs: Obj, steps: Steps, sink: Sink, r: Result<Value>) {
    || (Unread(plan, inputs, steps, sink.sources) && r == Err(Incomplete))
    || exists values :: Readings(plan, inputs, steps, sink.sources, values) && r == sink.settle(values)
  }

  ghost predicate Gives(plan: Plan, inputs: Obj, steps: Steps, sink: Sink) {
    exists v :: SinkGives(plan, inputs, steps, sink, Ok(v))
  }

  /** An object bound from sinks: one entry a sink name, with what the last sink of that name gives. */
  ghost predicate Bound(plan: Plan, inputs: Obj, steps: Steps, sinks: seq<Sink>, bound: Obj) {
    && (forall i :: 0 <= i < |sinks| ==> Gives(plan, inputs, steps, sinks[i]))
    && (forall i :: 0 <= i < |sinks| ==> sinks[i].name in bound)
    && (forall name :: name in bound ==> BoundAt(plan, inputs, steps, sinks, name, bound[name]))
  }

  ghost predicate BoundAt(plan: Plan, inputs: Obj, steps: Steps, sinks: seq<Sink>, name: string, v: Value) {
    exists i :: 0 <= i < |sinks| && LastNamed(sinks, i, name) && SinkGives(plan, inputs, steps, sinks[i], Ok(v))
  }

  predicate LastNamed(sinks: seq<Sink>, i: nat, name: string)
    requires i < |sinks|
  {
    sinks[i].name == name && forall j :: i < j < |sinks| ==> sinks[j].name != name
  }

  /** The first sink that gives an error gives that error. */
  ghost predicate FirstErr(plan: Plan, inputs: Obj, steps: Steps, sinks: seq<Sink>, e: Error) {
    exists i :: 0 <= i < |sinks| && ErrAt(plan, inputs, steps, sinks, i, e)
  }

  ghost predicate ErrAt(plan: Plan, inputs: Obj, steps: Steps, sinks: seq<Sink>, i: nat, e: Error)
    requires i < |sinks|
  {
    && SinkGives(plan, inputs, steps, sinks[i], Err(e))
    && forall j :: 0 <= j < i ==> Gives(plan, inputs, steps, sinks[j])
  }

  /** A declared default stands for an input that is missing or null; nothing else is changed or added. */
  ghost predicate Defaulted(inputs: Obj, defaults: Obj, out: Obj) {
    && (forall name :: name in out <==> name in inputs || name in defaults)
    && forall name :: name in out ==>
         out[name] == if name in inputs && inputs[name] != Null then inputs[name]
                      else if name in defaults then defaults[name] else Null
  }

  /** A step's inputs: the run's own for an implicit step, else what its sinks bind, filled in. */
  ghost predicate InputsFollow(plan: Plan, inputs: Obj, steps: Steps, step: Step, r: Result<Obj>) {
    if step.implicit then r.Ok? && Defaulted(inputs, step.defaults, r.value)
    else
      || (exists e :: FirstErr(plan, inputs, steps, step.ins, e) && r == Err(e))
      || exists bound :: Bound(plan, inputs, steps, step.ins, bound) && r == step.fill(bound)
  }

  /** A run's outputs: what its sinks bind, null for a sink without a source. */
  ghost predicate OutputsFollow(plan: Plan, inputs: Obj, steps: Steps, outputs: Obj) {
    && (forall i :: 0 <= i < |plan.outputs| ==> plan.outputs[i].name in outputs)
    && forall name :: name in outputs ==> OutputAt(plan, inputs, steps, plan.outputs, name, outputs[name])
  }

  ghost predicate OutputAt(plan: Plan, inputs: Obj, steps: Steps, sinks: seq<Sink>, name: string, v: Value) {
    exists i :: 0 <= i < |sinks| && LastNamed(sinks, i, name) &&
      if sinks[i].sources == [] then v == Null else SinkGives(plan, inputs, steps, sinks[i], Ok(v))
  }

  // ---- what is read is this ----

  lemma SourceReads(plan: Plan, inputs: Obj, steps: Steps, source: string)
    ensures match SourceValue(plan, inputs, ProducedOf(steps), source)
            case Some(v) => Reading(plan, inputs, steps, source, v)
            case None => Missing(plan, inputs, steps, source)
  {}

  lemma {:induction false} SourcesRead(plan: Plan, inputs: Obj, steps: Steps, sources: seq<string>)
    ensures match SourceValues(plan, inputs, ProducedOf(steps), sources)
            case Some(values) => Readings(plan, inputs, steps, sources, values)
            case None => Unread(plan, inputs, steps, sources)
  {
    hide SourceValue, Reading, Missing;
    if sources != [] {
      var n := |sources| - 1;
      SourcesRead(plan, inputs, steps, sources[..n]);
      SourceReads(plan, inputs, steps, sources[n]);
      if Unread(plan, inputs, steps, sources[..n]) {
        var j :| 0 <= j < n && Missing(plan, inputs, steps, sources[..n][j]);
        assert sources[j] == sources[..n][j];
      }
    }
  }

  lemma SinkReads(plan: Plan, inputs: Obj, steps: Steps, sink: Sink)
    ensures SinkGives(plan, inputs, steps, sink, SinkValue(plan, inputs, ProducedOf(steps), sink))
  {
    hide SourceValues, Readings, Unread;
    SourcesRead(plan, inputs, steps, sink.sources);
  }

  lemma {:induction false} BoundReads(plan: Plan, inputs: Obj, steps: Steps, sinks: seq<Sink>)
    ensures match BoundInputs(plan, inputs, ProducedOf(steps), sinks)
            case Ok(bound) => Bound(plan, inputs, steps, sinks, bound)
            case Err(e) => FirstErr(plan, inputs, steps, sinks, e)
  {
    hide SinkValue, SinkGives, Bound, FirstErr;
    if sinks == [] {
      NothingBound(plan, inputs, steps);
    } else {
      var n := |sinks| - 1;
      BoundReads(plan, inputs, steps, sinks[..n]);
      SinkReads(plan, inputs, steps, sinks[n]);
      assert sinks == sinks[..n] + [sinks[n]];
      match BoundInputs(plan, inputs, ProducedOf(steps), sinks[..n]) {
        case Err(e) => ErrStays(plan, inputs, steps, sinks[..n], sinks[n], e);
        case Ok(bound) =>
          match SinkValue(plan, inputs, ProducedOf(steps), sinks[n]) {
            case Err(e) => NewErr(plan, inputs, steps, sinks[..n], sinks[n], bound, e);
            case Ok(v) => OneMoreBound(plan, inputs, steps, sinks[..n], sinks[n], bound, v);
          }
      }
    }
  }

  lemma NothingBound(plan: Plan, inputs: Obj, steps: Steps)
    ensures Bound(plan, inputs, steps, [], map[])
  {}

  lemma ErrStays(plan: Plan, inputs: Obj, steps: Steps, sinks: seq<Sink>, sink: Sink, e: Error)
    requires FirstErr(plan, inputs, steps, sinks, e)
    ensures FirstErr(plan, inputs, steps, sinks + [sink], e)
  {
    hide SinkGives, Gives;
    var i :| 0 <= i < |sinks| && ErrAt(plan, inputs, steps, sinks, i, e);
    assert ErrAt(plan, inputs, steps, sinks + [sink], i, e);
  }

  lemma NewErr(plan: Plan, inputs: Obj, steps: Steps, sinks: seq<Sink>, sink: Sink, bound: Obj, e: Error)
    requires Bound(plan, inputs, steps, sinks, bound) && SinkGives(plan, inputs, steps, sink, Err(e))
    ensures FirstErr(plan, inputs, steps, sinks + [sink], e)
  {
    hide SinkGives, Gives;
    assert ErrAt(plan, inputs, steps, sinks + [sink], |sinks|, e);
  }

  lemma OneMoreBound(plan: Plan, inputs: Obj, steps: Steps, sinks: seq<Sink>, sink: Sink, bound: Obj, v: Value)
    requires Bound(plan, inputs, steps, sinks, bound) && SinkGives(plan, inputs, steps, sink, Ok(v))
    ensures Bound(plan, inputs, steps, sinks + [sink], bound[sink.name := v])
  {
    hide SinkGives;
    var more, out := sinks + [sink], bound[sink.name := v];
    forall name | name in out ensures BoundAt(plan, inputs, steps, more, name, out[name]) {
      if name == sink.name {
        assert LastNamed(more, |sinks|, name);
      } else {
        assert BoundAt(plan, inputs, steps, sinks, name, bound[name]);
        var i :| 0 <= i < |sinks| && LastNamed(sinks, i, name) &&
          SinkGives(plan, inputs, steps, sinks[i], Ok(out[name]));
        assert LastNamed(more, i, name) && more[i] == sinks[i];
      }
    }
  }

  lemma DefaultsFollow(inputs: Obj, defaults: Obj)
    ensures Defaulted(inputs, defaults, WithDefaults(inputs, defaults))
  {}

  lemma StepInputsFollow(plan: Plan, inputs: Obj, steps: Steps, step: Step)
    ensures InputsFollow(plan, inputs, steps, step, StepInputs(plan, inputs, ProducedOf(steps), step))
  {
    hide Bound, FirstErr, BoundInputs, WithDefaults, Defaulted;
    DefaultsFollow(inputs, step.defaults);
    BoundReads(plan, inputs, steps, step.ins);
  }

  lemma {:induction false} OutputsRead(plan: Plan, inputs: Obj, steps: Steps, sinks: seq<Sink>)
    requires RunOutputs(plan, inputs, ProducedOf(steps), sinks).Ok?
    ensures var outputs := RunOutputs(plan, inputs, ProducedOf(steps), sinks).value;
            && (forall i :: 0 <= i < |sinks| ==> sinks[i].name in outputs)
            && forall name :: name in outputs ==> OutputAt(plan, inputs, steps, sinks, name, outputs[name])
  {
    hide SinkValue, SinkGives, OutputAt;
    if sinks != [] {
      var n := |sinks| - 1;
      var before := RunOutputs(plan, inputs, ProducedOf(steps), sinks[..n]).value;
      OutputsRead(plan, inputs, steps, sinks[..n]);
      SinkReads(plan, inputs, steps, sinks[n]);
      assert sinks == sinks[..n] + [sinks[n]];
      var outputs := RunOutputs(plan, inputs, ProducedOf(steps), sinks).value;
      forall name | name in outputs ensures OutputAt(plan, inputs, steps, sinks, name, outputs[name]) {
        OneMoreOutput(plan, inputs, steps, sinks[..n], sinks[n], name, outputs[name]);
      }
    }
  }

  lemma OneMoreOutput(plan: Plan, inputs: Obj, steps: Steps, sinks: seq<Sink>, sink: Sink, name: string, v: Value)
    ensures sink.name == name && (if sink.sources == [] then v == Null else SinkGives(plan, inputs, steps, sink, Ok(v)))
        ==> OutputAt(plan, inputs, steps, sinks + [sink], name, v)
    ensures sink.name != name && OutputAt(plan, inputs, steps, sinks, name, v)
        ==> OutputAt(plan, inputs, steps, sinks + [sink], name, v)
  {
    hide SinkGives;
    var more := sinks + [sink];
    if sink.name == name {
      assert LastNamed(more, |sinks|, name);
    } else if OutputAt(plan, inputs, steps, sinks, name, v) {
      var i :| 0 <= i < |sinks| && LastNamed(sinks, i, name) &&
        if sinks[i].sources == [] then v == Null else SinkGives(plan, inputs, steps, sinks[i], Ok(v));
      assert LastNamed(more, i, name) && more[i] == sinks[i];
    }
  }

  lemma RunOutputsFollow(plan: Plan, inputs: Obj, steps: Steps)
    requires RunOutputs(plan, inputs, ProducedOf(steps), plan.outputs).Ok?
    ensures OutputsFollow(plan, inputs, steps, RunOutputs(plan, inputs, ProducedOf(steps), plan.outputs).value)
  {
    hide OutputAt;
    OutputsRead(plan, inputs, steps, plan.outputs);
  }

  // ---- every record follows ----

  /** An open step's recorded invocations are what these leave, on the inputs the records give. */
  ghost predicate OpenFollows(step: Step, inj: Injected, inputs: Result<Obj>, r: StepState) {
    inputs.Ok? && exists seeds :: OpenAlong(step, inj, inputs.value, seeds, r)
  }

  ghost predicate OpenAlong(step: Step, inj: Injected, inputs: Obj, seeds: seq<Scatter.ScatterJob>, r: StepState) {
    && SeedsAre(step, inputs, seeds, r.shape) && |r.jobs| == |seeds|
    && forall k :: 0 <= k < |seeds| && r.jobs[k].status != Unset ==> InvocationLeaves(step, inj, seeds[k], r.jobs[k])
  }

  /** A started step's record is what the step comes to on inputs that follow from the other records. */
  ghost predicate RecordFollows(plan: Plan, inputs: Obj, inj: Injected, steps: Steps, id: string)
    requires id in plan.byId && id in steps
  {
    exists r :: InputsFollow(plan, inputs, steps, plan.byId[id], r) &&
      if steps[id].status == Unset then OpenFollows(plan.byId[id], inj, r, steps[id])
      else Comes(plan.byId[id], inj, r, Done(steps[id].status, steps[id].outputs))
  }

  ghost predicate RecordsFollow(plan: Plan, inputs: Obj, inj: Injected, steps: Steps) {
    forall id :: id in steps && steps[id].started ==> id in plan.byId && RecordFollows(plan, inputs, inj, steps, id)
  }

  lemma OpenIsAlong(step: Step, inj: Injected, inputs: Result<Obj>, r: StepState)
    requires OpenOk(step, inj, inputs, r)
    ensures OpenFollows(step, inj, inputs, r)
  {
    hide Expand, SeedsAre, InvocationLeaves, Settled, GateOf, GateFails;
    var seeds := SeedsOf(step, inputs);
    SeedsFollow(step, inputs.value);
    forall k | 0 <= k < |seeds| && r.jobs[k].status != Unset ensures InvocationLeaves(step, inj, seeds[k], r.jobs[k]) {
      assert JobOk(step, inj, seeds[k], r.jobs[k]);
      GateIs(step, seeds[k].inputs);
      SettledLeaves(step, inj, seeds[k]);
    }
    assert OpenAlong(step, inj, inputs.value, seeds, r);
  }

  lemma SnapFollows(env: Env, inj: Injected, steps: Steps)
    requires EnvOk(env) && WellFormed(env.plan) && SnapOk(env, inj, steps)
    ensures RecordsFollow(env.plan, env.inputs, inj, steps)
  {
    hide EnvOk, WellFormed, RecordFollows, Grounded;
    forall id | id in steps && steps[id].started
      ensures id in env.plan.byId && RecordFollows(env.plan, env.inputs, inj, steps, id)
    {
      StartedFollows(env, inj, steps, id);
    }
  }

  lemma StartedFollows(env: Env, inj: Injected, steps: Steps, id: string)
    requires EnvOk(env) && WellFormed(env.plan) && SnapOk(env, inj, steps) && id in steps && steps[id].started
    ensures id in env.plan.byId && RecordFollows(env.plan, env.inputs, inj, steps, id)
  {
    hide EnvOk, WellFormed, Grounded, Judge, InputsOf, OpenOk, OpenFollows, Comes, InputsFollow, StepInputs;
    assert StepOk(env, inj, id, steps[id]);
    GroundedInputs(env, inj, steps, id);
    StepInputsFollow(env.plan, env.inputs, steps, env.plan.byId[id]);
    var r := InputsOf(env, inj, id);
    if steps[id].status == Unset {
      OpenIsAlong(env.plan.byId[id], inj, r, steps[id]);
    } else {
      JudgeComes(env.plan.byId[id], inj, r);
    }
  }

  // ---- what a run reports ----

  /** The position of an invocation: its step's place in the plan, and its own among the step's. */
  datatype Place = Place(step: nat, job: nat)

  predicate Earlier(a: Place, b: Place) {
    a.step < b.step || (a.step == b.step && a.job < b.job)
  }

  /** A suspended invocation stands there. */
  predicate SuspendedAt(steps: Steps, order: seq<string>, at: Place) {
    && at.step < |order| && at.job < |Rec(steps, order[at.step]).jobs|
    && Rec(steps, order[at.step]).jobs[at.job].status == Suspended
    && Rec(steps, order[at.step]).jobs[at.job].suspension.Some?
  }

  /** One suspension for each suspended invocation, in plan order. */
  ghost predicate Lists(steps: Steps, order: seq<string>, at: seq<Place>, listed: seq<Suspension>) {
    && |at| == |listed| && (forall i, j :: 0 <= i < j < |at| ==> Earlier(at[i], at[j]))
    && (forall i :: 0 <= i < |at| ==> SuspendedAt(steps, order, at[i]))
    && (forall i :: 0 <= i < |at| ==> Some(listed[i]) == Rec(steps, order[at[i].step]).jobs[at[i].job].suspension)
    && (forall place :: SuspendedAt(steps, order, place) ==> place in at)
  }

  lemma {:induction false} JobsListed(jobs: seq<JobState>) returns (at: seq<nat>)
    ensures JobsAt(jobs, at, WaitingJobs(jobs))
  {
    hide JobsAt;
    at := [];
    if jobs == [] {
      NoJobsListed();
    } else {
      var n := |jobs| - 1;
      at := JobsListed(jobs[..n]);
      assert jobs == jobs[..n] + [jobs[n]];
      OneMoreJob(jobs[..n], jobs[n], at, WaitingJobs(jobs[..n]));
      if jobs[n].status == Suspended && jobs[n].suspension.Some? {
        at := at + [n];
      } else {
        assert WaitingJobs(jobs[..n]) + [] == WaitingJobs(jobs[..n]);
      }
    }
  }

  lemma NoJobsListed()
    ensures JobsAt([], [], [])
  {}

  lemma OneMoreJob(jobs: seq<JobState>, job: JobState, at: seq<nat>, listed: seq<Suspension>)
    requires JobsAt(jobs, at, listed)
    ensures if job.status == Suspended && job.suspension.Some? then
              JobsAt(jobs + [job], at + [|jobs|], listed + [job.suspension.value])
            else JobsAt(jobs + [job], at, listed)
  {
    var more, all := at + [|jobs|], jobs + [job];
    assert more[|at|] == |jobs|;
    forall k | 0 <= k < |jobs| && all[k].status == Suspended && all[k].suspension.Some? ensures k in at && k in more {
      assert jobs[k] == all[k];
      var i :| 0 <= i < |at| && at[i] == k;
      assert more[i] == k;
    }
  }

  lemma {:induction false} StepsListed(steps: Steps, order: seq<string>) returns (at: seq<Place>)
    ensures Lists(steps, order, at, WaitingSteps(steps, order))
  {
    hide WaitingJobs, Rec, Lists, JobsAt;
    at := [];
    if order == [] {
      NoneListed(steps);
    } else {
      var n := |order| - 1;
      var before := StepsListed(steps, order[..n]);
      var more := JobsListed(Rec(steps, order[n]).jobs);
      at := before + PlacesOf(n, more);
      OneMoreListed(steps, order, before, WaitingSteps(steps, order[..n]), more,
                    WaitingJobs(Rec(steps, order[n]).jobs));
    }
  }

  lemma NoneListed(steps: Steps)
    ensures Lists(steps, [], [], [])
  {}

  /** The places of the suspended ones among one step's invocations. */
  predicate JobsAt(jobs: seq<JobState>, at: seq<nat>, listed: seq<Suspension>) {
    && |at| == |listed| && (forall i, j :: 0 <= i < j < |at| ==> at[i] < at[j])
    && (forall i :: 0 <= i < |at| ==> at[i] < |jobs| && jobs[at[i]].status == Suspended)
    && (forall i :: 0 <= i < |at| ==> Some(listed[i]) == jobs[at[i]].suspension)
    && forall k :: 0 <= k < |jobs| && jobs[k].status == Suspended && jobs[k].suspension.Some? ==> k in at
  }

  function PlacesOf(step: nat, at: seq<nat>): (places: seq<Place>)
    ensures |places| == |at| && forall i :: 0 <= i < |at| ==> places[i] == Place(step, at[i])
  {
    seq(|at|, i requires 0 <= i < |at| => Place(step, at[i]))
  }

  lemma OneMoreListed(steps: Steps, order: seq<string>, before: seq<Place>, listed: seq<Suspension>, more: seq<nat>,
                      new': seq<Suspension>)
    requires order != [] && Lists(steps, order[..|order| - 1], before, listed)
    requires JobsAt(Rec(steps, order[|order| - 1]).jobs, more, new')
    ensures Lists(steps, order, before + PlacesOf(|order| - 1, more), listed + new')
  {
    hide Rec, SuspendedAt, Earlier;
    var n := |order| - 1;
    var at, all := before + PlacesOf(n, more), listed + new';
    forall i | 0 <= i < |at| ensures ListedAs(steps, order, at[i], all[i]) {
      if i < |before| {
        StillListed(steps, order, before[i]);
      } else {
        NowListed(steps, order, more, new', i - |before|);
      }
    }
    forall i, j | 0 <= i < j < |at| ensures Earlier(at[i], at[j]) {
      InListOrder(steps, order, before, more, i, j);
    }
    AllPlaced(steps, order, before, more);
  }

  /** This suspension is the one of the invocation there. */
  predicate ListedAs(steps: Steps, order: seq<string>, at: Place, s: Suspension) {
    SuspendedAt(steps, order, at) && Some(s) == Rec(steps, order[at.step]).jobs[at.job].suspension
  }

  lemma StillListed(steps: Steps, order: seq<string>, place: Place)
    requires order != [] && SuspendedAt(steps, order[..|order| - 1], place)
    ensures SuspendedAt(steps, order, place) && place.step < |order| - 1
    ensures forall s :: ListedAs(steps, order[..|order| - 1], place, s) ==> ListedAs(steps, order, place, s)
  {
    hide Rec;
  }

  lemma NowListed(steps: Steps, order: seq<string>, more: seq<nat>, new': seq<Suspension>, i: nat)
    requires order != [] && JobsAt(Rec(steps, order[|order| - 1]).jobs, more, new') && i < |more|
    ensures ListedAs(steps, order, PlacesOf(|order| - 1, more)[i], new'[i])
  {
    hide Rec;
  }

  lemma InListOrder(steps: Steps, order: seq<string>, before: seq<Place>, more: seq<nat>, i: nat, j: nat)
    requires order != [] && i < j < |before| + |more|
    requires forall k :: 0 <= k < |before| ==> SuspendedAt(steps, order[..|order| - 1], before[k])
    requires forall k, l :: 0 <= k < l < |before| ==> Earlier(before[k], before[l])
    requires forall k, l :: 0 <= k < l < |more| ==> more[k] < more[l]
    ensures var at := before + PlacesOf(|order| - 1, more); Earlier(at[i], at[j])
  {
    hide Rec;
    if i < |before| {
      StillListed(steps, order, before[i]);
    }
  }

  lemma AllPlaced(steps: Steps, order: seq<string>, before: seq<Place>, more: seq<nat>)
    requires order != [] && forall place :: SuspendedAt(steps, order[..|order| - 1], place) ==> place in before
    requires var jobs := Rec(steps, order[|order| - 1]).jobs;
             forall k :: 0 <= k < |jobs| && jobs[k].status == Suspended && jobs[k].suspension.Some? ==> k in more
    ensures forall place :: SuspendedAt(steps, order, place) ==> place in before + PlacesOf(|order| - 1, more)
  {
    hide Rec;
    var n := |order| - 1;
    forall place | SuspendedAt(steps, order, place) ensures place in before + PlacesOf(n, more) {
      if place.step < n {
        assert SuspendedAt(steps, order[..n], place);
      } else {
        var i :| 0 <= i < |more| && more[i] == place.job;
        assert PlacesOf(n, more)[i] == place;
      }
    }
  }

  /** The first output sink with a source that gives an error gives that error. */
  ghost predicate OutputErr(plan: Plan, inputs: Obj, steps: Steps, sinks: seq<Sink>, e: Error) {
    exists i :: 0 <= i < |sinks| && OutputErrAt(plan, inputs, steps, sinks, i, e)
  }

  ghost predicate OutputErrAt(plan: Plan, inputs: Obj, steps: Steps, sinks: seq<Sink>, i: nat, e: Error)
    requires i < |sinks|
  {
    && sinks[i].sources != [] && SinkGives(plan, inputs, steps, sinks[i], Err(e))
    && forall j :: 0 <= j < i ==> sinks[j].sources == [] || Gives(plan, inputs, steps, sinks[j])
  }

  lemma {:induction false} OutputsErr(plan: Plan, inputs: Obj, steps: Steps, sinks: seq<Sink>)
    ensures match RunOutputs(plan, inputs, ProducedOf(steps), sinks)
            case Err(e) => OutputErr(plan, inputs, steps, sinks, e)
            case Ok(_) =>
              forall j :: 0 <= j < |sinks| ==> sinks[j].sources == [] || Gives(plan, inputs, steps, sinks[j])
  {
    hide SinkValue, SinkGives;
    if sinks != [] {
      var n := |sinks| - 1;
      OutputsErr(plan, inputs, steps, sinks[..n]);
      SinkReads(plan, inputs, steps, sinks[n]);
      match RunOutputs(plan, inputs, ProducedOf(steps), sinks[..n]) {
        case Err(e) =>
          var i :| 0 <= i < n && OutputErrAt(plan, inputs, steps, sinks[..n], i, e);
          assert OutputErrAt(plan, inputs, steps, sinks, i, e) by {
            assert forall j :: 0 <= j <= i ==> sinks[..n][j] == sinks[j];
          }
        case Ok(_) =>
          assert forall j :: 0 <= j < n ==> sinks[..n][j] == sinks[j];
          match SinkValue(plan, inputs, ProducedOf(steps), sinks[n]) {
            case Err(e) => assert sinks[n].sources != [] ==> OutputErrAt(plan, inputs, steps, sinks, n, e);
            case Ok(_) =>
          }
      }
    }
  }

  /**
   * A result says what its snapshot's records say: a success has the outputs the records give, a suspension
   * lists the suspended invocations.
   */
  ghost predicate Tells(plan: Plan, inputs: Obj, r: RunResult) {
    && (r.status == Success ==> OutputsFollow(plan, inputs, r.state.steps, r.outputs))
    && (r.status == Suspended ==> exists at :: Lists(r.state.steps, plan.order, at, r.suspensions))
  }

  /**
   * How a run that is not cancelled ends, by its records: an error and the worst status if a step failed; else
   * suspended if an invocation is; else with outputs, or the error of the first output that has none.
   */
  ghost predicate EndsAs(plan: Plan, inputs: Obj, r: RunResult, err: Option<Error>) {
    var steps := r.state.steps;
    if exists id :: id in steps && Failing(steps[id].status) then
      && err.Some? && r.outputs == map[] && r.suspensions == []
      && r.status == if exists id :: id in steps && steps[id].status == PermanentFail then PermanentFail
           else TemporaryFail
    else if exists at :: SuspendedAt(steps, plan.order, at) then
      err.None? && r.status == Suspended && r.outputs == map[]
    else
      || (err.None? && r.status == Success && r.suspensions == [])
      || (err.Some? && r.status == PermanentFail && OutputErr(plan, inputs, steps, plan.outputs, err.value))
  }

  lemma WaitingExist(steps: Steps, order: seq<string>)
    ensures WaitingSteps(steps, order) != [] <==> exists at :: SuspendedAt(steps, order, at)
  {
    hide WaitingSteps, SuspendedAt;
    var at := StepsListed(steps, order);
    if at != [] {
      assert SuspendedAt(steps, order, at[0]);
    }
  }

  lemma TellsIf(plan: Plan, inputs: Obj, r: RunResult)
    requires r.status == Success ==> RunOutputs(plan, inputs, ProducedOf(r.state.steps), plan.outputs) == Ok(r.outputs)
    requires r.status == Suspended ==> r.suspensions == WaitingSteps(r.state.steps, plan.order)
    ensures Tells(plan, inputs, r)
  {
    hide OutputsFollow, RunOutputs, WaitingSteps, Lists;
    if r.status == Success {
      RunOutputsFollow(plan, inputs, r.state.steps);
    }
    if r.status == Suspended {
      var at := StepsListed(r.state.steps, plan.order);
    }
  }
}
