/**
 * What one step comes to, said directly of its behaviours: which inputs its invocations see, what each of
 * them leaves, and how these combine. The judgements the scheduler is proved against are shown to be these.
 */
module Outcomes {
  import opened Common
  import opened Grid
  import opened Nesting
  import opened Workflow
  import opened Meaning
  import Scatter

  predicate IsPort(step: Step, port: string) {
    exists i :: 0 <= i < |step.outs| && step.outs[i].port == port
  }

  /** Exactly the declared ports, each with the value given for it or null. */
  predicate OnPorts(step: Step, given: Obj, held: Obj) {
    && (forall i :: 0 <= i < |step.outs| ==> HeldOn(step.outs[i].port, given, held))
    && (forall port :: port in held ==> IsPort(step, port))
  }

  predicate HeldOn(port: string, given: Obj, held: Obj) {
    port in held && held[port] == if port in given then given[port] else Null
  }

  /** The handler asks to be resumed later. */
  predicate AsksToWait(reply: Reply) {
    !reply.failed && reply.status == Suspended && reply.suspension.Some? && reply.outputs.None?
  }

  /**
   * What a reply leaves. An error is a failure, for good unless called temporary; a suspension must carry itself
   * and nothing else, a final status must carry none, and anything else is a failure for good.
   */
  predicate ReplyLeaves(step: Step, reply: Reply, job: JobState) {
    if reply.failed then
      && job.status == (if reply.status == TemporaryFail then TemporaryFail else PermanentFail)
      && job.outputs == map[] && job.suspension.None?
    else if AsksToWait(reply) then
      job.status == Suspended && job.outputs == map[] && job.suspension == reply.suspension
    else if reply.suspension.None? && reply.status in {Success, Skipped, PermanentFail, TemporaryFail} then
      && job.status == reply.status && job.suspension.None?
      && if reply.status == Success then
           OnPorts(step, if reply.outputs.Some? then reply.outputs.value else map[], job.outputs)
         else job.outputs == map[]
    else job.status == PermanentFail && job.outputs == map[] && job.suspension.None?
  }

  /** `valueFrom` or `when` fails on these inputs. */
  predicate GateFails(step: Step, seed: Obj) {
    step.valueFrom(seed).Err? || step.when(step.valueFrom(seed).value).Err?
  }

  /** The inputs a handler is shown: those the process declares. */
  ghost predicate Shown(step: Step, inputs: Obj, shown: Obj) {
    && (forall name :: name in shown <==> name in inputs && name in step.declaredIn)
    && (forall name :: name in shown ==> name in inputs && shown[name] == inputs[name])
  }

  /**
   * What one invocation leaves. It sees what `valueFrom` makes of its seed; declined by `when` it is skipped
   * with nulls; else its call is built and its handler replies, an accepted outcome standing for a suspension.
   */
  ghost predicate InvocationLeaves(step: Step, inj: Injected, seed: Scatter.ScatterJob, job: JobState) {
    && !GateFails(step, seed.inputs)
    && var inputs := step.valueFrom(seed.inputs).value;
       if step.when(inputs) == Ok(false) then
         job.status == Skipped && OnPorts(step, map[], job.outputs) && job.suspension.None? && job.index == seed.index
       else if step.prepare(inputs, seed.index).Err? then
         job.status == PermanentFail && job.outputs == map[] && job.suspension.None? && job.index == seed.index
       else exists shown :: Shown(step, inputs, shown) && HandlerLeaves(step, inj, shown, seed.index, job)
  }

  predicate HandlerLeaves(step: Step, inj: Injected, shown: Obj, index: seq<int>, job: JobState) {
    var reply := step.handler(shown, index);
    if AsksToWait(reply) && Address(step.id, index) in inj then job == inj[Address(step.id, index)]
    else job.index == index && ReplyLeaves(step, reply, job)
  }

  /** The seeds of a step's invocations: its own inputs, or what scattering them gives. */
  ghost predicate SeedsAre(step: Step, inputs: Obj, seeds: seq<Scatter.ScatterJob>, shape: Option<Dims>) {
    if step.scatter == [] then seeds == [Scatter.ScatterJob(inputs, [])] && shape == None
    else
      && shape.Some?
      && Scatter.GivesElements(inputs, step.scatter, HowOf(step), Scatter.ScatterPlan(seeds, shape.value))
  }

  /** The scatter method, a dot product if none is named. */
  function HowOf(step: Step): (how: Scatter.Method)
    ensures step.how.Some? ==> how == step.how.value
    ensures step.how.None? ==> how == Scatter.Dotproduct
  {
    if step.how.Some? then step.how.value else Scatter.Dotproduct
  }

  ghost predicate NoSeeds(step: Step, inputs: Obj) {
    step.scatter != [] && exists e :: Scatter.RefusedFor(inputs, step.scatter, HowOf(step), e)
  }

  /** A port's value over all invocations: each one's value at its coordinates. */
  ghost predicate Collects(jobs: seq<JobState>, port: string, dims: Dims, v: Value)
    requires |jobs| == Product(dims)
  {
    && ShapedAs(v, dims)
    && forall k :: 0 <= k < |jobs| ==>
         Follow(v, CoordAt(k, dims)) == Some(if port in jobs[k].outputs then jobs[k].outputs[port] else Null)
  }

  /** How invocations combine: any that is not through keeps the step waiting; then the worst failure counts. */
  ghost predicate Combine(step: Step, shape: Option<Dims>, jobs: seq<JobState>, v: Verdict)
    requires |jobs| == match shape { case None => 1 case Some(dims) => Product(dims) }
  {
    if exists k :: 0 <= k < |jobs| && jobs[k].status in {Suspended, Unset} then v == Waiting
    else if exists k :: 0 <= k < |jobs| && jobs[k].status == PermanentFail then v == Done(PermanentFail, map[])
    else if exists k :: 0 <= k < |jobs| && jobs[k].status == TemporaryFail then v == Done(TemporaryFail, map[])
    else match shape
      case None => v == Done(if jobs[0].status == Skipped then Skipped else Success, jobs[0].outputs)
      case Some(dims) =>
        && v.Done? && v.status == Success && (forall port :: port in v.outputs <==> IsPort(step, port))
        && forall port :: port in v.outputs ==> Collects(jobs, port, dims, v.outputs[port])
  }

  /** What a step comes to on the inputs it resolves, for each way these can fail and each way it can run. */
  ghost predicate Comes(step: Step, inj: Injected, inputs: Result<Obj>, v: Verdict) {
    if inputs.Err? || NoSeeds(step, inputs.value) then v == Done(PermanentFail, map[])
    else exists seeds, shape, jobs :: ComesOf(step, inj, inputs.value, seeds, shape, jobs, v)
  }

  ghost predicate ComesOf(step: Step, inj: Injected, inputs: Obj, seeds: seq<Scatter.ScatterJob>, shape: Option<Dims>,
                          jobs: seq<JobState>, v: Verdict)
  {
    && SeedsAre(step, inputs, seeds, shape)
    && if exists k :: 0 <= k < |seeds| && GateFails(step, seeds[k].inputs) then v == Done(PermanentFail, map[])
       else
         && |jobs| == |seeds| && (forall k :: 0 <= k < |seeds| ==> InvocationLeaves(step, inj, seeds[k], jobs[k]))
         && |jobs| == (match shape { case None => 1 case Some(dims) => Product(dims) })
         && Combine(step, shape, jobs, v)
  }

  // ---- the judgements are these ----

  lemma PortsAre(step: Step, port: string)
    ensures port in Ports(step) <==> IsPort(step, port)
  {
    if IsPort(step, port) {
      var i :| 0 <= i < |step.outs| && step.outs[i].port == port;
      assert Ports(step)[i] == port;
    }
  }

  lemma ProjectIs(step: Step, given: Obj)
    ensures OnPorts(step, given, Project(Ports(step), given))
    ensures OnPorts(step, map[], NullPorts(Ports(step)))
  {
    forall port ensures port in Ports(step) <==> IsPort(step, port) {
      PortsAre(step, port);
    }
    forall i | 0 <= i < |step.outs| ensures step.outs[i].port in Ports(step) {
      assert Ports(step)[i] == step.outs[i].port;
    }
  }

  lemma RecordedLeaves(step: Step, reply: Reply, index: seq<int>)
    ensures ReplyLeaves(step, reply, Recorded(step, reply, index)) && Recorded(step, reply, index).index == index
    ensures Recorded(step, reply, index).status == Suspended <==> AsksToWait(reply)
  {
    hide Project;
    ProjectIs(step, if reply.outputs.Some? then reply.outputs.value else map[]);
  }

  lemma DeclaredIsShown(step: Step, inputs: Obj)
    ensures Shown(step, inputs, Declared(step, inputs))
  {}

  lemma SettledLeaves(step: Step, inj: Injected, seed: Scatter.ScatterJob)
    requires !GateFails(step, seed.inputs)
    ensures InvocationLeaves(step, inj, seed, Settled(step, inj, seed))
  {
    hide Declared, Project, NullPorts, OnPorts, ReplyLeaves, Recorded, Shown;
    var inputs := step.valueFrom(seed.inputs).value;
    ProjectIs(step, map[]);
    RecordedLeaves(step, NoReply, seed.index);
    NoReplyFails(step, seed.index);
    if step.when(inputs) != Ok(false) && step.prepare(inputs, seed.index).Ok? {
      DeclaredIsShown(step, inputs);
      RecordedLeaves(step, step.handler(Declared(step, inputs), seed.index), seed.index);
      assert HandlerLeaves(step, inj, Declared(step, inputs), seed.index, Settled(step, inj, seed));
    }
  }

  lemma NoReplyFails(step: Step, index: seq<int>)
    ensures Recorded(step, NoReply, index) == JobState(PermanentFail, map[], None, index)
  {}

  lemma GateIs(step: Step, seed: Obj)
    ensures GateOf(step, seed).Rejected? <==> GateFails(step, seed)
  {}

  lemma SeedsFollow(step: Step, inputs: Obj)
    ensures Expand(step, inputs).Err? <==> NoSeeds(step, inputs)
    ensures Expand(step, inputs).Ok? ==>
        SeedsAre(step, inputs, Expand(step, inputs).value.seeds, Expand(step, inputs).value.shape)
  {
    hide Scatter.Expansion, Scatter.GivesElements, Scatter.RefusedFor;
    if step.scatter != [] {
      var how := HowOf(step);
      if Scatter.Expansion(inputs, step.scatter, how).Ok? {
        Scatter.ExpansionGivesElements(inputs, step.scatter, how);
        NotRefused(inputs, step.scatter, how);
      } else {
        Scatter.ExpansionRefuses(inputs, step.scatter, how);
      }
    }
  }

  lemma NotRefused(base: Obj, keys: seq<string>, how: Scatter.Method)
    requires Scatter.Expansion(base, keys, how).Ok?
    ensures forall e :: !Scatter.RefusedFor(base, keys, how, e)
  {
    hide Scatter.Expansion, Scatter.RefusedFor;
    forall e ensures !Scatter.RefusedFor(base, keys, how, e) {
      if Scatter.RefusedFor(base, keys, how, e) {
        Scatter.OnlyRefusals(base, keys, how, e);
      }
    }
  }

  lemma ColumnCollects(jobs: seq<JobState>, port: string, dims: Dims)
    requires |jobs| == Product(dims)
    ensures Collects(jobs, port, dims, Nested(PortColumn(jobs, port), dims))
  {
    hide CoordAt, Product, ShapedAs, Nested;
    NestedShaped(PortColumn(jobs, port), dims);
    forall k | 0 <= k < |jobs|
      ensures Follow(Nested(PortColumn(jobs, port), dims), CoordAt(k, dims)) ==
          Some(if port in jobs[k].outputs then jobs[k].outputs[port] else Null)
    {
      FollowReachesLeaf(PortColumn(jobs, port), dims, CoordAt(k, dims));
    }
  }

  lemma ReduceCombines(step: Step, shape: Option<Dims>, jobs: seq<JobState>)
    requires |jobs| == match shape { case None => 1 case Some(dims) => Product(dims) }
    ensures Combine(step, shape, jobs, Reduce(step, shape, jobs))
  {
    hide Collects, Nested, Product, CoordAt;
    forall k | 0 <= k < |jobs| ensures !Terminal(jobs[k]) <==> jobs[k].status in {Suspended, Unset} {}
    if shape.Some? {
      forall port ensures port in Ports(step) <==> IsPort(step, port) {
        PortsAre(step, port);
      }
      forall port ensures Collects(jobs, port, shape.value, Nested(PortColumn(jobs, port), shape.value)) {
        ColumnCollects(jobs, port, shape.value);
      }
    }
  }

  /** A step's verdict is what the step comes to. */
  lemma JudgeComes(step: Step, inj: Injected, inputs: Result<Obj>)
    ensures Comes(step, inj, inputs, Judge(step, inj, inputs))
  {
    hide Expand, Reduce, SeedsAre, NoSeeds, InvocationLeaves, Combine, Settled, GateOf, GateFails;
    if inputs.Ok? {
      SeedsFollow(step, inputs.value);
      if Expand(step, inputs.value).Ok? {
        var e := Expand(step, inputs.value).value;
        var jobs := AllSettled(step, inj, e);
        forall k | 0 <= k < |e.seeds|
          ensures GateOf(step, e.seeds[k].inputs).Rejected? <==> GateFails(step, e.seeds[k].inputs)
        {
          GateIs(step, e.seeds[k].inputs);
        }
        forall k | 0 <= k < |e.seeds| && !GateFails(step, e.seeds[k].inputs)
          ensures InvocationLeaves(step, inj, e.seeds[k], jobs[k])
        {
          SettledLeaves(step, inj, e.seeds[k]);
        }
        ReduceCombines(step, e.shape, jobs);
        assert ComesOf(step, inj, inputs.value, e.seeds, e.shape, jobs, Judge(step, inj, inputs));
      }
    }
  }
}
