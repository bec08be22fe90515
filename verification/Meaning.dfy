/**
 * What a run means, independently of any scheduling: each step judged from the judgements of the
 * steps it depends on, by recursion over the dependency graph.
 */
module Meaning {
  import opened Common
  import opened Grid
  import opened Nesting
  import opened Graph
  import opened Workflow
  import Scatter

  /** The recorded outcome of one invocation; `Unset` until it has one. */
  datatype JobState = JobState(status: Status, outputs: Obj, suspension: Option<Suspension>, index: seq<int>)

  predicate Terminal(job: JobState) {
    job.status != Unset && job.status != Suspended
  }

  predicate Failing(status: Status) {
    status == PermanentFail || status == TemporaryFail
  }

  /** An invocation's address: its step and its scatter coordinates. */
  datatype Address = Address(step: string, index: seq<int>)

  /** The outcomes accepted so far for suspended invocations. */
  type Injected = map<Address, JobState>

  // ---- inputs ----

  function SourceValue(plan: Plan, inputs: Obj, produced: map<string, Obj>, source: string): Option<Value> {
    if source !in plan.sources then None
    else
      var ref := plan.sources[source];
      if ref.step == "" then Some(Lookup(inputs, ref.port))
      else if ref.step in produced then Some(Lookup(produced[ref.step], ref.port))
      else None
  }

  function SourceValues(plan: Plan, inputs: Obj, produced: map<string, Obj>, sources: seq<string>): Option<seq<Value>> {
    if sources == [] then Some([])
    else
      var n := |sources| - 1;
      match SourceValues(plan, inputs, produced, sources[..n])
      case None => None
      case Some(values) =>
        match SourceValue(plan, inputs, produced, sources[n])
        case None => None
        case Some(v) => Some(values + [v])
  }

  function SinkValue(plan: Plan, inputs: Obj, produced: map<string, Obj>, sink: Sink): Result<Value> {
    match SourceValues(plan, inputs, produced, sink.sources)
    case None => Err(Incomplete)
    case Some(values) => sink.settle(values)
  }

  function BoundInputs(plan: Plan, inputs: Obj, produced: map<string, Obj>, ins: seq<Sink>): Result<Obj> {
    if ins == [] then Ok(map[])
    else
      var n := |ins| - 1;
      match BoundInputs(plan, inputs, produced, ins[..n])
      case Err(e) => Err(e)
      case Ok(bound) =>
        match SinkValue(plan, inputs, produced, ins[n])
        case Err(e) => Err(e)
        case Ok(v) => Ok(bound[ins[n].name := v])
  }

  /** Declared defaults stand in for missing and null parameters. */
  function WithDefaults(inputs: Obj, defaults: Obj): Obj {
    map name | name in inputs.Keys + defaults.Keys ::
      if name in defaults && Lookup(inputs, name) == Null then defaults[name] else Lookup(inputs, name)
  }

  /** A step's input object, given the outputs of the steps that have produced some. */
  function StepInputs(plan: Plan, inputs: Obj, produced: map<string, Obj>, step: Step): Result<Obj> {
    if step.implicit then Ok(WithDefaults(inputs, step.defaults))
    else match BoundInputs(plan, inputs, produced, step.ins)
      case Err(e) => Err(e)
      case Ok(bound) => step.fill(bound)
  }

  // ---- invocations ----

  /** A step's invocations before any runs, and the nesting shape of a scattered step. */
  datatype Expanded = Expanded(seeds: seq<Scatter.ScatterJob>, shape: Option<Dims>)

  function Expand(step: Step, inputs: Obj): (r: Result<Expanded>)
    ensures r.Ok? ==> |r.value.seeds| == match r.value.shape { case None => 1 case Some(dims) => Product(dims) }
    ensures r.Ok? ==> r.value.shape != Some([])
  {
    if step.scatter == [] then Ok(Expanded([Scatter.ScatterJob(inputs, [])], None))
    else
      var how := if step.how.None? then Scatter.Dotproduct else step.how.value;
      match Scatter.Expansion(inputs, step.scatter, how)
      case Err(e) => Err(e)
      case Ok(plan) =>
        Scatter.ExpansionIsRowMajor(inputs, step.scatter, how);
        Ok(Expanded(plan.jobs, Some(plan.dims)))
  }

  /** Whether valueFrom and `when` let an invocation run, and with which inputs. */
  datatype Gate = Admitted(inputs: Obj) | Declined | Rejected(error: Error)

  function GateOf(step: Step, seed: Obj): Gate {
    match step.valueFrom(seed)
    case Err(e) => Rejected(e)
    case Ok(resolved) =>
      match step.when(resolved)
      case Err(e) => Rejected(e)
      case Ok(admitted) => if admitted then Admitted(resolved) else Declined
  }

  function NullPorts(ports: seq<string>): Obj {
    map port | port in ports :: Null
  }

  /** The declared ports of an output object; an undeclared one is dropped, a missing one is null. */
  function Project(ports: seq<string>, outputs: Obj): Obj {
    map port | port in ports :: Lookup(outputs, port)
  }

  function Declared(step: Step, inputs: Obj): Obj {
    map name | name in inputs && name in step.declaredIn :: inputs[name]
  }

  predicate ReplyOk(reply: Reply) {
    match reply.status
    case Suspended => reply.suspension.Some? && reply.outputs.None?
    case Success | Skipped | PermanentFail | TemporaryFail => reply.suspension.None?
    case _ => false
  }

  /** A handler's reply as the scheduler reads it: an error forces a failure, a broken reply is a permanent one. */
  function Normal(reply: Reply): Reply {
    if reply.failed then Reply(if Failing(reply.status) then reply.status else PermanentFail, None, None, true)
    else if !ReplyOk(reply) then Reply(PermanentFail, None, None, true)
    else reply
  }

  /** What the record of an invocation holds once its handler has replied. */
  function Recorded(step: Step, reply: Reply, index: seq<int>): JobState {
    var r := Normal(reply);
    JobState(r.status,
             if r.status == Success then Project(Ports(step), if r.outputs.Some? then r.outputs.value else map[])
               else map[],
             r.suspension, index)
  }

  const NoReply := Reply(Unset, None, None, true)

  /** An admitted invocation's own outcome: a failed resource selection replaces the handler's reply. */
  function Ran(step: Step, inputs: Obj, index: seq<int>): JobState {
    match step.prepare(inputs, index)
    case Err(_) => Recorded(step, NoReply, index)
    case Ok(_) => Recorded(step, step.handler(Declared(step, inputs), index), index)
  }

  function FreshJob(index: seq<int>): JobState {
    JobState(Unset, map[], None, index)
  }

  function SkippedJob(step: Step, index: seq<int>): JobState {
    JobState(Skipped, NullPorts(Ports(step)), None, index)
  }

  /** An invocation's outcome once it has one, an accepted outcome standing in for a suspension. */
  function Settled(step: Step, inj: Injected, seed: Scatter.ScatterJob): JobState {
    match GateOf(step, seed.inputs)
    case Rejected(_) => FreshJob(seed.index)
    case Declined => SkippedJob(step, seed.index)
    case Admitted(inputs) =>
      var own := Ran(step, inputs, seed.index);
      var at := Address(step.id, seed.index);
      if own.status == Suspended && at in inj then inj[at] else own
  }

  // ---- steps ----

  datatype Verdict = Done(status: Status, outputs: Obj) | Waiting | Blocked

  predicate ProducedVerdict(v: Verdict) {
    v.Done? && (v.status == Success || v.status == Skipped)
  }

  function PortColumn(jobs: seq<JobState>, port: string): (column: seq<Value>)
    ensures |column| == |jobs|
  {
    seq(|jobs|, k requires 0 <= k < |jobs| => Lookup(jobs[k].outputs, port))
  }

  function AllSettled(step: Step, inj: Injected, e: Expanded): (jobs: seq<JobState>)
    ensures |jobs| == |e.seeds|
  {
    seq(|e.seeds|, k requires 0 <= k < |e.seeds| => Settled(step, inj, e.seeds[k]))
  }

  /** A step's verdict from the outcomes of all its invocations: a permanent failure outranks a temporary one. */
  ghost function Reduce(step: Step, shape: Option<Dims>, jobs: seq<JobState>): Verdict
    requires |jobs| == match shape { case None => 1 case Some(dims) => Product(dims) }
  {
    if exists k :: 0 <= k < |jobs| && !Terminal(jobs[k]) then Waiting
    else if exists k :: 0 <= k < |jobs| && jobs[k].status == PermanentFail then Done(PermanentFail, map[])
    else if exists k :: 0 <= k < |jobs| && jobs[k].status == TemporaryFail then Done(TemporaryFail, map[])
    else match shape
      case None => Done(if jobs[0].status == Skipped then Skipped else Success, jobs[0].outputs)
      case Some(dims) => Done(Success, map port | port in Ports(step) :: Nested(PortColumn(jobs, port), dims))
  }

  ghost predicate Rejects(step: Step, e: Expanded) {
    exists k :: 0 <= k < |e.seeds| && GateOf(step, e.seeds[k].inputs).Rejected?
  }

  ghost function Judge(step: Step, inj: Injected, inputs: Result<Obj>): Verdict {
    match inputs
    case Err(_) => Done(PermanentFail, map[])
    case Ok(x) =>
      match Expand(step, x)
      case Err(_) => Done(PermanentFail, map[])
      case Ok(e) =>
        if Rejects(step, e) then Done(PermanentFail, map[])
        else Reduce(step, e.shape, AllSettled(step, inj, e))
  }

  /** A plan, a rank that falls along its edges, and the run's inputs. */
  datatype Env = Env(plan: Plan, rank: map<string, nat>, inputs: Obj)

  /** The rank falls along every dependency, and every dependency is a planned step. */
  ghost predicate EnvOk(env: Env) {
    forall id, d :: id in env.plan.byId && d in env.plan.byId[id].deps ==>
      d in env.plan.byId && RankOf(env, d) < RankOf(env, id)
  }

  ghost function RankOf(env: Env, id: string): nat {
    if id in env.rank then env.rank[id] else 0
  }

  lemma PlanGivesEnv(plan: Plan, rank: map<string, nat>, inputs: Obj)
    requires WellFormed(plan) && Ranking(Edges(plan.byId), rank)
    ensures EnvOk(Env(plan, rank, inputs))
  {
    var g := Edges(plan.byId);
    forall id, d | id in plan.byId && d in plan.byId[id].deps
      ensures d in plan.byId && id in rank && d in rank && rank[d] < rank[id]
    {
      assert id in g && d in g[id];
    }
  }

  /** A rank serves every plan with the same edges. */
  lemma SameEdgesSameRank(env: Env, other: Env)
    requires EnvOk(env) && other.rank == env.rank && other.plan.byId.Keys == env.plan.byId.Keys
    requires forall id :: id in env.plan.byId ==> other.plan.byId[id].deps == env.plan.byId[id].deps
    ensures EnvOk(other)
  {}

  /** The verdict of a step: blocked until every dependency has produced, then judged from their outputs. */
  ghost function VerdictOf(env: Env, inj: Injected, id: string): Verdict
    requires EnvOk(env) && id in env.plan.byId
    decreases RankOf(env, id), 1
  {
    if !DepsProduce(env, inj, id) then Blocked else Judge(env.plan.byId[id], inj, InputsOf(env, inj, id))
  }

  ghost predicate DepsProduce(env: Env, inj: Injected, id: string)
    requires EnvOk(env) && id in env.plan.byId
    decreases RankOf(env, id), 0
  {
    forall d :: d in env.plan.byId[id].deps ==> ProducedVerdict(VerdictOf(env, inj, d))
  }

  function OutputsOf(v: Verdict): Obj {
    if v.Done? then v.outputs else map[]
  }

  /** The outputs of a step's dependencies. */
  ghost function DepOutputs(env: Env, inj: Injected, id: string): map<string, Obj>
    requires EnvOk(env) && id in env.plan.byId
    decreases RankOf(env, id), 0, 0
  {
    map d | d in env.plan.byId[id].deps :: OutputsOf(VerdictOf(env, inj, d))
  }

  /** The input object a step is judged on. */
  ghost function InputsOf(env: Env, inj: Injected, id: string): Result<Obj>
    requires EnvOk(env) && id in env.plan.byId
    decreases RankOf(env, id), 0, 1
  {
    StepInputs(env.plan, env.inputs, DepOutputs(env, inj, id), env.plan.byId[id])
  }
}
