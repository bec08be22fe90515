/** Expanding a scattered step into sub-jobs, and gathering their outputs. */
module Scatter {
  import opened Common
  import opened Grid
  import opened Nesting
  import Arith

  datatype Method = Dotproduct | NestedCrossproduct | FlatCrossproduct | OtherMethod(name: string)

  /** One sub-job: its inputs, and its coordinates in the gathered output. */
  datatype ScatterJob = ScatterJob(inputs: Obj, index: seq<int>)

  datatype ScatterPlan = ScatterPlan(jobs: seq<ScatterJob>, dims: seq<int>)

  type Arrays = seq<seq<Value>>

  // ---- expansion ----

  /** What is wrong with the scatter key at position `i`, if anything. */
  function KeyProblem(base: Obj, keys: seq<string>, i: nat): Option<Error>
    requires i < |keys|
  {
    if keys[i] in keys[..i] then Some(DuplicateScatterKey)
    else if keys[i] !in base then Some(ScatterInputMissing)
    else if !base[keys[i]].List? then Some(ScatterInputNotArray)
    else None
  }

  function ArraysFrom(base: Obj, keys: seq<string>, i: nat): (r: Result<Arrays>)
    requires i <= |keys|
    ensures r.Ok? ==> |r.value| == |keys| - i
    decreases |keys| - i
  {
    if i == |keys| then Ok([])
    else match KeyProblem(base, keys, i)
      case Some(e) => Err(e)
      case None =>
        match ArraysFrom(base, keys, i + 1)
        case Err(e) => Err(e)
        case Ok(rest) => Ok([base[keys[i]].items] + rest)
  }

  lemma {:induction false} ArraysFromMeans(base: Obj, keys: seq<string>, i: nat)
    requires i <= |keys|
    ensures ArraysFrom(base, keys, i).Ok? <==> forall k :: i <= k < |keys| ==> KeyProblem(base, keys, k).None?
    ensures ArraysFrom(base, keys, i).Ok? ==>
              forall k :: i <= k < |keys| ==>
                keys[k] in base && base[keys[k]] == List(ArraysFrom(base, keys, i).value[k - i])
    decreases |keys| - i
  {
    if i < |keys| {
      ArraysFromMeans(base, keys, i + 1);
    }
  }

  /** The length of each scattered array, in key order. */
  function Dimensions(arrays: Arrays): Dims {
    seq(|arrays|, i requires 0 <= i < |arrays| => |arrays[i]|)
  }

  /** `base` with each scatter key replaced by the element its coordinate selects. */
  function JobInputs(base: Obj, keys: seq<string>, arrays: Arrays, coords: seq<int>): Obj
    requires |keys| == |arrays| && InBounds(coords, Dimensions(arrays))
    decreases |keys|
  {
    if keys == [] then base
    else
      var last := |keys| - 1;
      assert Dimensions(arrays)[last] == |arrays[last]|;
      assert InBounds(coords[..last], Dimensions(arrays[..last]));
      JobInputs(base, keys[..last], arrays[..last], coords[..last])[keys[last] := arrays[last][coords[last]]]
  }

  /** A sub-job sees, on each scattered input, the element its coordinate selects. */
  lemma {:induction false} JobInputsSelect(base: Obj, keys: seq<string>, arrays: Arrays, coords: seq<int>, i: nat)
    requires |keys| == |arrays| && InBounds(coords, Dimensions(arrays)) && i < |keys|
    requires forall a, b :: 0 <= a < b < |keys| ==> keys[a] != keys[b]
    ensures 0 <= coords[i] < |arrays[i]|
    ensures Lookup(JobInputs(base, keys, arrays, coords), keys[i]) == arrays[i][coords[i]]
    decreases |keys|
  {
    assert Dimensions(arrays)[i] == |arrays[i]|;
    var last := |keys| - 1;
    assert InBounds(coords[..last], Dimensions(arrays[..last]));
    if i < last {
      JobInputsSelect(base, keys[..last], arrays[..last], coords[..last], i);
    }
  }

  /** Every other input passes through unchanged, and none is added. */
  lemma {:induction false} JobInputsPassThrough(base: Obj, keys: seq<string>, arrays: Arrays, coords: seq<int>,
                                                name: string)
    requires |keys| == |arrays| && InBounds(coords, Dimensions(arrays)) && name !in keys
    ensures name in JobInputs(base, keys, arrays, coords) <==> name in base
    ensures Lookup(JobInputs(base, keys, arrays, coords), name) == Lookup(base, name)
    decreases |keys|
  {
    if keys != [] {
      var last := |keys| - 1;
      assert InBounds(coords[..last], Dimensions(arrays[..last]));
      JobInputsPassThrough(base, keys[..last], arrays[..last], coords[..last], name);
    }
  }

  function FirstZero(dims: Dims): Option<nat> {
    if dims == [] then None
    else if dims[0] == 0 then Some(0)
    else match FirstZero(dims[1..])
      case None => None
      case Some(k) => Some(k + 1)
  }

  lemma {:induction false} FirstZeroMeans(dims: Dims)
    ensures FirstZero(dims).None? <==> Positive(dims)
    ensures FirstZero(dims).Some? ==>
              var k := FirstZero(dims).value; k < |dims| && dims[k] == 0 && Positive(dims[..k])
  {
    if dims != [] && dims[0] != 0 {
      FirstZeroMeans(dims[1..]);
      assert forall d :: 0 < d < |dims| ==> dims[d] == dims[1..][d - 1];
    }
  }

  predicate SameLengths(arrays: Arrays) {
    forall i :: 0 <= i < |arrays| ==> |arrays[i]| == |arrays[0]|
  }

  function Repeat(i: int, n: nat): seq<int> {
    seq(n, _ => i)
  }

  /** The jobs of a grid with no empty dimension, in row-major order. */
  function CrossJobs(base: Obj, keys: seq<string>, arrays: Arrays, nested: bool): (jobs: seq<ScatterJob>)
    requires |keys| == |arrays|
    ensures |jobs| == Product(Dimensions(arrays))
  {
    var dims := Dimensions(arrays);
    seq(Product(dims), i requires 0 <= i < Product(dims) =>
      ScatterJob(JobInputs(base, keys, arrays, CoordAt(i, dims)), if nested then CoordAt(i, dims) else [i]))
  }

  function DotJobs(base: Obj, keys: seq<string>, arrays: Arrays): (jobs: seq<ScatterJob>)
    requires |keys| == |arrays| > 0 && SameLengths(arrays)
    ensures |jobs| == |arrays[0]|
  {
    seq(|arrays[0]|, i requires 0 <= i < |arrays[0]| =>
      assert InBounds(Repeat(i, |keys|), Dimensions(arrays));
      ScatterJob(JobInputs(base, keys, arrays, Repeat(i, |keys|)), [i]))
  }

  /** The specification of ExpandScatter. */
  function Expansion(base: Obj, keys: seq<string>, how: Method): Result<ScatterPlan> {
    if how.OtherMethod? then Err(UnknownScatterMethod)
    else if keys == [] then Err(NoScatterKeys)
    else match ArraysFrom(base, keys, 0)
      case Err(e) => Err(e)
      case Ok(arrays) =>
        var dims := Dimensions(arrays);
        match FirstZero(dims)
        case Some(empty) =>
          FirstZeroMeans(dims);
          Ok(ScatterPlan([], if how.NestedCrossproduct? then dims[..empty + 1] else [0]))
        case None =>
          match how
          case Dotproduct =>
            if SameLengths(arrays) then Ok(ScatterPlan(DotJobs(base, keys, arrays), [|arrays[0]|]))
            else Err(DotproductLength)
          case FlatCrossproduct => Ok(ScatterPlan(CrossJobs(base, keys, arrays, false), [Product(dims)]))
          case NestedCrossproduct => Ok(ScatterPlan(CrossJobs(base, keys, arrays, true), dims))
  }

  function ItemsOf(base: Obj, key: string): seq<Value> {
    var v := Lookup(base, key);
    if v.List? then v.items else []
  }

  /** Every scatter key is distinct, present and bound to an array. */
  predicate KeysOk(base: Obj, keys: seq<string>) {
    forall i :: 0 <= i < |keys| ==> KeyProblem(base, keys, i).None?
  }

  lemma ArraysAre(base: Obj, keys: seq<string>)
    ensures ArraysFrom(base, keys, 0).Ok? <==> KeysOk(base, keys)
    ensures KeysOk(base, keys) ==>
              var arrays := ArraysFrom(base, keys, 0).value;
              && (forall i :: 0 <= i < |keys| ==> arrays[i] == ItemsOf(base, keys[i]))
              && (SameLengths(arrays) <==> forall i :: 0 <= i < |keys| ==>
                  |ItemsOf(base, keys[i])| == |ItemsOf(base, keys[0])|)
              && (FirstZero(Dimensions(arrays)).Some? <==> exists i :: 0 <= i < |keys| && ItemsOf(base, keys[i]) == [])
  {
    ArraysFromMeans(base, keys, 0);
    if KeysOk(base, keys) {
      var arrays := ArraysFrom(base, keys, 0).value;
      FirstZeroMeans(Dimensions(arrays));
      forall i | 0 <= i < |keys| ensures arrays[i] == ItemsOf(base, keys[i]) && |arrays[i]| == Dimensions(arrays)[i] {
        assert base[keys[i]] == List(arrays[i - 0]);
      }
    }
  }

  /** Exactly which scatters expand; an empty array under dotproduct hides a length mismatch. */
  lemma ExpansionSucceeds(base: Obj, keys: seq<string>, how: Method)
    ensures Expansion(base, keys, how).Ok? <==>
              && !how.OtherMethod? && keys != [] && KeysOk(base, keys)
              && (how.Dotproduct? ==>
                    || (exists i :: 0 <= i < |keys| && ItemsOf(base, keys[i]) == [])
                    || (forall i :: 0 <= i < |keys| ==> |ItemsOf(base, keys[i])| == |ItemsOf(base, keys[0])|))
  {
    ArraysAre(base, keys);
  }

  // ---- what each sub-job is given, and how many there are ----

  /** The lengths of the scattered arrays, in key order. */
  function Lengths(base: Obj, keys: seq<string>): (lengths: Dims)
    ensures |lengths| == |keys|
    ensures forall i :: 0 <= i < |keys| ==> lengths[i] == |ItemsOf(base, keys[i])|
  {
    seq(|keys|, i requires 0 <= i < |keys| => |ItemsOf(base, keys[i])|)
  }

  /** Job `k` sees one element of each scattered array, all other inputs as they are, and nothing more. */
  ghost predicate SeesElements(base: Obj, keys: seq<string>, coords: seq<int>, inputs: Obj)
    requires |coords| == |keys|
  {
    && (forall i :: 0 <= i < |keys| ==>
          && 0 <= coords[i] < |ItemsOf(base, keys[i])|
          && keys[i] in inputs && inputs[keys[i]] == ItemsOf(base, keys[i])[coords[i]])
    && (forall name :: name !in keys && name in base ==> name in inputs && inputs[name] == base[name])
    && (forall name :: name in inputs ==> name in keys || name in base)
  }

  /** The job sees the element at the same position of every scattered array. */
  ghost predicate SeesPosition(base: Obj, keys: seq<string>, k: int, inputs: Obj) {
    SeesElements(base, keys, seq(|keys|, _ => k), inputs)
  }

  /**
   * An empty array leaves no job. Otherwise a dot product has one job for each position, which sees that
   * position of every array; a cross product has one for each combination of positions, the last key's
   * moving fastest, which sees that combination.
   */
  ghost predicate GivesElements(base: Obj, keys: seq<string>, how: Method, plan: ScatterPlan) {
    var lengths := Lengths(base, keys);
    if 0 in lengths then
      && plan.jobs == []
      && (if how.NestedCrossproduct? then
            exists k :: 0 <= k < |lengths| && lengths[k] == 0 && 0 !in lengths[..k] && plan.dims == lengths[..k + 1]
          else plan.dims == [0])
    else if how.Dotproduct? then
      && keys != [] && |plan.jobs| == lengths[0] && plan.dims == [lengths[0]]
      && forall k :: 0 <= k < |plan.jobs| ==>
           plan.jobs[k].index == [k] && SeesPosition(base, keys, k, plan.jobs[k].inputs)
    else
      && |plan.jobs| == Product(lengths)
      && plan.dims == (if how.NestedCrossproduct? then lengths else [Product(lengths)])
      && forall k :: 0 <= k < |plan.jobs| ==>
           && plan.jobs[k].index == (if how.NestedCrossproduct? then CoordAt(k, lengths) else [k])
           && SeesElements(base, keys, CoordAt(k, lengths), plan.jobs[k].inputs)
  }

  lemma JobSees(base: Obj, keys: seq<string>, arrays: Arrays, coords: seq<int>)
    requires KeysOk(base, keys) && |arrays| == |keys| && InBounds(coords, Dimensions(arrays))
    requires forall i :: 0 <= i < |keys| ==> arrays[i] == ItemsOf(base, keys[i])
    ensures SeesElements(base, keys, coords, JobInputs(base, keys, arrays, coords))
  {
    hide JobInputs;
    var inputs := JobInputs(base, keys, arrays, coords);
    forall a, b | 0 <= a < b < |keys| ensures keys[a] != keys[b] {
      assert KeyProblem(base, keys, b).None? && keys[a] == keys[..b][a];
    }
    forall i | 0 <= i < |keys|
      ensures 0 <= coords[i] < |ItemsOf(base, keys[i])|
      ensures keys[i] in inputs && inputs[keys[i]] == ItemsOf(base, keys[i])[coords[i]]
    {
      JobInputsSelect(base, keys, arrays, coords, i);
      JobInputsHold(base, keys, arrays, coords, i);
    }
    forall name | name !in keys
      ensures name in inputs <==> name in base
      ensures name in base ==> inputs[name] == base[name]
    {
      JobInputsPassThrough(base, keys, arrays, coords, name);
    }
  }

  lemma {:induction false} JobInputsHold(base: Obj, keys: seq<string>, arrays: Arrays, coords: seq<int>, i: nat)
    requires |keys| == |arrays| && InBounds(coords, Dimensions(arrays)) && i < |keys|
    ensures keys[i] in JobInputs(base, keys, arrays, coords)
    decreases |keys|
  {
    var last := |keys| - 1;
    assert InBounds(coords[..last], Dimensions(arrays[..last]));
    if i < last {
      JobInputsHold(base, keys[..last], arrays[..last], coords[..last], i);
    }
  }

  lemma ExpansionGivesElements(base: Obj, keys: seq<string>, how: Method)
    requires Expansion(base, keys, how).Ok?
    ensures GivesElements(base, keys, how, Expansion(base, keys, how).value)
  {
    hide JobInputs, SeesElements, KeyProblem, ArraysFrom, FirstZero, CoordAt, Product, KeysOk;
    var plan := Expansion(base, keys, how).value;
    ArraysAre(base, keys);
    var arrays := ArraysFrom(base, keys, 0).value;
    var dims, lengths := Dimensions(arrays), Lengths(base, keys);
    assert dims == lengths;
    FirstZeroMeans(dims);
    if FirstZero(dims).Some? {
      assert dims[FirstZero(dims).value] == 0;
    } else {
      assert 0 !in lengths;
      forall k | 0 <= k < |plan.jobs|
        ensures if how.Dotproduct? then SeesPosition(base, keys, k, plan.jobs[k].inputs)
                else SeesElements(base, keys, CoordAt(k, lengths), plan.jobs[k].inputs)
      {
        if how.Dotproduct? {
          assert InBounds(Repeat(k, |keys|), dims);
          JobSees(base, keys, arrays, Repeat(k, |keys|));
          assert Repeat(k, |keys|) == seq(|keys|, _ => k);
        } else {
          JobSees(base, keys, arrays, CoordAt(k, dims));
        }
      }
    }
  }

  /** The first key that is repeated, missing or bound to no array, and what is wrong with it. */
  predicate FirstBadKey(base: Obj, keys: seq<string>, i: nat)
    requires i < |keys|
  {
    && (forall j :: 0 <= j < i ==> keys[j] !in keys[..j] && keys[j] in base && base[keys[j]].List?)
    && (keys[i] in keys[..i] || keys[i] !in base || !base[keys[i]].List?)
  }

  /** Every refusal and its cause: the method first, then the keys in order, then the lengths. */
  ghost predicate RefusedFor(base: Obj, keys: seq<string>, how: Method, e: Error) {
    if how.OtherMethod? then e == UnknownScatterMethod
    else if keys == [] then e == NoScatterKeys
    else if exists i :: 0 <= i < |keys| && FirstBadKey(base, keys, i) then
      exists i :: 0 <= i < |keys| && FirstBadKey(base, keys, i) &&
        e == (if keys[i] in keys[..i] then DuplicateScatterKey
              else if keys[i] !in base then ScatterInputMissing else ScatterInputNotArray)
    else
      && e == DotproductLength && how.Dotproduct?
      && 0 !in Lengths(base, keys) && exists i :: 0 <= i < |keys| && Lengths(base, keys)[i] != Lengths(base, keys)[0]
  }

  lemma {:induction false} FirstProblem(base: Obj, keys: seq<string>, i: nat)
    requires i <= |keys| && forall j :: 0 <= j < i ==> KeyProblem(base, keys, j).None?
    ensures ArraysFrom(base, keys, i).Err? ==>
              exists k :: 0 <= k < |keys| && FirstBadKey(base, keys, k) &&
                KeyProblem(base, keys, k) == Some(ArraysFrom(base, keys, i).error)
    ensures ArraysFrom(base, keys, i).Ok? ==> forall k :: 0 <= k < |keys| ==> !FirstBadKey(base, keys, k)
    decreases |keys| - i
  {
    forall j | 0 <= j < i ensures keys[j] !in keys[..j] && keys[j] in base && base[keys[j]].List? {
      assert KeyProblem(base, keys, j).None?;
    }
    if i < |keys| {
      if KeyProblem(base, keys, i).None? {
        FirstProblem(base, keys, i + 1);
      } else {
        assert FirstBadKey(base, keys, i);
      }
    }
  }

  lemma ExpansionRefuses(base: Obj, keys: seq<string>, how: Method)
    requires Expansion(base, keys, how).Err?
    ensures RefusedFor(base, keys, how, Expansion(base, keys, how).error)
  {
    hide ArraysFrom, FirstZero;
    if !how.OtherMethod? && keys != [] {
      FirstProblem(base, keys, 0);
      ArraysAre(base, keys);
      if ArraysFrom(base, keys, 0).Ok? {
        var arrays := ArraysFrom(base, keys, 0).value;
        FirstZeroMeans(Dimensions(arrays));
        assert Dimensions(arrays) == Lengths(base, keys);
      }
    }
  }

  /** Nothing else is refused. */
  lemma OnlyRefusals(base: Obj, keys: seq<string>, how: Method, e: Error)
    requires RefusedFor(base, keys, how, e)
    ensures Expansion(base, keys, how).Err?
  {
    hide Expansion;
    ExpansionSucceeds(base, keys, how);
    if i :| 0 <= i < |keys| && FirstBadKey(base, keys, i) {
      assert KeyProblem(base, keys, i).Some?;
    }
    if exists i :: 0 <= i < |keys| && Lengths(base, keys)[i] != Lengths(base, keys)[0] {
      var i :| 0 <= i < |keys| && Lengths(base, keys)[i] != Lengths(base, keys)[0];
      assert |ItemsOf(base, keys[i])| != |ItemsOf(base, keys[0])|;
    }
    forall i | 0 <= i < |keys| && ItemsOf(base, keys[i]) == [] ensures 0 in Lengths(base, keys) {
      assert Lengths(base, keys)[i] == 0;
    }
  }

  // ---- what an expanded plan guarantees ----

  /** The shape is a valid nesting: only the innermost dimension may be empty. */
  predicate ShapeOk(dims: seq<int>) {
    forall d :: 0 <= d < |dims| ==> dims[d] >= 0 && (dims[d] == 0 ==> d == |dims| - 1)
  }

  /** Job `k` stands at the coordinate of rank `k`: every leaf has one job, every job one leaf. */
  ghost predicate RowMajor(plan: ScatterPlan) {
    && ShapeOk(plan.dims) && plan.dims != []
    && |plan.jobs| == Product(plan.dims)
    && forall k :: 0 <= k < |plan.jobs| ==> plan.jobs[k].index == CoordAt(k, plan.dims)
  }

  /** Every plan that ExpandScatter returns is row-major. */
  lemma ExpansionIsRowMajor(base: Obj, keys: seq<string>, how: Method)
    requires Expansion(base, keys, how).Ok?
    ensures RowMajor(Expansion(base, keys, how).value)
  {
    hide KeyProblem, ArraysFrom, JobInputs, FirstZero;
    var plan := Expansion(base, keys, how).value;
    ArraysFromMeans(base, keys, 0);
    var arrays := ArraysFrom(base, keys, 0).value;
    var dims := Dimensions(arrays);
    FirstZeroMeans(dims);
    if FirstZero(dims).Some? {
      ZeroInnermost(plan.dims);
    } else if how.NestedCrossproduct? {
    } else {
      var n := plan.dims[0];
      OneDimension(0, n);
      forall k | 0 <= k < n ensures CoordAt(k, [n]) == [k] {
        OneDimension(k, n);
        OffsetInjective([k], CoordAt(k, [n]), [n]);
      }
    }
  }

  lemma {:induction false} ZeroInnermost(dims: Dims)
    requires dims != [] && dims[|dims| - 1] == 0
    ensures Product(dims) == 0
  {
    ProductSplit(dims, |dims| - 1);
    assert dims[|dims| - 1..] == [0];
    OneDimension(0, 0);
    Arith.Units(Product(dims[..|dims| - 1]));
  }

  /** A row-major plan never gives two jobs the same coordinates. */
  lemma RowMajorIndexesDiffer(plan: ScatterPlan, i: nat, j: nat)
    requires RowMajor(plan) && i < j < |plan.jobs|
    ensures plan.jobs[i].index != plan.jobs[j].index
  {
    assert Offset(plan.jobs[i].index, plan.dims) == i && Offset(plan.jobs[j].index, plan.dims) == j;
  }

  // ---- gathering ----

  /** The outputs reported for job `i`: a missing entry reads as an empty object. */
  function PortValue(outputs: map<int, Obj>, i: int, port: string): Value {
    if i in outputs then Lookup(outputs[i], port) else Null
  }

  predicate CoordinatesOk(plan: ScatterPlan)
    requires ShapeOk(plan.dims)
  {
    forall k :: 0 <= k < |plan.jobs| ==> InBounds(plan.jobs[k].index, plan.dims)
  }

  /** Why a plan cannot be gathered; a job without coordinates has no slot in a shape without dimensions. */
  function GatherProblem(plan: ScatterPlan, outputs: map<int, Obj>, declaredOut: seq<string>): Option<Error> {
    if exists i :: i in outputs && !(0 <= i < |plan.jobs|) then Some(ScatterOutputIndex)
    else if !ShapeOk(plan.dims) then Some(Error.ScatterShape)
    else if !CoordinatesOk(plan) then Some(Error.ScatterShape)
    else if plan.dims == [] && plan.jobs != [] && declaredOut != [] then Some(IndexPanic)
    else None
  }

  /** A hand-built plan with a job but no dimensions passes every check and then has no slot to write to. */
  lemma UnshapedJobPanics(out: seq<string>)
    requires out != []
    ensures var plan := ScatterPlan([ScatterJob(map[], [])], []);
            && ShapeOk(plan.dims) && CoordinatesOk(plan)
            && Offset(plan.jobs[0].index, plan.dims) == ShapeSize(plan.dims)
            && GatherProblem(plan, map[], out) == Some(IndexPanic)
  {}

  /** What the first `n` jobs leave in the slot of rank `slot`: the last write stands. */
  function Written(plan: ScatterPlan, outputs: map<int, Obj>, port: string, slot: int, n: nat): Value
    requires ShapeOk(plan.dims) && CoordinatesOk(plan) && n <= |plan.jobs|
  {
    if n == 0 then Null
    else if Offset(plan.jobs[n - 1].index, plan.dims) == slot then PortValue(outputs, n - 1, port)
    else Written(plan, outputs, port, slot, n - 1)
  }

  function FlatColumn(plan: ScatterPlan, outputs: map<int, Obj>, port: string): (flat: seq<Value>)
    requires ShapeOk(plan.dims) && CoordinatesOk(plan)
    ensures |flat| == ShapeSize(plan.dims)
  {
    seq(ShapeSize(plan.dims), slot requires 0 <= slot < ShapeSize(plan.dims) =>
      Written(plan, outputs, port, slot, |plan.jobs|))
  }

  function Fold(flat: seq<Value>, dims: Dims): Value
    requires |flat| == ShapeSize(dims)
  {
    if dims == [] then List([]) else Nested(flat, dims)
  }

  /** The values the jobs report on one port, in job order. */
  function Column(outputs: map<int, Obj>, n: nat, port: string): (column: seq<Value>)
    ensures |column| == n
  {
    seq(n, k => PortValue(outputs, k, port))
  }

  lemma {:induction false} WrittenOnce(plan: ScatterPlan, outputs: map<int, Obj>, port: string, slot: nat, n: nat)
    requires RowMajor(plan) && CoordinatesOk(plan) && n <= |plan.jobs| && slot < |plan.jobs|
    ensures Written(plan, outputs, port, slot, n) == if slot < n then PortValue(outputs, slot, port) else Null
  {
    hide RowMajor, CoordinatesOk, Offset, PortValue, ShapeOk;
    if n > 0 {
      RankOfJob(plan, n - 1);
      WrittenOnce(plan, outputs, port, slot, n - 1);
    }
  }

  lemma RankOfJob(plan: ScatterPlan, k: nat)
    requires RowMajor(plan) && k < |plan.jobs|
    ensures Offset(plan.jobs[k].index, plan.dims) == k
  {
    hide Product, Offset;
    assert plan.jobs[k].index == CoordAt(k, plan.dims);
  }

  /** For a row-major plan the flat array is the column of job outputs: no slot is left or overwritten. */
  lemma RowMajorGathers(plan: ScatterPlan, outputs: map<int, Obj>, declaredOut: seq<string>)
    requires RowMajor(plan)
    requires forall i :: i in outputs ==> 0 <= i < |plan.jobs|
    ensures GatherProblem(plan, outputs, declaredOut).None?
    ensures CoordinatesOk(plan)
    ensures forall port :: FlatColumn(plan, outputs, port) == Column(outputs, |plan.jobs|, port)
  {
    assert CoordinatesOk(plan);
    forall port ensures FlatColumn(plan, outputs, port) == Column(outputs, |plan.jobs|, port) {
      forall slot: nat | slot < |plan.jobs|
        ensures Written(plan, outputs, port, slot, |plan.jobs|) == PortValue(outputs, slot, port)
      {
        WrittenOnce(plan, outputs, port, slot, |plan.jobs|);
      }
    }
  }

  /** Whatever the plan, a slot holds the port value of the last job at its coordinates, or null if none is. */
  lemma {:induction false} LastJobStands(plan: ScatterPlan, outputs: map<int, Obj>, port: string, slot: int, n: nat)
    requires ShapeOk(plan.dims) && CoordinatesOk(plan) && n <= |plan.jobs|
    ensures var v := Written(plan, outputs, port, slot, n);
            || (exists k :: 0 <= k < n && Offset(plan.jobs[k].index, plan.dims) == slot
                  && (forall j :: k < j < n ==> Offset(plan.jobs[j].index, plan.dims) != slot)
                  && v == if k in outputs && port in outputs[k] then outputs[k][port] else Null)
            || (v == Null && forall k :: 0 <= k < n ==> Offset(plan.jobs[k].index, plan.dims) != slot)
  {
    hide Offset, ShapeOk;
    if n > 0 && Offset(plan.jobs[n - 1].index, plan.dims) != slot {
      LastJobStands(plan, outputs, port, slot, n - 1);
    }
  }

  // ---- gathering, said of the plan's own numbers ----

  /** A negative length, or a zero that is not innermost. */
  predicate BadLength(dims: seq<int>, d: nat)
    requires d < |dims|
  {
    dims[d] < 0 || (dims[d] == 0 && d + 1 < |dims|)
  }

  /** A job with too few coordinates or too many, or with one outside its dimension. */
  ghost predicate Misplaced(plan: ScatterPlan, k: nat)
    requires k < |plan.jobs|
  {
    var at := plan.jobs[k].index;
    |at| != |plan.dims| || exists d :: 0 <= d < |at| && !(0 <= at[d] < plan.dims[d])
  }

  /** Each refusal has exactly its cause, looked for in this order. */
  lemma GatherRefusesFor(plan: ScatterPlan, outputs: map<int, Obj>, declaredOut: seq<string>)
    ensures var problem := GatherProblem(plan, outputs, declaredOut);
            var stray := exists i :: i in outputs && (i < 0 || i >= |plan.jobs|);
            var bad := exists d :: 0 <= d < |plan.dims| && BadLength(plan.dims, d);
            var misplaced := exists k :: 0 <= k < |plan.jobs| && Misplaced(plan, k);
            && (problem == Some(ScatterOutputIndex) <==> stray)
            && (problem == Some(Error.ScatterShape) <==> !stray && (bad || misplaced))
            && (problem == Some(IndexPanic) <==>
                  !stray && !bad && !misplaced && plan.dims == [] && plan.jobs != [] && declaredOut != [])
            && (problem.None? || problem.value in {ScatterOutputIndex, Error.ScatterShape, IndexPanic})
  {
    hide Misplaced;
    ShapeIsGood(plan.dims);
    if ShapeOk(plan.dims) {
      forall k | 0 <= k < |plan.jobs| ensures InBounds(plan.jobs[k].index, plan.dims) <==> !Misplaced(plan, k) {
        InPlace(plan, k);
      }
    }
  }

  lemma ShapeIsGood(dims: seq<int>)
    ensures ShapeOk(dims) <==> !exists d :: 0 <= d < |dims| && BadLength(dims, d)
  {
    if ShapeOk(dims) {
      forall d | 0 <= d < |dims| ensures !BadLength(dims, d) {}
    } else {
      var d :| 0 <= d < |dims| && !(dims[d] >= 0 && (dims[d] == 0 ==> d == |dims| - 1));
      assert BadLength(dims, d);
    }
  }

  lemma InPlace(plan: ScatterPlan, k: nat)
    requires ShapeOk(plan.dims) && k < |plan.jobs|
    ensures InBounds(plan.jobs[k].index, plan.dims) <==> !Misplaced(plan, k)
  {}

  /** The last job of a coordinate reported this value there, or no job stands there and it is null. */
  ghost predicate HeldAt(plan: ScatterPlan, outputs: map<int, Obj>, port: string, at: seq<int>, v: Value) {
    || (v == Null && forall k :: 0 <= k < |plan.jobs| ==> plan.jobs[k].index != at)
    || exists k :: 0 <= k < |plan.jobs| && LastOfPlace(plan, k, at) && Reported(outputs, k, port, v)
  }

  predicate LastOfPlace(plan: ScatterPlan, k: nat, at: seq<int>)
    requires k < |plan.jobs|
  {
    plan.jobs[k].index == at && forall j :: k < j < |plan.jobs| ==> plan.jobs[j].index != at
  }

  predicate Reported(outputs: map<int, Obj>, k: int, port: string, v: Value) {
    v == if k in outputs && port in outputs[k] then outputs[k][port] else Null
  }

  /** A gathered port: lists of the shape's lengths, with the value of each place at its coordinates. */
  ghost predicate Gathers(plan: ScatterPlan, outputs: map<int, Obj>, port: string, v: Value)
    requires ShapeOk(plan.dims)
  {
    if plan.dims == [] then v == List([])
    else
      && ShapedAs(v, plan.dims)
      && forall at: seq<int> :: InBounds(at, plan.dims) ==> PlaceHolds(plan, outputs, port, at, v)
  }

  ghost predicate PlaceHolds(plan: ScatterPlan, outputs: map<int, Obj>, port: string, at: seq<int>, v: Value) {
    Follow(v, at).Some? && HeldAt(plan, outputs, port, at, Follow(v, at).value)
  }

  /** What is gathered for a port is this, whatever the plan. */
  lemma GatheredIs(plan: ScatterPlan, outputs: map<int, Obj>, port: string)
    requires ShapeOk(plan.dims) && CoordinatesOk(plan)
    ensures Gathers(plan, outputs, port, Fold(FlatColumn(plan, outputs, port), plan.dims))
  {
    hide Written, Offset, Product, Nested, ShapedAs, Follow, HeldAt, CoordinatesOk;
    var dims: Dims := plan.dims;
    if dims != [] {
      var flat := FlatColumn(plan, outputs, port);
      NestedShaped(flat, dims);
      forall at: seq<int> | InBounds(at, dims) ensures PlaceHolds(plan, outputs, port, at, Nested(flat, dims)) {
        FollowReachesLeaf(flat, dims, at);
        SlotHolds(plan, outputs, port, at);
      }
    }
  }

  lemma SlotHolds(plan: ScatterPlan, outputs: map<int, Obj>, port: string, at: seq<int>)
    requires ShapeOk(plan.dims) && CoordinatesOk(plan) && InBounds(at, plan.dims)
    ensures HeldAt(plan, outputs, port, at, Written(plan, outputs, port, Offset(at, plan.dims), |plan.jobs|))
  {
    hide Written, Offset;
    var dims: Dims, slot := plan.dims, Offset(at, plan.dims);
    forall k | 0 <= k < |plan.jobs| ensures Offset(plan.jobs[k].index, dims) == slot <==> plan.jobs[k].index == at {
      if Offset(plan.jobs[k].index, dims) == slot {
        OffsetInjective(plan.jobs[k].index, at, dims);
      }
    }
    LastJobStands(plan, outputs, port, slot, |plan.jobs|);
    var v := Written(plan, outputs, port, slot, |plan.jobs|);
    if exists k :: 0 <= k < |plan.jobs| && plan.jobs[k].index == at {
      var k :| 0 <= k < |plan.jobs| && Offset(plan.jobs[k].index, dims) == slot && Reported(outputs, k, port, v)
        && (forall j :: k < j < |plan.jobs| ==> Offset(plan.jobs[j].index, dims) != slot);
      assert LastOfPlace(plan, k, at);
    }
  }

  /** Sub-jobs that return their inputs, gathered again: a dot product gives each scattered array back. */
  lemma DotproductRoundTrip(base: Obj, keys: seq<string>, i: nat)
    requires Expansion(base, keys, Dotproduct).Ok? && i < |keys| && 0 !in Lengths(base, keys)
    ensures var plan := Expansion(base, keys, Dotproduct).value;
            var outputs := map k | 0 <= k < |plan.jobs| :: plan.jobs[k].inputs;
            RowMajor(plan) && Nested(Column(outputs, |plan.jobs|, keys[i]), plan.dims) == base[keys[i]]
  {
    hide Expansion, KeyProblem, ArraysFrom, RowMajor, Nested, KeysOk, ItemsOf, Product, SeesElements;
    var plan := Expansion(base, keys, Dotproduct).value;
    var outputs := map k | 0 <= k < |plan.jobs| :: plan.jobs[k].inputs;
    ExpansionIsRowMajor(base, keys, Dotproduct);
    ExpansionGivesElements(base, keys, Dotproduct);
    ExpansionSucceeds(base, keys, Dotproduct);
    KeyIsList(base, keys, i);
    SameLength(base, keys, i);
    var column := Column(outputs, |plan.jobs|, keys[i]);
    forall k | 0 <= k < |column| ensures column[k] == ItemsOf(base, keys[i])[k] {
      SeesAt(base, keys, i, k, plan.jobs[k].inputs);
    }
    assert column == ItemsOf(base, keys[i]);
    FlatNested(column);
  }

  lemma SeesAt(base: Obj, keys: seq<string>, i: nat, k: nat, inputs: Obj)
    requires i < |keys| && SeesPosition(base, keys, k, inputs)
    ensures k < |ItemsOf(base, keys[i])| && keys[i] in inputs && inputs[keys[i]] == ItemsOf(base, keys[i])[k]
  {
    assert seq(|keys|, _ => k)[i] == k;
  }

  lemma KeyIsList(base: Obj, keys: seq<string>, i: nat)
    requires KeysOk(base, keys) && i < |keys|
    ensures keys[i] in base && base[keys[i]] == List(ItemsOf(base, keys[i]))
  {
    assert KeyProblem(base, keys, i).None?;
  }

  lemma SameLength(base: Obj, keys: seq<string>, i: nat)
    requires Expansion(base, keys, Dotproduct).Ok? && i < |keys| && 0 !in Lengths(base, keys)
    ensures |ItemsOf(base, keys[i])| == Lengths(base, keys)[0]
  {
    ExpansionSucceeds(base, keys, Dotproduct);
    forall j | 0 <= j < |keys| ensures ItemsOf(base, keys[j]) != [] {
      assert Lengths(base, keys)[j] in Lengths(base, keys);
    }
  }

  lemma FlatNested(flat: seq<Value>)
    ensures Product([|flat|]) == |flat| && Nested(flat, [|flat|]) == List(flat)
  {
    OneDimension(0, |flat|);
    forall k | 0 <= k < |flat| ensures Nested(flat, [|flat|]).items[k] == flat[k] {
      OneDimension(k, |flat|);
      FollowReachesLeaf(flat, [|flat|], [k]);
      assert Follow(Nested(flat, [|flat|]).items[k], []) == Some(flat[k]);
    }
  }

  /** Gather puts job `k`'s port value at exactly job `k`'s coordinates. */
  lemma GatherReachesJob(plan: ScatterPlan, outputs: map<int, Obj>, port: string, k: nat)
    requires RowMajor(plan) && k < |plan.jobs|
    ensures Follow(Nested(Column(outputs, |plan.jobs|, port), plan.dims), plan.jobs[k].index)
         == Some(PortValue(outputs, k, port))
  {
    FollowReachesLeaf(Column(outputs, |plan.jobs|, port), plan.dims, plan.jobs[k].index);
  }

  /** Flattening a nested crossproduct's gathered port gives the flat crossproduct's gathered port. */
  lemma NestedFlattensToFlat(base: Obj, keys: seq<string>, outputs: map<int, Obj>, port: string)
    requires Expansion(base, keys, NestedCrossproduct).Ok?
    requires forall i :: 0 <= i < |keys| ==> keys[i] in base && base[keys[i]].List? && base[keys[i]].items != []
    ensures Expansion(base, keys, FlatCrossproduct).Ok?
    ensures RowMajor(Expansion(base, keys, NestedCrossproduct).value)
    ensures RowMajor(Expansion(base, keys, FlatCrossproduct).value)
    ensures var nested, flat := Expansion(base, keys, NestedCrossproduct).value,
        Expansion(base, keys, FlatCrossproduct).value;
            && |flat.jobs| == |nested.jobs| == Product(nested.dims) == Product(flat.dims)
            && (forall k :: 0 <= k < |flat.jobs| ==> flat.jobs[k].inputs == nested.jobs[k].inputs)
            && List(Leaves(Nested(Column(outputs, |nested.jobs|, port), nested.dims), |nested.dims|))
               == Nested(Column(outputs, |flat.jobs|, port), flat.dims)
  {
    ArraysFromMeans(base, keys, 0);
    var arrays := ArraysFrom(base, keys, 0).value;
    FirstZeroMeans(Dimensions(arrays));
    assert forall i :: 0 <= i < |keys| ==> |arrays[i]| == Dimensions(arrays)[i];
    ExpansionIsRowMajor(base, keys, NestedCrossproduct);
    ExpansionIsRowMajor(base, keys, FlatCrossproduct);
    var nested, flat := Expansion(base, keys, NestedCrossproduct).value, Expansion(base, keys, FlatCrossproduct).value;
    var column := Column(outputs, |nested.jobs|, port);
    FlattenUndoesNesting(column, nested.dims);
    FlattenUndoesNesting(column, flat.dims);
    var items := Nested(column, flat.dims).items;
    LeavesOfFlat(items);
  }

  lemma {:induction false} LeavesOfFlat(items: seq<Value>)
    ensures AllLeaves(items, 0) == items
  {
    if items != [] {
      LeavesOfFlat(items[..|items| - 1]);
    }
  }

  // ---- the loops of scatter.go ----

  method ScatterArrays(base: Obj, keys: seq<string>) returns (r: Result<Arrays>)
    ensures r == ArraysFrom(base, keys, 0)
  {
    var seen: set<string> := {};
    var arrays: Arrays := [];
    ghost var whole := ArraysFrom(base, keys, 0);
    assert whole.Ok? ==> arrays + whole.value == whole.value;
    for i := 0 to |keys|
      invariant |arrays| == i
      invariant seen == set k | k in keys[..i]
      invariant match ArraysFrom(base, keys, i)
                case Err(e) => whole == Err(e)
                case Ok(rest) => whole == Ok(arrays + rest)
    {
      var key := keys[i];
      if key in seen {
        return Err(DuplicateScatterKey);
      }
      seen := seen + {key};
      assert keys[..i + 1] == keys[..i] + [key];
      if key !in base {
        return Err(ScatterInputMissing);
      }
      if !base[key].List? {
        return Err(ScatterInputNotArray);
      }
      ghost var next := ArraysFrom(base, keys, i + 1);
      if next.Ok? {
        assert arrays + ([base[key].items] + next.value) == arrays + [base[key].items] + next.value;
      }
      arrays := arrays + [base[key].items];
    }
    assert arrays + [] == arrays;
    return Ok(arrays);
  }

  method BuildInputs(base: Obj, keys: seq<string>, arrays: Arrays, coords: seq<int>) returns (inputs: Obj)
    requires |keys| == |arrays| && InBounds(coords, Dimensions(arrays))
    ensures inputs == JobInputs(base, keys, arrays, coords)
  {
    inputs := base;
    for k := 0 to |keys|
      invariant InBounds(coords[..k], Dimensions(arrays[..k]))
      invariant inputs == JobInputs(base, keys[..k], arrays[..k], coords[..k])
    {
      assert Dimensions(arrays)[k] == |arrays[k]|;
      assert keys[..k + 1][..k] == keys[..k] && arrays[..k + 1][..k] == arrays[..k] &&
        coords[..k + 1][..k] == coords[..k];
      assert InBounds(coords[..k + 1], Dimensions(arrays[..k + 1]));
      inputs := inputs[keys[k] := arrays[k][coords[k]]];
    }
    assert keys[..|keys|] == keys && arrays[..|keys|] == arrays && coords[..|keys|] == coords;
  }

  method PairUp(base: Obj, keys: seq<string>, arrays: Arrays) returns (r: Result<ScatterPlan>)
    requires |keys| == |arrays| > 0
    ensures r == if SameLengths(arrays) then Ok(ScatterPlan(DotJobs(base, keys, arrays), [|arrays[0]|]))
                 else Err(DotproductLength)
  {
    var size := |arrays[0]|;
    for i := 1 to |arrays|
      invariant forall k :: 0 <= k < i ==> |arrays[k]| == size
    {
      if |arrays[i]| != size {
        return Err(DotproductLength);
      }
    }
    var jobs := [];
    for i := 0 to size
      invariant |jobs| == i
      invariant forall k :: 0 <= k < i ==> jobs[k] == DotJobs(base, keys, arrays)[k]
    {
      assert InBounds(Repeat(i, |keys|), Dimensions(arrays));
      var inputs := BuildInputs(base, keys, arrays, Repeat(i, |keys|));
      jobs := jobs + [ScatterJob(inputs, [i])];
    }
    assert SameLengths(arrays) && jobs == DotJobs(base, keys, arrays);
    return Ok(ScatterPlan(jobs, [size]));
  }

  method Cross(base: Obj, keys: seq<string>, arrays: Arrays, nested: bool) returns (jobs: seq<ScatterJob>)
    requires |keys| == |arrays| && Positive(Dimensions(arrays))
    ensures jobs == CrossJobs(base, keys, arrays, nested)
  {
    hide JobInputs, CoordAt, Product;
    var grid := Coordinates(Dimensions(arrays));
    ghost var all := CrossJobs(base, keys, arrays, nested);
    jobs := [];
    for i := 0 to |grid|
      invariant jobs == all[..i]
    {
      var inputs := BuildInputs(base, keys, arrays, grid[i]);
      jobs := jobs + [ScatterJob(inputs, if nested then grid[i] else [i])];
    }
  }

  method ExpandScatter(base: Obj, keys: seq<string>, how: Method) returns (r: Result<ScatterPlan>)
    ensures r == Expansion(base, keys, how)
    ensures r.Ok? ==> GivesElements(base, keys, how, r.value)
    ensures r.Err? ==> RefusedFor(base, keys, how, r.error)
  {
    hide GivesElements, RefusedFor;
    if Expansion(base, keys, how).Ok? {
      ExpansionGivesElements(base, keys, how);
    } else {
      ExpansionRefuses(base, keys, how);
    }
    if how.OtherMethod? {
      return Err(UnknownScatterMethod);
    }
    if keys == [] {
      return Err(NoScatterKeys);
    }
    var found := ScatterArrays(base, keys);
    if found.Err? {
      return Err(found.error);
    }
    var arrays := found.value;
    var dims := Dimensions(arrays);
    var empty := FirstZero(dims);
    FirstZeroMeans(dims);
    if empty.Some? {
      return Ok(ScatterPlan([], if how.NestedCrossproduct? then dims[..empty.value + 1] else [0]));
    }
    match how
    case Dotproduct =>
      r := PairUp(base, keys, arrays);
    case FlatCrossproduct =>
      var jobs := Cross(base, keys, arrays, false);
      r := Ok(ScatterPlan(jobs, [|jobs|]));
    case NestedCrossproduct =>
      var jobs := Cross(base, keys, arrays, true);
      r := Ok(ScatterPlan(jobs, dims));
  }

  method ValidateShape(dims: seq<int>) returns (ok: bool)
    ensures ok <==> ShapeOk(dims)
  {
    for d := 0 to |dims|
      invariant forall k :: 0 <= k < d ==> dims[k] >= 0 && (dims[k] == 0 ==> k == |dims| - 1)
    {
      if dims[d] < 0 || (dims[d] == 0 && d != |dims| - 1) {
        return false;
      }
    }
    return true;
  }

  method ValidateCoordinates(plan: ScatterPlan) returns (ok: bool)
    requires ShapeOk(plan.dims)
    ensures ok <==> CoordinatesOk(plan)
  {
    for k := 0 to |plan.jobs|
      invariant forall j :: 0 <= j < k ==> InBounds(plan.jobs[j].index, plan.dims)
    {
      var index := plan.jobs[k].index;
      if |index| != |plan.dims| {
        return false;
      }
      for d := 0 to |index|
        invariant forall c :: 0 <= c < d ==> 0 <= index[c] < plan.dims[c]
      {
        if index[d] < 0 || index[d] >= plan.dims[d] {
          return false;
        }
      }
    }
    return true;
  }

  /** Fills one port's leaves in place, job by job, and folds them into lists. */
  method GatherPort(plan: ScatterPlan, outputs: map<int, Obj>, port: string) returns (v: Value)
    requires ShapeOk(plan.dims) && CoordinatesOk(plan)
    requires plan.dims == [] ==> plan.jobs == []
    ensures v == Fold(FlatColumn(plan, outputs, port), plan.dims)
  {
    var dims: Dims := plan.dims;
    var flat := new Value[ShapeSize(dims)](_ => Null);
    for i := 0 to |plan.jobs|
      invariant forall slot :: 0 <= slot < flat.Length ==> flat[slot] == Written(plan, outputs, port, slot, i)
    {
      var offset := LinearOffset(plan.jobs[i].index, dims);
      OffsetInRange(plan.jobs[i].index, dims);
      flat[offset] := PortValue(outputs, i, port);
    }
    assert flat[..] == FlatColumn(plan, outputs, port);
    var nested := Nest(flat[..], dims);
    return List(nested);
  }

  /** Checks the plan and the reported outputs, then gathers every declared port. */
  method Gather(plan: ScatterPlan, outputs: map<int, Obj>, declaredOut: seq<string>) returns (r: Result<Obj>)
    ensures GatherProblem(plan, outputs, declaredOut).Some? ==>
        r == Err(GatherProblem(plan, outputs, declaredOut).value)
    ensures GatherProblem(plan, outputs, declaredOut).None? ==>
              ShapeOk(plan.dims) && CoordinatesOk(plan) &&
              r == Ok(map port | port in declaredOut :: Fold(FlatColumn(plan, outputs, port), plan.dims))
    ensures r.Ok? ==> forall port :: port in r.value ==> Gathers(plan, outputs, port, r.value[port])
  {
    hide Gathers;
    if GatherProblem(plan, outputs, declaredOut).None? {
      forall port ensures Gathers(plan, outputs, port, Fold(FlatColumn(plan, outputs, port), plan.dims)) {
        GatheredIs(plan, outputs, port);
      }
    }
    if exists i :: i in outputs && !(0 <= i < |plan.jobs|) {
      return Err(ScatterOutputIndex);
    }
    var shapeOk := ValidateShape(plan.dims);
    if !shapeOk {
      return Err(Error.ScatterShape);
    }
    var coordinatesOk := ValidateCoordinates(plan);
    if !coordinatesOk {
      return Err(Error.ScatterShape);
    }
    if plan.dims == [] && plan.jobs != [] && declaredOut != [] {
      return Err(IndexPanic);
    }
    var gathered: Obj := map[];
    for p := 0 to |declaredOut|
      invariant gathered == map port | port in declaredOut[..p] :: Fold(FlatColumn(plan, outputs, port), plan.dims)
    {
      var port := declaredOut[p];
      assert declaredOut[..p + 1] == declaredOut[..p] + [port];
      var v := GatherPort(plan, outputs, port);
      gathered := gathered[port := v];
    }
    assert declaredOut[..|declaredOut|] == declaredOut;
    return Ok(gathered);
  }
}
