/**
 * Requirement scopes: frames from outer to inner, the filter a CommandLineTool applies to what it inherits,
 * and the collapse of a whole scope into one frame for a nested run.
 */
module Requirements {
  import opened Common

  datatype Requirement = Typed(cls: string, body: int) | RawRequirement(cls: string, node: Option<int>)

  /** A hint may itself be a requirement, an uninterpreted node, or anything else that names a class. */
  datatype Hint = AsRequirement(req: Requirement) | RawHint(iri: string, node: int) | OtherHint(name: string)

  function ReqClass(r: Requirement): string {
    r.cls
  }

  function HintClass(h: Hint): string {
    match h
    case AsRequirement(req) => req.cls
    case RawHint(iri, _) => iri
    case OtherHint(name) => name
  }

  function HintAsRequirement(h: Hint): Requirement {
    match h
    case AsRequirement(req) => req
    case RawHint(iri, node) => RawRequirement(iri, Some(node))
    case OtherHint(name) => RawRequirement(name, None)
  }

  /** One carrier's requirements and hints, and its process class; a step has none. */
  datatype Frame = Frame(cls: string, reqs: seq<Requirement>, hints: seq<Hint>)

  /** The raw frames, outer to inner, and the same frames with the inheritance filter applied. */
  datatype Scope = Scope(frames: seq<Frame>, view: seq<Frame>)

  const CommandLineTool := "CommandLineTool"

  const CommandLineToolRequirements := {
    "InlineJavascriptRequirement", "SchemaDefRequirement", "DockerRequirement", "SoftwareRequirement",
    "InitialWorkDirRequirement", "EnvVarRequirement", "ShellCommandRequirement", "ResourceRequirement",
    "LoadListingRequirement", "WorkReuse", "NetworkAccess", "InplaceUpdateRequirement", "ToolTimeLimit"
  }

  const WorkflowFeatures := {
    "SubworkflowFeatureRequirement", "ScatterFeatureRequirement", "MultipleInputFeatureRequirement",
    "StepInputExpressionRequirement"
  }

  predicate IsCoreRequirement(cls: string) {
    cls in CommandLineToolRequirements || cls in WorkflowFeatures
  }

  predicate ValidForCommandLineTool(cls: string) {
    cls in CommandLineToolRequirements || !IsCoreRequirement(cls)
  }

  // ---- what the lists mean ----

  /** The last entry of a class. */
  function LastOf<T>(entries: seq<T>, cls: string, of: T -> string): Option<T> {
    if entries == [] then None
    else if of(entries[|entries| - 1]) == cls then Some(entries[|entries| - 1])
    else LastOf(entries[..|entries| - 1], cls, of)
  }

  function Valid<T>(entries: seq<T>, of: T -> string): seq<T> {
    if entries == [] then []
    else
      var n := |entries| - 1;
      Valid(entries[..n], of) + (if ValidForCommandLineTool(of(entries[n])) then [entries[n]] else [])
  }

  /** The last entry of each class, in order. */
  function Deduped<T>(entries: seq<T>, of: T -> string): seq<T> {
    if entries == [] then []
    else (if LastOf(entries[1..], of(entries[0]), of).Some? then [] else [entries[0]]) + Deduped(entries[1..], of)
  }

  function AllReqs(frames: seq<Frame>): seq<Requirement> {
    if frames == [] then [] else AllReqs(frames[..|frames| - 1]) + frames[|frames| - 1].reqs
  }

  function AllHints(frames: seq<Frame>): seq<Hint> {
    if frames == [] then [] else AllHints(frames[..|frames| - 1]) + frames[|frames| - 1].hints
  }

  /** The inner-most frame of a process. */
  function Target(frames: seq<Frame>): (i: int)
    ensures -1 <= i < |frames|
    ensures i >= 0 ==> frames[i].cls != ""
    ensures forall j :: i < j < |frames| ==> frames[j].cls == ""
  {
    if frames == [] then -1
    else if frames[|frames| - 1].cls != "" then |frames| - 1
    else Target(frames[..|frames| - 1])
  }

  function FilteredFrame(f: Frame): Frame {
    f.(reqs := Valid(f.reqs, ReqClass), hints := Valid(f.hints, HintClass))
  }

  /** Only what a CommandLineTool inherits is filtered; its own declarations stand. */
  function Filtered(frames: seq<Frame>): (view: seq<Frame>)
    ensures |view| == |frames|
  {
    var target := Target(frames);
    if target < 0 || frames[target].cls != CommandLineTool then frames
    else seq(|frames|, i requires 0 <= i < |frames| => if i < target then FilteredFrame(frames[i]) else frames[i])
  }

  datatype Origin = FromRequirements | FromHints

  datatype Entry = Entry(requirement: Requirement, origin: Origin)

  /** The declaration in effect: inner-most wins, and any requirement beats every hint. */
  function InEffect(view: seq<Frame>, cls: string): Option<Entry> {
    match LastOf(AllReqs(view), cls, ReqClass)
    case Some(r) => Some(Entry(r, FromRequirements))
    case None =>
      match LastOf(AllHints(view), cls, HintClass)
      case Some(h) => Some(Entry(HintAsRequirement(h), FromHints))
      case None => None
  }

  function NewScope(frames: seq<Frame>): Scope {
    Scope(frames, Filtered(frames))
  }

  function Push(s: Scope, f: Frame): Scope {
    NewScope(s.frames + [f])
  }

  function PushAll(s: Scope, pushed: seq<Frame>): Scope {
    if pushed == [] then s else Push(PushAll(s, pushed[..|pushed| - 1]), pushed[|pushed| - 1])
  }

  // ---- what is in effect, said of the frames ----

  /** The inner-most frame of a process, a CommandLineTool's, hides what it does not inherit from the frames around. */
  ghost predicate Hidden(frames: seq<Frame>, i: nat, cls: string) {
    && cls in WorkflowFeatures && cls !in CommandLineToolRequirements
    && exists t :: i < t < |frames| && frames[t].cls == CommandLineTool &&
         forall j :: t < j < |frames| ==> frames[j].cls == ""
  }

  /** The `j`-th requirement of frame `i` is of that class. */
  predicate ReqAt(frames: seq<Frame>, i: nat, j: nat, cls: string) {
    i < |frames| && j < |frames[i].reqs| && frames[i].reqs[j].cls == cls
  }

  predicate HintAt(frames: seq<Frame>, i: nat, j: nat, cls: string) {
    && i < |frames| && j < |frames[i].hints|
    && match frames[i].hints[j]
       case AsRequirement(req) => req.cls == cls
       case RawHint(iri, _) => iri == cls
       case OtherHint(name) => name == cls
  }

  /** What a hint counts as. */
  predicate CountsAs(h: Hint, r: Requirement) {
    match h
    case AsRequirement(req) => r == req
    case RawHint(iri, node) => r == RawRequirement(iri, Some(node))
    case OtherHint(name) => r == RawRequirement(name, None)
  }

  predicate Inner(i: nat, j: nat, k: nat, l: nat) {
    i < k || (i == k && j < l)
  }

  /** No requirement of the class that is not hidden stands further in, or later in the same frame. */
  ghost predicate InmostReq(frames: seq<Frame>, i: nat, j: nat, cls: string) {
    && ReqAt(frames, i, j, cls) && !Hidden(frames, i, cls)
    && forall k: nat, l: nat :: Inner(i, j, k, l) ==> !ReqAt(frames, k, l, cls) || Hidden(frames, k, cls)
  }

  ghost predicate InmostHint(frames: seq<Frame>, i: nat, j: nat, cls: string) {
    && HintAt(frames, i, j, cls) && !Hidden(frames, i, cls)
    && forall k: nat, l: nat :: Inner(i, j, k, l) ==> !HintAt(frames, k, l, cls) || Hidden(frames, k, cls)
  }

  /** A requirement in sight beats every hint; among either the inner-most, and in one frame the last, counts. */
  ghost predicate TakesEffect(frames: seq<Frame>, cls: string, r: Option<Entry>) {
    if exists i: nat, j: nat :: InmostReq(frames, i, j, cls) then
      exists i: nat, j: nat :: InmostReq(frames, i, j, cls) && r == Some(Entry(frames[i].reqs[j], FromRequirements))
    else if exists i: nat, j: nat :: InmostHint(frames, i, j, cls) then
      exists i: nat, j: nat :: InmostHint(frames, i, j, cls) && r.Some? && r.value.origin == FromHints
        && CountsAs(frames[i].hints[j], r.value.requirement)
    else r == None
  }

  /** The last entry of a class in lists taken one after another: from the last list that has one, the last there. */
  ghost predicate LastIn<T>(lists: seq<seq<T>>, cls: string, of: T -> string, i: nat, j: nat) {
    && i < |lists| && j < |lists[i]| && of(lists[i][j]) == cls
    && forall k: nat, l: nat :: Inner(i, j, k, l) ==> !ClassAt(lists, cls, of, k, l)
  }

  predicate ClassAt<T>(lists: seq<seq<T>>, cls: string, of: T -> string, k: nat, l: nat) {
    k < |lists| && l < |lists[k]| && of(lists[k][l]) == cls
  }

  function Flattened<T>(lists: seq<seq<T>>): seq<T> {
    if lists == [] then [] else Flattened(lists[..|lists| - 1]) + lists[|lists| - 1]
  }

  lemma {:induction false} LastOfList<T>(entries: seq<T>, cls: string, of: T -> string)
    ensures match LastOf(entries, cls, of)
            case None => forall j :: 0 <= j < |entries| ==> of(entries[j]) != cls
            case Some(e) => exists j :: 0 <= j < |entries| && entries[j] == e && LastAt(entries, cls, of, j)
  {
    if entries != [] {
      var n := |entries| - 1;
      if of(entries[n]) == cls {
        assert LastAt(entries, cls, of, n);
      } else {
        LastOfList(entries[..n], cls, of);
        if LastOf(entries[..n], cls, of).Some? {
          var j :| 0 <= j < n && entries[..n][j] == LastOf(entries[..n], cls, of).value
            && LastAt(entries[..n], cls, of, j);
          assert LastAt(entries, cls, of, j);
        }
      }
    }
  }

  predicate LastAt<T>(entries: seq<T>, cls: string, of: T -> string, j: nat)
    requires j < |entries|
  {
    of(entries[j]) == cls && forall k :: j < k < |entries| ==> of(entries[k]) != cls
  }

  lemma {:induction false} LastOfLists<T>(lists: seq<seq<T>>, cls: string, of: T -> string)
    ensures match LastOf(Flattened(lists), cls, of)
            case None => forall k: nat, l: nat :: !ClassAt(lists, cls, of, k, l)
            case Some(e) => exists i: nat, j: nat :: LastIn(lists, cls, of, i, j) && lists[i][j] == e
  {
    hide LastOf;
    if lists == [] {
      assert LastOf(Flattened(lists), cls, of) == None by { NoLast(cls, of); }
    } else {
      var n := |lists| - 1;
      LastOfLists(lists[..n], cls, of);
      LastOfList(lists[n], cls, of);
      LastOfJoined(Flattened(lists[..n]), lists[n], cls, of);
      if LastOf(lists[n], cls, of).Some? {
        var j :| 0 <= j < |lists[n]| && lists[n][j] == LastOf(lists[n], cls, of).value && LastAt(lists[n], cls, of, j);
        assert LastIn(lists, cls, of, n, j);
      } else if LastOf(Flattened(lists[..n]), cls, of).Some? {
        var i: nat, j: nat :| LastIn(lists[..n], cls, of, i, j)
          && lists[..n][i][j] == LastOf(Flattened(lists[..n]), cls, of).value;
        NotInLast(lists, cls, of, i, j);
      } else {
        forall k: nat, l: nat ensures !ClassAt(lists, cls, of, k, l) {
          assert !ClassAt(lists[..n], cls, of, k, l);
        }
      }
    }
  }

  lemma NoLast<T>(cls: string, of: T -> string)
    ensures LastOf([], cls, of) == None
  {}

  lemma NotInLast<T>(lists: seq<seq<T>>, cls: string, of: T -> string, i: nat, j: nat)
    requires lists != [] && LastIn(lists[..|lists| - 1], cls, of, i, j)
    requires var last := lists[|lists| - 1]; forall l :: 0 <= l < |last| ==> of(last[l]) != cls
    ensures LastIn(lists, cls, of, i, j) && lists[i][j] == lists[..|lists| - 1][i][j]
  {
    forall k: nat, l: nat | Inner(i, j, k, l) ensures !ClassAt(lists, cls, of, k, l) {
      assert !ClassAt(lists[..|lists| - 1], cls, of, k, l);
    }
  }

  function ReqLists(frames: seq<Frame>): (lists: seq<seq<Requirement>>)
    ensures |lists| == |frames| && forall i :: 0 <= i < |frames| ==> lists[i] == frames[i].reqs
  {
    seq(|frames|, i requires 0 <= i < |frames| => frames[i].reqs)
  }

  function HintLists(frames: seq<Frame>): (lists: seq<seq<Hint>>)
    ensures |lists| == |frames| && forall i :: 0 <= i < |frames| ==> lists[i] == frames[i].hints
  {
    seq(|frames|, i requires 0 <= i < |frames| => frames[i].hints)
  }

  lemma {:induction false} AllAreFlattened(frames: seq<Frame>)
    ensures AllReqs(frames) == Flattened(ReqLists(frames)) && AllHints(frames) == Flattened(HintLists(frames))
  {
    if frames != [] {
      var n := |frames| - 1;
      AllAreFlattened(frames[..n]);
      assert ReqLists(frames)[..n] == ReqLists(frames[..n]) && HintLists(frames)[..n] == HintLists(frames[..n]);
    }
  }

  /** Where a frame's filter leaves an entry of a class. */
  lemma FilteredClasses(frames: seq<Frame>, i: nat, cls: string)
    requires i < |frames|
    ensures Hidden(frames, i, cls) ==> LastOf(Filtered(frames)[i].reqs, cls, ReqClass).None?
    ensures Hidden(frames, i, cls) ==> LastOf(Filtered(frames)[i].hints, cls, HintClass).None?
    ensures !Hidden(frames, i, cls) ==>
        LastOf(Filtered(frames)[i].reqs, cls, ReqClass) == LastOf(frames[i].reqs, cls, ReqClass)
    ensures !Hidden(frames, i, cls) ==>
        LastOf(Filtered(frames)[i].hints, cls, HintClass) == LastOf(frames[i].hints, cls, HintClass)
  {
    hide LastOf, Valid;
    LastOfValid(frames[i].reqs, cls, ReqClass);
    LastOfValid(frames[i].hints, cls, HintClass);
    var t := Target(frames);
    if Hidden(frames, i, cls) {
      HiddenTarget(frames, i, cls);
    }
  }

  lemma HiddenTarget(frames: seq<Frame>, i: nat, cls: string)
    requires Hidden(frames, i, cls)
    ensures i < Target(frames) && frames[Target(frames)].cls == CommandLineTool && !ValidForCommandLineTool(cls)
  {
    var t :| i < t < |frames| && frames[t].cls == CommandLineTool
      && (forall j :: t < j < |frames| ==> frames[j].cls == "");
    TargetIs(frames, t);
  }

  /** The requirements of each frame, none where the class is hidden. */
  ghost function SeenReqs(frames: seq<Frame>, cls: string): (lists: seq<seq<Requirement>>)
    ensures |lists| == |frames|
    ensures forall i :: 0 <= i < |frames| ==> lists[i] == if Hidden(frames, i, cls) then [] else frames[i].reqs
  {
    seq(|frames|, i requires 0 <= i < |frames| => if Hidden(frames, i, cls) then [] else frames[i].reqs)
  }

  ghost function SeenHints(frames: seq<Frame>, cls: string): (lists: seq<seq<Hint>>)
    ensures |lists| == |frames|
    ensures forall i :: 0 <= i < |frames| ==> lists[i] == if Hidden(frames, i, cls) then [] else frames[i].hints
  {
    seq(|frames|, i requires 0 <= i < |frames| => if Hidden(frames, i, cls) then [] else frames[i].hints)
  }

  lemma {:induction false} SameLasts<T>(a: seq<seq<T>>, b: seq<seq<T>>, cls: string, of: T -> string)
    requires |a| == |b| && forall i :: 0 <= i < |a| ==> LastOf(a[i], cls, of) == LastOf(b[i], cls, of)
    ensures LastOf(Flattened(a), cls, of) == LastOf(Flattened(b), cls, of)
  {
    hide LastOf;
    if a != [] {
      var n := |a| - 1;
      SameLasts(a[..n], b[..n], cls, of);
      LastOfJoined(Flattened(a[..n]), a[n], cls, of);
      LastOfJoined(Flattened(b[..n]), b[n], cls, of);
    }
  }

  lemma SeenLasts(frames: seq<Frame>, cls: string)
    ensures LastOf(AllReqs(Filtered(frames)), cls, ReqClass) == LastOf(Flattened(SeenReqs(frames, cls)), cls, ReqClass)
    ensures LastOf(AllHints(Filtered(frames)), cls, HintClass) ==
        LastOf(Flattened(SeenHints(frames, cls)), cls, HintClass)
  {
    hide LastOf, Filtered, Hidden;
    var view := Filtered(frames);
    AllAreFlattened(view);
    NoLast(cls, ReqClass);
    NoLast(cls, HintClass);
    forall i | 0 <= i < |frames|
      ensures LastOf(ReqLists(view)[i], cls, ReqClass) == LastOf(SeenReqs(frames, cls)[i], cls, ReqClass)
      ensures LastOf(HintLists(view)[i], cls, HintClass) == LastOf(SeenHints(frames, cls)[i], cls, HintClass)
    {
      FilteredClasses(frames, i, cls);
    }
    SameLasts(ReqLists(view), SeenReqs(frames, cls), cls, ReqClass);
    SameLasts(HintLists(view), SeenHints(frames, cls), cls, HintClass);
  }

  lemma ReqSeen(frames: seq<Frame>, cls: string)
    ensures match LastOf(Flattened(SeenReqs(frames, cls)), cls, ReqClass)
            case None => forall i: nat, j: nat :: !InmostReq(frames, i, j, cls)
            case Some(r) => exists i: nat, j: nat :: InmostReq(frames, i, j, cls) && frames[i].reqs[j] == r
  {
    hide LastOf, Flattened, Hidden;
    var lists := SeenReqs(frames, cls);
    LastOfLists(lists, cls, ReqClass);
    forall k: nat, l: nat
      ensures ClassAt(lists, cls, ReqClass, k, l) <==> ReqAt(frames, k, l, cls) && !Hidden(frames, k, cls)
    {}
    if LastOf(Flattened(lists), cls, ReqClass).Some? {
      var i: nat, j: nat :| LastIn(lists, cls, ReqClass, i, j)
        && lists[i][j] == LastOf(Flattened(lists), cls, ReqClass).value;
      assert ClassAt(lists, cls, ReqClass, i, j);
      assert InmostReq(frames, i, j, cls);
    }
  }

  lemma HintSeen(frames: seq<Frame>, cls: string)
    ensures match LastOf(Flattened(SeenHints(frames, cls)), cls, HintClass)
            case None => forall i: nat, j: nat :: !InmostHint(frames, i, j, cls)
            case Some(h) => exists i: nat, j: nat :: InmostHint(frames, i, j, cls) && frames[i].hints[j] == h
  {
    hide LastOf, Flattened, Hidden;
    var lists := SeenHints(frames, cls);
    LastOfLists(lists, cls, HintClass);
    forall k: nat, l: nat
      ensures ClassAt(lists, cls, HintClass, k, l) <==> HintAt(frames, k, l, cls) && !Hidden(frames, k, cls)
    {}
    if LastOf(Flattened(lists), cls, HintClass).Some? {
      var i: nat, j: nat :| LastIn(lists, cls, HintClass, i, j)
        && lists[i][j] == LastOf(Flattened(lists), cls, HintClass).value;
      assert ClassAt(lists, cls, HintClass, i, j);
      assert InmostHint(frames, i, j, cls);
    }
  }

  /** The declaration in effect in a scope is the one that takes effect among its frames. */
  lemma InEffectIs(frames: seq<Frame>, cls: string)
    ensures TakesEffect(frames, cls, InEffect(NewScope(frames).view, cls))
  {
    hide LastOf, Filtered, InmostReq, InmostHint, Flattened, AllReqs, AllHints;
    SeenLasts(frames, cls);
    ReqSeen(frames, cls);
    HintSeen(frames, cls);
    if LastOf(AllReqs(Filtered(frames)), cls, ReqClass).None? &&
       LastOf(AllHints(Filtered(frames)), cls, HintClass).Some? {
      HintCounts(LastOf(AllHints(Filtered(frames)), cls, HintClass).value);
    }
  }

  lemma InEffectInScope(s: Scope, cls: string)
    ensures s == NewScope(s.frames) ==> TakesEffect(s.frames, cls, InEffect(s.view, cls))
  {
    hide TakesEffect, InEffect;
    InEffectIs(s.frames, cls);
  }

  lemma HintCounts(h: Hint)
    ensures CountsAs(h, HintAsRequirement(h))
  {}

  /** What a deduplicated list keeps: in order, exactly the entries no later one has the class of. */
  ghost predicate KeepsLast<T>(entries: seq<T>, of: T -> string, out: seq<T>, at: seq<nat>) {
    && |at| == |out| && (forall i, j :: 0 <= i < j < |at| ==> at[i] < at[j])
    && (forall i :: 0 <= i < |at| ==> at[i] < |entries| && entries[at[i]] == out[i])
    && (forall k :: 0 <= k < |entries| ==> (k in at <==> LastAt(entries, of(entries[k]), of, k)))
  }

  lemma {:induction false} DedupedKeeps<T>(entries: seq<T>, of: T -> string) returns (at: seq<nat>)
    ensures KeepsLast(entries, of, Deduped(entries, of), at)
  {
    hide LastOf, KeepsLast;
    at := [];
    if entries == [] {
      assert KeepsLast(entries, of, [], []) by { KeepsNone(of); }
    } else {
      var more := DedupedKeeps(entries[1..], of);
      var shifted := seq(|more|, i requires 0 <= i < |more| => more[i] + 1);
      LastOfList(entries[1..], of(entries[0]), of);
      at := if LastOf(entries[1..], of(entries[0]), of).Some? then shifted else [0] + shifted;
      LastAtFirst(entries, of);
      if LastOf(entries[1..], of(entries[0]), of).Some? {
        FirstDropped(entries, of, Deduped(entries[1..], of), more, shifted);
      } else {
        FirstKept(entries, of, Deduped(entries[1..], of), more, shifted);
      }
      assert [] + Deduped(entries[1..], of) == Deduped(entries[1..], of);
    }
  }

  lemma KeepsNone<T>(of: T -> string)
    ensures KeepsLast([], of, [], [])
  {}

  lemma LastAtLater<T>(entries: seq<T>, of: T -> string, k: nat)
    requires 0 < k < |entries|
    ensures LastAt(entries, of(entries[k]), of, k) <==> LastAt(entries[1..], of(entries[k]), of, k - 1)
  {
    var rest := entries[1..];
    assert forall m :: 0 < m < |entries| ==> entries[m] == rest[m - 1];
    if LastAt(entries, of(entries[k]), of, k) {
      forall m | k - 1 < m < |rest| ensures of(rest[m]) != of(entries[k]) {
        assert rest[m] == entries[m + 1];
      }
    }
  }

  lemma LastAtFirst<T>(entries: seq<T>, of: T -> string)
    requires entries != []
    ensures LastAt(entries, of(entries[0]), of, 0) <==>
        forall j :: 0 <= j < |entries[1..]| ==> of(entries[1..][j]) != of(entries[0])
  {
    var rest := entries[1..];
    assert forall m :: 0 < m < |entries| ==> entries[m] == rest[m - 1];
    if LastAt(entries, of(entries[0]), of, 0) {
      forall j | 0 <= j < |rest| ensures of(rest[j]) != of(entries[0]) {
        assert rest[j] == entries[j + 1];
      }
    }
  }

  lemma InShifted(more: seq<nat>, shifted: seq<nat>, k: nat)
    requires |shifted| == |more| && forall i :: 0 <= i < |more| ==> shifted[i] == more[i] + 1
    ensures k in shifted <==> k > 0 && k - 1 in more
    ensures k in [0] + shifted <==> k == 0 || k in shifted
  {
    if k > 0 && k - 1 in more {
      var i :| 0 <= i < |more| && more[i] == k - 1;
      assert shifted[i] == k;
    }
  }

  lemma KeptLater<T>(entries: seq<T>, of: T -> string, out: seq<T>, more: seq<nat>, shifted: seq<nat>, k: nat)
    requires 0 < k < |entries| && KeepsLast(entries[1..], of, out, more)
    requires |shifted| == |more| && forall i :: 0 <= i < |more| ==> shifted[i] == more[i] + 1
    ensures k in shifted <==> LastAt(entries, of(entries[k]), of, k)
  {
    hide LastAt;
    var rest := entries[1..];
    InShifted(more, shifted, k);
    LastAtLater(entries, of, k);
    assert entries[k] == rest[k - 1];
    assert k - 1 in more <==> LastAt(rest, of(rest[k - 1]), of, k - 1);
  }

  /** The positions in the rest, seen in the whole list. */
  ghost predicate KeepsRest<T>(entries: seq<T>, out: seq<T>, shifted: seq<nat>) {
    && |shifted| == |out| && (forall i, j :: 0 <= i < j < |shifted| ==> shifted[i] < shifted[j])
    && forall i :: 0 <= i < |shifted| ==> 0 < shifted[i] < |entries| && entries[shifted[i]] == out[i]
  }

  lemma RestKept<T>(entries: seq<T>, of: T -> string, out: seq<T>, more: seq<nat>, shifted: seq<nat>)
    requires entries != [] && KeepsLast(entries[1..], of, out, more)
    requires |shifted| == |more| && forall i :: 0 <= i < |more| ==> shifted[i] == more[i] + 1
    ensures KeepsRest(entries, out, shifted)
  {
    hide LastAt;
    forall i | 0 <= i < |shifted| ensures 0 < shifted[i] < |entries| && entries[shifted[i]] == out[i] {
      assert entries[shifted[i]] == entries[1..][more[i]];
    }
  }

  /** The first entry is one of those that a later one has the class of. */
  lemma FirstDropped<T>(entries: seq<T>, of: T -> string, out: seq<T>, more: seq<nat>, shifted: seq<nat>)
    requires entries != [] && KeepsLast(entries[1..], of, out, more)
    requires |shifted| == |more| && forall i :: 0 <= i < |more| ==> shifted[i] == more[i] + 1
    requires !LastAt(entries, of(entries[0]), of, 0)
    ensures KeepsLast(entries, of, out, shifted)
  {
    hide LastAt;
    RestKept(entries, of, out, more, shifted);
    forall k | 0 <= k < |entries| ensures k in shifted <==> LastAt(entries, of(entries[k]), of, k) {
      if k > 0 {
        KeptLater(entries, of, out, more, shifted, k);
      }
    }
  }

  lemma FirstKept<T>(entries: seq<T>, of: T -> string, out: seq<T>, more: seq<nat>, shifted: seq<nat>)
    requires entries != [] && KeepsLast(entries[1..], of, out, more)
    requires |shifted| == |more| && forall i :: 0 <= i < |more| ==> shifted[i] == more[i] + 1
    requires LastAt(entries, of(entries[0]), of, 0)
    ensures KeepsLast(entries, of, [entries[0]] + out, [0] + shifted)
  {
    hide LastAt;
    RestKept(entries, of, out, more, shifted);
    hide KeepsLast;
    var at: seq<nat> := [0] + shifted;
    forall k | 0 <= k < |entries| ensures k in at <==> LastAt(entries, of(entries[k]), of, k) {
      InShifted(more, shifted, k);
      if k > 0 {
        KeptLater(entries, of, out, more, shifted, k);
      }
    }
    KeepsTogether(entries, of, [entries[0]] + out, at);
  }

  lemma KeepsTogether<T>(entries: seq<T>, of: T -> string, out: seq<T>, at: seq<nat>)
    requires out != [] && at != [] && at[0] == 0 && entries != [] && out[0] == entries[0]
    requires KeepsRest(entries, out[1..], at[1..])
    requires forall k :: 0 <= k < |entries| ==> (k in at <==> LastAt(entries, of(entries[k]), of, k))
    ensures KeepsLast(entries, of, out, at)
  {
    hide LastAt;
    forall i | 0 < i < |at| ensures 0 < at[i] < |entries| && entries[at[i]] == out[i] {
      assert at[i] == at[1..][i - 1] && out[i] == out[1..][i - 1];
    }
    forall i, j | 0 <= i < j < |at| ensures at[i] < at[j] {
      assert at[j] == at[1..][j - 1];
      if i > 0 {
        assert at[i] == at[1..][i - 1];
      }
    }
  }

  // ---- the operations ----

  method LastOfClass<T>(entries: seq<T>, cls: string, of: T -> string) returns (r: Option<T>)
    ensures r == LastOf(entries, cls, of)
  {
    var i := |entries|;
    assert entries[..i] == entries;
    while i > 0
      invariant 0 <= i <= |entries| && LastOf(entries[..i], cls, of) == LastOf(entries, cls, of)
    {
      i := i - 1;
      assert entries[..i + 1][..i] == entries[..i];
      if of(entries[i]) == cls {
        return Some(entries[i]);
      }
    }
    return None;
  }

  method KeepValid<T>(entries: seq<T>, of: T -> string) returns (out: seq<T>)
    ensures out == Valid(entries, of)
  {
    hide ValidForCommandLineTool;
    out := [];
    for i := 0 to |entries|
      invariant out == Valid(entries[..i], of)
    {
      assert entries[..i + 1][..i] == entries[..i];
      if ValidForCommandLineTool(of(entries[i])) {
        out := out + [entries[i]];
      }
    }
    assert entries[..|entries|] == entries;
  }

  method TargetIndex(frames: seq<Frame>) returns (i: int)
    ensures i == Target(frames)
  {
    i := |frames| - 1;
    while i >= 0 && frames[i].cls == ""
      invariant -1 <= i < |frames| && Target(frames[..i + 1]) == Target(frames)
    {
      assert frames[..i + 1][..i] == frames[..i];
      i := i - 1;
    }
    if i >= 0 {
      assert frames[..i + 1][i] == frames[i];
    }
  }

  method FilterFrames(frames: seq<Frame>) returns (out: seq<Frame>)
    ensures out == Filtered(frames)
  {
    hide Valid;
    var target := TargetIndex(frames);
    if target < 0 || frames[target].cls != CommandLineTool {
      return frames;
    }
    out := frames;
    for i := 0 to target
      invariant |out| == |frames|
      invariant forall j :: 0 <= j < |frames| ==> out[j] == if j < i then FilteredFrame(frames[j]) else frames[j]
    {
      var reqs := KeepValid(out[i].reqs, ReqClass);
      var hints := KeepValid(out[i].hints, HintClass);
      out := out[i := out[i].(reqs := reqs, hints := hints)];
    }
  }

  method DedupKeepLast(entries: seq<Requirement>) returns (out: seq<Requirement>)
    ensures out == Deduped(entries, ReqClass)
    ensures forall i, j :: 0 <= i < j < |out| ==> out[i].cls != out[j].cls
    ensures exists at :: KeepsLast(entries, ReqClass, out, at)
  {
    ghost var at := DedupedKeeps(entries, ReqClass);
    hide KeepsLast;
    out := [];
    var seen: set<string> := {};
    var i := |entries|;
    while i > 0
      invariant 0 <= i <= |entries| && out == Deduped(entries[i..], ReqClass)
      invariant forall cls :: cls in seen <==> LastOf(entries[i..], cls, ReqClass).Some?
    {
      i := i - 1;
      assert entries[i..][1..] == entries[i + 1..];
      FirstMatters(entries[i..], ReqClass);
      if entries[i].cls in seen {
        continue;
      }
      seen := seen + {entries[i].cls};
      out := [entries[i]] + out;
    }
    assert entries[0..] == entries;
    DedupedDiffer(entries, ReqClass);
  }

  /** Effective requirements: one entry a class. */
  method EffectiveRequirements(s: Scope) returns (out: seq<Requirement>)
    ensures out == Deduped(AllReqs(s.view), ReqClass)
    ensures forall i, j :: 0 <= i < j < |out| ==> out[i].cls != out[j].cls
  {
    var all: seq<Requirement> := [];
    for i := 0 to |s.view|
      invariant all == AllReqs(s.view[..i])
    {
      assert s.view[..i + 1][..i] == s.view[..i];
      all := all + s.view[i].reqs;
    }
    assert s.view[..|s.view|] == s.view;
    out := DedupKeepLast(all);
  }

  method EffectiveHints(s: Scope) returns (all: seq<Hint>)
    ensures all == AllHints(s.view)
  {
    all := [];
    for i := 0 to |s.view|
      invariant all == AllHints(s.view[..i])
    {
      assert s.view[..i + 1][..i] == s.view[..i];
      all := all + s.view[i].hints;
    }
    assert s.view[..|s.view|] == s.view;
  }

  /** Requirements of every frame first, inner to outer, then hints. */
  method GetRequirement(s: Scope, cls: string) returns (r: Option<Entry>)
    ensures r == InEffect(s.view, cls)
    ensures s == NewScope(s.frames) ==> TakesEffect(s.frames, cls, r)
  {
    hide TakesEffect, NewScope;
    InEffectInScope(s, cls);
    var i := |s.view|;
    assert s.view[..i] == s.view;
    while i > 0
      invariant 0 <= i <= |s.view|
      invariant LastOf(AllReqs(s.view[..i]), cls, ReqClass) == LastOf(AllReqs(s.view), cls, ReqClass)
    {
      i := i - 1;
      assert s.view[..i + 1][..i] == s.view[..i];
      LastOfJoined(AllReqs(s.view[..i]), s.view[i].reqs, cls, ReqClass);
      var found := LastOfClass(s.view[i].reqs, cls, ReqClass);
      if found.Some? {
        return Some(Entry(found.value, FromRequirements));
      }
    }
    i := |s.view|;
    while i > 0
      invariant 0 <= i <= |s.view|
      invariant LastOf(AllHints(s.view[..i]), cls, HintClass) == LastOf(AllHints(s.view), cls, HintClass)
    {
      i := i - 1;
      assert s.view[..i + 1][..i] == s.view[..i];
      LastOfJoined(AllHints(s.view[..i]), s.view[i].hints, cls, HintClass);
      var found := LastOfClass(s.view[i].hints, cls, HintClass);
      if found.Some? {
        return Some(Entry(HintAsRequirement(found.value), FromHints));
      }
    }
    return None;
  }

  /** The frame a nested workflow starts from: everything in effect around it, as its own declarations. */
  function Collapsed(s: Scope, workflow: string): Frame {
    Frame(workflow, Deduped(AllReqs(s.view), ReqClass), AllHints(s.view))
  }

  /** Copies a workflow's declarations from the scope it runs in. */
  method InheritRequirements(own: Frame, scope: Option<Scope>) returns (view: Frame)
    ensures view == match scope case None => own case Some(s) => Collapsed(s, own.cls)
  {
    if scope.None? {
      return own;
    }
    var reqs := EffectiveRequirements(scope.value);
    var hints := EffectiveHints(scope.value);
    return own.(reqs := reqs, hints := hints);
  }

  // ---- the last of a class ----

  lemma {:induction false} LastOfJoined<T>(a: seq<T>, b: seq<T>, cls: string, of: T -> string)
    ensures LastOf(a + b, cls, of) == if LastOf(b, cls, of).Some? then LastOf(b, cls, of) else LastOf(a, cls, of)
    decreases |b|
  {
    if b == [] {
      assert a + b == a;
    } else {
      assert (a + b)[..|a + b| - 1] == a + b[..|b| - 1];
      LastOfJoined(a, b[..|b| - 1], cls, of);
    }
  }

  lemma FirstMatters<T>(entries: seq<T>, of: T -> string)
    requires entries != []
    ensures forall cls ::
        LastOf(entries, cls, of) == if LastOf(entries[1..], cls, of).Some? then LastOf(entries[1..], cls, of)
                                    else if of(entries[0]) == cls then Some(entries[0]) else None
  {
    forall cls
      ensures LastOf(entries, cls, of) == if LastOf(entries[1..], cls, of).Some? then LastOf(entries[1..], cls, of)
                                          else if of(entries[0]) == cls then Some(entries[0]) else None
    {
      assert entries == [entries[0]] + entries[1..];
      LastOfJoined([entries[0]], entries[1..], cls, of);
      assert [entries[0]][..0] == [];
    }
  }

  lemma {:induction false} LastOfValid<T>(entries: seq<T>, cls: string, of: T -> string)
    ensures LastOf(Valid(entries, of), cls, of) ==
        if ValidForCommandLineTool(cls) then LastOf(entries, cls, of) else None
  {
    hide ValidForCommandLineTool;
    if entries != [] {
      var n := |entries| - 1;
      LastOfValid(entries[..n], cls, of);
      LastOfJoined(Valid(entries[..n], of), [entries[n]], cls, of);
      assert [entries[n]][..0] == [];
      assert Valid(entries[..n], of) + [] == Valid(entries[..n], of);
    }
  }

  lemma {:induction false} LastOfDeduped<T>(entries: seq<T>, cls: string, of: T -> string)
    ensures LastOf(Deduped(entries, of), cls, of) == LastOf(entries, cls, of)
  {
    hide LastOf;
    if entries != [] {
      FirstMatters(entries, of);
      LastOfDeduped(entries[1..], cls, of);
      var more := Deduped(entries[1..], of);
      assert [] + more == more;
      LastOfJoined([entries[0]], more, cls, of);
      LastOfOne(entries[0], cls, of);
    }
  }

  lemma LastOfOne<T>(e: T, cls: string, of: T -> string)
    ensures LastOf([e], cls, of) == if of(e) == cls then Some(e) else None
  {
    assert [e][..0] == [];
  }

  /** One entry a class is left. */
  lemma {:induction false} DedupedDiffer<T>(entries: seq<T>, of: T -> string)
    ensures forall i, j :: 0 <= i < j < |Deduped(entries, of)| ==>
        of(Deduped(entries, of)[i]) != of(Deduped(entries, of)[j])
  {
    hide LastOf;
    if entries != [] {
      DedupedDiffer(entries[1..], of);
      forall j | 0 <= j < |Deduped(entries[1..], of)|
        ensures LastOf(entries[1..], of(Deduped(entries[1..], of)[j]), of).Some?
      {
        DedupedFound(entries[1..], Deduped(entries[1..], of)[j], of);
      }
    }
  }

  lemma DedupedFound<T>(entries: seq<T>, e: T, of: T -> string)
    requires e in Deduped(entries, of)
    ensures LastOf(entries, of(e), of).Some?
  {
    LastOfDeduped(entries, of(e), of);
    FoundIfThere(Deduped(entries, of), e, of);
  }

  lemma {:induction false} FoundIfThere<T>(entries: seq<T>, e: T, of: T -> string)
    requires e in entries
    ensures LastOf(entries, of(e), of).Some?
  {
    var n := |entries| - 1;
    if of(entries[n]) != of(e) {
      assert e in entries[..n];
      FoundIfThere(entries[..n], e, of);
    }
  }

  lemma {:induction false} ValidJoined<T>(a: seq<T>, b: seq<T>, of: T -> string)
    ensures Valid(a + b, of) == Valid(a, of) + Valid(b, of)
    decreases |b|
  {
    hide ValidForCommandLineTool;
    if b == [] {
      assert a + b == a;
    } else {
      assert (a + b)[..|a + b| - 1] == a + b[..|b| - 1];
      ValidJoined(a, b[..|b| - 1], of);
    }
  }

  // ---- the whole view at once ----

  lemma {:induction false} AllJoined(a: seq<Frame>, b: seq<Frame>)
    ensures AllReqs(a + b) == AllReqs(a) + AllReqs(b) && AllHints(a + b) == AllHints(a) + AllHints(b)
    decreases |b|
  {
    if b == [] {
      assert a + b == a;
    } else {
      assert (a + b)[..|a + b| - 1] == a + b[..|b| - 1];
      AllJoined(a, b[..|b| - 1]);
    }
  }

  function FilteredAll(frames: seq<Frame>): (out: seq<Frame>)
    ensures |out| == |frames|
  {
    seq(|frames|, i requires 0 <= i < |frames| => FilteredFrame(frames[i]))
  }

  lemma {:induction false} AllOfFiltered(frames: seq<Frame>)
    ensures AllReqs(FilteredAll(frames)) == Valid(AllReqs(frames), ReqClass)
    ensures AllHints(FilteredAll(frames)) == Valid(AllHints(frames), HintClass)
  {
    if frames != [] {
      var n := |frames| - 1;
      assert FilteredAll(frames)[..n] == FilteredAll(frames[..n]);
      AllOfFiltered(frames[..n]);
      ValidJoined(AllReqs(frames[..n]), frames[n].reqs, ReqClass);
      ValidJoined(AllHints(frames[..n]), frames[n].hints, HintClass);
    }
  }

  /** The outer frames either pass whole or are filtered whole, depending only on the inner ones. */
  lemma ViewSplits(outer: seq<Frame>, inner: seq<Frame>)
    ensures var t := Target(inner);
            && (t >= 0 && inner[t].cls == CommandLineTool ==>
                  Filtered(outer + inner) == FilteredAll(outer) + Filtered(inner))
            && (!(t >= 0 && inner[t].cls == CommandLineTool) && (t >= 0 || TargetClass(outer) != CommandLineTool) ==>
                  Filtered(outer + inner) == outer + inner)
  {
    hide FilteredFrame, Target, Filtered;
    var t := Target(inner);
    if t >= 0 && inner[t].cls == CommandLineTool {
      ToolFiltersOuter(outer, inner);
    } else if t >= 0 || TargetClass(outer) != CommandLineTool {
      NothingFiltered(outer, inner);
    }
  }

  lemma ToolFiltersOuter(outer: seq<Frame>, inner: seq<Frame>)
    requires Target(inner) >= 0 && inner[Target(inner)].cls == CommandLineTool
    ensures Filtered(outer + inner) == FilteredAll(outer) + Filtered(inner)
  {
    hide FilteredFrame, Target, Valid;
    var all, view := outer + inner, FilteredAll(outer) + Filtered(inner);
    TargetJoined(outer, inner);
    assert all[|outer| + Target(inner)] == inner[Target(inner)];
    assert |Filtered(all)| == |view|;
    forall i | 0 <= i < |all| ensures Filtered(all)[i] == view[i] {
      if i < |outer| {
        assert all[i] == outer[i] && view[i] == FilteredFrame(outer[i]);
      } else {
        assert all[i] == inner[i - |outer|] && view[i] == Filtered(inner)[i - |outer|];
      }
    }
  }

  lemma NothingFiltered(outer: seq<Frame>, inner: seq<Frame>)
    requires !(Target(inner) >= 0 && inner[Target(inner)].cls == CommandLineTool)
    requires Target(inner) >= 0 || TargetClass(outer) != CommandLineTool
    ensures Filtered(outer + inner) == outer + inner
  {
    hide FilteredFrame, Target;
    TargetJoined(outer, inner);
    if Target(inner) >= 0 {
      assert (outer + inner)[|outer| + Target(inner)] == inner[Target(inner)];
    }
  }

  lemma TargetJoined(outer: seq<Frame>, inner: seq<Frame>)
    ensures Target(outer + inner) == if Target(inner) >= 0 then |outer| + Target(inner) else Target(outer)
  {
    TargetIs(outer + inner, if Target(inner) >= 0 then |outer| + Target(inner) else Target(outer));
  }

  lemma TargetIs(frames: seq<Frame>, i: int)
    requires -1 <= i < |frames| && (i >= 0 ==> frames[i].cls != "")
    requires forall j :: i < j < |frames| ==> frames[j].cls == ""
    ensures Target(frames) == i
  {
    hide Target;
  }

  function TargetClass(frames: seq<Frame>): string {
    if Target(frames) < 0 then "" else frames[Target(frames)].cls
  }

  /** How a lookup after pushes depends on the frames before them. */
  lemma LookupSplits(outer: seq<Frame>, inner: seq<Frame>, cls: string)
    requires TargetClass(outer) != CommandLineTool
    ensures var filters := Target(inner) >= 0 && inner[Target(inner)].cls == CommandLineTool;
            var passes := !filters || ValidForCommandLineTool(cls);
            && LastOf(AllReqs(Filtered(outer + inner)), cls, ReqClass)
            == (var own := LastOf(AllReqs(Filtered(inner)), cls, ReqClass);
                if own.Some? then own else if passes then LastOf(AllReqs(outer), cls, ReqClass) else None)
            && LastOf(AllHints(Filtered(outer + inner)), cls, HintClass)
            == (var own := LastOf(AllHints(Filtered(inner)), cls, HintClass);
                if own.Some? then own else if passes then LastOf(AllHints(outer), cls, HintClass) else None)
  {
    hide Target, Filtered, LastOf, AllReqs, AllHints, Valid, ValidForCommandLineTool;
    var filters := Target(inner) >= 0 && inner[Target(inner)].cls == CommandLineTool;
    ViewSplits(outer, inner);
    var before, after := if filters then FilteredAll(outer) else outer, Filtered(inner);
    if !filters {
      Unfiltered(inner);
    }
    AllJoined(before, after);
    LastOfJoined(AllReqs(before), AllReqs(after), cls, ReqClass);
    LastOfJoined(AllHints(before), AllHints(after), cls, HintClass);
    if filters {
      AllOfFiltered(outer);
      LastOfValid(AllReqs(outer), cls, ReqClass);
      LastOfValid(AllHints(outer), cls, HintClass);
    }
  }

  lemma Unfiltered(inner: seq<Frame>)
    requires !(Target(inner) >= 0 && inner[Target(inner)].cls == CommandLineTool)
    ensures Filtered(inner) == inner
  {}

  lemma {:induction false} PushAllFrames(s: Scope, pushed: seq<Frame>)
    requires s == NewScope(s.frames)
    ensures PushAll(s, pushed) == NewScope(s.frames + pushed)
  {
    hide Filtered;
    if pushed == [] {
      assert s.frames + pushed == s.frames;
    } else {
      PushAllFrames(s, pushed[..|pushed| - 1]);
      assert s.frames + pushed == s.frames + pushed[..|pushed| - 1] + [pushed[|pushed| - 1]];
    }
  }

  /**
   * Collapsing a scope to one frame keeps every lookup: the same entry from the same kind of list, for every
   * class, after any further frames, also when a CommandLineTool among them filters what it inherits.
   */
  lemma CollapseKeepsLookups(s: Scope, workflow: string, pushed: seq<Frame>, cls: string)
    requires s == NewScope(s.frames) && TargetClass(s.frames) != CommandLineTool && workflow != CommandLineTool
    ensures InEffect(PushAll(NewScope([Collapsed(s, workflow)]), pushed).view, cls) ==
        InEffect(PushAll(s, pushed).view, cls)
  {
    hide Target, LastOf, Valid, ValidForCommandLineTool, Deduped, PushAll;
    var one := [Collapsed(s, workflow)];
    Unfiltered(s.frames);
    OneFrame(one[0]);
    PushAllFrames(s, pushed);
    PushAllFrames(NewScope(one), pushed);
    hide Filtered, AllReqs, AllHints;
    LookupSplits(s.frames, pushed, cls);
    LookupSplits(one, pushed, cls);
    LastOfDeduped(AllReqs(s.frames), cls, ReqClass);
  }

  lemma OneFrame(f: Frame)
    ensures AllReqs([f]) == f.reqs && AllHints([f]) == f.hints
    ensures f.cls != CommandLineTool ==> TargetClass([f]) != CommandLineTool
  {
    assert [f][..0] == [];
    assert [] + f.reqs == f.reqs && [] + f.hints == f.hints;
  }

  // ---- scopes that end in a CommandLineTool ----

  /** The frames around the target, which a CommandLineTool filters. */
  function Outside(frames: seq<Frame>): seq<Frame> {
    if Target(frames) < 0 then [] else frames[..Target(frames)]
  }

  /** The target's own frame and those within it, which it does not. */
  function Inside(frames: seq<Frame>): seq<Frame> {
    if Target(frames) < 0 then frames else frames[Target(frames)..]
  }

  /**
   * The tool's filter hides nothing of a class for good: it keeps the class, or a requirement of the class is
   * declared inside, or none is outside and the hints outside are none or declared again inside.
   */
  predicate RedeclaredInside(frames: seq<Frame>, cls: string) {
    var outer, own := Outside(frames), Inside(frames);
    || ValidForCommandLineTool(cls)
    || LastOf(AllReqs(own), cls, ReqClass).Some?
    || (&& LastOf(AllReqs(outer), cls, ReqClass).None?
        && (LastOf(AllHints(own), cls, HintClass).Some? || LastOf(AllHints(outer), cls, HintClass).None?))
  }

  /** Collapsing the scope changes no lookup of any class after any further frames. */
  ghost predicate CollapseKeeps(s: Scope, workflow: string) {
    forall pushed: seq<Frame>, cls: string ::
      InEffect(PushAll(NewScope([Collapsed(s, workflow)]), pushed).view, cls) == InEffect(PushAll(s, pushed).view, cls)
  }

  /** What a tool's scope holds of a class, with and without its filter. */
  lemma ToolLookups(frames: seq<Frame>, cls: string)
    requires TargetClass(frames) == CommandLineTool
    ensures var outer, own, passes := Outside(frames), Inside(frames), ValidForCommandLineTool(cls);
            var ownReq, ownHint := LastOf(AllReqs(own), cls, ReqClass), LastOf(AllHints(own), cls, HintClass);
            var outReq, outHint := LastOf(AllReqs(outer), cls, ReqClass), LastOf(AllHints(outer), cls, HintClass);
            && LastOf(AllReqs(frames), cls, ReqClass) == (if ownReq.Some? then ownReq else outReq)
            && LastOf(AllHints(frames), cls, HintClass) == (if ownHint.Some? then ownHint else outHint)
            && LastOf(AllReqs(Filtered(frames)), cls, ReqClass) ==
                 (if ownReq.Some? then ownReq else if passes then outReq else None)
            && LastOf(AllHints(Filtered(frames)), cls, HintClass) ==
                 (if ownHint.Some? then ownHint else if passes then outHint else None)
  {
    hide Target, LastOf, AllReqs, AllHints, Valid, ValidForCommandLineTool, Filtered;
    var outer, own := Outside(frames), Inside(frames);
    assert frames == outer + own;
    ToolView(frames);
    AllJoined(outer, own);
    AllJoined(FilteredAll(outer), own);
    AllOfFiltered(outer);
    LastOfJoined(AllReqs(outer), AllReqs(own), cls, ReqClass);
    LastOfJoined(AllHints(outer), AllHints(own), cls, HintClass);
    LastOfJoined(Valid(AllReqs(outer), ReqClass), AllReqs(own), cls, ReqClass);
    LastOfJoined(Valid(AllHints(outer), HintClass), AllHints(own), cls, HintClass);
    LastOfValid(AllReqs(outer), cls, ReqClass);
    LastOfValid(AllHints(outer), cls, HintClass);
  }

  lemma ToolView(frames: seq<Frame>)
    requires TargetClass(frames) == CommandLineTool
    ensures Filtered(frames) == FilteredAll(Outside(frames)) + Inside(frames)
  {
    hide FilteredFrame, Target;
  }

  /** What the frames before some pushed ones still give a lookup: filtered by a tool pushed, whole, or as they were. */
  function Beneath<T>(entries: seq<T>, viewed: seq<T>, pushed: seq<Frame>, cls: string, of: T -> string): Option<T> {
    if Target(pushed) < 0 then LastOf(viewed, cls, of)
    else if pushed[Target(pushed)].cls != CommandLineTool || ValidForCommandLineTool(cls) then LastOf(entries, cls, of)
    else None
  }

  function Layered(frames: seq<Frame>, pushed: seq<Frame>, cls: string): Option<Entry> {
    var view := Filtered(pushed);
    var req := LastOf(AllReqs(view), cls, ReqClass);
    var hint := LastOf(AllHints(view), cls, HintClass);
    var under := Beneath(AllReqs(frames), AllReqs(Filtered(frames)), pushed, cls, ReqClass);
    var advised := Beneath(AllHints(frames), AllHints(Filtered(frames)), pushed, cls, HintClass);
    if req.Some? then Some(Entry(req.value, FromRequirements))
    else if under.Some? then Some(Entry(under.value, FromRequirements))
    else if hint.Some? then Some(Entry(HintAsRequirement(hint.value), FromHints))
    else if advised.Some? then Some(Entry(HintAsRequirement(advised.value), FromHints))
    else None
  }

  /** A lookup after pushes looks at the pushed frames first, then beneath them. */
  lemma LookupLayers(frames: seq<Frame>, pushed: seq<Frame>, cls: string)
    ensures InEffect(Filtered(frames + pushed), cls) == Layered(frames, pushed, cls)
  {
    hide Target, Filtered, LastOf, AllReqs, AllHints, Valid, ValidForCommandLineTool;
    var base := ViewBeneath(frames, pushed);
    AllJoined(base, Filtered(pushed));
    LastOfJoined(AllReqs(base), AllReqs(Filtered(pushed)), cls, ReqClass);
    LastOfJoined(AllHints(base), AllHints(Filtered(pushed)), cls, HintClass);
    AllOfFiltered(frames);
    LastOfValid(AllReqs(frames), cls, ReqClass);
    LastOfValid(AllHints(frames), cls, HintClass);
  }

  lemma ViewBeneath(frames: seq<Frame>, pushed: seq<Frame>) returns (base: seq<Frame>)
    ensures base == if Target(pushed) < 0 then Filtered(frames)
                    else if pushed[Target(pushed)].cls == CommandLineTool then FilteredAll(frames) else frames
    ensures Filtered(frames + pushed) == base + Filtered(pushed)
  {
    hide Target, Filtered;
    ViewSplits(frames, pushed);
    if Target(pushed) < 0 {
      base := Filtered(frames);
      PlainPushed(frames, pushed);
    } else if pushed[Target(pushed)].cls == CommandLineTool {
      base := FilteredAll(frames);
    } else {
      base := frames;
      Unfiltered(pushed);
    }
  }

  lemma PlainPushed(frames: seq<Frame>, pushed: seq<Frame>)
    requires Target(pushed) < 0
    ensures Filtered(frames + pushed) == Filtered(frames) + Filtered(pushed)
  {
    hide FilteredFrame, Target;
    TargetJoined(frames, pushed);
    var all := frames + pushed;
    forall i | 0 <= i < |all| ensures Filtered(all)[i] == (Filtered(frames) + Filtered(pushed))[i] {
      assert i < |frames| ==> all[i] == frames[i];
    }
  }

  /** A collapsed tool scope keeps a class's lookups if the tool's filter hid nothing of it for good. */
  lemma RedeclaredKeeps(s: Scope, workflow: string, pushed: seq<Frame>, cls: string)
    requires s == NewScope(s.frames) && TargetClass(s.frames) == CommandLineTool && workflow != CommandLineTool
    requires RedeclaredInside(s.frames, cls)
    ensures InEffect(PushAll(NewScope([Collapsed(s, workflow)]), pushed).view, cls) ==
        InEffect(PushAll(s, pushed).view, cls)
  {
    hide Target, LastOf, Valid, ValidForCommandLineTool, Deduped, PushAll, Filtered, AllReqs, AllHints, Outside, Inside;
    hide InEffect;
    var one := [Collapsed(s, workflow)];
    OneFrame(one[0]);
    OneUnfiltered(one[0]);
    PushAllFrames(s, pushed);
    PushAllFrames(NewScope(one), pushed);
    LookupLayers(s.frames, pushed, cls);
    LookupLayers(one, pushed, cls);
    ToolLookups(s.frames, cls);
    LastOfDeduped(AllReqs(s.view), cls, ReqClass);
  }

  lemma OneUnfiltered(f: Frame)
    requires f.cls != CommandLineTool
    ensures Filtered([f]) == [f]
  {}

  /** Otherwise a workflow pushed next no longer sees what it would have. */
  lemma HiddenIsLost(s: Scope, workflow: string, cls: string)
    requires s == NewScope(s.frames) && TargetClass(s.frames) == CommandLineTool && workflow != CommandLineTool
    requires !RedeclaredInside(s.frames, cls)
    ensures var pushed := [Frame("Workflow", [], [])];
            InEffect(PushAll(NewScope([Collapsed(s, workflow)]), pushed).view, cls) !=
              InEffect(PushAll(s, pushed).view, cls)
  {
    hide LastOf, Valid, ValidForCommandLineTool, Deduped, PushAll, Filtered, AllReqs, AllHints, Outside, Inside;
    hide InEffect, Target;
    var one, bare := [Collapsed(s, workflow)], Frame("Workflow", [], []);
    OneFrame(one[0]);
    OneUnfiltered(one[0]);
    OneFrame(bare);
    OneUnfiltered(bare);
    assert Target([bare]) == 0 by { TargetIs([bare], 0); }
    NoLast<Requirement>(cls, ReqClass);
    NoLast<Hint>(cls, HintClass);
    PushAllFrames(s, [bare]);
    PushAllFrames(NewScope(one), [bare]);
    LookupLayers(s.frames, [bare], cls);
    LookupLayers(one, [bare], cls);
    ToolLookups(s.frames, cls);
    LastOfDeduped(AllReqs(s.view), cls, ReqClass);
  }

  /** A scope that ends in a CommandLineTool collapses without loss exactly when its filter hides nothing for good. */
  lemma ToolCollapseExactly(s: Scope, workflow: string)
    requires s == NewScope(s.frames) && TargetClass(s.frames) == CommandLineTool && workflow != CommandLineTool
    ensures CollapseKeeps(s, workflow) <==> forall cls: string :: RedeclaredInside(s.frames, cls)
  {
    hide RedeclaredInside, InEffect, PushAll, Collapsed, TargetClass, NewScope;
    if CollapseKeeps(s, workflow) {
      forall cls: string ensures RedeclaredInside(s.frames, cls) {
        if !RedeclaredInside(s.frames, cls) {
          HiddenIsLost(s, workflow, cls);
        }
      }
    }
    if forall cls: string :: RedeclaredInside(s.frames, cls) {
      forall pushed: seq<Frame>, cls: string
        ensures InEffect(PushAll(NewScope([Collapsed(s, workflow)]), pushed).view, cls) ==
            InEffect(PushAll(s, pushed).view, cls)
      {
        RedeclaredKeeps(s, workflow, pushed, cls);
      }
    }
  }

  /** A scatter feature around a tool is such a class: a workflow nested in the tool would lose it. */
  lemma ToolScopesCollapseLossy()
    ensures var s := NewScope([Frame("Workflow", [Typed("ScatterFeatureRequirement", 0)], []),
                               Frame(CommandLineTool, [], [])]);
            TargetClass(s.frames) == CommandLineTool && !CollapseKeeps(s, "Workflow")
  {
    hide CollapseKeeps;
    var feature := Typed("ScatterFeatureRequirement", 0);
    var outer, tool := Frame("Workflow", [feature], []), Frame(CommandLineTool, [], []);
    var s := NewScope([outer, tool]);
    assert Target(s.frames) == 1;
    assert Outside(s.frames) == [outer] && Inside(s.frames) == [tool];
    OneFrame(outer);
    OneFrame(tool);
    LastOfOne(feature, "ScatterFeatureRequirement", ReqClass);
    assert !RedeclaredInside(s.frames, "ScatterFeatureRequirement");
    ToolCollapseExactly(s, "Workflow");
  }
}
