/** The dependency graph of a plan, and the depth-first search that rejects cycles. */
module Graph {

  /** Each node with the nodes it depends on. */
  type Deps = map<string, seq<string>>

  predicate Closed(g: Deps) {
    forall n, d :: n in g && d in g[n] ==> d in g
  }

  /** A rank that falls along every dependency: the graph has no cycle. */
  ghost predicate Ranking(g: Deps, rank: map<string, nat>) {
    && g.Keys <= rank.Keys
    && forall n, d :: n in g && d in g[n] ==> d in rank && rank[d] < rank[n]
  }

  ghost predicate Acyclic(g: Deps) {
    exists rank :: Ranking(g, rank)
  }

  /** A walk along dependencies from a node back to itself. */
  ghost predicate IsCycle(g: Deps, walk: seq<string>) {
    && |walk| >= 2 && walk[0] == walk[|walk| - 1]
    && forall i :: 0 <= i < |walk| - 1 ==> walk[i] in g && walk[i + 1] in g[walk[i]]
  }

  lemma {:induction false} RankFallsAlongWalk(g: Deps, walk: seq<string>, rank: map<string, nat>, i: nat)
    requires IsCycle(g, walk) && Ranking(g, rank) && i < |walk|
    ensures walk[i] in rank && rank[walk[i]] + i <= rank[walk[0]]
  {
    if i == 0 {
      assert walk[0] in g;
    } else {
      RankFallsAlongWalk(g, walk, rank, i - 1);
      assert walk[i - 1] in g && walk[i - 1 + 1] in g[walk[i - 1]];
    }
  }

  lemma CycleHasNoRanking(g: Deps, walk: seq<string>)
    requires IsCycle(g, walk)
    ensures !Acyclic(g)
  {
    forall rank | Ranking(g, rank) ensures false {
      RankFallsAlongWalk(g, walk, rank, |walk| - 1);
    }
  }

  datatype Mark = Open | Shut

  /** One depth-first search: nodes are open while their dependencies are being visited, then shut. */
  class Visitor {
    const g: Deps
    var mark: map<string, Mark>
    ghost var path: seq<string>          // the open nodes, outermost first
    ghost var rank: map<string, nat>     // the shut nodes, in the order they were shut
    ghost var clock: nat
    ghost var cycle: seq<string>

    ghost predicate Valid()
      reads this
    {
      && Closed(g) && mark.Keys <= g.Keys
      && (forall i :: 0 <= i < |path| ==> path[i] in mark && mark[path[i]] == Open)
      && (forall n :: n in mark && mark[n] == Open ==> n in path)
      && (forall i :: 0 <= i < |path| - 1 ==> path[i + 1] in g[path[i]])
      && (forall n :: n in rank <==> n in mark && mark[n] == Shut)
      && (forall n :: n in rank ==> rank[n] < clock)
      && (forall n, d :: n in rank && d in g[n] ==> d in rank && rank[d] < rank[n])
    }

    constructor (g: Deps)
      requires Closed(g)
      ensures Valid() && this.g == g && mark == map[] && path == []
    {
      this.g := g;
      mark := map[];
      path, rank, clock, cycle := [], map[], 0, [];
    }

    /** Nothing that `before` marks is forgotten or changed. */
    ghost predicate Keeps(before: map<string, Mark>)
      reads this
    {
      forall n :: n in before ==> n in mark && mark[n] == before[n]
    }

    method Enter(node: string)
      requires Valid() && node in g && node !in mark
      requires path != [] ==> node in g[path[|path| - 1]]
      modifies this
      ensures Valid() && path == old(path) + [node]
      ensures mark == old(mark)[node := Open]
    {
      mark := mark[node := Open];
      path := path + [node];
    }

    method Leave(node: string)
      requires Valid() && path != [] && node == path[|path| - 1] && node !in path[..|path| - 1]
      requires forall d :: d in g[node] ==> d in mark && mark[d] == Shut
      modifies this
      ensures Valid() && path == old(path[..|path| - 1])
      ensures mark == old(mark)[node := Shut]
    {
      mark := mark[node := Shut];
      path := path[..|path| - 1];
      rank := rank[node := clock];
      clock := clock + 1;
    }

    /** Reaching an open node again closes a cycle through the path. */
    ghost method CloseCycle(node: string) returns (walk: seq<string>)
      requires Valid() && node in mark && mark[node] == Open && path != [] && node in g[path[|path| - 1]]
      ensures IsCycle(g, walk)
    {
      var at :| 0 <= at < |path| && path[at] == node;
      walk := path[at..] + [node];
    }

    method Visit(node: string) returns (ok: bool)
      requires Valid() && node in g
      requires path != [] ==> node in g[path[|path| - 1]]
      modifies this
      ensures ok ==> Valid() && path == old(path) && node in mark && mark[node] == Shut && Keeps(old(mark))
      ensures !ok ==> IsCycle(g, cycle)
      decreases g.Keys - mark.Keys, 0
    {
      if node in mark {
        if mark[node] == Shut {
          return true;
        }
        cycle := CloseCycle(node);
        return false;
      }
      Enter(node);
      assert mark.Keys == old(mark.Keys) + {node} && node in g.Keys - old(mark.Keys);
      ok := VisitDeps(node);
      if ok {
        Leave(node);
      }
    }

    method VisitDeps(node: string) returns (ok: bool)
      requires Closed(g) && Valid() && node in g && path != [] && path[|path| - 1] == node
      modifies this
      ensures ok ==> Valid() && path == old(path) && Keeps(old(mark))
      ensures ok ==> forall d :: d in g[node] ==> d in mark && mark[d] == Shut
      ensures !ok ==> IsCycle(g, cycle)
      decreases g.Keys - mark.Keys, 1
    {
      hide Valid, IsCycle;
      ghost var before, walked := mark, path;
      var deps := g[node];
      for i := 0 to |deps|
        invariant Valid() && path == walked && Keeps(before)
        invariant forall k :: 0 <= k < i ==> deps[k] in mark && mark[deps[k]] == Shut
      {
        ok := Visit(deps[i]);
        if !ok {
          return false;
        }
      }
      return true;
    }
  }

  /** Succeeds exactly on a graph with a falling rank; a refusal always stands on a real cycle. */
  method CheckAcyclic(g: Deps, order: seq<string>)
    returns (ok: bool, ghost rank: map<string, nat>, ghost cycle: seq<string>)
    requires Closed(g)
    requires forall n :: n in g <==> n in order
    ensures ok <==> Acyclic(g)
    ensures ok ==> Ranking(g, rank)
    ensures !ok ==> IsCycle(g, cycle)
  {
    rank, cycle := map[], [];
    var v := new Visitor(g);
    for i := 0 to |order|
      invariant v.Valid() && v.g == g && v.path == [] && fresh(v)
      invariant forall k :: 0 <= k < i ==> order[k] in v.mark && v.mark[order[k]] == Shut
    {
      ok := v.Visit(order[i]);
      if !ok {
        cycle := v.cycle;
        CycleHasNoRanking(g, cycle);
        return;
      }
    }
    ok, rank := true, v.rank;
    assert Ranking(g, rank);
  }
}
