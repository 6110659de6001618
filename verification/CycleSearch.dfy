/**
 The depth-first cycle checks: `hasCycle` of the workflow validator and
 `validateAcyclicAgentGraph` of the agent runner. Both colour nodes "in progress" and
 "finished"; the Go maps to bool (or to 1 and 2) are sets of the keys that hold the colour.
 */
module CycleSearch {
  import opened Graphs

  /** A closed walk that the root reaches: what a search from that root can find. */
  ghost predicate CycleVia(r: Rel, root: Id, p: seq<Id>) {
    ClosedWalk(r, p) && Reaches(r, root, p[0])
  }

  ghost predicate CycleFrom(r: Rel, roots: set<Id>) {
    exists root, p :: root in roots && CycleVia(r, root, p)
  }

  /** Every edge out of a finished node stays among the finished nodes and lowers the rank. */
  ghost predicate Settled(r: Rel, rank: map<Id, nat>) {
    forall e :: e in r && e.0 in rank ==> e.1 in rank && rank[e.1] < rank[e.0]
  }

  /** No cycle is reachable from inside a settled region. */
  lemma SettledHasNoCycle(r: Rel, rank: map<Id, nat>, root: Id, p: seq<Id>)
    requires Settled(r, rank) && root in rank
    ensures !CycleVia(r, root, p)
  {
    if CycleVia(r, root, p) {
      assert ClosedUnder(r, rank.Keys);
      ClosedContainsReach(r, rank.Keys, root, p[0]);
      var inside := set e | e in r && e.0 in rank;
      var i := 0;
      while i < |p| - 1
        invariant 0 <= i < |p| && p[i] in rank
        invariant forall k :: 0 <= k < i ==> (p[k], p[k + 1]) in inside
      {
        assert (p[i], p[i + 1]) in r;
        i := i + 1;
      }
      RankDropsAlong(inside, rank, p);
    }
  }

  /** The nodes in progress form a walk from the root to the node being visited. */
  ghost predicate Trail(r: Rel, root: Id, path: seq<Id>, n: Id) {
    if path == [] then n == root
    else Walk(r, path) && path[0] == root && (path[|path| - 1], n) in r
  }

  lemma TrailGrows(r: Rel, root: Id, path: seq<Id>, n: Id, next: Id)
    requires Trail(r, root, path, n) && (n, next) in r
    ensures Trail(r, root, path + [n], next)
  {
  }

  lemma TrailClosesCycle(r: Rel, root: Id, path: seq<Id>, n: Id)
    requires Trail(r, root, path, n) && n in path
    ensures CycleFrom(r, {root})
  {
    var i :| 0 <= i < |path| && path[i] == n;
    var w := path + [n];
    forall k | 0 <= k < |w| - 1 ensures (w[k], w[k + 1]) in r {
      if k < |path| - 1 { assert w[k] == path[k] && w[k + 1] == path[k + 1]; }
    }
    RepeatClosesWalk(r, w, i, |path|);
    assert WalkBetween(r, path[..i + 1], root, n);
    assert CycleVia(r, root, w[i..|path| + 1]);
  }

  /** The first `upto` edges have been followed out of n, to finished nodes. */
  ghost predicate Followed(edges: seq<Edge>, upto: nat, n: Id, done: set<Id>)
    requires upto <= |edges|
  {
    forall e :: e in edges[..upto] && e.src == n ==> e.dst in done
  }

  lemma FollowedStep(edges: seq<Edge>, i: nat, n: Id, before: set<Id>, after: set<Id>)
    requires i < |edges| && Followed(edges, i, n, before) && before <= after
    requires edges[i].src == n ==> edges[i].dst in after
    ensures Followed(edges, i + 1, n, after)
  {
  }

  lemma SettledGrows(edges: seq<Edge>, rank: map<Id, nat>, n: Id, top: nat)
    requires Settled(RelOf(edges), rank) && n !in rank
    requires forall k :: k in rank ==> rank[k] < top
    requires Followed(edges, |edges|, n, rank.Keys)
    ensures Settled(RelOf(edges), rank[n := top])
  {
  }

  class Search {
    const edges: seq<Edge>
    var visiting: set<Id>
    var visited: set<Id>
    ghost const r: Rel
    // The order in which nodes finished; a node finishes after all its successors.
    ghost var rank: map<Id, nat>
    ghost var clock: nat

    ghost predicate Valid()
      reads this
    {
      && r == RelOf(edges)
      && rank.Keys == visited
      && visiting !! visited
      && Settled(r, rank)
      && forall n :: n in rank ==> rank[n] < clock
    }

    constructor (edges: seq<Edge>)
      ensures this.edges == edges && Valid() && visiting == {} && visited == {}
    {
      this.edges := edges;
      r := RelOf(edges);
      visiting, visited, rank, clock := {}, {}, map[], 0;
    }

    method Visit(n: Id, ghost root: Id, ghost path: seq<Id>, ghost universe: set<Id>) returns (found: bool)
      requires Valid() && n in universe && Endpoints(r) <= universe
      requires visiting == (set k | k in path) && visiting <= universe
      requires Trail(r, root, path, n)
      modifies this
      ensures found ==> CycleFrom(r, {root})
      ensures !found ==> Valid() && n in visited && old(visited) <= visited && visiting == old(visiting)
      decreases universe - visiting
    {
      if n in visiting {
        TrailClosesCycle(r, root, path, n);
        return true;
      }
      if n in visited {
        return false;
      }
      visiting := visiting + {n};
      var i := 0;
      while i < |edges|
        invariant 0 <= i <= |edges|
        invariant Valid() && visiting == old(visiting) + {n} && old(visited) <= visited
        invariant Followed(edges, i, n, visited)
      {
        ghost var before := visited;
        if edges[i].src == n {
          assert (n, edges[i].dst) in r;
          TrailGrows(r, root, path, n, edges[i].dst);
          var hit := Visit(edges[i].dst, root, path + [n], universe);
          if hit { return true; }
        }
        FollowedStep(edges, i, n, before, visited);
        i := i + 1;
      }
      visiting := visiting - {n};
      SettledGrows(edges, rank, n, clock);
      rank, clock := rank[n := clock], clock + 1;
      visited := visited + {n};
      return false;
    }

    /** Go ranges over the node map in an unspecified order; so does this loop. */
    method VisitAll(roots: set<Id>) returns (found: bool)
      requires Valid() && visiting == {} && visited == {}
      modifies this
      ensures found <==> CycleFrom(r, roots)
      ensures !found ==> Valid() && roots <= visited
    {
      var remaining := roots;
      while remaining != {}
        invariant Valid() && visiting == {} && remaining <= roots && roots - remaining <= visited
        decreases remaining
      {
        var n :| n in remaining;
        var hit := Visit(n, n, [], Endpoints(r) + {n});
        if hit {
          ghost var root, p :| root in {n} && CycleVia(r, root, p);
          assert root in roots;
          return true;
        }
        remaining := remaining - {n};
      }
      forall root, p | root in roots ensures !CycleVia(r, root, p) {
        SettledHasNoCycle(r, rank, root, p);
      }
      return false;
    }
  }

  /** With every edge endpoint among the roots, a reachable cycle is just a cycle. */
  lemma CycleFromAllNodes(r: Rel, nodes: set<Id>)
    requires Endpoints(r) <= nodes
    ensures CycleFrom(r, nodes) <==> !Acyclic(r)
  {
    if p :| ClosedWalk(r, p) {
      assert (p[0], p[1]) in r;
      ReachesSelf(r, p[0]);
      assert p[0] in nodes && CycleVia(r, p[0], p);
    }
  }

  /** `hasCycle`: exact for every iteration order, and a negative answer comes with a topological rank. */
  method HasCycle(nodes: set<Id>, edges: seq<Edge>) returns (cyclic: bool, ghost rank: map<Id, nat>)
    ensures cyclic <==> CycleFrom(RelOf(edges), nodes)
    ensures !cyclic ==> nodes <= rank.Keys && Settled(RelOf(edges), rank)
    ensures Endpoints(RelOf(edges)) <= nodes ==> (cyclic <==> !Acyclic(RelOf(edges)))
  {
    var search := new Search(edges);
    cyclic := search.VisitAll(nodes);
    rank := search.rank;
    if Endpoints(RelOf(edges)) <= nodes {
      CycleFromAllNodes(RelOf(edges), nodes);
    }
  }
}
