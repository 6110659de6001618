/**
 Directed graphs as finite relations on node ids: walks, cycles, ranks and reachability.
 The engines keep their graphs as edge lists; every structural claim about them is stated
 here once, on the relation the list denotes.
 */
module Graphs {
  import opened Sequences

  /** Node ids are compared for equality only, except where an engine asks whether one is blank. */
  datatype Id = Id(name: string)

  /** The edges of a graph, without multiplicity or order. */
  type Rel = set<(Id, Id)>

  datatype Edge = Edge(src: Id, dst: Id)

  ghost function RelOf(edges: seq<Edge>): Rel {
    set e | e in edges :: (e.src, e.dst)
  }

  ghost predicate Walk(r: Rel, p: seq<Id>) {
    |p| > 0 && forall i :: 0 <= i < |p| - 1 ==> (p[i], p[i + 1]) in r
  }

  ghost predicate ClosedWalk(r: Rel, p: seq<Id>) {
    Walk(r, p) && |p| > 1 && p[0] == p[|p| - 1]
  }

  ghost predicate Acyclic(r: Rel) {
    forall p :: !ClosedWalk(r, p)
  }

  ghost predicate WalkBetween(r: Rel, p: seq<Id>, a: Id, b: Id) {
    Walk(r, p) && p[0] == a && p[|p| - 1] == b
  }

  ghost predicate Reaches(r: Rel, a: Id, b: Id) {
    exists p :: WalkBetween(r, p, a, b)
  }

  /** A rank drops along every edge. */
  ghost predicate Ranked(r: Rel, rank: map<Id, nat>) {
    forall e :: e in r ==> e.0 in rank && e.1 in rank && rank[e.1] < rank[e.0]
  }

  ghost predicate ClosedUnder(r: Rel, s: set<Id>) {
    forall e :: e in r && e.0 in s ==> e.1 in s
  }

  // ---------- edge lists ----------

  function Outgoing(edges: seq<Edge>, n: Id): seq<Id> {
    if edges == [] then []
    else
      var front, e := Outgoing(edges[..|edges| - 1], n), edges[|edges| - 1];
      if e.src == n then front + [e.dst] else front
  }

  function Incoming(edges: seq<Edge>, n: Id): seq<Id> {
    if edges == [] then []
    else
      var front, e := Incoming(edges[..|edges| - 1], n), edges[|edges| - 1];
      if e.dst == n then front + [e.src] else front
  }

  lemma {:induction false} OutgoingIsEdge(edges: seq<Edge>, n: Id, t: Id)
    ensures t in Outgoing(edges, n) <==> Edge(n, t) in edges
  {
    if edges != [] {
      assert edges == edges[..|edges| - 1] + [edges[|edges| - 1]];
      OutgoingIsEdge(edges[..|edges| - 1], n, t);
    }
  }

  /** The outgoing targets are those of the edges out of the node, in edge order, as often as they are listed. */
  lemma {:induction false} OutgoingInOrder(edges: seq<Edge>, n: Id)
    ensures GivenBy(edges, Outgoing(edges, n), (e: Edge, t: Id) => e.src == n && e.dst == t)
  {
    var gives := (e: Edge, t: Id) => e.src == n && e.dst == t;
    if edges == [] {
      NothingGiven(gives);
    } else {
      var front, e := edges[..|edges| - 1], edges[|edges| - 1];
      OutgoingInOrder(front, n);
      assert edges == front + [e];
      if e.src == n {
        OneMoreGiven(front, Outgoing(front, n), gives, e, e.dst);
      } else {
        NoneMoreGiven(front, Outgoing(front, n), gives, e);
      }
    }
  }

  lemma {:induction false} IncomingInOrder(edges: seq<Edge>, n: Id)
    ensures GivenBy(edges, Incoming(edges, n), (e: Edge, s: Id) => e.dst == n && e.src == s)
  {
    var gives := (e: Edge, s: Id) => e.dst == n && e.src == s;
    if edges == [] {
      NothingGiven(gives);
    } else {
      var front, e := edges[..|edges| - 1], edges[|edges| - 1];
      IncomingInOrder(front, n);
      assert edges == front + [e];
      if e.dst == n {
        OneMoreGiven(front, Incoming(front, n), gives, e, e.src);
      } else {
        NoneMoreGiven(front, Incoming(front, n), gives, e);
      }
    }
  }

  lemma WalkUnfolds(r: Rel, p: seq<Id>)
    requires |p| > 1
    ensures Walk(r, p) <==> (p[0], p[1]) in r && Walk(r, p[1..])
  {
  }

  // ---------- reachability ----------

  lemma ReachesSelf(r: Rel, a: Id)
    ensures Reaches(r, a, a)
  {
    assert WalkBetween(r, [a], a, a);
  }

  lemma ReachesEdge(r: Rel, a: Id, b: Id)
    requires (a, b) in r
    ensures Reaches(r, a, b)
  {
    assert WalkBetween(r, [a, b], a, b);
  }

  lemma ReachesTrans(r: Rel, a: Id, b: Id, c: Id)
    requires Reaches(r, a, b) && Reaches(r, b, c)
    ensures Reaches(r, a, c)
  {
    var p :| WalkBetween(r, p, a, b);
    var q :| WalkBetween(r, q, b, c);
    var w := p + q[1..];
    forall i | 0 <= i < |w| - 1 ensures (w[i], w[i + 1]) in r {
      if i >= |p| - 1 {
        assert w[i] == q[i - (|p| - 1)] && w[i + 1] == q[i - (|p| - 1) + 1];
      }
    }
    assert WalkBetween(r, w, a, c);
  }

  lemma ReachesMono(r: Rel, t: Rel, a: Id, b: Id)
    requires r <= t && Reaches(r, a, b)
    ensures Reaches(t, a, b)
  {
    var p :| WalkBetween(r, p, a, b);
    assert WalkBetween(t, p, a, b);
  }

  /** A set closed under the edges contains everything its members reach. */
  lemma {:induction false} ClosedContainsReach(r: Rel, s: set<Id>, a: Id, b: Id)
    requires ClosedUnder(r, s) && a in s && Reaches(r, a, b)
    ensures b in s
  {
    var p :| WalkBetween(r, p, a, b);
    var i := 0;
    while i < |p| - 1
      invariant 0 <= i < |p| && p[i] in s
    {
      assert (p[i], p[i + 1]) in r;
      i := i + 1;
    }
  }

  // ---------- cycles ----------

  lemma {:induction false} RepeatFreeFits(p: seq<Id>, s: set<Id>)
    requires Distinct(p)
    requires forall i :: 0 <= i < |p| ==> p[i] in s
    ensures |p| <= |s|
  {
    if p != [] {
      var k := |p| - 1;
      RepeatFreeFits(p[..k], s - {p[k]});
    }
  }

  lemma RepeatClosesWalk(r: Rel, p: seq<Id>, i: nat, j: nat)
    requires Walk(r, p) && i < j < |p| && p[i] == p[j]
    ensures ClosedWalk(r, p[i..j + 1])
  {
  }

  /** In an acyclic graph a walk inside a set is no longer than the set is large. */
  lemma AcyclicWalkFits(r: Rel, p: seq<Id>, s: set<Id>)
    requires Acyclic(r) && Walk(r, p)
    requires forall i :: 0 <= i < |p| ==> p[i] in s
    ensures |p| <= |s|
  {
    forall i, j | 0 <= i < j < |p| ensures p[i] != p[j] {
      if p[i] == p[j] { RepeatClosesWalk(r, p, i, j); }
    }
    RepeatFreeFits(p, s);
  }

  ghost predicate SourceIn(r: Rel, s: set<Id>, n: Id) {
    n in s && forall m :: m in s ==> (m, n) !in r
  }

  /** Every non-empty set of nodes of an acyclic graph has a member none of them precedes. */
  lemma AcyclicHasSource(r: Rel, s: set<Id>) returns (n: Id)
    requires Acyclic(r) && s != {}
    ensures SourceIn(r, s, n)
  {
    n :| n in s;
    var p := [n];
    while !SourceIn(r, s, n)
      invariant Walk(r, p) && p[0] == n
      invariant forall i :: 0 <= i < |p| ==> p[i] in s
      decreases |s| - |p|
    {
      var m :| m in s && (m, n) in r;
      var q := [m] + p;
      forall i | 0 <= i < |q| - 1 ensures (q[i], q[i + 1]) in r {
        if i > 0 { assert q[i] == p[i - 1] && q[i + 1] == p[i]; }
      }
      AcyclicWalkFits(r, q, s);
      n, p := m, q;
    }
  }

  lemma {:induction false} RankDropsAlong(r: Rel, rank: map<Id, nat>, p: seq<Id>)
    requires Ranked(r, rank) && Walk(r, p) && |p| > 1
    ensures p[0] in rank && p[|p| - 1] in rank && rank[p[|p| - 1]] < rank[p[0]]
  {
    assert (p[0], p[1]) in r;
    if |p| > 2 {
      var q := p[1..];
      forall i | 0 <= i < |q| - 1 ensures (q[i], q[i + 1]) in r {
        assert q[i] == p[i + 1] && q[i + 1] == p[i + 2];
      }
      RankDropsAlong(r, rank, q);
    }
  }

  lemma RankedIsAcyclic(r: Rel, rank: map<Id, nat>)
    requires Ranked(r, rank)
    ensures Acyclic(r)
  {
    forall p ensures !ClosedWalk(r, p) {
      if ClosedWalk(r, p) { RankDropsAlong(r, rank, p); }
    }
  }

  lemma {:induction false} RankWithin(r: Rel, s: set<Id>) returns (rank: map<Id, nat>)
    requires Acyclic(r)
    ensures rank.Keys == s
    ensures forall n :: n in s ==> rank[n] < |s|
    ensures forall e :: e in r && e.0 in s && e.1 in s ==> rank[e.1] < rank[e.0]
    decreases |s|
  {
    if s == {} {
      rank := map[];
    } else {
      var n := AcyclicHasSource(r, s);
      var rest := RankWithin(r, s - {n});
      rank := rest[n := |s| - 1];
    }
  }

  ghost function Endpoints(r: Rel): set<Id> {
    (set e | e in r :: e.0) + (set e | e in r :: e.1)
  }

  /** A graph is acyclic exactly when its nodes can be ranked along the edges. */
  lemma AcyclicIffRanked(r: Rel)
    ensures Acyclic(r) <==> exists rank :: Ranked(r, rank)
  {
    if Acyclic(r) {
      var rank := RankWithin(r, Endpoints(r));
      assert Ranked(r, rank);
    }
    if rank :| Ranked(r, rank) {
      RankedIsAcyclic(r, rank);
    }
  }
}
