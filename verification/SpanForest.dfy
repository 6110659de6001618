/**
 Building the tree view of a trace: spans arrive in any order, name their parents by ID, and
 may name missing parents or each other in a cycle.
 */
module SpanForests {
  import opened Graphs
  import opened Sequences
  import opened Sorting
  import opened Text

  datatype Span = Span(id: Id, parent: Id, start: int)

  datatype Tree = Node(span: Span, children: seq<Tree>)

  type Table = map<Id, Span>

  const NONE := Id("")

  // ---------- parents ----------

  /** Each span under its own ID. */
  ghost predicate Keyed(table: Table) {
    forall k :: k in table ==> table[k].id == k
  }

  predicate IsRoot(table: Table, k: Id)
    requires k in table
  {
    table[k].parent == NONE || table[k].parent !in table
  }

  predicate IsKid(table: Table, k: Id, id: Id) {
    k in table && !IsRoot(table, k) && table[k].parent == id
  }

  /** d parent links lead from the span to a root. */
  ghost predicate RootDepth(table: Table, k: Id, d: nat)
    decreases d
  {
    k in table && if d == 0 then IsRoot(table, k) else !IsRoot(table, k) && RootDepth(table, table[k].parent, d - 1)
  }

  ghost predicate Rooted(table: Table, k: Id) {
    exists d :: RootDepth(table, k, d)
  }

  lemma {:induction false} DepthUnique(table: Table, k: Id, d: nat, e: nat)
    requires RootDepth(table, k, d) && RootDepth(table, k, e)
    ensures d == e
    decreases d
  {
    if d > 0 && e > 0 { DepthUnique(table, table[k].parent, d - 1, e - 1); }
  }

  /** The span, its parent, and so on up to the root. */
  ghost function Chain(table: Table, k: Id, d: nat): (chain: seq<Id>)
    requires RootDepth(table, k, d)
    ensures |chain| == d + 1
    ensures forall i :: 0 <= i <= d ==> RootDepth(table, chain[i], d - i)
    decreases d
  {
    if d == 0 then [k] else [k] + Chain(table, table[k].parent, d - 1)
  }

  /** A chain of parents that reaches a root repeats no span. */
  lemma DepthFits(table: Table, k: Id, d: nat)
    requires RootDepth(table, k, d)
    ensures k in table && d < |table|
  {
    var chain := Chain(table, k, d);
    forall i, j | 0 <= i < j < |chain| ensures chain[i] != chain[j] {
      if chain[i] == chain[j] { DepthUnique(table, chain[i], d - i, d - j); }
    }
    RepeatFreeFits(chain, table.Keys);
  }

  // ---------- the forest, as a function ----------

  /** The spans that name id as their parent, in order. */
  function Kids(table: Table, order: seq<Id>, id: Id): (kids: seq<Id>)
    ensures forall k :: k in kids <==> k in order && IsKid(table, k, id)
  {
    if order == [] then []
    else
      var front, last := order[..|order| - 1], order[|order| - 1];
      assert forall k :: k in order <==> k in front || k == last;
      Kids(table, front, id) + if IsKid(table, last, id) then [last] else []
  }

  function Roots(table: Table, order: seq<Id>): (roots: seq<Id>)
    requires forall k :: k in order ==> k in table
    ensures forall k :: k in roots <==> k in order && IsRoot(table, k)
  {
    if order == [] then []
    else
      var front, last := order[..|order| - 1], order[|order| - 1];
      assert forall k :: k in order <==> k in front || k == last;
      Roots(table, front) + if IsRoot(table, last) then [last] else []
  }

  ghost function TreeOf(table: Table, order: seq<Id>, id: Id, d: nat): (t: Tree)
    requires RootDepth(table, id, d)
    ensures t.span == table[id]
    decreases |table| - d
  {
    DepthFits(table, id, d);
    var kids := Kids(table, order, id);
    Node(table[id], seq(|kids|, i requires 0 <= i < |kids| =>
      assert kids[i] in kids;
      assert RootDepth(table, kids[i], d + 1);
      TreeOf(table, order, kids[i], d + 1)))
  }

  lemma KidTrees(table: Table, order: seq<Id>, id: Id, d: nat)
    requires RootDepth(table, id, d)
    ensures var t, kids := TreeOf(table, order, id, d), Kids(table, order, id);
            && t.span == table[id] && |t.children| == |kids|
            && forall i :: 0 <= i < |kids| ==>
                 RootDepth(table, kids[i], d + 1) && t.children[i] == TreeOf(table, order, kids[i], d + 1)
  {
    var t, kids := TreeOf(table, order, id, d), Kids(table, order, id);
    forall i | 0 <= i < |kids| ensures RootDepth(table, kids[i], d + 1) {
      assert kids[i] in kids;
    }
  }

  ghost function ForestOf(table: Table, order: seq<Id>): (forest: seq<Tree>)
    requires forall k :: k in order ==> k in table
  {
    var roots := Roots(table, order);
    seq(|roots|, i requires 0 <= i < |roots| => assert roots[i] in roots; TreeOf(table, order, roots[i], 0))
  }

  // ---------- building it ----------

  function TableOf(spans: seq<Span>): (table: Table)
    ensures forall k :: k in table ==> table[k].id == k && table[k] in spans
    ensures forall s :: s in spans ==> s.id in table
  {
    if spans == [] then map[]
    else
      assert spans == spans[..|spans| - 1] + [spans[|spans| - 1]];
      TableOf(spans[..|spans| - 1])[spans[|spans| - 1].id := spans[|spans| - 1]]
  }

  function IdsOf(spans: seq<Span>): (ids: seq<Id>)
    ensures |ids| == |spans| && forall i :: 0 <= i < |spans| ==> ids[i] == spans[i].id
  {
    seq(|spans|, i requires 0 <= i < |spans| => spans[i].id)
  }

  /** Earlier start first, then by ID. */
  predicate Before(a: Span, b: Span) {
    if a.start == b.start then LexLess(a.id.name, b.id.name) else a.start < b.start
  }

  /** The comparison is only made for spans of the table. */
  predicate Precedes(table: Table, a: Id, b: Id) {
    Before(if a in table then table[a] else Span(a, NONE, 0), if b in table then table[b] else Span(b, NONE, 0))
  }

  function Comparison(table: Table): (Id, Id) -> bool {
    (a, b) => Precedes(table, a, b)
  }

  function OrderOf(spans: seq<Span>): (order: seq<Id>) {
    StableSort(IdsOf(spans), Comparison(TableOf(spans)))
  }

  class MutableNode {
    const span: Span
    var children: seq<MutableNode>

    constructor (span: Span)
      ensures this.span == span && children == []
    {
      this.span := span;
      children := [];
    }
  }

  /** Every node's children are the nodes of the spans among the first ones that name it. */
  ghost predicate Linked(nodes: map<Id, MutableNode>, table: Table, order: seq<Id>)
    reads nodes.Values
  {
    && nodes.Keys == table.Keys
    && (forall k :: k in nodes ==> nodes[k].span == table[k])
    && (forall k :: k in nodes ==> NodesOf(nodes, Kids(table, order, k), nodes[k].children))
  }

  ghost predicate NodesOf(nodes: map<Id, MutableNode>, ids: seq<Id>, found: seq<MutableNode>) {
    |found| == |ids| && forall i :: 0 <= i < |ids| ==> ids[i] in nodes && found[i] == nodes[ids[i]]
  }

  /** `immutableTree`: ends because only spans whose parents lead to a root are copied. */
  method ImmutableTree(node: MutableNode, ghost nodes: map<Id, MutableNode>, ghost table: Table,
                       ghost order: seq<Id>, ghost d: nat)
    returns (t: Tree)
    requires Linked(nodes, table, order) && Keyed(table)
    requires RootDepth(table, node.span.id, d) && node == nodes[node.span.id]
    ensures t == TreeOf(table, order, node.span.id, d)
    decreases |table| - d
  {
    hide TreeOf, Kids, IsKid, IsRoot, RootDepth;
    ghost var id := node.span.id;
    ghost var kids := Kids(table, order, id);
    ghost var whole := TreeOf(table, order, id, d);
    DepthFits(table, id, d);
    KidTrees(table, order, id, d);
    var children := [];
    var i := 0;
    while i < |node.children|
      invariant 0 <= i <= |node.children| && |children| == i
      invariant forall j :: 0 <= j < i ==> children[j] == whole.children[j]
    {
      assert NodesOf(nodes, kids, node.children);
      DepthFits(table, kids[i], d + 1);
      var child := ImmutableTree(node.children[i], nodes, table, order, d + 1);
      children := children + [child];
      i := i + 1;
    }
    return Node(node.span, children);
  }

  lemma KidsStep(table: Table, order: seq<Id>, i: nat, id: Id)
    requires i < |order|
    ensures Kids(table, order[..i + 1], id)
         == if IsKid(table, order[i], id) then Kids(table, order[..i], id) + [order[i]] else Kids(table, order[..i], id)
  {
    assert order[..i + 1][..i] == order[..i];
  }

  lemma RootsStep(table: Table, order: seq<Id>, i: nat)
    requires i < |order| && forall k :: k in order ==> k in table
    ensures Roots(table, order[..i + 1])
         == if IsRoot(table, order[i]) then Roots(table, order[..i]) + [order[i]] else Roots(table, order[..i])
  {
    assert order[..i + 1][..i] == order[..i];
  }

  /** Each node is appended to its parent's children, or to the roots. */
  method LinkChildren(nodes: map<Id, MutableNode>, order: seq<Id>, ghost table: Table) returns (roots: seq<MutableNode>)
    requires Keyed(table) && (forall k :: k in order ==> k in table) && nodes.Keys == table.Keys
    requires forall k :: k in nodes ==> nodes[k].span == table[k] && nodes[k].children == []
    modifies nodes.Values
    ensures Linked(nodes, table, order) && NodesOf(nodes, Roots(table, order), roots)
  {
    hide Kids, Roots, NodesOf;
    roots := [];
    assert order[..0] == [];
    NoNodesYet(nodes);
    forall k ensures Kids(table, order[..0], k) == [] { NoKidsYet(table, k); }
    NoRootsYet(table);
    var i := 0;
    while i < |order|
      invariant 0 <= i <= |order|
      invariant Linked(nodes, table, order[..i]) && NodesOf(nodes, Roots(table, order[..i]), roots)
    {
      var node := nodes[order[i]];
      assert node.span.id == order[i];
      RootsStep(table, order, i);
      if node.span.parent != NONE && node.span.parent in nodes {
        var parent := nodes[node.span.parent];
        ghost var were := map k | k in nodes :: nodes[k].children;
        parent.children := parent.children + [node];
        forall k | k in nodes ensures NodesOf(nodes, Kids(table, order[..i + 1], k), nodes[k].children) {
          assert nodes[k].children == if k == node.span.parent then were[k] + [node] else were[k];
          KidNodesStep(nodes, table, order, i, k, were[k]);
        }
      } else {
        forall k | k in nodes ensures NodesOf(nodes, Kids(table, order[..i + 1], k), nodes[k].children) {
          KidNodesStep(nodes, table, order, i, k, nodes[k].children);
        }
        NodesAppended(nodes, Roots(table, order[..i]), roots, order[i]);
        roots := roots + [node];
      }
      i := i + 1;
    }
    assert order[..i] == order;
  }

  lemma KidNodesStep(nodes: map<Id, MutableNode>, table: Table, order: seq<Id>, i: nat, k: Id, found: seq<MutableNode>)
    requires i < |order| && order[i] in nodes && NodesOf(nodes, Kids(table, order[..i], k), found)
    ensures NodesOf(nodes, Kids(table, order[..i + 1], k),
                    if IsKid(table, order[i], k) then found + [nodes[order[i]]] else found)
  {
    KidsStep(table, order, i, k);
    if IsKid(table, order[i], k) { NodesAppended(nodes, Kids(table, order[..i], k), found, order[i]); }
  }

  lemma NoNodesYet(nodes: map<Id, MutableNode>)
    ensures NodesOf(nodes, [], [])
  {
  }

  lemma NodesAppended(nodes: map<Id, MutableNode>, ids: seq<Id>, found: seq<MutableNode>, k: Id)
    requires NodesOf(nodes, ids, found) && k in nodes
    ensures NodesOf(nodes, ids + [k], found + [nodes[k]])
  {
  }

  lemma NoKidsYet(table: Table, k: Id)
    ensures Kids(table, [], k) == []
  {
  }

  lemma NoRootsYet(table: Table)
    ensures Roots(table, []) == []
  {
  }

  lemma ForestTrees(table: Table, order: seq<Id>)
    requires forall k :: k in order ==> k in table
    ensures var f, roots := ForestOf(table, order), Roots(table, order);
            && |f| == |roots|
            && forall i :: 0 <= i < |roots| ==> RootDepth(table, roots[i], 0) && f[i] == TreeOf(table, order, roots[i], 0)
  {
  }

  method Freeze(roots: seq<MutableNode>, ghost nodes: map<Id, MutableNode>, ghost table: Table, ghost order: seq<Id>)
    returns (forest: seq<Tree>)
    requires Keyed(table) && forall k :: k in order ==> k in table
    requires Linked(nodes, table, order) && NodesOf(nodes, Roots(table, order), roots)
    ensures forest == ForestOf(table, order)
  {
    hide TreeOf, ForestOf, Kids, Roots, RootDepth;
    ForestTrees(table, order);
    forest := [];
    var r := 0;
    while r < |roots|
      invariant 0 <= r <= |roots| && |forest| == r
      invariant forall j :: 0 <= j < r ==> forest[j] == ForestOf(table, order)[j]
    {
      var tree := ImmutableTree(roots[r], nodes, table, order, 0);
      forest := forest + [tree];
      r := r + 1;
    }
  }

  /** `BuildTree` */
  method BuildTree(spans: seq<Span>) returns (forest: seq<Tree>)
    ensures forest == ForestOf(TableOf(spans), OrderOf(spans))
  {
    hide TreeOf, Kids, Roots, StableSort, TableOf;
    var nodes: map<Id, MutableNode> := map[];
    var order: seq<Id> := [];
    TableStarts();
    var i := 0;
    while i < |spans|
      invariant 0 <= i <= |spans| && order == IdsOf(spans[..i])
      invariant nodes.Keys == TableOf(spans[..i]).Keys
      invariant forall k :: k in nodes ==>
                  nodes[k].span == TableOf(spans[..i])[k] && nodes[k].children == [] && fresh(nodes[k])
    {
      var node := new MutableNode(spans[i]);
      TableStep(spans, i);
      IdsStep(spans, i);
      nodes := nodes[spans[i].id := node];
      order := order + [spans[i].id];
      i := i + 1;
    }
    assert spans[..i] == spans;
    var table := map k | k in nodes :: nodes[k].span;
    assert table == TableOf(spans);
    order := StableSort(order, Comparison(table));
    assert order == OrderOf(spans);
    OrderIsCovered(spans);
    var roots := LinkChildren(nodes, order, table);
    forest := Freeze(roots, nodes, table, order);
  }

  lemma TableStarts()
    ensures TableOf([]) == map[]
  {
  }

  lemma TableStep(spans: seq<Span>, i: nat)
    requires i < |spans|
    ensures TableOf(spans[..i + 1]) == TableOf(spans[..i])[spans[i].id := spans[i]]
  {
    assert spans[..i + 1][..i] == spans[..i];
  }

  lemma IdsStep(spans: seq<Span>, i: nat)
    requires i < |spans|
    ensures IdsOf(spans[..i + 1]) == IdsOf(spans[..i]) + [spans[i].id]
  {
  }

  lemma OrderIsCovered(spans: seq<Span>)
    ensures forall k :: k in OrderOf(spans) <==> k in TableOf(spans)
  {
  }

  // ---------- what the forest holds ----------

  function FlattenAll(forest: seq<Tree>): seq<Span>
    decreases forest
  {
    if forest == [] then [] else FlattenAll(forest[..|forest| - 1]) + Flatten(forest[|forest| - 1])
  }

  /** The spans of a tree, a parent before its children. */
  function Flatten(t: Tree): seq<Span>
    decreases t
  {
    [t.span] + FlattenAll(t.children)
  }

  /** n parent links lead from x to id. */
  ghost predicate UpTo(table: Table, x: Id, n: nat, id: Id)
    decreases n
  {
    if n == 0 then x == id else x in table && !IsRoot(table, x) && UpTo(table, table[x].parent, n - 1, id)
  }

  ghost predicate Below(table: Table, x: Id, id: Id) {
    exists n :: UpTo(table, x, n, id)
  }

  ghost predicate BelowAny(table: Table, x: Id, ids: seq<Id>) {
    exists i :: 0 <= i < |ids| && Below(table, x, ids[i])
  }

  lemma {:induction false} UpToDepth(table: Table, x: Id, n: nat, id: Id, d: nat)
    requires UpTo(table, x, n, id) && RootDepth(table, id, d)
    ensures RootDepth(table, x, d + n)
    decreases n
  {
    if n > 0 { UpToDepth(table, table[x].parent, n - 1, id, d); }
  }

  lemma {:induction false} UpToUnique(table: Table, x: Id, n: nat, a: Id, b: Id)
    requires UpTo(table, x, n, a) && UpTo(table, x, n, b)
    ensures a == b
    decreases n
  {
    if n > 0 { UpToUnique(table, table[x].parent, n - 1, a, b); }
  }

  lemma {:induction false} UpToLast(table: Table, x: Id, n: nat, id: Id) returns (k: Id)
    requires n > 0 && UpTo(table, x, n, id)
    ensures UpTo(table, x, n - 1, k) && IsKid(table, k, id)
    decreases n
  {
    if n == 1 { k := x; } else { k := UpToLast(table, table[x].parent, n - 1, id); }
  }

  lemma {:induction false} UpToMore(table: Table, x: Id, n: nat, k: Id, id: Id)
    requires UpTo(table, x, n, k) && IsKid(table, k, id)
    ensures UpTo(table, x, n + 1, id)
    decreases n
  {
    if n > 0 { UpToMore(table, table[x].parent, n - 1, k, id); }
  }

  /** Trees at one depth share no span. */
  lemma BelowOne(table: Table, x: Id, a: Id, b: Id, d: nat)
    requires RootDepth(table, a, d) && RootDepth(table, b, d) && Below(table, x, a) && Below(table, x, b)
    ensures a == b
  {
    var n :| UpTo(table, x, n, a);
    var m :| UpTo(table, x, m, b);
    UpToDepth(table, x, n, a, d);
    UpToDepth(table, x, m, b, d);
    DepthUnique(table, x, d + n, d + m);
    UpToUnique(table, x, n, a, b);
  }

  /** A span is below id if it is id or below one of its kids, and never both. */
  lemma BelowSplits(table: Table, order: seq<Id>, x: Id, id: Id, d: nat)
    requires RootDepth(table, id, d) && forall k :: k in table ==> k in order
    ensures Below(table, x, id) <==> x == id || BelowAny(table, x, Kids(table, order, id))
    ensures !BelowAny(table, id, Kids(table, order, id))
  {
    var kids := Kids(table, order, id);
    if Below(table, x, id) {
      var n :| UpTo(table, x, n, id);
      if n > 0 {
        var k := UpToLast(table, x, n, id);
        assert k in kids && Below(table, x, k);
      }
    }
    if x == id { assert UpTo(table, x, 0, id); }
    forall i | 0 <= i < |kids| && Below(table, x, kids[i]) ensures Below(table, x, id) {
      var n :| UpTo(table, x, n, kids[i]);
      assert kids[i] in kids;
      UpToMore(table, x, n, kids[i], id);
    }
    forall i | 0 <= i < |kids| ensures !Below(table, id, kids[i]) {
      if n :| UpTo(table, id, n, kids[i]) {
        assert kids[i] in kids;
        assert RootDepth(table, kids[i], d + 1);
        UpToDepth(table, id, n, kids[i], d + 1);
        DepthUnique(table, id, d, d + 1 + n);
      }
    }
  }

  lemma {:induction false} KidsAreOrdered(table: Table, order: seq<Id>, id: Id, less: (Id, Id) -> bool)
    requires Distinct(order) && Sorted(order, less)
    ensures Distinct(Kids(table, order, id)) && Sorted(Kids(table, order, id), less)
  {
    if order != [] {
      var front, last := order[..|order| - 1], order[|order| - 1];
      KidsAreOrdered(table, front, id, less);
      var kids := Kids(table, front, id);
      forall i | 0 <= i < |kids| ensures kids[i] != last && !less(last, kids[i]) {
        assert kids[i] in kids;
        var j :| 0 <= j < |front| && front[j] == kids[i];
        assert order[j] == kids[i];
      }
    }
  }

  lemma {:induction false} RootsAreOrdered(table: Table, order: seq<Id>, less: (Id, Id) -> bool)
    requires Distinct(order) && Sorted(order, less) && forall k :: k in order ==> k in table
    ensures Distinct(Roots(table, order)) && Sorted(Roots(table, order), less)
  {
    if order != [] {
      var front, last := order[..|order| - 1], order[|order| - 1];
      RootsAreOrdered(table, front, less);
      var roots := Roots(table, front);
      forall i | 0 <= i < |roots| ensures roots[i] != last && !less(last, roots[i]) {
        assert roots[i] in roots;
        var j :| 0 <= j < |front| && front[j] == roots[i];
        assert order[j] == roots[i];
      }
    }
  }

  /** How often a span occurs: once if it is the table's and below id, else never. */
  ghost function Times(table: Table, s: Span, below: bool): nat {
    if s.id in table && table[s.id] == s && below then 1 else 0
  }

  lemma {:induction false} TreeHoldsItsSpans(table: Table, order: seq<Id>, id: Id, d: nat, s: Span)
    requires Keyed(table) && Distinct(order) && RootDepth(table, id, d)
    requires forall k :: k in table <==> k in order
    ensures multiset(Flatten(TreeOf(table, order, id, d)))[s] == Times(table, s, Below(table, s.id, id))
    decreases |table| - d, 1, 0
  {
    hide TreeOf, Kids, FlattenAll, Below, BelowAny, Distinct, RootDepth;
    var t, kids := TreeOf(table, order, id, d), Kids(table, order, id);
    DepthFits(table, id, d);
    KidTrees(table, order, id, d);
    AllAlikeSorted(order);
    KidsAreOrdered(table, order, id, (a, b) => false);
    TreesHoldTheirSpans(table, order, kids, t.children, d + 1, s);
    BelowSplits(table, order, s.id, id, d);
    assert multiset(Flatten(t)) == multiset{table[id]} + multiset(FlattenAll(t.children));
  }

  lemma AllAlikeSorted(order: seq<Id>)
    ensures Sorted(order, (a: Id, b: Id) => false)
  {
  }

  lemma {:induction false} TreesHoldTheirSpans(table: Table, order: seq<Id>, ids: seq<Id>, trees: seq<Tree>,
                                               d: nat, s: Span)
    requires Keyed(table) && Distinct(order) && Distinct(ids) && |trees| == |ids|
    requires forall k :: k in table <==> k in order
    requires forall i :: 0 <= i < |ids| ==> RootDepth(table, ids[i], d) && trees[i] == TreeOf(table, order, ids[i], d)
    ensures multiset(FlattenAll(trees))[s] == Times(table, s, BelowAny(table, s.id, ids))
    decreases |table| - d, 2, |ids|
  {
    hide TreeOf, Flatten, Below, BelowAny, RootDepth, Times;
    if ids == [] {
      NoneBelow(table, s);
    } else {
      var n := |ids| - 1;
      TreesHoldTheirSpans(table, order, ids[..n], trees[..n], d, s);
      TreeHoldsItsSpans(table, order, ids[n], d, s);
      assert multiset(FlattenAll(trees)) == multiset(FlattenAll(trees[..n])) + multiset(Flatten(trees[n]));
      BelowAnyStep(table, s.id, ids, d);
      TimesAdd(table, s, BelowAny(table, s.id, ids[..n]), Below(table, s.id, ids[n]));
    }
  }

  lemma NoneBelow(table: Table, s: Span)
    ensures Times(table, s, BelowAny(table, s.id, [])) == 0
  {
  }

  lemma TimesAdd(table: Table, s: Span, a: bool, b: bool)
    requires !(a && b)
    ensures Times(table, s, a || b) == Times(table, s, a) + Times(table, s, b)
  {
  }

  lemma BelowAnyStep(table: Table, x: Id, ids: seq<Id>, d: nat)
    requires ids != [] && Distinct(ids) && forall i :: 0 <= i < |ids| ==> RootDepth(table, ids[i], d)
    ensures var n := |ids| - 1;
            && (BelowAny(table, x, ids) <==> BelowAny(table, x, ids[..n]) || Below(table, x, ids[n]))
            && !(BelowAny(table, x, ids[..n]) && Below(table, x, ids[n]))
  {
    var n := |ids| - 1;
    if i :| 0 <= i < n && Below(table, x, ids[..n][i]) {
      assert Below(table, x, ids[i]);
      if Below(table, x, ids[n]) { BelowOne(table, x, ids[i], ids[n], d); }
    }
    if i :| 0 <= i < |ids| && Below(table, x, ids[i]) {
      if i < n { assert ids[..n][i] == ids[i]; }
    }
  }

  // ---------- the claims about BuildTree ----------

  lemma ComparisonIsWeakOrder(table: Table)
    ensures WeakOrder(Comparison(table))
  {
    var less := Comparison(table);
    forall a, b | less(a, b) ensures !less(b, a) {
      LexLessIsStrict((if a in table then table[a].id else a).name, (if b in table then table[b].id else b).name);
    }
    forall a, b, c | less(a, c) ensures less(a, b) || less(b, c) {
      if !less(a, b) && !less(b, c) {
        var x, y := (if a in table then table[a].id else a).name, (if b in table then table[b].id else b).name;
        var z := (if c in table then table[c].id else c).name;
        if LexLess(x, z) { LexLessCompares(x, y, z); }
      }
    }
  }

  lemma {:induction false} DistinctOnce(spans: seq<Span>, s: Span)
    requires Distinct(IdsOf(spans))
    ensures multiset(spans)[s] == if s in spans then 1 else 0
  {
    if spans != [] {
      var front, last := spans[..|spans| - 1], spans[|spans| - 1];
      assert spans == front + [last];
      DistinctFront(spans);
      DistinctOnce(front, s);
    }
  }

  lemma DistinctFront(spans: seq<Span>)
    requires Distinct(IdsOf(spans)) && spans != []
    ensures Distinct(IdsOf(spans[..|spans| - 1]))
    ensures forall s :: s in spans[..|spans| - 1] ==> s.id != spans[|spans| - 1].id
  {
  }

  lemma {:induction false} DistinctInTable(spans: seq<Span>, s: Span)
    requires Distinct(IdsOf(spans))
    ensures s in spans <==> s.id in TableOf(spans) && TableOf(spans)[s.id] == s
  {
  }

  lemma TwiceCounted(ids: seq<Id>, i: nat, j: nat)
    requires i < j < |ids| && ids[i] == ids[j]
    ensures multiset(ids)[ids[i]] >= 2
  {
    assert ids == ids[..j] + [ids[j]] + ids[j + 1..];
    assert ids[..j][i] == ids[i];
  }

  lemma OnceMeansDistinct(ids: seq<Id>)
    requires forall k :: multiset(ids)[k] <= 1
    ensures Distinct(ids)
  {
    forall i, j | 0 <= i < j < |ids| ensures ids[i] != ids[j] {
      if ids[i] == ids[j] { TwiceCounted(ids, i, j); }
    }
  }

  lemma DistinctMeansOnce(ids: seq<Id>, k: Id)
    requires Distinct(ids)
    ensures multiset(ids)[k] <= 1
  {
    if ids != [] {
      DistinctMeansOnce(ids[..|ids| - 1], k);
      assert ids == ids[..|ids| - 1] + [ids[|ids| - 1]];
    }
  }

  lemma OrderIsSorted(spans: seq<Span>)
    requires Distinct(IdsOf(spans))
    ensures Distinct(OrderOf(spans)) && Sorted(OrderOf(spans), Comparison(TableOf(spans)))
  {
    hide *;
    var ids, less := IdsOf(spans), Comparison(TableOf(spans));
    ComparisonIsWeakOrder(TableOf(spans));
    StableSortSorts(ids, less);
    OrderIs(spans);
    forall k ensures multiset(OrderOf(spans))[k] <= 1 { DistinctMeansOnce(ids, k); }
    OnceMeansDistinct(OrderOf(spans));
  }

  lemma OrderIs(spans: seq<Span>)
    ensures OrderOf(spans) == StableSort(IdsOf(spans), Comparison(TableOf(spans)))
  {
  }

  lemma {:induction false} RootAbove(table: Table, x: Id, d: nat) returns (r: Id)
    requires RootDepth(table, x, d)
    ensures UpTo(table, x, d, r) && r in table && IsRoot(table, r)
    decreases d
  {
    if d == 0 { r := x; } else { r := RootAbove(table, table[x].parent, d - 1); }
  }

  lemma RootedMeansBelowRoot(table: Table, order: seq<Id>, x: Id)
    requires forall k :: k in table <==> k in order
    ensures Rooted(table, x) <==> BelowAny(table, x, Roots(table, order))
  {
    var roots := Roots(table, order);
    if d :| RootDepth(table, x, d) {
      var r := RootAbove(table, x, d);
      assert r in roots && Below(table, x, r);
    }
    if i :| 0 <= i < |roots| && Below(table, x, roots[i]) {
      var n :| UpTo(table, x, n, roots[i]);
      assert roots[i] in roots && RootDepth(table, roots[i], 0);
      UpToDepth(table, x, n, roots[i], 0);
    }
  }

  /** The forest holds exactly the spans whose parent chain reaches a root, each once. */
  lemma ForestHoldsRootedSpansOnce(spans: seq<Span>, s: Span)
    requires Distinct(IdsOf(spans))
    ensures forall k :: k in OrderOf(spans) ==> k in TableOf(spans)
    ensures multiset(FlattenAll(ForestOf(TableOf(spans), OrderOf(spans))))[s]
         == if s in spans && Rooted(TableOf(spans), s.id) then 1 else 0
  {
    hide *;
    var table, order := TableOf(spans), OrderOf(spans);
    OrderIsCovered(spans);
    OrderIsSorted(spans);
    TableIsKeyed(spans);
    ForestTrees(table, order);
    RootsAreOrdered(table, order, Comparison(table));
    TreesHoldTheirSpans(table, order, Roots(table, order), ForestOf(table, order), 0, s);
    RootedMeansBelowRoot(table, order, s.id);
    DistinctInTable(spans, s);
    TimesIs(table, s, BelowAny(table, s.id, Roots(table, order)));
  }

  lemma TableIsKeyed(spans: seq<Span>)
    ensures Keyed(TableOf(spans))
  {
  }

  lemma TimesIs(table: Table, s: Span, below: bool)
    ensures Times(table, s, below) == if s.id in table && table[s.id] == s && below then 1 else 0
  {
  }

  // ---------- order and parents ----------

  /** Siblings by start time, then ID. */
  ghost predicate InOrder(trees: seq<Tree>) {
    forall i, j :: 0 <= i < j < |trees| ==> Before(trees[i].span, trees[j].span)
  }

  /** Every node hangs under its own parent, and siblings are in order, all the way down. */
  ghost predicate Orderly(t: Tree) {
    && InOrder(t.children)
    && forall i :: 0 <= i < |t.children| ==> t.children[i].span.parent == t.span.id && Orderly(t.children[i])
  }

  lemma SortedMeansInOrder(table: Table, ids: seq<Id>, trees: seq<Tree>)
    requires Keyed(table) && Distinct(ids) && Sorted(ids, Comparison(table)) && |trees| == |ids|
    requires forall i :: 0 <= i < |ids| ==> ids[i] in table && trees[i].span == table[ids[i]]
    ensures InOrder(trees)
  {
    forall i, j | 0 <= i < j < |ids| ensures Before(trees[i].span, trees[j].span) {
      LexLessIsStrict(ids[i].name, ids[j].name);
      assert ids[i] == Id(ids[i].name) && ids[j] == Id(ids[j].name);
      assert !Comparison(table)(ids[j], ids[i]);
    }
  }

  lemma {:induction false} TreeIsOrderly(table: Table, order: seq<Id>, id: Id, d: nat)
    requires Keyed(table) && Distinct(order) && Sorted(order, Comparison(table)) && RootDepth(table, id, d)
    ensures Orderly(TreeOf(table, order, id, d))
    decreases |table| - d
  {
    hide TreeOf, Comparison, Sorted, Distinct, RootDepth, InOrder;
    var t, kids := TreeOf(table, order, id, d), Kids(table, order, id);
    DepthFits(table, id, d);
    KidTrees(table, order, id, d);
    KidsAreOrdered(table, order, id, Comparison(table));
    forall i | 0 <= i < |kids|
      ensures kids[i] in table && t.children[i].span == table[kids[i]] && table[kids[i]].parent == id
    {
      assert kids[i] in kids;
    }
    SortedMeansInOrder(table, kids, t.children);
    forall i | 0 <= i < |kids| ensures Orderly(t.children[i]) {
      TreeIsOrderly(table, order, kids[i], d + 1);
    }
  }

  /** Roots and siblings come by start time and then ID; every span hangs under its own parent. */
  lemma ForestIsOrderly(spans: seq<Span>)
    requires Distinct(IdsOf(spans))
    ensures forall k :: k in OrderOf(spans) ==> k in TableOf(spans)
    ensures var forest := ForestOf(TableOf(spans), OrderOf(spans));
            && InOrder(forest)
            && forall i :: 0 <= i < |forest| ==>
                 && Orderly(forest[i])
                 && forest[i].span.id in TableOf(spans) && IsRoot(TableOf(spans), forest[i].span.id)
  {
    hide *;
    var table, order := TableOf(spans), OrderOf(spans);
    OrderIsCovered(spans);
    OrderIsSorted(spans);
    TableIsKeyed(spans);
    var forest, roots := ForestOf(table, order), Roots(table, order);
    ForestTrees(table, order);
    RootsAreOrdered(table, order, Comparison(table));
    forall i | 0 <= i < |roots|
      ensures roots[i] in table && forest[i].span == table[roots[i]] && Orderly(forest[i])
      ensures forest[i].span.id in table && IsRoot(table, forest[i].span.id)
    {
      assert roots[i] in roots;
      TreeIsOrderly(table, order, roots[i], 0);
      KeyedAt(table, roots[i]);
    }
    SortedMeansInOrder(table, roots, forest);
  }

  lemma KeyedAt(table: Table, k: Id)
    requires Keyed(table) && k in table
    ensures table[k].id == k
  {
  }

  // ---------- when nothing is lost ----------

  ghost function ParentLinks(table: Table): Rel {
    set k | k in table && !IsRoot(table, k) :: (k, table[k].parent)
  }

  lemma {:induction false} RankedIsRooted(table: Table, rank: map<Id, nat>, k: Id)
    requires rank.Keys == table.Keys && k in table
    requires forall e :: e in ParentLinks(table) ==> e.0 in rank && e.1 in rank && rank[e.1] < rank[e.0]
    ensures Rooted(table, k)
    decreases rank[k]
  {
    if IsRoot(table, k) {
      assert RootDepth(table, k, 0);
    } else {
      var parent := table[k].parent;
      assert (k, parent) in ParentLinks(table);
      RankedIsRooted(table, rank, parent);
      var d: nat :| RootDepth(table, parent, d);
      assert RootDepth(table, k, d + 1);
    }
  }

  ghost function DepthOf(table: Table, k: Id): (d: nat)
    requires Rooted(table, k)
    ensures RootDepth(table, k, d)
  {
    var d :| RootDepth(table, k, d);
    d
  }

  lemma DepthRanks(table: Table)
    requires forall k :: k in table ==> Rooted(table, k)
    ensures Acyclic(ParentLinks(table))
  {
    hide Rooted, Acyclic;
    var rank := map k | k in table :: DepthOf(table, k);
    forall e | e in ParentLinks(table) ensures e.0 in rank && e.1 in rank && rank[e.1] < rank[e.0] {
      assert RootDepth(table, e.1, rank[e.0] - 1);
      DepthUnique(table, e.1, rank[e.1], rank[e.0] - 1);
    }
    RankedIsAcyclic(ParentLinks(table), rank);
  }

  lemma AllRootedExactlyWhenAcyclic(table: Table)
    ensures (forall k :: k in table ==> Rooted(table, k)) <==> Acyclic(ParentLinks(table))
  {
    hide *;
    if Acyclic(ParentLinks(table)) {
      var rank := RankWithin(ParentLinks(table), table.Keys);
      LinksStayInTable(table);
      forall k | k in table ensures Rooted(table, k) { RankedIsRooted(table, rank, k); }
    }
    if forall k :: k in table ==> Rooted(table, k) { DepthRanks(table); }
  }

  lemma LinksStayInTable(table: Table)
    ensures forall e :: e in ParentLinks(table) ==> e.0 in table && e.1 in table
  {
  }

  /** The forest is a permutation of the spans exactly when the parent links have no cycle. */
  lemma ForestIsPermutationExactly(spans: seq<Span>)
    requires Distinct(IdsOf(spans))
    ensures forall k :: k in OrderOf(spans) ==> k in TableOf(spans)
    ensures multiset(FlattenAll(ForestOf(TableOf(spans), OrderOf(spans)))) == multiset(spans)
       <==> Acyclic(ParentLinks(TableOf(spans)))
  {
    hide *;
    var table := TableOf(spans);
    OrderIsCovered(spans);
    var flat := FlattenAll(ForestOf(table, OrderOf(spans)));
    forall s ensures multiset(flat)[s] == if s in spans && Rooted(table, s.id) then 1 else 0 {
      ForestHoldsRootedSpansOnce(spans, s);
    }
    forall s ensures multiset(spans)[s] == if s in spans then 1 else 0 { DistinctOnce(spans, s); }
    AllRootedExactlyWhenAcyclic(table);
    if forall k :: k in table ==> Rooted(table, k) {
      assert multiset(flat) == multiset(spans);
    }
    if multiset(flat) == multiset(spans) {
      forall k | k in table ensures Rooted(table, k) {
        var s := table[k];
        assert s in spans && s.id == k;
        assert multiset(flat)[s] == multiset(spans)[s];
      }
    }
  }
}
