/** The pseudonym graph: connected components by union-find with path compression,
    then clustering and conductance per pseudonym. */
module GraphAnalysis {
  import opened Ordering

  datatype Edge = Edge(a: string, b: string, weight: int)

  // ----- reachability, the reference for the partition -----

  ghost predicate Adjacent(edges: seq<Edge>, x: string, y: string) {
    exists e :: e in edges && ((e.a == x && e.b == y) || (e.a == y && e.b == x))
  }

  ghost predicate Path(edges: seq<Edge>, p: seq<string>) {
    |p| > 0 && forall i :: 0 <= i < |p| - 1 ==> Adjacent(edges, p[i], p[i + 1])
  }

  ghost predicate PathBetween(edges: seq<Edge>, p: seq<string>, x: string, y: string) {
    Path(edges, p) && p[0] == x && p[|p| - 1] == y
  }

  ghost predicate Connected(edges: seq<Edge>, x: string, y: string) {
    exists p :: PathBetween(edges, p, x, y)
  }

  lemma ConnectedReflexive(edges: seq<Edge>, x: string)
    ensures Connected(edges, x, x)
  {
    assert PathBetween(edges, [x], x, x);
  }

  lemma ConnectedByEdge(edges: seq<Edge>, e: Edge)
    requires e in edges
    ensures Connected(edges, e.a, e.b)
  {
    assert PathBetween(edges, [e.a, e.b], e.a, e.b);
  }

  lemma ConnectedSymmetric(edges: seq<Edge>, x: string, y: string)
    requires Connected(edges, x, y)
    ensures Connected(edges, y, x)
  {
    var p :| PathBetween(edges, p, x, y);
    var q := seq(|p|, i requires 0 <= i < |p| => p[|p| - 1 - i]);
    forall i | 0 <= i < |q| - 1 ensures Adjacent(edges, q[i], q[i + 1]) {
      assert Adjacent(edges, p[|p| - 2 - i], p[|p| - 2 - i + 1]);
    }
    assert PathBetween(edges, q, y, x);
  }

  lemma ConnectedTransitive(edges: seq<Edge>, x: string, y: string, z: string)
    requires Connected(edges, x, y) && Connected(edges, y, z)
    ensures Connected(edges, x, z)
  {
    var p :| PathBetween(edges, p, x, y);
    var q :| PathBetween(edges, q, y, z);
    var r := p + q[1..];
    forall i | 0 <= i < |r| - 1 ensures Adjacent(edges, r[i], r[i + 1]) {
      if i < |p| - 1 {
        assert Adjacent(edges, p[i], p[i + 1]);
      } else {
        assert Adjacent(edges, q[i + 1 - |p|], q[i + 1 - |p| + 1]);
      }
    }
    assert PathBetween(edges, r, x, z);
  }

  lemma ConnectedGrows(edges: seq<Edge>, more: seq<Edge>, x: string, y: string)
    requires Connected(edges, x, y)
    requires forall e :: e in edges ==> e in more
    ensures Connected(more, x, y)
  {
    var p :| PathBetween(edges, p, x, y);
    forall i | 0 <= i < |p| - 1 ensures Adjacent(more, p[i], p[i + 1]) {
      assert Adjacent(edges, p[i], p[i + 1]);
    }
    assert PathBetween(more, p, x, y);
  }

  // ----- the parent forest -----

  type Order = (string, string) -> bool

  /** One node of a forest: its parent is a node no greater than it, under the same root;
      its root is its own parent; and only a root is its own parent. */
  ghost predicate Planted(le: Order, parent: map<string, string>, root: map<string, string>, x: string)
    requires x in parent && root.Keys == parent.Keys
  {
    && parent[x] in parent && le(parent[x], x) && root[parent[x]] == root[x]
    && root[x] in parent && parent[root[x]] == root[x] && le(root[x], x)
    && (parent[x] == x ==> root[x] == x)
  }

  /** A forest and the root of each of its nodes. */
  ghost predicate Forest(le: Order, parent: map<string, string>, root: map<string, string>) {
    && root.Keys == parent.Keys
    && forall x {:trigger Planted(le, parent, root, x)} :: x in parent ==> Planted(le, parent, root, x)
  }

  ghost function Below(le: Order, nodes: set<string>, x: string): set<string> {
    set k | k in nodes && le(k, x) && k != x
  }

  /** The termination measure: a step to a smaller node leaves fewer nodes below. */
  lemma BelowShrinks(le: Order, nodes: set<string>, x: string, y: string)
    requires TotalOrder(le)
    requires y in nodes && le(y, x) && y != x
    ensures |Below(le, nodes, y)| < |Below(le, nodes, x)|
  {
    assert y in Below(le, nodes, x) && y !in Below(le, nodes, y);
    assert Below(le, nodes, y) <= Below(le, nodes, x) - {y};
    SubsetSize(Below(le, nodes, y), Below(le, nodes, x) - {y});
  }

  /** A forest has only one root assignment, so speaking of `root` is speaking of `parent`. */
  lemma {:induction false} RootsAreDetermined(le: Order, parent: map<string, string>,
                                              root: map<string, string>, other: map<string, string>, x: string)
    requires TotalOrder(le) && Forest(le, parent, root) && Forest(le, parent, other) && x in parent
    ensures root[x] == other[x]
    decreases |Below(le, parent.Keys, x)|
  {
    assert Planted(le, parent, root, x) && Planted(le, parent, other, x);
    if parent[x] != x {
      BelowShrinks(le, parent.Keys, x, parent[x]);
      RootsAreDetermined(le, parent, root, other, parent[x]);
    }
  }

  /** Pointing a node straight at its root changes nobody's root. */
  lemma CompressionKeepsRoots(le: Order, parent: map<string, string>, root: map<string, string>, x: string)
    requires Forest(le, parent, root) && x in parent
    ensures Forest(le, parent[x := root[x]], root)
  {
    assert Planted(le, parent, root, x) && Planted(le, parent, root, root[x]);
    forall y | y in parent ensures Planted(le, parent[x := root[x]], root, y) {
      assert Planted(le, parent, root, y);
    }
  }

  /** The roots after the greater of two roots is hung under the smaller one. */
  ghost function Relinked(root: map<string, string>, small: string, large: string): map<string, string> {
    map x | x in root :: if root[x] == large then small else root[x]
  }

  lemma LinkMovesOneComponent(le: Order, parent: map<string, string>, root: map<string, string>, small: string,
                              large: string)
    requires TotalOrder(le) && Forest(le, parent, root)
    requires small in parent && large in parent && small != large && le(small, large)
    requires parent[small] == small && parent[large] == large
    ensures Forest(le, parent[large := small], Relinked(root, small, large))
  {
    var linked, moved := parent[large := small], Relinked(root, small, large);
    assert Planted(le, parent, root, small) && Planted(le, parent, root, large);
    forall y | y in linked ensures Planted(le, linked, moved, y) {
      assert Planted(le, parent, root, y);
      assert le(root[y], y) && root[y] == large ==> le(small, y);
    }
  }

  /** The roots say about `edges` exactly what they should: they join both ends of every
      edge and nothing that the edges do not connect. */
  ghost predicate Partitions(root: map<string, string>, edges: seq<Edge>) {
    && (forall e :: e in edges ==> e.a in root && e.b in root && root[e.a] == root[e.b])
    && (forall x :: x in root ==> Connected(edges, x, root[x]))
  }

  lemma {:induction false} PathStaysInComponent(root: map<string, string>, edges: seq<Edge>, p: seq<string>)
    requires Partitions(root, edges) && Path(edges, p) && p[0] in root
    ensures p[|p| - 1] in root && root[p[|p| - 1]] == root[p[0]]
  {
    if |p| > 1 {
      var q := p[..|p| - 1];
      forall i | 0 <= i < |q| - 1 ensures Adjacent(edges, q[i], q[i + 1]) {
        assert Adjacent(edges, p[i], p[i + 1]);
      }
      PathStaysInComponent(root, edges, q);
      assert Adjacent(edges, p[|p| - 2], p[|p| - 2 + 1]);
    }
  }

  /** The partition is reachability, and a root is the least node of its component. */
  lemma RootsAreComponents(le: Order, parent: map<string, string>, root: map<string, string>, edges: seq<Edge>,
                           x: string, y: string)
    requires Forest(le, parent, root) && Partitions(root, edges) && x in root && y in root
    ensures root[x] == root[y] <==> Connected(edges, x, y)
    ensures Connected(edges, x, root[x])
    ensures Connected(edges, x, y) ==> le(root[x], y)
  {
    if root[x] == root[y] {
      ConnectedSymmetric(edges, y, root[y]);
      ConnectedTransitive(edges, x, root[x], y);
    }
    if Connected(edges, x, y) {
      var p :| PathBetween(edges, p, x, y);
      PathStaysInComponent(root, edges, p);
    }
    assert Planted(le, parent, root, y);
  }

  lemma SingletonsPartitionNothing(le: Order, nodes: set<string>)
    requires TotalOrder(le)
    ensures var self := map x | x in nodes :: x; Forest(le, self, self) && Partitions(self, [])
  {
    var self := map x | x in nodes :: x;
    forall x | x in nodes ensures Connected([], x, x) && Planted(le, self, self, x) {
      ConnectedReflexive([], x);
      assert le(x, x);
    }
  }

  lemma EdgeConnectsRoots(root: map<string, string>, edges: seq<Edge>, e: Edge)
    requires Partitions(root, edges) && e.a in root && e.b in root
    ensures Connected(edges + [e], root[e.a], root[e.b]) && Connected(edges + [e], root[e.b], root[e.a])
  {
    var more := edges + [e];
    ConnectedByEdge(more, e);
    ConnectedGrows(edges, more, e.a, root[e.a]);
    ConnectedGrows(edges, more, e.b, root[e.b]);
    ConnectedSymmetric(more, e.a, root[e.a]);
    ConnectedTransitive(more, root[e.a], e.a, e.b);
    ConnectedTransitive(more, root[e.a], e.b, root[e.b]);
    ConnectedSymmetric(more, root[e.a], root[e.b]);
  }

  /** One `union` step: from the partition of the edges so far to that of one more edge. */
  lemma LinkPartitionsOneMore(root: map<string, string>, edges: seq<Edge>, e: Edge, small: string, large: string)
    requires Partitions(root, edges) && e.a in root && e.b in root
    requires {small, large} == {root[e.a], root[e.b]}
    ensures Partitions(Relinked(root, small, large), edges + [e])
  {
    EdgeConnectsRoots(root, edges, e);
    var more := edges + [e];
    assert (small == root[e.a] && large == root[e.b]) || (small == root[e.b] && large == root[e.a]) by {
      assert small in {root[e.a], root[e.b]} && large in {root[e.a], root[e.b]};
      assert root[e.a] in {small, large} && root[e.b] in {small, large};
    }
    forall x | x in root ensures Connected(more, x, Relinked(root, small, large)[x]) {
      ConnectedGrows(edges, more, x, root[x]);
      if root[x] == large {
        ConnectedTransitive(more, x, large, small);
      }
    }
  }

  // ----- community ids -----

  /** Each root is numbered by how many roots come before it, and no number is skipped. */
  ghost predicate Numbers(le: Order, ids: map<string, nat>, roots: set<string>) {
    && ids.Keys == roots
    && (forall r :: r in ids ==> ids[r] == |Below(le, roots, r)|)
    && (forall n :: n in ids.Values <==> 0 <= n < |roots|)
    && (forall r, s :: r in ids && s in ids && ids[r] == ids[s] ==> r == s)
  }

  // ----- clustering -----

  function EdgePairs(edges: seq<Edge>): set<(string, string)> {
    set e | e in edges :: (e.a, e.b)
  }

  /** The edge between two nodes, looked up under its canonical orientation. */
  predicate Linked(le: Order, pairs: set<(string, string)>, a: string, b: string) {
    (if le(a, b) && a != b then (a, b) else (b, a)) in pairs
  }

  ghost predicate Canonical(le: Order, edges: seq<Edge>) {
    forall e :: e in edges ==> le(e.a, e.b) && e.a != e.b
  }

  /** The edges of a canonical edge list that run between two nodes of `nodes`. */
  ghost function EdgesAmong(edges: seq<Edge>, nodes: set<string>): set<(string, string)> {
    set p | p in EdgePairs(edges) && p.0 in nodes && p.1 in nodes
  }

  /** The edges from `x` into `nodes`, as canonical pairs. */
  ghost function EdgesInto(edges: seq<Edge>, x: string, nodes: set<string>): set<(string, string)> {
    set p | p in EdgePairs(edges) && ((p.0 == x && p.1 in nodes) || (p.1 == x && p.0 in nodes))
  }

  lemma EdgesIntoOneMore(le: Order, edges: seq<Edge>, x: string, nodes: set<string>, y: string)
    requires TotalOrder(le) && Canonical(le, edges) && x != y && y !in nodes && x !in nodes
    ensures |EdgesInto(edges, x, nodes + {y})|
      == |EdgesInto(edges, x, nodes)| + if Linked(le, EdgePairs(edges), x, y) then 1 else 0
  {
    var pairs := EdgePairs(edges);
    var before, after := EdgesInto(edges, x, nodes), EdgesInto(edges, x, nodes + {y});
    var pair := if le(x, y) then (x, y) else (y, x);
    forall p | p in pairs ensures le(p.0, p.1) && p.0 != p.1 {
      var e :| e in edges && (e.a, e.b) == p;
    }
    forall p | p in after && p !in before ensures p == pair {
      if p.0 == x { assert p == (x, y); } else { assert p == (y, x); }
    }
    if pair in pairs {
      assert after == before + {pair};
    } else {
      assert after == before;
    }
  }

  lemma EdgesAmongOneMore(le: Order, edges: seq<Edge>, nodes: set<string>, x: string)
    requires TotalOrder(le) && Canonical(le, edges) && x !in nodes
    ensures |EdgesAmong(edges, nodes + {x})| == |EdgesAmong(edges, nodes)| + |EdgesInto(edges, x, nodes)|
  {
    var among, into := EdgesAmong(edges, nodes), EdgesInto(edges, x, nodes);
    forall p | p in EdgePairs(edges) ensures p != (x, x) {
      var e :| e in edges && (e.a, e.b) == p;
    }
    forall p ensures p in EdgesAmong(edges, nodes + {x}) <==> p in among + into {
      assert p == (p.0, p.1);
    }
    assert EdgesAmong(edges, nodes + {x}) == among + into;
    assert among !! into;
  }

  // ----- the analysis -----

  datatype Metrics = Metrics(clustering: real, communityId: nat, conductance: real)

  method Enumerate(s: set<string>) returns (r: seq<string>)
    ensures Distinct(r) && Elements(r) == s
  {
    r := [];
    var todo := s;
    while todo != {}
      invariant todo <= s && Distinct(r)
      invariant forall x :: x in r <==> x in s && x !in todo
      decreases todo
    {
      var x :| x in todo;
      r := r + [x];
      todo := todo - {x};
    }
  }

  /** `sort` over a listed set: a distinct, sorted listing of the same set. */
  lemma SortLists(le: Order, listed: seq<string>)
    requires TotalOrder(le) && Distinct(listed)
    ensures Distinct(Sort(le, listed)) && SortedBy(le, Sort(le, listed))
    ensures Elements(Sort(le, listed)) == Elements(listed)
    ensures |Sort(le, listed)| == |Elements(listed)|
  {
    var sorted := Sort(le, listed);
    SortIsPermutation(le, listed);
    SortIsSorted(le, listed);
    PermutationStaysDistinct(listed, sorted);
    forall x ensures x in sorted <==> x in listed {
      assert x in multiset(sorted) <==> x in multiset(listed);
    }
    DistinctLength(sorted);
  }

  lemma PositionCounts(le: Order, sorted: seq<string>, i: nat)
    requires forall x, y :: le(x, y) && le(y, x) ==> x == y
    requires Distinct(sorted) && SortedBy(le, sorted) && i < |sorted|
    ensures |Below(le, Elements(sorted), sorted[i])| == i
  {
    forall x ensures x in Below(le, Elements(sorted), sorted[i]) <==> x in Elements(sorted[..i]) {
      if x in Below(le, Elements(sorted), sorted[i]) {
        var j :| 0 <= j < |sorted| && sorted[j] == x;
        assert !(i < j);
        assert sorted[..i][j] == x;
      }
    }
    assert Below(le, Elements(sorted), sorted[i]) == Elements(sorted[..i]);
    DistinctLength(sorted[..i]);
  }

  lemma PositionsNumber(le: Order, sorted: seq<string>, ids: map<string, nat>)
    requires forall x, y :: le(x, y) && le(y, x) ==> x == y
    requires Distinct(sorted) && SortedBy(le, sorted)
    requires ids.Keys == Elements(sorted)
    requires forall k :: 0 <= k < |sorted| ==> ids[sorted[k]] == k
    ensures Numbers(le, ids, Elements(sorted))
  {
    DistinctLength(sorted);
    forall r | r in ids ensures ids[r] < |sorted| && sorted[ids[r]] == r && ids[r] == |Below(le, Elements(sorted), r)| {
      var i :| 0 <= i < |sorted| && sorted[i] == r;
      PositionCounts(le, sorted, i);
    }
    forall n | 0 <= n < |sorted| ensures n in ids.Values {
      assert sorted[n] in ids.Keys;
    }
  }

  /** Numbers the roots along their sorted order. */
  method NumberRoots(le: Order, roots: set<string>) returns (ids: map<string, nat>)
    requires TotalOrder(le)
    ensures Numbers(le, ids, roots)
  {
    var listed := Enumerate(roots);
    var sorted := Sort(le, listed);
    SortLists(le, listed);
    ids := map[];
    for i := 0 to |sorted|
      invariant ids.Keys == Elements(sorted[..i])
      invariant forall k :: 0 <= k < i ==> sorted[k] in ids && ids[sorted[k]] == k
    {
      ids := ids[sorted[i] := i];
    }
    assert sorted[..|sorted|] == sorted;
    PositionsNumber(le, sorted, ids);
  }

  class Analysis {
    var parent: map<string, string>
    ghost var root: map<string, string>

    /** The comparison `<` on pseudonyms. */
    const le: Order

    ghost predicate Valid() reads this {
      TotalOrder(le) && Forest(le, parent, root)
    }

    /** Every node its own component. */
    constructor (le: Order, nodes: set<string>)
      requires TotalOrder(le)
      ensures Valid() && this.le == le && parent.Keys == nodes && Partitions(root, [])
    {
      this.le := le;
      parent := map x | x in nodes :: x;
      root := map x | x in nodes :: x;
      SingletonsPartitionNothing(le, nodes);
    }

    /** Climbs to the root, then points every node of the climb at it. */
    method Find(x: string) returns (r: string)
      requires Valid() && x in parent
      modifies this`parent
      ensures Valid() && parent.Keys == old(parent.Keys)
      ensures r == root[x]
    {
      r := x;
      while parent[r] != r
        invariant Valid() && parent.Keys == old(parent.Keys)
        invariant r in parent && root[r] == root[x]
        decreases |Below(le, parent.Keys, r)|
      {
        assert Planted(le, parent, root, r);
        BelowShrinks(le, parent.Keys, r, parent[r]);
        r := parent[r];
      }
      assert Planted(le, parent, root, r);
      var cur := x;
      while cur != r
        invariant Valid() && parent.Keys == old(parent.Keys)
        invariant cur in parent && root[cur] == r
        decreases |Below(le, parent.Keys, cur)|
      {
        var next := parent[cur];
        assert Planted(le, parent, root, cur);
        BelowShrinks(le, parent.Keys, cur, next);
        CompressionKeepsRoots(le, parent, root, cur);
        parent := parent[cur := r];
        cur := next;
      }
    }

    /** Merges two components under the lexicographically smaller root. */
    method Union(e: Edge, ghost edges: seq<Edge>)
      requires Valid() && e.a in parent && e.b in parent && Partitions(root, edges)
      modifies this
      ensures Valid() && parent.Keys == old(parent.Keys) && Partitions(root, edges + [e])
    {
      var ra := Find(e.a);
      var rb := Find(e.b);
      assert Planted(le, parent, root, e.a) && Planted(le, parent, root, e.b);
      if ra != rb {
        if le(ra, rb) {
          LinkMovesOneComponent(le, parent, root, ra, rb);
          LinkPartitionsOneMore(root, edges, e, ra, rb);
          parent := parent[rb := ra];
          root := Relinked(root, ra, rb);
        } else {
          LinkMovesOneComponent(le, parent, root, rb, ra);
          LinkPartitionsOneMore(root, edges, e, rb, ra);
          parent := parent[ra := rb];
          root := Relinked(root, rb, ra);
        }
      } else {
        LinkPartitionsOneMore(root, edges, e, ra, rb);
        assert Relinked(root, ra, rb) == root;
      }
    }

    method UnionAll(edges: seq<Edge>)
      requires Valid() && Partitions(root, [])
      requires forall e :: e in edges ==> e.a in parent && e.b in parent
      modifies this
      ensures Valid() && parent.Keys == old(parent.Keys) && Partitions(root, edges)
    {
      for i := 0 to |edges|
        invariant Valid() && parent.Keys == old(parent.Keys) && Partitions(root, edges[..i])
      {
        Union(edges[i], edges[..i]);
        assert edges[..i] + [edges[i]] == edges[..i + 1];
      }
      assert edges[..|edges|] == edges;
    }

    method CollectRoots() returns (roots: set<string>)
      requires Valid()
      modifies this`parent
      ensures Valid() && parent.Keys == old(parent.Keys)
      ensures roots == root.Values
    {
      var nodes := Enumerate(parent.Keys);
      roots := {};
      for i := 0 to |nodes|
        invariant Valid() && parent.Keys == old(parent.Keys)
        invariant roots == set k | 0 <= k < i :: root[nodes[k]]
      {
        assert nodes[i] in Elements(nodes);
        var r := Find(nodes[i]);
        roots := roots + {r};
      }
      forall v ensures v in roots <==> v in root.Values {
        if v in root.Values {
          var x :| x in root && root[x] == v;
          assert x in Elements(nodes);
          var k :| 0 <= k < |nodes| && nodes[k] == x;
        }
      }
    }

    /** The weight of the edges at `x` whose other end is found in another component. */
    method CrossWeight(x: string, rx: string, edges: seq<Edge>) returns (w: int)
      requires Valid() && x in parent && rx == root[x] && Partitions(root, edges)
      modifies this`parent
      ensures Valid() && parent.Keys == old(parent.Keys)
      ensures w == 0
    {
      w := 0;
      for i := 0 to |edges|
        invariant Valid() && parent.Keys == old(parent.Keys)
        invariant w == 0
      {
        var e := edges[i];
        assert e in edges;
        if e.a == x || e.b == x {
          var other := if e.a == x then e.b else e.a;
          var r := Find(other);
          if r != rx {
            w := w + e.weight;
          }
        }
      }
    }
  }

  // ----- adjacency -----

  function WithNeighbor(nbrs: set<string>, e: Edge, x: string): set<string> {
    nbrs + (if e.a == x then {e.b} else {}) + (if e.b == x then {e.a} else {})
  }

  function WithWeight(w: int, e: Edge, x: string): int {
    w + (if e.a == x then e.weight else 0) + (if e.b == x then e.weight else 0)
  }

  ghost function Neighbors(edges: seq<Edge>, x: string): set<string> {
    if edges == [] then {} else WithNeighbor(Neighbors(edges[..|edges| - 1], x), edges[|edges| - 1], x)
  }

  ghost function WeightAt(edges: seq<Edge>, x: string): int {
    if edges == [] then 0 else WithWeight(WeightAt(edges[..|edges| - 1], x), edges[|edges| - 1], x)
  }

  ghost function DegreeSum(nodes: seq<string>, edges: seq<Edge>): int {
    if nodes == [] then 0
    else DegreeSum(nodes[..|nodes| - 1], edges) + WeightAt(edges, nodes[|nodes| - 1])
  }

  ghost function TotalWeight(edges: seq<Edge>): int {
    if edges == [] then 0 else TotalWeight(edges[..|edges| - 1]) + edges[|edges| - 1].weight
  }

  lemma {:induction false} OneEdgeMore(nodes: seq<string>, edges: seq<Edge>, e: Edge)
    requires Distinct(nodes)
    ensures DegreeSum(nodes, edges + [e]) ==
      DegreeSum(nodes, edges) + (if e.a in nodes then e.weight else 0) + (if e.b in nodes then e.weight else 0)
  {
    if nodes != [] {
      var n := |nodes| - 1;
      OneEdgeMore(nodes[..n], edges, e);
      assert nodes == nodes[..n] + [nodes[n]] && nodes[n] !in nodes[..n];
      assert (edges + [e])[..|edges|] == edges;
    }
  }

  lemma {:induction false} NoEdgesNoDegrees(nodes: seq<string>)
    ensures DegreeSum(nodes, []) == 0
  {
    if nodes != [] {
      NoEdgesNoDegrees(nodes[..|nodes| - 1]);
    }
  }

  /** Every edge counts at both its ends: over all nodes the weighted degrees sum to twice the weight
      of the graph. */
  lemma {:induction false} DegreesSumToTwiceTheWeight(nodes: seq<string>, edges: seq<Edge>)
    requires Distinct(nodes) && forall e :: e in edges ==> e.a in nodes && e.b in nodes
    ensures DegreeSum(nodes, edges) == 2 * TotalWeight(edges)
  {
    if edges == [] {
      NoEdgesNoDegrees(nodes);
    } else {
      var n := |edges| - 1;
      assert edges == edges[..n] + [edges[n]] && edges[n] in edges;
      DegreesSumToTwiceTheWeight(nodes, edges[..n]);
      OneEdgeMore(nodes, edges[..n], edges[n]);
    }
  }

  lemma {:induction false} NeighborsAreAdjacent(edges: seq<Edge>, x: string, y: string)
    ensures y in Neighbors(edges, x) <==> Adjacent(edges, x, y)
  {
    if edges != [] {
      var n := |edges| - 1;
      NeighborsAreAdjacent(edges[..n], x, y);
      assert edges == edges[..n] + [edges[n]];
      if Adjacent(edges[..n], x, y) {
        var e :| e in edges[..n] && ((e.a == x && e.b == y) || (e.a == y && e.b == x));
        assert e in edges;
      }
      if y in Neighbors(edges, x) && !Adjacent(edges[..n], x, y) {
        assert edges[n] in edges;
      }
    }
  }

  ghost function Nodes(pseudonyms: seq<string>, edges: seq<Edge>): set<string> {
    Elements(pseudonyms) + (set e | e in edges :: e.a) + (set e | e in edges :: e.b)
  }

  lemma NodesOneMore(pseudonyms: seq<string>, edges: seq<Edge>, e: Edge)
    ensures Nodes(pseudonyms, edges + [e]) == Nodes(pseudonyms, edges) + {e.a, e.b}
  {
    assert forall f :: f in edges + [e] <==> f in edges || f == e;
  }

  lemma {:induction false} NewNodeHasNoEdges(pseudonyms: seq<string>, edges: seq<Edge>, x: string)
    requires x !in Nodes(pseudonyms, edges)
    ensures Neighbors(edges, x) == {} && WeightAt(edges, x) == 0
  {
    if edges != [] {
      var n := |edges| - 1;
      assert edges == edges[..n] + [edges[n]];
      NodesOneMore(pseudonyms, edges[..n], edges[n]);
      NewNodeHasNoEdges(pseudonyms, edges[..n], x);
    }
  }

  ghost predicate Tracks(neighbors: map<string, set<string>>, degree: map<string, int>, pseudonyms: seq<string>,
                         edges: seq<Edge>) {
    && neighbors.Keys == degree.Keys == Nodes(pseudonyms, edges)
    && (forall x :: x in neighbors ==> neighbors[x] == Neighbors(edges, x))
    && (forall x :: x in degree ==> degree[x] == WeightAt(edges, x))
  }

  function Held<V>(m: map<string, V>, x: string, absent: V): V {
    if x in m then m[x] else absent
  }

  lemma TracksOneMore(neighbors: map<string, set<string>>, degree: map<string, int>, pseudonyms: seq<string>,
                      edges: seq<Edge>,
                      e: Edge, neighbors': map<string, set<string>>, degree': map<string, int>)
    requires Tracks(neighbors, degree, pseudonyms, edges)
    requires neighbors'.Keys == degree'.Keys == neighbors.Keys + {e.a, e.b}
    requires forall x :: x in neighbors' ==> neighbors'[x] == WithNeighbor(Held(neighbors, x, {}), e, x)
    requires forall x :: x in degree' ==> degree'[x] == WithWeight(Held(degree, x, 0), e, x)
    ensures Tracks(neighbors', degree', pseudonyms, edges + [e])
  {
    NodesOneMore(pseudonyms, edges, e);
    assert (edges + [e])[..|edges|] == edges;
    forall x | x in neighbors' ensures neighbors'[x] == Neighbors(edges + [e], x)
        && degree'[x] == WeightAt(edges + [e], x) {
      if x !in neighbors {
        NewNodeHasNoEdges(pseudonyms, edges, x);
      }
    }
  }

  method AddEdge(neighbors: map<string, set<string>>, degree: map<string, int>, e: Edge)
    returns (neighbors': map<string, set<string>>, degree': map<string, int>)
    requires neighbors.Keys == degree.Keys
    ensures neighbors'.Keys == degree'.Keys == neighbors.Keys + {e.a, e.b}
    ensures forall x :: x in neighbors' ==> neighbors'[x] == WithNeighbor(Held(neighbors, x, {}), e, x)
    ensures forall x :: x in degree' ==> degree'[x] == WithWeight(Held(degree, x, 0), e, x)
  {
    neighbors', degree' := neighbors, degree;
    if e.a !in neighbors' {
      neighbors', degree' := neighbors'[e.a := {}], degree'[e.a := 0];
    }
    if e.b !in neighbors' {
      neighbors', degree' := neighbors'[e.b := {}], degree'[e.b := 0];
    }
    assert neighbors'.Keys == degree'.Keys == neighbors.Keys + {e.a, e.b};
    assert forall x :: x in neighbors' ==> neighbors'[x] == Held(neighbors, x, {}) && degree'[x] == Held(degree, x, 0);
    neighbors' := neighbors'[e.a := neighbors'[e.a] + {e.b}];
    neighbors' := neighbors'[e.b := neighbors'[e.b] + {e.a}];
    degree' := degree'[e.a := degree'[e.a] + e.weight];
    degree' := degree'[e.b := degree'[e.b] + e.weight];
  }

  lemma TracksNothing(pseudonyms: seq<string>)
    ensures Tracks(map p | p in pseudonyms :: {}, map p | p in pseudonyms :: 0, pseudonyms, [])
  {
    assert Nodes(pseudonyms, []) == Elements(pseudonyms);
  }

  method TrackEdge(neighbors: map<string, set<string>>, degree: map<string, int>, e: Edge,
                   ghost pseudonyms: seq<string>, ghost done: seq<Edge>)
    returns (neighbors': map<string, set<string>>, degree': map<string, int>)
    requires Tracks(neighbors, degree, pseudonyms, done)
    ensures Tracks(neighbors', degree', pseudonyms, done + [e])
  {
    neighbors', degree' := AddEdge(neighbors, degree, e);
    TracksOneMore(neighbors, degree, pseudonyms, done, e, neighbors', degree');
  }

  method BuildAdjacency(pseudonyms: seq<string>, edges: seq<Edge>)
    returns (neighbors: map<string, set<string>>, degree: map<string, int>)
    ensures Tracks(neighbors, degree, pseudonyms, edges)
  {
    neighbors := map p | p in pseudonyms :: {};
    degree := map p | p in pseudonyms :: 0;
    ghost var done: seq<Edge> := [];
    TracksNothing(pseudonyms);
    for i := 0 to |edges|
      invariant done == edges[..i]
      invariant Tracks(neighbors, degree, pseudonyms, done)
    {
      neighbors, degree := TrackEdge(neighbors, degree, edges[i], pseudonyms, done);
      done := done + [edges[i]];
    }
    assert done == edges;
  }

  function Share(n: int, d: int): (r: real)
    requires d > 0
    ensures r * d as real == n as real
    ensures 0 <= n <= d ==> 0.0 <= r <= 1.0
    ensures n == 0 ==> r == 0.0
  {
    n as real / d as real
  }

  /** The inner loop: how many of `rest` are linked to `x`. */
  method CountLinkedTo(le: Order, edges: seq<Edge>, x: string, rest: seq<string>) returns (count: nat)
    requires TotalOrder(le) && Distinct(rest) && x !in rest
    ensures count <= |rest|
    ensures Canonical(le, edges) ==> count == |EdgesInto(edges, x, Elements(rest))|
  {
    var pairs := EdgePairs(edges);
    count := 0;
    assert EdgesInto(edges, x, {}) == {};
    for j := 0 to |rest|
      invariant count <= j
      invariant Canonical(le, edges) ==> count == |EdgesInto(edges, x, Elements(rest[..j]))|
    {
      assert Elements(rest[..j + 1]) == Elements(rest[..j]) + {rest[j]};
      if Canonical(le, edges) {
        EdgesIntoOneMore(le, edges, x, Elements(rest[..j]), rest[j]);
      }
      if Linked(le, pairs, x, rest[j]) {
        count := count + 1;
      }
    }
    assert rest[..|rest|] == rest;
  }

  lemma TriangleStep(i: int, k: int, c: int, d: int)
    requires 0 <= i < k && 2 * c <= i * (2 * k - 1 - i) && d <= k - i - 1
    ensures 2 * (c + d) <= (i + 1) * (2 * k - 1 - (i + 1))
  {
    assert (i + 1) * (2 * k - 2 - i) == i * (2 * k - 1 - i) + 2 * (k - i - 1);
  }

  method CountLinked(le: Order, edges: seq<Edge>, nbrs: seq<string>) returns (count: nat)
    requires TotalOrder(le) && Distinct(nbrs)
    ensures 2 * count <= |nbrs| * (|nbrs| - 1)
    ensures Canonical(le, edges) ==> count == |EdgesAmong(edges, Elements(nbrs))|
  {
    var k := |nbrs|;
    count := 0;
    assert nbrs[0..] == nbrs;
    for i := 0 to k
      invariant 2 * count <= i * (2 * k - 1 - i)
      invariant Canonical(le, edges) ==>
        count + |EdgesAmong(edges, Elements(nbrs[i..]))| == |EdgesAmong(edges, Elements(nbrs))|
    {
      var linked := CountLinkedTo(le, edges, nbrs[i], nbrs[i + 1..]);
      TriangleStep(i, k, count, linked);
      assert Elements(nbrs[i..]) == Elements(nbrs[i + 1..]) + {nbrs[i]};
      if Canonical(le, edges) {
        EdgesAmongOneMore(le, edges, Elements(nbrs[i + 1..]), nbrs[i]);
      }
      count := count + linked;
    }
    assert EdgesAmong(edges, Elements(nbrs[k..])) == {};
  }

  // ----- the whole computation -----

  /** The least nodes of the components: the reference for the community numbering. */
  ghost function Leasts(le: Order, nodes: set<string>, edges: seq<Edge>): set<string> {
    set r | r in nodes && forall y :: y in nodes && Connected(edges, r, y) ==> le(r, y)
  }

  lemma RootsAreLeasts(le: Order, parent: map<string, string>, root: map<string, string>, edges: seq<Edge>)
    requires TotalOrder(le) && Forest(le, parent, root) && Partitions(root, edges)
    ensures root.Values == Leasts(le, parent.Keys, edges)
  {
    forall r ensures r in root.Values <==> r in Leasts(le, parent.Keys, edges) {
      if r in root.Values {
        var x :| x in root && root[x] == r;
        assert Planted(le, parent, root, x);
        assert Planted(le, parent, root, r);
        forall y | y in root && Connected(edges, r, y) ensures le(r, y) {
          RootsAreComponents(le, parent, root, edges, r, y);
        }
      }
      if r in Leasts(le, parent.Keys, edges) {
        RootsAreComponents(le, parent, root, edges, r, r);
        assert Planted(le, parent, root, r);
        assert root[r] == r;
      }
    }
  }

  /** What one pseudonym's metrics must be, in terms of the graph alone. */
  ghost predicate Describes(le: Order, nodes: set<string>, edges: seq<Edge>, p: string, m: Metrics) {
    && (exists r :: r in Leasts(le, nodes, edges) && Connected(edges, p, r)
                    && m.communityId == |Below(le, Leasts(le, nodes, edges), r)|)
    && m.conductance == 0.0
    && 0.0 <= m.clustering <= 1.0
    && (Canonical(le, edges) ==> Clusters(edges, Neighbors(edges, p), m.clustering))
  }

  /** The share of neighbour pairs joined by an edge: of k(k - 1)/2 pairs; none below two neighbours. */
  ghost predicate Clusters(edges: seq<Edge>, nodes: set<string>, c: real) {
    if |nodes| < 2 then c == 0.0
    else c * (|nodes| * (|nodes| - 1)) as real == (2 * |EdgesAmong(edges, nodes)|) as real
  }

  method MeasureClustering(le: Order, edges: seq<Edge>, nbrs: set<string>) returns (c: real)
    requires TotalOrder(le)
    ensures 0.0 <= c <= 1.0
    ensures Canonical(le, edges) ==> Clusters(edges, nbrs, c)
  {
    c := 0.0;
    var listed := Enumerate(nbrs);
    DistinctLength(listed);
    var k := |listed|;
    if k >= 2 {
      var linked := CountLinked(le, edges, listed);
      assert k * (k - 1) > 0;
      c := Share(2 * linked, k * (k - 1));
    }
  }

  lemma RootDescribes(le: Order, parent: map<string, string>, root: map<string, string>, ids: map<string, nat>,
                      edges: seq<Edge>, p: string, m: Metrics)
    requires TotalOrder(le) && Forest(le, parent, root) && Partitions(root, edges) && p in root
    requires Numbers(le, ids, root.Values) && root[p] in root.Values
    requires m.communityId == ids[root[p]] && m.conductance == 0.0 && 0.0 <= m.clustering <= 1.0
    requires Canonical(le, edges) ==> Clusters(edges, Neighbors(edges, p), m.clustering)
    ensures Describes(le, parent.Keys, edges, p, m)
  {
    RootsAreLeasts(le, parent, root, edges);
    RootsAreComponents(le, parent, root, edges, p, p);
  }

  /** The three metrics of one pseudonym. */
  method Measure(g: Analysis, p: string, ids: map<string, nat>, edges: seq<Edge>, nbrs: set<string>, degree: int)
    returns (m: Metrics)
    requires g.Valid() && p in g.root && Partitions(g.root, edges) && Numbers(g.le, ids, g.root.Values)
    requires nbrs == Neighbors(edges, p)
    modifies g`parent
    ensures g.Valid() && g.parent.Keys == old(g.parent.Keys)
    ensures Describes(g.le, g.parent.Keys, edges, p, m)
  {
    var clustering := MeasureClustering(g.le, edges, nbrs);
    var r := g.Find(p);
    assert r in g.root.Values;
    var communityId := if r in ids then ids[r] else 0;
    var conductance := 0.0;
    if degree > 0 {
      var cross := g.CrossWeight(p, r, edges);
      conductance := Share(cross, degree);
    }
    assert communityId == ids[g.root[p]];
    m := Metrics(clustering, communityId, conductance);
    RootDescribes(g.le, g.parent, g.root, ids, edges, p, m);
  }

  /** The components of the graph and the number of each. */
  method Components(le: Order, nodes: set<string>, edges: seq<Edge>) returns (g: Analysis, ids: map<string, nat>)
    requires TotalOrder(le)
    requires forall e :: e in edges ==> e.a in nodes && e.b in nodes
    ensures fresh(g) && g.Valid() && g.le == le && g.parent.Keys == nodes
    ensures Partitions(g.root, edges) && Numbers(le, ids, g.root.Values)
  {
    g := new Analysis(le, nodes);
    g.UnionAll(edges);
    var roots := g.CollectRoots();
    ids := NumberRoots(le, roots);
  }

  method MeasureAll(g: Analysis, ids: map<string, nat>, pseudonyms: seq<string>, edges: seq<Edge>,
                    neighbors: map<string, set<string>>, degree: map<string, int>)
    returns (results: map<string, Metrics>)
    requires g.Valid() && Partitions(g.root, edges) && Numbers(g.le, ids, g.root.Values)
    requires forall p :: p in pseudonyms ==>
      p in g.root && p in degree && p in neighbors && neighbors[p] == Neighbors(edges, p)
    modifies g`parent
    ensures results.Keys == Elements(pseudonyms)
    ensures forall p :: p in results ==> Describes(g.le, old(g.parent.Keys), edges, p, results[p])
  {
    results := map[];
    for i := 0 to |pseudonyms|
      invariant g.Valid() && g.parent.Keys == old(g.parent.Keys)
      invariant results.Keys == Elements(pseudonyms[..i])
      invariant forall p :: p in results ==> Describes(g.le, old(g.parent.Keys), edges, p, results[p])
    {
      var p := pseudonyms[i];
      var m := Measure(g, p, ids, edges, neighbors[p], degree[p]);
      results := results[p := m];
      ElementsOneMore(pseudonyms, i);
    }
    assert pseudonyms[..|pseudonyms|] == pseudonyms;
  }

  /** `#computeGraphAnalysis`, for any total order on pseudonyms. */
  method Compute(le: Order, pseudonyms: seq<string>, edges: seq<Edge>) returns (results: map<string, Metrics>)
    requires TotalOrder(le)
    ensures results.Keys == Elements(pseudonyms)
    ensures forall p :: p in results ==> Describes(le, Nodes(pseudonyms, edges), edges, p, results[p])
  {
    var neighbors, degree := BuildAdjacency(pseudonyms, edges);
    var g, ids := Components(le, neighbors.Keys, edges);
    results := MeasureAll(g, ids, pseudonyms, edges, neighbors, degree);
  }

  /** Read off the contract of `Compute`: community ids agree exactly on connected
      pseudonyms. */
  lemma CommunityIsComponent(le: Order, nodes: set<string>, edges: seq<Edge>, p: string, m: Metrics, q: string,
                             n: Metrics)
    requires TotalOrder(le) && p in nodes && q in nodes
    requires Describes(le, nodes, edges, p, m) && Describes(le, nodes, edges, q, n)
    ensures m.communityId == n.communityId <==> Connected(edges, p, q)
  {
    var leasts := Leasts(le, nodes, edges);
    var r :| r in leasts && Connected(edges, p, r) && m.communityId == |Below(le, leasts, r)|;
    var s :| s in leasts && Connected(edges, q, s) && n.communityId == |Below(le, leasts, s)|;
    ConnectedSymmetric(edges, p, r);
    ConnectedSymmetric(edges, q, s);
    if Connected(edges, p, q) {
      ConnectedTransitive(edges, r, p, q);
      ConnectedTransitive(edges, r, q, s);
      ConnectedSymmetric(edges, r, s);
      assert le(r, s) && le(s, r);
    }
    if m.communityId == n.communityId {
      if r != s {
        if le(r, s) { BelowShrinks(le, leasts, s, r); } else { BelowShrinks(le, leasts, r, s); }
      }
      ConnectedTransitive(edges, p, r, q);
    }
  }
}
