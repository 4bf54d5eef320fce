/**
 * The undirected weighted graph of the graph course work (GraphCourseWork/Graph.cpp):
 * adjacency lists and an edge list grown by add_edge, Kruskal's minimum spanning tree with a
 * union-find forest, and the consistency check run after loading.
 */
module GraphModel {
  import opened Common

  /** Graph::WeightedEdge; `operator<` compares weights only. */
  datatype WeightedEdge = WeightedEdge(u: int, v: int, weight: int)

  /** The invalid_argument exceptions, by message. */
  datatype GraphError =
    | NegativeInput      // "Vertices and weight must be non-negative"
    | InvalidVertex      // "Invalid vertex index"
    | NotBidirectional   // "Graph must be bidirectional"
    | InvalidEdge        // "Invalid edge or weight"

  function Max(a: int, b: int): int
  {
    if a < b then b else a
  }

  /** `adj_.resize(n)` when n is larger than the current size: new lists are empty. */
  function Grown(adj: seq<seq<int>>, n: nat): (r: seq<seq<int>>)
    ensures |r| == Max(|adj|, n)
    ensures forall x :: 0 <= x < |adj| ==> r[x] == adj[x]
    ensures forall x :: |adj| <= x < |r| ==> r[x] == []
  {
    if n <= |adj| then adj else adj + seq(n - |adj|, _ => [])
  }

  /** The adjacency lists after add_edge(u, v): `v` pushed onto adj_[u], then `u` onto adj_[v]. */
  function Linked(adj: seq<seq<int>>, u: nat, v: nat): (r: seq<seq<int>>)
    ensures |r| == Max(|adj|, Max(u, v) + 1)
  {
    var g := Grown(adj, Max(u, v) + 1);
    var g1 := g[u := g[u] + [v]];
    g1[v := g1[v] + [u]]
  }

  /** Every listed neighbour is a vertex whose own list names the vertex back. */
  predicate Symmetric(adj: seq<seq<int>>)
  {
    forall x, i :: 0 <= x < |adj| && 0 <= i < |adj[x]| ==> 0 <= adj[x][i] < |adj| && x in adj[adj[x][i]]
  }

  predicate EdgeInRange(e: WeightedEdge, maxVertex: nat)
  {
    0 <= e.u <= maxVertex && 0 <= e.v <= maxVertex && e.weight >= 0
  }

  /** Linking u and v keeps every list symmetric. */
  lemma LinkedSymmetric(adj: seq<seq<int>>, u: nat, v: nat)
    requires Symmetric(adj)
    ensures Symmetric(Linked(adj, u, v))
  {
    var r := Linked(adj, u, v);
    forall x, i | 0 <= x < |r| && 0 <= i < |r[x]|
      ensures 0 <= r[x][i] < |r| && x in r[r[x][i]]
    {
      LinkedEntry(adj, u, v, x, i);
    }
  }

  /** Each list after linking is the grown list, then v if it is u's, then u if it is v's. */
  lemma LinkedLists(adj: seq<seq<int>>, u: nat, v: nat, x: nat)
    requires x < |Linked(adj, u, v)|
    ensures Linked(adj, u, v)[x]
            == Grown(adj, Max(u, v) + 1)[x] + (if x == u then [v] else []) + (if x == v then [u] else [])
  {
  }

  /** One entry of a linked list: its vertex exists and lists the entry's owner back. */
  lemma LinkedEntry(adj: seq<seq<int>>, u: nat, v: nat, x: nat, i: nat)
    requires Symmetric(adj)
    requires x < |Linked(adj, u, v)| && i < |Linked(adj, u, v)[x]|
    ensures 0 <= Linked(adj, u, v)[x][i] < |Linked(adj, u, v)|
    ensures x in Linked(adj, u, v)[Linked(adj, u, v)[x][i]]
  {
    var r, g := Linked(adj, u, v), Grown(adj, Max(u, v) + 1);
    LinkedLists(adj, u, v, x);
    var y := r[x][i];
    if i < |g[x]| {
      assert x < |adj| && y == adj[x][i];
      assert 0 <= y < |adj| && x in adj[y];
      LinkedLists(adj, u, v, y);
      assert r[y][..|adj[y]|] == adj[y];
    } else if x == u && i == |g[x]| {
      LinkedLists(adj, u, v, v);
      assert y == v && r[v][|r[v]| - 1] == u;
    } else {
      LinkedLists(adj, u, v, u);
      assert x == v && y == u && r[u][|g[u]|] == v;
    }
  }

  class Graph {
    var adj: seq<seq<int>>
    var edges: seq<WeightedEdge>
    var maxVertex: nat

    /**
     * What add_edge alone can build: no edge and no vertex, or lists for vertices 0..maxVertex,
     * symmetric adjacency and every edge between such vertices with a non-negative weight.
     */
    predicate Valid()
      reads this
    {
      (edges == [] ==> adj == [] && maxVertex == 0) &&
      (edges != [] ==> |adj| == maxVertex + 1) &&
      Symmetric(adj) &&
      forall k :: 0 <= k < |edges| ==> EdgeInRange(edges[k], maxVertex)
    }

    /** Graph(): no vertices, no edges, max_vertex_ = 0. */
    constructor ()
      ensures Valid() && adj == [] && edges == [] && maxVertex == 0
    {
      adj := [];
      edges := [];
      maxVertex := 0;
    }

    /** add_edge(u, v, weight): refused on a negative input, otherwise links u and v. */
    method AddEdge(u: int, v: int, weight: int) returns (err: Option<GraphError>)
      requires Valid()
      modifies this
      ensures Valid()
      ensures err.Some? <==> u < 0 || v < 0 || weight < 0
      ensures err.Some? ==> err.value == NegativeInput && adj == old(adj) && edges == old(edges) && maxVertex == old(maxVertex)
      ensures err.None? ==> adj == Linked(old(adj), u, v) && edges == old(edges) + [WeightedEdge(u, v, weight)]
      ensures err.None? ==> maxVertex == Max(old(maxVertex), Max(u, v))
    {
      if u < 0 || v < 0 || weight < 0 {
        return Some(NegativeInput);
      }
      var maxIndex := Max(u, v);
      LinkedSymmetric(adj, u, v);
      if maxIndex >= |adj| {
        adj := Grown(adj, maxIndex + 1);
      }
      maxVertex := Max(maxVertex, maxIndex);
      adj := adj[u := adj[u] + [v]];
      adj := adj[v := adj[v] + [u]];
      edges := edges + [WeightedEdge(u, v, weight)];
      return None;
    }

    /** The neighbour checks of validate_graph for vertices 0..n-1. */
    predicate NeighboursChecked(n: nat)
      reads this
    {
      n <= |adj| && (n > 0 ==> maxVertex < |adj|) &&
      forall x, i :: 0 <= x < n && 0 <= i < |adj[x]| ==> 0 <= adj[x][i] <= maxVertex && x in adj[adj[x][i]]
    }

    /** The edge check of validate_graph. */
    predicate EdgesChecked()
      reads this
    {
      forall k :: 0 <= k < |edges| ==> edges[k].u >= 0 && edges[k].v >= 0 && edges[k].weight >= 0
    }

    /** How many vertices the (corrected) validation scans: none when there are no lists. */
    function Scanned(): nat
      reads this
    {
      if adj == [] then 0 else maxVertex + 1
    }

    /**
     * validate_graph as written: the scan of adj_[0..max_vertex_] needs those lists to exist,
     * which the requires states.
     */
    method ValidateGraphAsWritten() returns (err: Option<GraphError>)
      requires maxVertex < |adj|
      ensures err.None? <==> NeighboursChecked(maxVertex + 1) && EdgesChecked()
    {
      err := ValidateUpTo(maxVertex + 1);
    }

    /** validate_graph with the scan bounded by the lists that exist. */
    method ValidateGraph() returns (err: Option<GraphError>)
      requires maxVertex < |adj| || adj == []
      ensures err.None? <==> NeighboursChecked(Scanned()) && EdgesChecked()
    {
      err := ValidateUpTo(Scanned());
    }

    /** The two loops of validate_graph, the vertex loop running over 0..n-1. */
    method ValidateUpTo(n: nat) returns (err: Option<GraphError>)
      requires n <= |adj| && (n > 0 ==> maxVertex < |adj|)
      ensures err.None? <==> NeighboursChecked(n) && EdgesChecked()
      ensures err.Some? ==> err.value != NegativeInput
    {
      for x := 0 to n
        invariant NeighboursChecked(x)
      {
        for i := 0 to |adj[x]|
          invariant forall j :: 0 <= j < i ==> 0 <= adj[x][j] <= maxVertex && x in adj[adj[x][j]]
        {
          var w := adj[x][i];
          if w < 0 || w > maxVertex {
            return Some(InvalidVertex);
          }
          if x !in adj[w] {
            return Some(NotBidirectional);
          }
        }
      }
      for k := 0 to |edges|
        invariant forall j :: 0 <= j < k ==> edges[j].u >= 0 && edges[j].v >= 0 && edges[j].weight >= 0
      {
        if edges[k].u < 0 || edges[k].v < 0 || edges[k].weight < 0 {
          return Some(InvalidEdge);
        }
      }
      return None;
    }

    /** The edge-list constructor: add_edge for each triple, then validate_graph. */
    static method FromEdges(es: seq<(int, int, int)>) returns (r: Result<Graph, GraphError>)
      ensures r.Ok? <==> forall k :: 0 <= k < |es| ==> es[k].0 >= 0 && es[k].1 >= 0 && es[k].2 >= 0
      ensures r.Err? ==> r.error == NegativeInput
      ensures r.Ok? ==> fresh(r.value) && r.value.Valid() && r.value.edges == ToEdges(es)
    {
      var g := new Graph();
      for k := 0 to |es|
        invariant fresh(g) && g.Valid() && g.edges == ToEdges(es[..k])
        invariant forall j :: 0 <= j < k ==> es[j].0 >= 0 && es[j].1 >= 0 && es[j].2 >= 0
      {
        var (u, v, w) := es[k];
        var err := g.AddEdge(u, v, w);
        if err.Some? {
          return Err(err.value);
        }
        assert es[..k + 1][..k] == es[..k];
      }
      assert es[..|es|] == es;
      ValidPassesChecks(g);
      var err := g.ValidateGraph();
      assert err.None?;
      return Ok(g);
    }
  }

  /** The triples of the edge-list constructor as weighted edges. */
  function ToEdges(es: seq<(int, int, int)>): (r: seq<WeightedEdge>)
    ensures |r| == |es|
    ensures forall k :: 0 <= k < |es| ==> r[k] == WeightedEdge(es[k].0, es[k].1, es[k].2)
  {
    if es == [] then []
    else
      var last := es[|es| - 1];
      ToEdges(es[..|es| - 1]) + [WeightedEdge(last.0, last.1, last.2)]
  }

  predicate SortedByWeight(s: seq<WeightedEdge>)
  {
    forall i, j :: 0 <= i < j < |s| ==> s[i].weight <= s[j].weight
  }

  /** Inserts `e` in front of the first edge that is not lighter. */
  function InsertByWeight(e: WeightedEdge, s: seq<WeightedEdge>): (r: seq<WeightedEdge>)
    ensures multiset(r) == multiset(s) + multiset{e}
    ensures forall x :: x in r <==> x in s || x == e
  {
    if s == [] || e.weight <= s[0].weight then [e] + s
    else
      assert s == [s[0]] + s[1..];
      [s[0]] + InsertByWeight(e, s[1..])
  }

  lemma {:induction false} InsertKeepsSorted(e: WeightedEdge, s: seq<WeightedEdge>)
    requires SortedByWeight(s)
    ensures SortedByWeight(InsertByWeight(e, s))
  {
    var r := InsertByWeight(e, s);
    if s == [] || e.weight <= s[0].weight {
      assert r == [e] + s;
      forall i, j | 0 <= i < j < |r| ensures r[i].weight <= r[j].weight {
        if i == 0 {
          assert r[j] == s[j - 1];
        } else {
          assert r[i] == s[i - 1] && r[j] == s[j - 1];
        }
      }
    } else {
      var rest := InsertByWeight(e, s[1..]);
      InsertKeepsSorted(e, s[1..]);
      assert r == [s[0]] + rest;
      forall i, j | 0 <= i < j < |r| ensures r[i].weight <= r[j].weight {
        if i == 0 {
          assert r[j] == rest[j - 1];
          assert rest[j - 1] in rest;
          if rest[j - 1] != e {
            var k :| 0 <= k < |s[1..]| && s[1..][k] == rest[j - 1];
            assert s[k + 1] == rest[j - 1];
          }
        } else {
          assert r[i] == rest[i - 1] && r[j] == rest[j - 1];
        }
      }
    }
  }

  /**
   * The std::sort of the edges by weight. std::sort leaves the order of equal weights open;
   * this insertion sort is one of the orders it may produce.
   */
  function SortByWeight(s: seq<WeightedEdge>): (r: seq<WeightedEdge>)
    ensures multiset(r) == multiset(s)
    ensures SortedByWeight(r)
  {
    if s == [] then []
    else
      assert s == [s[0]] + s[1..];
      InsertKeepsSorted(s[0], SortByWeight(s[1..]));
      InsertByWeight(s[0], SortByWeight(s[1..]))
  }

  /** The union-find `parent` vector as a forest: each non-root points to a vertex of higher rank. */
  ghost predicate Forest(parent: seq<int>, rank: seq<nat>, bound: nat)
  {
    |rank| == |parent| &&
    forall x :: 0 <= x < |parent| ==>
      0 <= parent[x] < |parent| && rank[x] <= bound && (parent[x] != x ==> rank[parent[x]] > rank[x])
  }

  /** The root of `x`: where the `find` lambda's walk up the parent links stops. */
  ghost function RootOf(parent: seq<int>, rank: seq<nat>, bound: nat, x: int): (r: int)
    requires Forest(parent, rank, bound) && 0 <= x < |parent|
    ensures 0 <= r < |parent| && parent[r] == r
    decreases bound - rank[x]
  {
    if parent[x] == x then x else RootOf(parent, rank, bound, parent[x])
  }

  /** The `find` lambda of minimum_spanning_tree. */
  method Find(parent: array<int>, x: int, ghost rank: seq<nat>, ghost bound: nat) returns (root: int)
    requires Forest(parent[..], rank, bound) && 0 <= x < parent.Length
    ensures root == RootOf(parent[..], rank, bound, x)
  {
    root := x;
    while root != parent[root]
      invariant 0 <= root < parent.Length
      invariant RootOf(parent[..], rank, bound, root) == RootOf(parent[..], rank, bound, x)
      decreases bound - rank[root]
    {
      assert parent[..][root] == parent[root];
      root := parent[root];
    }
  }

  /**
   * The `unite` lambda: finds both roots and, when they differ, hangs the first under the second.
   * The ghost ranks grow so that the parent links still lead strictly upwards.
   */
  method Unite(parent: array<int>, x: int, y: int, ghost rank: seq<nat>, ghost bound: nat)
    returns (joined: bool, ghost rank2: seq<nat>, ghost bound2: nat)
    requires Forest(parent[..], rank, bound) && 0 <= x < parent.Length && 0 <= y < parent.Length
    modifies parent
    ensures Forest(parent[..], rank2, bound2)
    ensures joined <==> RootOf(old(parent[..]), rank, bound, x) != RootOf(old(parent[..]), rank, bound, y)
    ensures !joined ==> parent[..] == old(parent[..]) && rank2 == rank && bound2 == bound
    ensures joined ==> parent[..] == old(parent[..])[RootOf(old(parent[..]), rank, bound, x) := RootOf(old(parent[..]), rank, bound, y)]
  {
    var rx := Find(parent, x, rank, bound);
    var ry := Find(parent, y, rank, bound);
    rank2, bound2 := rank, bound;
    if rx == ry {
      return false, rank2, bound2;
    }
    parent[rx] := ry;
    rank2 := rank[ry := Max(rank[ry], rank[rx] + 1)];
    bound2 := Max(bound, rank2[ry]);
    return true, rank2, bound2;
  }

  /** `roots` is the set of vertices that are their own parent. */
  ghost predicate RootSet(parent: seq<int>, roots: set<int>)
  {
    forall x :: x in roots <==> 0 <= x < |parent| && parent[x] == x
  }

  /** The vertices 0..n-1. */
  function Range(n: nat): (r: set<int>)
    ensures |r| == n
    ensures forall x :: x in r <==> 0 <= x < n
  {
    if n == 0 then {} else Range(n - 1) + {n - 1}
  }

  /** Edge `e` joins `a` and `b`, in either direction. */
  predicate Joins(e: WeightedEdge, a: int, b: int)
  {
    (e.u == a && e.v == b) || (e.u == b && e.v == a)
  }

  /** One of the edges of `kept` joins `a` and `b`. */
  ghost predicate Step(kept: seq<WeightedEdge>, a: int, b: int)
  {
    exists k :: 0 <= k < |kept| && Joins(kept[k], a, b)
  }

  /** `w` is a walk along the edges of `kept`: each two consecutive vertices are joined by one of them. */
  ghost predicate IsWalk(kept: seq<WeightedEdge>, w: seq<int>)
  {
    |w| > 0 && forall i :: 0 <= i < |w| - 1 ==> Step(kept, w[i], w[i + 1])
  }

  /** Some walk along the edges of `kept` leads from `a` to `b`. */
  ghost predicate Connected(kept: seq<WeightedEdge>, a: int, b: int)
  {
    exists w :: IsWalk(kept, w) && w[0] == a && w[|w| - 1] == b
  }

  /**
   * The edges form a forest: each one joins two vertices that the edges before it did not
   * already connect, so no edge closes a cycle.
   */
  ghost predicate Acyclic(kept: seq<WeightedEdge>)
  {
    forall k :: 0 <= k < |kept| ==> !Connected(kept[..k], kept[k].u, kept[k].v)
  }

  /** Every kept edge lies between vertices of the forest and inside one of its trees. */
  ghost predicate KeptWithin(parent: seq<int>, rank: seq<nat>, bound: nat, kept: seq<WeightedEdge>)
    requires Forest(parent, rank, bound)
  {
    forall k :: 0 <= k < |kept| ==>
      0 <= kept[k].u < |parent| && 0 <= kept[k].v < |parent| &&
      RootOf(parent, rank, bound, kept[k].u) == RootOf(parent, rank, bound, kept[k].v)
  }

  /**
   * The union-find trees are the components of the kept edges: vertices with one root are
   * connected by the kept edges (the converse is ConnectedSameRoot).
   */
  ghost predicate Tracks(parent: seq<int>, rank: seq<nat>, bound: nat, kept: seq<WeightedEdge>)
    requires Forest(parent, rank, bound)
  {
    KeptWithin(parent, rank, bound, kept) &&
    forall x, y :: 0 <= x < |parent| && 0 <= y < |parent| ==>
      RootOf(parent, rank, bound, x) == RootOf(parent, rank, bound, y) ==> Connected(kept, x, y)
  }

  /**
   * Graph::minimum_spanning_tree (Kruskal): the edges sorted by weight, each kept when its
   * endpoints lie in different union-find trees, which are then joined.
   */
  method MinimumSpanningTree(g: Graph) returns (result: seq<WeightedEdge>)
    requires g.Valid()
    ensures g.edges == [] ==> result == []
    ensures multiset(result) <= multiset(g.edges)
    ensures SortedByWeight(result)
    ensures |result| <= g.maxVertex
    ensures forall k :: 0 <= k < |result| ==> result[k].u != result[k].v
    ensures Acyclic(result)
    ensures forall k :: 0 <= k < |g.edges| ==> Connected(result, g.edges[k].u, g.edges[k].v)
  {
    result := [];
    if g.edges == [] {
      return;
    }
    var n := g.maxVertex + 1;
    var parent := new int[n](i => i);
    var edges := SortByWeight(g.edges);
    assert forall k :: 0 <= k < |edges| ==> EdgeInRange(edges[k], g.maxVertex) by {
      forall k | 0 <= k < |edges| ensures EdgeInRange(edges[k], g.maxVertex) {
        assert edges[k] in multiset(g.edges);
      }
    }
    result := JoinTrees(parent, edges);
    forall k | 0 <= k < |g.edges| ensures Connected(result, g.edges[k].u, g.edges[k].v) {
      assert g.edges[k] in multiset(edges);
    }
  }

  /**
   * One turn of the Kruskal loop on its union-find side: unite the endpoints of edges[i]; when
   * they were in different trees, the root of the first stops being a root, and the edge is one
   * the loop keeps.
   */
  method JoinStep(parent: array<int>, edges: seq<WeightedEdge>, i: nat, ghost result: seq<WeightedEdge>,
                  ghost roots: set<int>, ghost rank: seq<nat>, ghost bound: nat)
    returns (joined: bool, ghost roots2: set<int>, ghost rank2: seq<nat>, ghost bound2: nat)
    requires Forest(parent[..], rank, bound) && KruskalSoFar(parent[..], rank, bound, result, edges, i)
    requires i < |edges| && SortedByWeight(edges)
    requires RootSet(parent[..], roots)
    modifies parent
    ensures Forest(parent[..], rank2, bound2) && RootSet(parent[..], roots2)
    ensures joined ==> KruskalSoFar(parent[..], rank2, bound2, result + [edges[i]], edges, i + 1)
    ensures !joined ==> KruskalSoFar(parent[..], rank2, bound2, result, edges, i + 1)
    ensures roots2 <= roots && |roots2| == if joined then |roots| - 1 else |roots|
    ensures roots != {} ==> roots2 != {}
    ensures joined <==> RootOf(old(parent[..]), rank, bound, edges[i].u) != RootOf(old(parent[..]), rank, bound, edges[i].v)
    ensures !joined ==> parent[..] == old(parent[..]) && rank2 == rank && bound2 == bound
    ensures joined ==> parent[..] == old(parent[..])[RootOf(old(parent[..]), rank, bound, edges[i].u) := RootOf(old(parent[..]), rank, bound, edges[i].v)]
  {
    var e := edges[i];
    ghost var p0 := parent[..];
    ghost var rootU := RootOf(p0, rank, bound, e.u);
    ghost var rootV := RootOf(p0, rank, bound, e.v);
    joined, rank2, bound2 := Unite(parent, e.u, e.v, rank, bound);
    roots2 := if joined then roots - {rootU} else roots;
    if joined {
      assert rootV in roots2;
      KeptTurn(p0, rank, bound, parent[..], rank2, bound2, result, edges, i);
    } else {
      SkippedTurn(p0, rank, bound, result, edges, i);
    }
  }

  /** The loop of minimum_spanning_tree over the sorted edges, starting from singleton trees. */
  method JoinTrees(parent: array<int>, edges: seq<WeightedEdge>) returns (result: seq<WeightedEdge>)
    requires forall x :: 0 <= x < parent.Length ==> parent[x] == x
    requires forall k :: 0 <= k < |edges| ==> 0 <= edges[k].u < parent.Length && 0 <= edges[k].v < parent.Length
    requires SortedByWeight(edges)
    modifies parent
    ensures multiset(result) <= multiset(edges)
    ensures SortedByWeight(result)
    ensures |result| < parent.Length || parent.Length == 0
    ensures forall k :: 0 <= k < |result| ==> result[k].u != result[k].v
    ensures Acyclic(result)
    ensures forall k :: 0 <= k < |edges| ==> Connected(result, edges[k].u, edges[k].v)
  {
    result := [];
    var n := parent.Length;
    if n == 0 {
      return;
    }
    ghost var rank: seq<nat>, bound: nat := KruskalStart(parent[..], edges);
    ghost var roots := Range(n);
    for i := 0 to |edges|
      invariant Forest(parent[..], rank, bound) && RootSet(parent[..], roots)
      invariant |result| + |roots| == n && roots != {}
      invariant KruskalSoFar(parent[..], rank, bound, result, edges, i)
    {
      var joined;
      joined, roots, rank, bound := JoinStep(parent, edges, i, result, roots, rank, bound);
      if joined {
        result := result + [edges[i]];
      }
    }
    KruskalDone(parent[..], rank, bound, result, edges);
  }

  /**
   * What the Kruskal loop keeps true after the first i sorted edges: the kept edges are a sorted
   * sub-multiset of them, no heavier than the edges still to come and without self-loops; they
   * form a forest whose trees are the union-find trees; and each edge seen so far lies inside one
   * tree.
   */
  ghost predicate KruskalSoFar(parent: seq<int>, rank: seq<nat>, bound: nat, result: seq<WeightedEdge>,
                               edges: seq<WeightedEdge>, i: nat)
    requires Forest(parent, rank, bound)
  {
    i <= |edges| &&
    (forall k :: 0 <= k < |edges| ==> 0 <= edges[k].u < |parent| && 0 <= edges[k].v < |parent|) &&
    multiset(result) <= multiset(edges[..i]) && SortedByWeight(result) &&
    (forall k, j :: 0 <= k < |result| && i <= j < |edges| ==> result[k].weight <= edges[j].weight) &&
    (forall k :: 0 <= k < |result| ==> result[k].u != result[k].v) &&
    Tracks(parent, rank, bound, result) && Acyclic(result) &&
    forall j :: 0 <= j < i ==> RootOf(parent, rank, bound, edges[j].u) == RootOf(parent, rank, bound, edges[j].v)
  }

  /** Before the first turn: singleton trees, all of rank 0, and no kept edge. */
  lemma {:induction false} KruskalStart(parent: seq<int>, edges: seq<WeightedEdge>) returns (rank: seq<nat>, bound: nat)
    requires forall x :: 0 <= x < |parent| ==> parent[x] == x
    requires forall k :: 0 <= k < |edges| ==> 0 <= edges[k].u < |parent| && 0 <= edges[k].v < |parent|
    ensures Forest(parent, rank, bound) && KruskalSoFar(parent, rank, bound, [], edges, 0)
  {
    rank, bound := seq(|parent|, _ => 0), 0;
    SingletonsTrack(parent, rank, bound);
  }

  /**
   * After the last turn: the kept edges are a sorted forest drawn from the edges, and they connect
   * the endpoints of every edge.
   */
  lemma {:induction false} KruskalDone(parent: seq<int>, rank: seq<nat>, bound: nat, result: seq<WeightedEdge>,
                                       edges: seq<WeightedEdge>)
    requires Forest(parent, rank, bound) && KruskalSoFar(parent, rank, bound, result, edges, |edges|)
    ensures multiset(result) <= multiset(edges) && SortedByWeight(result)
    ensures forall k :: 0 <= k < |result| ==> result[k].u != result[k].v
    ensures Acyclic(result)
    ensures forall k :: 0 <= k < |edges| ==> Connected(result, edges[k].u, edges[k].v)
  {
    assert edges[..|edges|] == edges;
  }

  /** A turn that keeps edges[i], whose endpoints lay in different trees that the union joined. */
  lemma {:induction false} KeptTurn(parent: seq<int>, rank: seq<nat>, bound: nat, parent2: seq<int>, rank2: seq<nat>,
                                    bound2: nat, result: seq<WeightedEdge>, edges: seq<WeightedEdge>, i: nat)
    requires Forest(parent, rank, bound) && KruskalSoFar(parent, rank, bound, result, edges, i)
    requires i < |edges| && SortedByWeight(edges)
    requires RootOf(parent, rank, bound, edges[i].u) != RootOf(parent, rank, bound, edges[i].v)
    requires parent2 == parent[RootOf(parent, rank, bound, edges[i].u) := RootOf(parent, rank, bound, edges[i].v)]
    requires Forest(parent2, rank2, bound2)
    ensures KruskalSoFar(parent2, rank2, bound2, result + [edges[i]], edges, i + 1)
  {
    var e := edges[i];
    KeptEdge(result, edges, i);
    LinkTracks(parent, rank, bound, parent2, rank2, bound2, result, e);
    AcyclicGrows(result, e);
  }

  /** A turn that skips edges[i], whose endpoints already lay in one tree: nothing changes. */
  lemma {:induction false} SkippedTurn(parent: seq<int>, rank: seq<nat>, bound: nat, result: seq<WeightedEdge>,
                                       edges: seq<WeightedEdge>, i: nat)
    requires Forest(parent, rank, bound) && KruskalSoFar(parent, rank, bound, result, edges, i)
    requires i < |edges| && RootOf(parent, rank, bound, edges[i].u) == RootOf(parent, rank, bound, edges[i].v)
    ensures KruskalSoFar(parent, rank, bound, result, edges, i + 1)
  {
    SkippedEdge(result, edges, i);
  }

  /** A walk along some edges is a walk along those edges and one more. */
  lemma {:induction false} WalkGrows(kept: seq<WeightedEdge>, e: WeightedEdge, w: seq<int>)
    requires IsWalk(kept, w)
    ensures IsWalk(kept + [e], w)
  {
    forall i | 0 <= i < |w| - 1
      ensures Step(kept + [e], w[i], w[i + 1])
    {
      StepGrows(kept, e, w[i], w[i + 1]);
    }
  }

  /** A step along some edges is a step along those edges and one more. */
  lemma {:induction false} StepGrows(kept: seq<WeightedEdge>, e: WeightedEdge, a: int, b: int)
    requires Step(kept, a, b)
    ensures Step(kept + [e], a, b)
  {
    var k :| 0 <= k < |kept| && Joins(kept[k], a, b);
    assert (kept + [e])[k] == kept[k];
  }

  /** Connecting edges stay connecting when one more edge is kept. */
  lemma {:induction false} ConnectedGrows(kept: seq<WeightedEdge>, e: WeightedEdge, x: int, y: int)
    requires Connected(kept, x, y)
    ensures Connected(kept + [e], x, y)
  {
    var w :| IsWalk(kept, w) && w[0] == x && w[|w| - 1] == y;
    WalkGrows(kept, e, w);
  }

  /** A walk to `a`, the new edge from `a` to `b`, and a walk from `b`, make one walk. */
  lemma {:induction false} ConnectedThrough(kept: seq<WeightedEdge>, e: WeightedEdge, x: int, a: int, b: int, y: int)
    requires Connected(kept, x, a) && Joins(e, a, b) && Connected(kept, b, y)
    ensures Connected(kept + [e], x, y)
  {
    var ke := kept + [e];
    var w1 :| IsWalk(kept, w1) && w1[0] == x && w1[|w1| - 1] == a;
    var w2 :| IsWalk(kept, w2) && w2[0] == b && w2[|w2| - 1] == y;
    WalkGrows(kept, e, w1);
    WalkGrows(kept, e, w2);
    var w := w1 + w2;
    forall i | 0 <= i < |w| - 1
      ensures Step(ke, w[i], w[i + 1])
    {
      if i < |w1| - 1 {
        assert w[i] == w1[i] && w[i + 1] == w1[i + 1];
      } else if i == |w1| - 1 {
        assert w[i] == a && w[i + 1] == b && ke[|kept|] == e;
      } else {
        assert w[i] == w2[i - |w1|] && w[i + 1] == w2[i - |w1| + 1];
      }
    }
    assert IsWalk(ke, w) && w[0] == x && w[|w| - 1] == y;
  }

  /** A walk along kept edges never leaves the union-find tree it starts in. */
  lemma {:induction false} WalkKeepsRoot(parent: seq<int>, rank: seq<nat>, bound: nat, kept: seq<WeightedEdge>, w: seq<int>)
    requires Forest(parent, rank, bound) && KeptWithin(parent, rank, bound, kept)
    requires IsWalk(kept, w) && 0 <= w[0] < |parent|
    ensures 0 <= w[|w| - 1] < |parent|
    ensures RootOf(parent, rank, bound, w[|w| - 1]) == RootOf(parent, rank, bound, w[0])
    decreases |w|
  {
    if |w| > 1 {
      var v := w[..|w| - 1];
      forall i | 0 <= i < |v| - 1
        ensures Step(kept, v[i], v[i + 1])
      {
        assert v[i] == w[i] && v[i + 1] == w[i + 1];
      }
      WalkKeepsRoot(parent, rank, bound, kept, v);
      assert Step(kept, w[|w| - 2], w[|w| - 1]);
      var k :| 0 <= k < |kept| && Joins(kept[k], w[|w| - 2], w[|w| - 1]);
    }
  }

  /** Vertices connected by the kept edges share their union-find root. */
  lemma {:induction false} ConnectedSameRoot(parent: seq<int>, rank: seq<nat>, bound: nat, kept: seq<WeightedEdge>, x: int, y: int)
    requires Forest(parent, rank, bound) && KeptWithin(parent, rank, bound, kept)
    requires Connected(kept, x, y) && 0 <= x < |parent|
    ensures 0 <= y < |parent| && RootOf(parent, rank, bound, x) == RootOf(parent, rank, bound, y)
  {
    var w :| IsWalk(kept, w) && w[0] == x && w[|w| - 1] == y;
    WalkKeepsRoot(parent, rank, bound, kept, w);
  }

  /** Hanging root `rx` under root `ry` moves exactly the vertices of the tree of `rx` to the tree of `ry`. */
  lemma {:induction false} RootAfterLink(parent: seq<int>, rank: seq<nat>, bound: nat, rx: int, ry: int,
                                         rank2: seq<nat>, bound2: nat, z: int)
    requires Forest(parent, rank, bound) && 0 <= rx < |parent| && 0 <= ry < |parent|
    requires parent[rx] == rx && parent[ry] == ry && rx != ry
    requires Forest(parent[rx := ry], rank2, bound2) && 0 <= z < |parent|
    ensures RootOf(parent[rx := ry], rank2, bound2, z)
            == if RootOf(parent, rank, bound, z) == rx then ry else RootOf(parent, rank, bound, z)
    decreases bound - rank[z]
  {
    if parent[z] != z {
      RootAfterLink(parent, rank, bound, rx, ry, rank2, bound2, parent[z]);
    } else if z == rx {
      assert RootOf(parent[rx := ry], rank2, bound2, ry) == ry;
    }
  }

  /** Keeping an edge whose endpoints were not yet connected keeps the edges a forest. */
  lemma {:induction false} AcyclicGrows(kept: seq<WeightedEdge>, e: WeightedEdge)
    requires Acyclic(kept) && !Connected(kept, e.u, e.v)
    ensures Acyclic(kept + [e])
  {
    var ke := kept + [e];
    forall k | 0 <= k < |ke|
      ensures !Connected(ke[..k], ke[k].u, ke[k].v)
    {
      if k < |kept| {
        assert ke[..k] == kept[..k] && ke[k] == kept[k];
      } else {
        assert ke[..k] == kept;
      }
    }
  }

  /** At the start every vertex is its own tree, and no edge is kept. */
  lemma {:induction false} SingletonsTrack(parent: seq<int>, rank: seq<nat>, bound: nat)
    requires Forest(parent, rank, bound)
    requires forall x :: 0 <= x < |parent| ==> parent[x] == x
    ensures Tracks(parent, rank, bound, [])
  {
    forall x, y | 0 <= x < |parent| && 0 <= y < |parent| && RootOf(parent, rank, bound, x) == RootOf(parent, rank, bound, y)
      ensures Connected([], x, y)
    {
      assert IsWalk([], [x]);
    }
  }

  /**
   * A kept edge: its endpoints were not yet connected, and after the union the trees are again
   * the components of the kept edges, every pair of vertices that shared a root still does, and
   * the endpoints of the edge now do.
   */
  lemma {:induction false} LinkTracks(parent: seq<int>, rank: seq<nat>, bound: nat, parent2: seq<int>, rank2: seq<nat>,
                                      bound2: nat, kept: seq<WeightedEdge>, e: WeightedEdge)
    requires Forest(parent, rank, bound) && Tracks(parent, rank, bound, kept)
    requires 0 <= e.u < |parent| && 0 <= e.v < |parent|
    requires RootOf(parent, rank, bound, e.u) != RootOf(parent, rank, bound, e.v)
    requires parent2 == parent[RootOf(parent, rank, bound, e.u) := RootOf(parent, rank, bound, e.v)]
    requires Forest(parent2, rank2, bound2)
    ensures !Connected(kept, e.u, e.v)
    ensures Tracks(parent2, rank2, bound2, kept + [e])
    ensures forall x, y :: 0 <= x < |parent| && 0 <= y < |parent| ==>
      RootOf(parent, rank, bound, x) == RootOf(parent, rank, bound, y) ==> RootOf(parent2, rank2, bound2, x) == RootOf(parent2, rank2, bound2, y)
    ensures RootOf(parent2, rank2, bound2, e.u) == RootOf(parent2, rank2, bound2, e.v)
  {
    var ru, rv := RootOf(parent, rank, bound, e.u), RootOf(parent, rank, bound, e.v);
    if Connected(kept, e.u, e.v) {
      ConnectedSameRoot(parent, rank, bound, kept, e.u, e.v);
    }
    forall z | 0 <= z < |parent|
      ensures RootOf(parent2, rank2, bound2, z) == if RootOf(parent, rank, bound, z) == ru then rv else RootOf(parent, rank, bound, z)
    {
      RootAfterLink(parent, rank, bound, ru, rv, rank2, bound2, z);
    }
    var ke := kept + [e];
    forall k | 0 <= k < |ke|
      ensures 0 <= ke[k].u < |parent2| && 0 <= ke[k].v < |parent2|
      ensures RootOf(parent2, rank2, bound2, ke[k].u) == RootOf(parent2, rank2, bound2, ke[k].v)
    {
      if k < |kept| {
        assert ke[k] == kept[k];
      }
    }
    forall x, y | 0 <= x < |parent2| && 0 <= y < |parent2| && RootOf(parent2, rank2, bound2, x) == RootOf(parent2, rank2, bound2, y)
      ensures Connected(ke, x, y)
    {
      var rx, ry := RootOf(parent, rank, bound, x), RootOf(parent, rank, bound, y);
      if rx == ry {
        ConnectedGrows(kept, e, x, y);
      } else if rx == ru {
        ConnectedThrough(kept, e, x, e.u, e.v, y);
      } else {
        ConnectedThrough(kept, e, x, e.v, e.u, y);
      }
    }
  }

  /** A turn of the Kruskal loop that keeps edges[i]: the kept edges stay a sorted sub-multiset. */
  lemma {:induction false} KeptEdge(result: seq<WeightedEdge>, edges: seq<WeightedEdge>, i: nat)
    requires i < |edges| && SortedByWeight(edges)
    requires multiset(result) <= multiset(edges[..i]) && SortedByWeight(result)
    requires forall k, j :: 0 <= k < |result| && i <= j < |edges| ==> result[k].weight <= edges[j].weight
    ensures multiset(result + [edges[i]]) <= multiset(edges[..i + 1])
    ensures SortedByWeight(result + [edges[i]])
    ensures forall k, j :: 0 <= k <= |result| && i + 1 <= j < |edges| ==> (result + [edges[i]])[k].weight <= edges[j].weight
  {
    var r := result + [edges[i]];
    assert edges[..i + 1] == edges[..i] + [edges[i]];
    assert multiset(r) == multiset(result) + multiset{edges[i]};
    forall k, j | 0 <= k < j < |r| ensures r[k].weight <= r[j].weight {
      if j < |result| {
        assert r[k] == result[k] && r[j] == result[j];
      } else {
        assert r[k] == result[k] && r[j] == edges[i];
      }
    }
    forall k, j | 0 <= k < |r| && i + 1 <= j < |edges| ensures r[k].weight <= edges[j].weight {
      if k < |result| {
        assert r[k] == result[k];
      } else {
        assert r[k] == edges[i];
      }
    }
  }

  /** A turn of the Kruskal loop that skips edges[i]: the kept edges are still fine one step on. */
  lemma {:induction false} SkippedEdge(result: seq<WeightedEdge>, edges: seq<WeightedEdge>, i: nat)
    requires i < |edges|
    requires multiset(result) <= multiset(edges[..i])
    requires forall k, j :: 0 <= k < |result| && i <= j < |edges| ==> result[k].weight <= edges[j].weight
    ensures multiset(result) <= multiset(edges[..i + 1])
    ensures forall k, j :: 0 <= k < |result| && i + 1 <= j < |edges| ==> result[k].weight <= edges[j].weight
  {
    assert edges[..i + 1] == edges[..i] + [edges[i]];
  }

  /** A graph built only through add_edge passes every check of the (corrected) validation. */
  lemma ValidPassesChecks(g: Graph)
    requires g.Valid()
    ensures g.maxVertex < |g.adj| || g.adj == []
    ensures g.NeighboursChecked(g.Scanned()) && g.EdgesChecked()
  {
  }

  /** With no edge at all there is no adjacency list, so the as-written scan reads adj_[0] of nothing. */
  lemma EmptyGraphScanOutOfRange(g: Graph)
    requires g.Valid() && g.edges == []
    ensures !(g.maxVertex < |g.adj|)
  {
  }
}
