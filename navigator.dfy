/**
 * Shortest paths over a directed weighted graph (HomeWorks2dSemester/Navigator/Navigator.cpp):
 * Bellman-Ford with negative-cycle detection, and A* with path reconstruction. Weights are
 * integers and `Inf` stands for the double infinity the source uses for "unreached".
 */
module Navigation {
  import opened Common

  datatype Dist = Inf | Fin(d: int)

  /** `dist[u] + weight` in double arithmetic: infinity absorbs any finite weight. */
  function Add(a: Dist, w: int): Dist
  {
    match a
    case Inf => Inf
    case Fin(d) => Fin(d + w)
  }

  /** `a < b` on doubles, where nothing is below infinity and infinity is below nothing. */
  predicate Less(a: Dist, b: Dist)
  {
    a.Fin? && (b.Inf? || a.d < b.d)
  }

  /** Every edge of every list leads to a vertex 0..n-1, and there is one list per vertex. */
  predicate WellFormed(adj: seq<seq<(int, int)>>, n: nat)
  {
    |adj| == n && forall u, k :: 0 <= u < n && 0 <= k < |adj[u]| ==> 0 <= adj[u][k].0 < n
  }

  /** The test of both Bellman-Ford loops: `dist[u]` is finite and `dist[u] + w < dist[v]`. */
  predicate CanRelax(dist: seq<Dist>, u: nat, e: (int, int))
    requires u < |dist| && 0 <= e.0 < |dist|
  {
    dist[u] != Inf && Less(Add(dist[u], e.1), dist[e.0])
  }

  /** One relaxation of the edge u -> e.0 with weight e.1. */
  function RelaxEdge(dist: seq<Dist>, u: nat, e: (int, int)): (r: seq<Dist>)
    requires u < |dist| && 0 <= e.0 < |dist|
    ensures |r| == |dist|
  {
    if CanRelax(dist, u, e) then dist[e.0 := Add(dist[u], e.1)] else dist
  }

  /** The edges of one list relaxed in order; `dist[u]` is read afresh at every edge. */
  function RelaxList(dist: seq<Dist>, u: nat, es: seq<(int, int)>): (r: seq<Dist>)
    requires u < |dist| && forall k :: 0 <= k < |es| ==> 0 <= es[k].0 < |dist|
    ensures |r| == |dist|
  {
    if es == [] then dist else RelaxEdge(RelaxList(dist, u, es[..|es| - 1]), u, es[|es| - 1])
  }

  /** One round: the lists of vertices 0..m-1, in that order. */
  function RelaxVertices(dist: seq<Dist>, adj: seq<seq<(int, int)>>, m: nat): (r: seq<Dist>)
    requires WellFormed(adj, |dist|) && m <= |dist|
    ensures |r| == |dist|
  {
    if m == 0 then dist else RelaxList(RelaxVertices(dist, adj, m - 1), m - 1, adj[m - 1])
  }

  /** `rounds` full rounds over all vertices. */
  function Rounds(dist: seq<Dist>, adj: seq<seq<(int, int)>>, rounds: nat): (r: seq<Dist>)
    requires WellFormed(adj, |dist|)
    ensures |r| == |dist|
  {
    if rounds == 0 then dist else RelaxVertices(Rounds(dist, adj, rounds - 1), adj, |dist|)
  }

  /** reset_distances followed by `dist[source] = 0`. */
  function Initial(n: nat, source: nat): (r: seq<Dist>)
    requires source < n
    ensures |r| == n && r[source] == Fin(0) && forall v :: 0 <= v < n && v != source ==> r[v] == Inf
  {
    seq(n, v => if v == source then Fin(0) else Inf)
  }

  /** No edge can be relaxed any more. */
  predicate Stable(dist: seq<Dist>, adj: seq<seq<(int, int)>>)
    requires WellFormed(adj, |dist|)
  {
    forall u, k :: 0 <= u < |adj| && 0 <= k < |adj[u]| ==> !CanRelax(dist, u, adj[u][k])
  }

  /** A stable table satisfies the triangle inequality along every edge with a finite tail. */
  lemma StableTriangle(dist: seq<Dist>, adj: seq<seq<(int, int)>>, u: nat, k: nat)
    requires WellFormed(adj, |dist|) && Stable(dist, adj)
    requires u < |adj| && k < |adj[u]| && dist[u].Fin?
    ensures dist[adj[u][k].0].Fin? && dist[adj[u][k].0].d <= dist[u].d + adj[u][k].1
  {
    assert !CanRelax(dist, u, adj[u][k]);
  }

  /** A relaxation never raises a distance and never makes one infinite. */
  lemma {:induction false} RelaxListMonotone(dist: seq<Dist>, u: nat, es: seq<(int, int)>, v: nat)
    requires u < |dist| && forall k :: 0 <= k < |es| ==> 0 <= es[k].0 < |dist|
    requires v < |dist|
    ensures !Less(dist[v], RelaxList(dist, u, es)[v])
    decreases |es|
  {
    if es != [] {
      RelaxListMonotone(dist, u, es[..|es| - 1], v);
    }
  }

  /**
   * A finite distance is the weight of a walk from the source: `Reaches(adj, source, v, d)`
   * says some walk of edges of `adj` leads from `source` to `v` with total weight `d`.
   */
  ghost predicate Reaches(adj: seq<seq<(int, int)>>, source: int, v: int, d: int)
  {
    exists walk: seq<(int, nat)> :: IsWalk(adj, source, walk, v, d)
  }

  /** `walk` lists (tail, index of the edge in the tail's list), leading from `source` to `v`. */
  ghost predicate IsWalk(adj: seq<seq<(int, int)>>, source: int, walk: seq<(int, nat)>, v: int, d: int)
    decreases |walk|
  {
    if walk == [] then v == source && d == 0
    else
      var (t, k) := walk[|walk| - 1];
      0 <= t < |adj| && k < |adj[t]| && adj[t][k].0 == v &&
      IsWalk(adj, source, walk[..|walk| - 1], t, d - adj[t][k].1)
  }

  /** Every finite entry of the table is the weight of a walk from the source. */
  ghost predicate Sound(dist: seq<Dist>, adj: seq<seq<(int, int)>>, source: int)
  {
    forall v :: 0 <= v < |dist| && dist[v].Fin? ==> Reaches(adj, source, v, dist[v].d)
  }

  lemma SoundInitial(adj: seq<seq<(int, int)>>, n: nat, source: nat)
    requires source < n
    ensures Sound(Initial(n, source), adj, source)
  {
    assert IsWalk(adj, source, [], source, 0);
  }

  lemma SoundRelaxEdge(dist: seq<Dist>, adj: seq<seq<(int, int)>>, source: int, u: nat, k: nat)
    requires WellFormed(adj, |dist|) && u < |adj| && k < |adj[u]|
    requires Sound(dist, adj, source)
    ensures Sound(RelaxEdge(dist, u, adj[u][k]), adj, source)
  {
    var e := adj[u][k];
    if CanRelax(dist, u, e) {
      var walk: seq<(int, nat)> :| IsWalk(adj, source, walk, u, dist[u].d);
      var longer := walk + [(u, k)];
      assert longer[..|longer| - 1] == walk;
      assert IsWalk(adj, source, longer, e.0, dist[u].d + e.1);
    }
  }

  lemma {:induction false} SoundRelaxList(dist: seq<Dist>, adj: seq<seq<(int, int)>>, source: int, u: nat, m: nat)
    requires WellFormed(adj, |dist|) && u < |adj| && m <= |adj[u]|
    requires Sound(dist, adj, source)
    ensures Sound(RelaxList(dist, u, adj[u][..m]), adj, source)
  {
    if m > 0 {
      assert adj[u][..m][..m - 1] == adj[u][..m - 1];
      SoundRelaxList(dist, adj, source, u, m - 1);
      SoundRelaxEdge(RelaxList(dist, u, adj[u][..m - 1]), adj, source, u, m - 1);
    }
  }

  lemma {:induction false} SoundRounds(dist: seq<Dist>, adj: seq<seq<(int, int)>>, source: int, rounds: nat)
    requires WellFormed(adj, |dist|) && Sound(dist, adj, source)
    ensures Sound(Rounds(dist, adj, rounds), adj, source)
  {
    if rounds > 0 {
      SoundRounds(dist, adj, source, rounds - 1);
      SoundVertices(Rounds(dist, adj, rounds - 1), adj, source, |dist|);
    }
  }

  lemma {:induction false} SoundVertices(dist: seq<Dist>, adj: seq<seq<(int, int)>>, source: int, m: nat)
    requires WellFormed(adj, |dist|) && m <= |dist| && Sound(dist, adj, source)
    ensures Sound(RelaxVertices(dist, adj, m), adj, source)
  {
    if m > 0 {
      SoundVertices(dist, adj, source, m - 1);
      var list := adj[m - 1];
      assert list[..|list|] == list;
      SoundRelaxList(RelaxVertices(dist, adj, m - 1), adj, source, m - 1, |list|);
    }
  }


  /** `a <= b` on doubles, where infinity is above every number. */
  predicate Below(a: Dist, b: Dist)
  {
    b.Inf? || (a.Fin? && a.d <= b.d)
  }

  /** Relaxing an edge with a finite tail leaves its head at most the tail's distance plus the weight. */
  lemma RelaxEdgeBound(dist: seq<Dist>, u: nat, e: (int, int))
    requires u < |dist| && 0 <= e.0 < |dist| && dist[u].Fin?
    ensures Below(RelaxEdge(dist, u, e)[e.0], Fin(dist[u].d + e.1))
  {
  }

  /** Relaxing more edges of a list never raises a distance. */
  lemma {:induction false} RelaxListFrom(dist: seq<Dist>, u: nat, es: seq<(int, int)>, m: nat, j: nat, x: nat)
    requires u < |dist| && forall k :: 0 <= k < |es| ==> 0 <= es[k].0 < |dist|
    requires m <= j <= |es| && x < |dist|
    ensures Below(RelaxList(dist, u, es[..j])[x], RelaxList(dist, u, es[..m])[x])
    decreases j - m
  {
    if m < j {
      RelaxListFrom(dist, u, es, m, j - 1, x);
      assert es[..j][..j - 1] == es[..j - 1];
      RelaxListMonotone(RelaxList(dist, u, es[..j - 1]), u, [es[j - 1]], x);
    }
  }

  /** Relaxing the lists of more vertices never raises a distance. */
  lemma {:induction false} RelaxVerticesFrom(dist: seq<Dist>, adj: seq<seq<(int, int)>>, m: nat, j: nat, x: nat)
    requires WellFormed(adj, |dist|) && m <= j <= |dist| && x < |dist|
    ensures Below(RelaxVertices(dist, adj, j)[x], RelaxVertices(dist, adj, m)[x])
    decreases j - m
  {
    if m < j {
      RelaxVerticesFrom(dist, adj, m, j - 1, x);
      RelaxListMonotone(RelaxVertices(dist, adj, j - 1), j - 1, adj[j - 1], x);
    }
  }

  /** The source's distance never rises above the 0 it starts with. */
  lemma {:induction false} SourceAtMostZero(adj: seq<seq<(int, int)>>, source: nat, r: nat)
    requires WellFormed(adj, |adj|) && source < |adj|
    ensures Below(Rounds(Initial(|adj|, source), adj, r)[source], Fin(0))
  {
    if r > 0 {
      SourceAtMostZero(adj, source, r - 1);
      RelaxVerticesFrom(Rounds(Initial(|adj|, source), adj, r - 1), adj, 0, |adj|, source);
    }
  }

  /**
   * After r rounds, the end of every walk of at most r edges from the source has a finite
   * distance no larger than the walk's weight.
   */
  lemma {:induction false} RoundsBoundWalks(adj: seq<seq<(int, int)>>, source: nat, r: nat, walk: seq<(int, nat)>, v: int, w: int)
    requires WellFormed(adj, |adj|) && source < |adj|
    requires IsWalk(adj, source, walk, v, w) && |walk| <= r
    ensures 0 <= v < |adj| && Below(Rounds(Initial(|adj|, source), adj, r)[v], Fin(w))
    decreases r
  {
    var n := |adj|;
    if walk == [] {
      SourceAtMostZero(adj, source, r);
    } else {
      var (t, k) := walk[|walk| - 1];
      var e := adj[t][k];
      RoundsBoundWalks(adj, source, r - 1, walk[..|walk| - 1], t, w - e.1);
      var before := Rounds(Initial(n, source), adj, r - 1);
      var a := RelaxVertices(before, adj, t);
      RelaxVerticesFrom(before, adj, 0, t, t);
      assert adj[t][..0] == [];
      RelaxListFrom(a, t, adj[t], 0, k, t);
      var b := RelaxList(a, t, adj[t][..k]);
      assert adj[t][..k + 1][..k] == adj[t][..k];
      RelaxEdgeBound(b, t, e);
      RelaxListFrom(a, t, adj[t], k + 1, |adj[t]|, v);
      assert adj[t][..|adj[t]|] == adj[t];
      RelaxVerticesFrom(before, adj, t + 1, n, v);
    }
  }

  /** Every step of a walk leaves a vertex, and so does its end when the lists are well formed. */
  lemma {:induction false} WalkInRange(adj: seq<seq<(int, int)>>, s: int, walk: seq<(int, nat)>, v: int, w: int)
    requires WellFormed(adj, |adj|) && 0 <= s < |adj| && IsWalk(adj, s, walk, v, w)
    ensures 0 <= v < |adj| && forall i :: 0 <= i < |walk| ==> 0 <= walk[i].0 < |adj|
    decreases |walk|
  {
    if walk != [] {
      var (t, k) := walk[|walk| - 1];
      WalkInRange(adj, s, walk[..|walk| - 1], t, w - adj[t][k].1);
    }
  }

  /** The vertex a walk ending at v is at after its first i steps. */
  function Vertex(walk: seq<(int, nat)>, v: int, i: nat): int
  {
    if i < |walk| then walk[i].0 else v
  }

  /** A walk splits after any number of steps into two walks whose weights add up. */
  lemma {:induction false} WalkSplit(adj: seq<seq<(int, int)>>, s: int, walk: seq<(int, nat)>, v: int, w: int, i: nat)
    returns (w1: int)
    requires IsWalk(adj, s, walk, v, w) && i <= |walk|
    ensures IsWalk(adj, s, walk[..i], Vertex(walk, v, i), w1)
    ensures IsWalk(adj, Vertex(walk, v, i), walk[i..], v, w - w1)
    decreases |walk|
  {
    if i == |walk| {
      w1 := w;
      assert walk[..i] == walk && walk[i..] == [];
    } else {
      var (t, k) := walk[|walk| - 1];
      var pre := walk[..|walk| - 1];
      w1 := WalkSplit(adj, s, pre, t, w - adj[t][k].1, i);
      assert Vertex(pre, t, i) == Vertex(walk, v, i);
      assert walk[..i] == pre[..i];
      var rest := walk[i..];
      assert rest[..|rest| - 1] == pre[i..];
    }
  }

  /** Two walks that meet join into one whose weight is the sum. */
  lemma {:induction false} WalkConcat(adj: seq<seq<(int, int)>>, s: int, a: seq<(int, nat)>, x: int, w1: int, b: seq<(int, nat)>, v: int, w2: int)
    requires IsWalk(adj, s, a, x, w1) && IsWalk(adj, x, b, v, w2)
    ensures IsWalk(adj, s, a + b, v, w1 + w2)
    decreases |b|
  {
    if b == [] {
      assert a + b == a;
    } else {
      var (t, k) := b[|b| - 1];
      WalkConcat(adj, s, a, x, w1, b[..|b| - 1], t, w2 - adj[t][k].1);
      assert (a + b)[..|a + b| - 1] == a + b[..|b| - 1];
    }
  }

  /** More than n values in 0..n-1 repeat one of them. */
  lemma {:induction false} Pigeonhole(s: seq<int>, n: nat) returns (i: nat, j: nat)
    requires |s| > n && forall k :: 0 <= k < |s| ==> 0 <= s[k] < n
    ensures i < j < |s| && s[i] == s[j]
    decreases n
  {
    var last := s[|s| - 1];
    if k :| 0 <= k < |s| - 1 && s[k] == last {
      i, j := k, |s| - 1;
    } else {
      var t := seq(|s| - 1, k requires 0 <= k < |s| - 1 => if s[k] < last then s[k] else s[k] - 1);
      i, j := Pigeonhole(t, n - 1);
    }
  }

  /** No closed walk through a vertex reachable from the source has negative weight. */
  ghost predicate NoNegativeCycle(adj: seq<seq<(int, int)>>, source: int)
  {
    forall x, a, c :: Reaches(adj, source, x, a) && Reaches(adj, x, x, c) ==> c >= 0
  }

  /**
   * Without a reachable negative cycle, every walk from the source has a walk to the same end
   * with fewer than |V| edges and no greater weight.
   */
  lemma {:induction false} ShortWalk(adj: seq<seq<(int, int)>>, source: int, walk: seq<(int, nat)>, v: int, w: int)
    returns (short: seq<(int, nat)>, ws: int)
    requires WellFormed(adj, |adj|) && 0 <= source < |adj| && NoNegativeCycle(adj, source)
    requires IsWalk(adj, source, walk, v, w)
    ensures |short| < |adj| && ws <= w && IsWalk(adj, source, short, v, ws)
    decreases |walk|
  {
    if |walk| < |adj| {
      return walk, w;
    }
    var cut, wc := CutCycle(adj, source, walk, v, w);
    short, ws := ShortWalk(adj, source, cut, v, wc);
  }

  /**
   * A walk of at least |V| edges repeats a vertex; cutting out the closed walk between the
   * repeats leaves a shorter walk to the same end, and no heavier one when that closed walk is
   * not negative.
   */
  lemma CutCycle(adj: seq<seq<(int, int)>>, source: int, walk: seq<(int, nat)>, v: int, w: int)
    returns (cut: seq<(int, nat)>, wc: int)
    requires WellFormed(adj, |adj|) && 0 <= source < |adj| && NoNegativeCycle(adj, source)
    requires IsWalk(adj, source, walk, v, w) && |walk| >= |adj|
    ensures |cut| < |walk| && wc <= w && IsWalk(adj, source, cut, v, wc)
  {
    WalkInRange(adj, source, walk, v, w);
    var vs := seq(|walk| + 1, k requires 0 <= k <= |walk| => Vertex(walk, v, k));
    var i, j := Pigeonhole(vs, |adj|);
    var x := Vertex(walk, v, j);
    var wj := WalkSplit(adj, source, walk, v, w, j);
    var head := walk[..j];
    var wi := WalkSplit(adj, source, head, x, wj, i);
    assert Vertex(head, x, i) == x;
    assert Reaches(adj, source, x, wi);
    assert Reaches(adj, x, x, wj - wi);
    assert head[..i] == walk[..i];
    WalkConcat(adj, source, walk[..i], x, wi, walk[j..], v, w - wj);
    cut, wc := walk[..i] + walk[j..], wi + (w - wj);
  }

  /** Along any walk, a stable table grows by at most the walk's weight. */
  lemma {:induction false} StableWalk(dist: seq<Dist>, adj: seq<seq<(int, int)>>, s: int, walk: seq<(int, nat)>, v: int, w: int)
    requires WellFormed(adj, |dist|) && Stable(dist, adj)
    requires 0 <= s < |dist| && dist[s].Fin? && IsWalk(adj, s, walk, v, w)
    ensures 0 <= v < |dist| && dist[v].Fin? && dist[v].d <= dist[s].d + w
    decreases |walk|
  {
    if walk != [] {
      var (t, k) := walk[|walk| - 1];
      StableWalk(dist, adj, s, walk[..|walk| - 1], t, w - adj[t][k].1);
      StableTriangle(dist, adj, t, k);
    }
  }

  /**
   * In a table with nothing left to relax and the source at most 0, every vertex reachable from
   * the source has a finite distance no larger than the weight of any walk to it.
   */
  lemma StableLeast(dist: seq<Dist>, adj: seq<seq<(int, int)>>, source: int, v: int, w: int)
    requires WellFormed(adj, |dist|) && Stable(dist, adj)
    requires 0 <= source < |dist| && Below(dist[source], Fin(0)) && Reaches(adj, source, v, w)
    ensures 0 <= v < |dist| && Below(dist[v], Fin(w))
  {
    var walk :| IsWalk(adj, source, walk, v, w);
    StableWalk(dist, adj, source, walk, v, w);
  }

  /** A table with nothing left to relax and the source at most 0 rules out a reachable negative cycle. */
  lemma StableNoNegativeCycle(dist: seq<Dist>, adj: seq<seq<(int, int)>>, source: int)
    requires WellFormed(adj, |dist|) && Stable(dist, adj)
    requires 0 <= source < |dist| && Below(dist[source], Fin(0))
    ensures NoNegativeCycle(adj, source)
  {
    forall x, a, c | Reaches(adj, source, x, a) && Reaches(adj, x, x, c)
      ensures c >= 0
    {
      StableLeast(dist, adj, source, x, a);
      var cycle :| IsWalk(adj, x, cycle, x, c);
      StableWalk(dist, adj, x, cycle, x, c);
    }
  }

  /** Without a reachable negative cycle, |V| - 1 rounds leave nothing to relax. */
  lemma RoundsSettle(adj: seq<seq<(int, int)>>, source: nat)
    requires WellFormed(adj, |adj|) && source < |adj| && NoNegativeCycle(adj, source)
    ensures Stable(Rounds(Initial(|adj|, source), adj, |adj| - 1), adj)
  {
    var dist := Rounds(Initial(|adj|, source), adj, |adj| - 1);
    forall u, k | 0 <= u < |adj| && 0 <= k < |adj[u]|
      ensures !CanRelax(dist, u, adj[u][k])
    {
      SettledEdge(adj, source, dist, u, k);
    }
  }

  /** One edge of the final table: a walk to its tail, extended by it, bounds its head. */
  lemma SettledEdge(adj: seq<seq<(int, int)>>, source: nat, dist: seq<Dist>, u: nat, k: nat)
    requires WellFormed(adj, |adj|) && source < |adj| && NoNegativeCycle(adj, source)
    requires dist == Rounds(Initial(|adj|, source), adj, |adj| - 1)
    requires u < |adj| && k < |adj[u]|
    ensures !CanRelax(dist, u, adj[u][k])
  {
    if dist[u].Inf? {
      return;
    }
    FinalSound(adj, source, dist, u);
    var e := adj[u][k];
    var walk :| IsWalk(adj, source, walk, u, dist[u].d);
    var longer := walk + [(u, k)];
    assert longer[..|longer| - 1] == walk;
    assert IsWalk(adj, source, longer, e.0, dist[u].d + e.1);
    var short, ws := ShortWalk(adj, source, longer, e.0, dist[u].d + e.1);
    RoundsBoundWalks(adj, source, |adj| - 1, short, e.0, ws);
  }

  /** A finite entry of the final table is the weight of a walk from the source. */
  lemma FinalSound(adj: seq<seq<(int, int)>>, source: nat, dist: seq<Dist>, u: nat)
    requires WellFormed(adj, |adj|) && source < |adj|
    requires dist == Rounds(Initial(|adj|, source), adj, |adj| - 1)
    requires u < |adj| && dist[u].Fin?
    ensures Reaches(adj, source, u, dist[u].d)
  {
    SoundInitial(adj, |adj|, source);
    SoundRounds(Initial(|adj|, source), adj, source, |adj| - 1);
  }

  /** bellman_ford's answer: nothing is left to relax exactly when no negative cycle is reachable. */
  lemma BellmanFordVerdict(adj: seq<seq<(int, int)>>, source: nat)
    requires WellFormed(adj, |adj|) && source < |adj|
    ensures Stable(Rounds(Initial(|adj|, source), adj, |adj| - 1), adj) <==> NoNegativeCycle(adj, source)
  {
    var dist := Rounds(Initial(|adj|, source), adj, |adj| - 1);
    if Stable(dist, adj) {
      SourceAtMostZero(adj, source, |adj| - 1);
      StableNoNegativeCycle(dist, adj, source);
    } else if NoNegativeCycle(adj, source) {
      RoundsSettle(adj, source);
    }
  }

  /** Some edge of u's list leads to v. */
  predicate HasEdge(adj: seq<seq<(int, int)>>, u: int, v: int)
    requires 0 <= u < |adj|
  {
    exists k :: 0 <= k < |adj[u]| && adj[u][k].0 == v
  }

  /** The prev table A* keeps: every recorded predecessor is the tail of an edge into the node. */
  predicate PrevEdges(adj: seq<seq<(int, int)>>, prev: seq<int>, dist: seq<Dist>)
  {
    |prev| == |adj| == |dist| &&
    forall v :: 0 <= v < |prev| && prev[v] != -1 ==>
      0 <= prev[v] < |adj| && HasEdge(adj, prev[v], v) && dist[v].Fin?
  }

  /**
   * What A* keeps of the source: it stays finite, every recorded predecessor is finite, and it
   * is the only finite vertex without a predecessor, so a walk back along `prev` from a finite
   * vertex can only stop at the source.
   */
  predicate PrevChain(prev: seq<int>, dist: seq<Dist>, source: int)
  {
    |prev| == |dist| && 0 <= source < |dist| && dist[source].Fin? &&
    (forall v :: 0 <= v < |prev| && prev[v] != -1 ==> 0 <= prev[v] < |dist| && dist[prev[v]].Fin?) &&
    forall v :: 0 <= v < |prev| && prev[v] == -1 && dist[v].Fin? ==> v == source
  }

  /** What a_star's loops keep: the prev table, the chain back to the source, and queued vertices. */
  predicate SearchState(adj: seq<seq<(int, int)>>, prev: seq<int>, dist: seq<Dist>, source: int, pq: seq<int>)
  {
    PrevEdges(adj, prev, dist) && PrevChain(prev, dist, source) &&
    forall i :: 0 <= i < |pq| ==> 0 <= pq[i] < |dist|
  }

  /** Recording u as v's predecessor, along an edge u -> v, with a finite distance keeps the state. */
  lemma RelaxKeepsPrev(adj: seq<seq<(int, int)>>, prev: seq<int>, dist: seq<Dist>, source: int, pq: seq<int>, u: int, v: int, d: int)
    requires SearchState(adj, prev, dist, source, pq)
    requires 0 <= u < |dist| && dist[u].Fin? && 0 <= v < |dist| && HasEdge(adj, u, v)
    ensures SearchState(adj, prev[v := u], dist[v := Fin(d)], source, pq + [v])
  {
  }

  /** A path as A* returns it: ends at the target, and follows edges of `adj`. */
  predicate IsPath(adj: seq<seq<(int, int)>>, path: seq<int>, target: int)
  {
    |path| > 0 && path[|path| - 1] == target &&
    (forall i :: 0 <= i < |path| ==> 0 <= path[i] < |adj|) &&
    forall i :: 0 <= i < |path| - 1 ==> HasEdge(adj, path[i], path[i + 1])
  }

  /**
   * The end of a_star: the walk from the target back along `prev` to a vertex without a
   * predecessor, reversed. It answers None when the walk would pass |V| nodes, where a node
   * repeats and the source would loop for ever.
   */
  method PathBack(adj: seq<seq<(int, int)>>, prev: seq<int>, ghost dist: seq<Dist>, ghost source: int, target: int)
    returns (path: Option<seq<int>>)
    requires PrevEdges(adj, prev, dist) && PrevChain(prev, dist, source) && 0 <= target < |prev|
    ensures path.Some? ==> IsPath(adj, path.value, target)
    ensures path.Some? && dist[target].Inf? ==> path.value == [target]
    ensures path.Some? && dist[target].Fin? ==> path.value[0] == source
  {
    var n := |prev|;
    var back := [];
    var at := target;
    while at != -1 && |back| < n
      invariant at == -1 || 0 <= at < n
      invariant back == [] ==> at == target
      invariant forall i :: 0 <= i < |back| ==> 0 <= back[i] < n
      invariant back != [] ==> back[0] == target && at == prev[back[|back| - 1]]
      invariant forall i :: 0 <= i < |back| - 1 ==> HasEdge(adj, back[i + 1], back[i])
      invariant |back| > 1 ==> dist[target].Fin?
      invariant back != [] && dist[target].Fin? ==> dist[back[|back| - 1]].Fin?
      decreases n - |back|
    {
      back := back + [at];
      at := prev[at];
    }
    if at != -1 {
      return None;
    }
    path := Some(Reversed(back));
  }

  class Navigator {
    var adjList: seq<seq<(int, int)>>
    var dist: seq<Dist>

    predicate Valid()
      reads this
    {
      WellFormed(adjList, |dist|)
    }

    /** Navigator(n): n vertices without edges, every distance infinite. */
    constructor (n: nat)
      ensures Valid() && adjList == seq(n, _ => []) && dist == seq(n, _ => Inf)
    {
      adjList := seq(n, _ => []);
      dist := seq(n, _ => Inf);
    }

    /** add_edge: appends (v, w) to u's list; both ends must be vertices. */
    method AddEdge(u: int, v: int, w: int)
      requires Valid() && 0 <= u < |dist| && 0 <= v < |dist|
      modifies this
      ensures Valid() && adjList == old(adjList)[u := old(adjList)[u] + [(v, w)]] && dist == old(dist)
    {
      adjList := adjList[u := adjList[u] + [(v, w)]];
    }

    method ResetDistances()
      modifies this
      ensures dist == seq(|old(dist)|, _ => Inf) && adjList == old(adjList)
    {
      dist := seq(|dist|, _ => Inf);
    }

    /** One round of bellman_ford: the lists of all vertices relaxed in order. */
    method RelaxRound()
      requires Valid()
      modifies this
      ensures Valid() && adjList == old(adjList)
      ensures dist == RelaxVertices(old(dist), adjList, |old(dist)|)
    {
      ghost var before := dist;
      for u := 0 to |adjList|
        invariant Valid() && adjList == old(adjList) && |dist| == |before|
        invariant dist == RelaxVertices(before, adjList, u)
      {
        ghost var atVertex := dist;
        var es := adjList[u];
        for k := 0 to |es|
          invariant Valid() && adjList == old(adjList) && |dist| == |before|
          invariant dist == RelaxList(atVertex, u, es[..k])
        {
          assert es[..k + 1][..k] == es[..k];
          var (v, weight) := es[k];
          if dist[u] != Inf && Less(Add(dist[u], weight), dist[v]) {
            dist := dist[v := Add(dist[u], weight)];
          }
        }
        assert es[..|es|] == es;
      }
    }

    /** The final check of bellman_ford: true exactly when no edge can still be relaxed. */
    method NothingToRelax() returns (ok: bool)
      requires Valid()
      ensures ok <==> Stable(dist, adjList)
    {
      for u := 0 to |adjList|
        invariant forall x, k :: 0 <= x < u && 0 <= k < |adjList[x]| ==> !CanRelax(dist, x, adjList[x][k])
      {
        var es := adjList[u];
        for k := 0 to |es|
          invariant forall j :: 0 <= j < k ==> !CanRelax(dist, u, es[j])
        {
          var (v, weight) := es[k];
          if dist[u] != Inf && Less(Add(dist[u], weight), dist[v]) {
            return false;
          }
        }
      }
      return true;
    }

    /**
     * bellman_ford: |V| - 1 rounds of relaxation from the source, then `true` exactly when no
     * edge can still be relaxed, which is exactly when no negative cycle is reachable from the
     * source.
     */
    method BellmanFord(source: int) returns (ok: bool)
      requires Valid() && 0 <= source < |dist|
      modifies this
      ensures Valid() && adjList == old(adjList) && |dist| == |old(dist)|
      ensures dist == Rounds(Initial(|dist|, source), adjList, |dist| - 1)
      ensures ok <==> Stable(dist, adjList)
      ensures ok <==> NoNegativeCycle(adjList, source)
    {
      ResetDistances();
      dist := dist[source := Fin(0)];
      assert dist == Initial(|dist|, source);
      ghost var start := dist;
      var n := |dist|;
      for i := 1 to n
        invariant Valid() && adjList == old(adjList) && |dist| == n
        invariant dist == Rounds(start, adjList, i - 1)
      {
        RelaxRound();
      }
      ok := NothingToRelax();
      BellmanFordVerdict(adjList, source);
    }

    /**
     * a_star: the priority queue is a list from which any entry may be popped next, since its
     * comparator reads `dist` while `dist` changes; the heuristic only orders the queue and is
     * therefore not a parameter here. The model follows at most `fuel` pops and answers None when
     * they run out; it also answers None when the walk back along `prev` has more than |V| nodes,
     * where a node repeats and the source would loop for ever.
     */
    method AStar(source: int, target: int, fuel: nat) returns (path: Option<seq<int>>)
      requires Valid() && 0 <= source < |dist| && 0 <= target < |dist|
      modifies this
      ensures Valid() && adjList == old(adjList) && |dist| == |old(dist)|
      ensures path.Some? ==> IsPath(adjList, path.value, target)
      ensures path.Some? && dist[target].Inf? ==> path.value == [target]
      ensures path.Some? && dist[target].Fin? ==> path.value[0] == source
    {
      ResetDistances();
      var n := |dist|;
      var prev := seq(n, _ => -1);
      dist := dist[source := Fin(0)];
      var pq := [source];
      var fuelLeft := fuel;
      while pq != []
        invariant Valid() && adjList == old(adjList) && |dist| == n
        invariant SearchState(adjList, prev, dist, source, pq)
        decreases fuelLeft
      {
        if fuelLeft == 0 {
          return None;
        }
        fuelLeft := fuelLeft - 1;
        var i :| 0 <= i < |pq|;
        var u := pq[i];
        pq := pq[..i] + pq[i + 1..];
        if u == target {
          break;
        }
        prev, pq := RelaxOut(u, prev, pq, source);
      }
      path := PathBack(adjList, prev, dist, source, target);
    }

    /**
     * The inner loop of a_star: every edge u -> v that lowers dist[v] records u as v's
     * predecessor and queues v again.
     */
    method RelaxOut(u: int, prev: seq<int>, pq: seq<int>, ghost source: int) returns (prev2: seq<int>, pq2: seq<int>)
      requires Valid() && 0 <= u < |dist| && SearchState(adjList, prev, dist, source, pq)
      modifies this
      ensures Valid() && adjList == old(adjList) && |dist| == |old(dist)|
      ensures SearchState(adjList, prev2, dist, source, pq2)
    {
      prev2, pq2 := prev, pq;
      var es := adjList[u];
      for k := 0 to |es|
        invariant Valid() && adjList == old(adjList) && |dist| == |old(dist)|
        invariant SearchState(adjList, prev2, dist, source, pq2)
      {
        var (v, weight) := es[k];
        if Less(Add(dist[u], weight), dist[v]) {
          assert HasEdge(adjList, u, v) by { assert adjList[u][k].0 == v; }
          RelaxKeepsPrev(adjList, prev2, dist, source, pq2, u, v, dist[u].d + weight);
          dist := dist[v := Add(dist[u], weight)];
          prev2 := prev2[v := u];
          pq2 := pq2 + [v];
        }
      }
    }

    /** distance_between: dist[target] after Bellman-Ford, or infinity on a negative cycle. */
    method DistanceBetween(source: int, target: int) returns (d: Dist)
      requires Valid() && 0 <= source < |dist| && 0 <= target < |dist|
      modifies this
      ensures Valid() && adjList == old(adjList)
      ensures dist == Rounds(Initial(|dist|, source), adjList, |dist| - 1)
      ensures d == if Stable(dist, adjList) then dist[target] else Inf
      ensures d.Fin? ==> Reaches(adjList, source, target, d.d)
      ensures NoNegativeCycle(adjList, source) ==>
                forall w :: Reaches(adjList, source, target, w) ==> d.Fin? && d.d <= w
      ensures !NoNegativeCycle(adjList, source) ==> d == Inf
    {
      var ok := BellmanFord(source);
      SoundInitial(adjList, |dist|, source);
      SoundRounds(Initial(|dist|, source), adjList, source, |dist| - 1);
      if ok {
        SourceAtMostZero(adjList, source, |dist| - 1);
        forall w | Reaches(adjList, source, target, w)
          ensures dist[target].Fin? && dist[target].d <= w
        {
          StableLeast(dist, adjList, source, target, w);
        }
        return dist[target];
      }
      return Inf;
    }
  }
}
