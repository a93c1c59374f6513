/** What the queue pass's invariants mean for paths: every path into a dequeued node weighs at
    most that node's distance, a node on a cycle is never dequeued, and in a graph without cycles
    every node is dequeued, so the distances are the weights of the heaviest paths. */
module CriticalPathTheory {
  import opened DependencyGraph
  import opened KahnSpec

  /** No path returns to where it started. */
  ghost predicate Acyclic(g: Graph) {
    forall p :: IsPath(g, p) && |p| >= 2 ==> p[0] != p[|p| - 1]
  }

  lemma {:induction false} WeightAppend(g: Graph, p: seq<string>, q: seq<string>)
    ensures Weight(g, p + q) == Weight(g, p) + Weight(g, q)
  {
    if p != [] {
      assert (p + q)[1..] == p[1..] + q;
      WeightAppend(g, p[1..], q);
    } else {
      assert p + q == q;
    }
  }

  /** Extending a path by a node joined to its end keeps it a path. */
  lemma PathSnoc(g: Graph, p: seq<string>, v: string)
    requires IsPath(g, p) && p != [] && HasEdge(g, p[|p| - 1], v)
    ensures IsPath(g, p + [v])
  {
    var q := p + [v];
    assert forall i :: 0 <= i < |p| ==> q[i] == p[i];
  }

  /** A path without its last node is a path. */
  lemma PathInit(g: Graph, p: seq<string>)
    requires IsPath(g, p) && p != []
    ensures IsPath(g, p[..|p| - 1])
  {
    var q := p[..|p| - 1];
    assert forall i :: 0 <= i < |q| ==> q[i] == p[i];
  }

  /** Every path ending at a dequeued node weighs at most that node's distance. */
  lemma {:induction false} PathWeightBounded(g: Graph, dist: map<string, int>, rank: map<string, nat>,
                                             p: seq<string>)
    requires dist.Keys == g.nodes.Keys
    requires forall v :: v in g.nodes ==> dist[v] >= Points(g, v)
    requires RankOrdered(g, rank) && Relaxed(g, dist, rank)
    requires IsPath(g, p) && p != [] && p[|p| - 1] in rank
    ensures Weight(g, p) <= dist[p[|p| - 1]]
  {
    var v := p[|p| - 1];
    var init := p[..|p| - 1];
    assert p == init + [v];
    WeightAppend(g, init, [v]);
    assert Weight(g, [v]) == Points(g, v);
    if init != [] {
      var u := init[|init| - 1];
      assert u == p[|p| - 2];
      assert HasEdge(g, u, v);
      var i :| 0 <= i < |g.edges| && g.edges[i].from == u && g.edges[i].to == v;
      assert Live(g, g.edges[i]);
      PathInit(g, p);
      PathWeightBounded(g, dist, rank, init);
    }
  }

  /** Along a path, every node before a dequeued node was dequeued earlier. */
  lemma {:induction false} RankedBefore(g: Graph, rank: map<string, nat>, p: seq<string>, j: nat)
    requires RankOrdered(g, rank)
    requires IsPath(g, p) && j < |p| && p[j] in rank
    ensures forall i :: 0 <= i < j ==> p[i] in rank && rank[p[i]] < rank[p[j]]
  {
    if j > 0 {
      assert HasEdge(g, p[j - 1], p[j]);
      var e :| 0 <= e < |g.edges| && g.edges[e].from == p[j - 1] && g.edges[e].to == p[j];
      assert Live(g, g.edges[e]);
      RankedBefore(g, rank, p, j - 1);
    }
  }

  /** A node on a cycle is never dequeued. */
  lemma CycleNeverDequeued(g: Graph, rank: map<string, nat>, p: seq<string>)
    requires RankOrdered(g, rank)
    requires IsPath(g, p) && |p| >= 2 && p[0] == p[|p| - 1]
    ensures forall i :: 0 <= i < |p| ==> p[i] !in rank
  {
    var last := |p| - 1;
    if exists i :: 0 <= i < |p| && p[i] in rank {
      var i :| 0 <= i < |p| && p[i] in rank;
      RankedBefore(g, rank, p, i);
      assert p[last] in rank;
      RankedBefore(g, rank, p, last);
      assert false;
    }
  }

  /** From a node not dequeued, a pass that got stuck leaves a backward walk of any length
      through nodes not dequeued. */
  lemma {:induction false} BackWalk(g: Graph, rank: map<string, nat>, v: string, n: nat)
    returns (p: seq<string>)
    requires Stuck(g, rank)
    requires v in g.nodes && v !in rank
    ensures |p| == n + 1 && p[n] == v && IsPath(g, p)
    ensures forall i :: 0 <= i < |p| ==> p[i] !in rank
    decreases n
  {
    if n == 0 {
      p := [v];
    } else {
      var e := PendingInWitness(g, g.edges, rank.Keys, v);
      var u := g.edges[e].from;
      assert HasEdge(g, u, v);
      var q := BackWalk(g, rank, u, n - 1);
      PathSnoc(g, q, v);
      p := q + [v];
    }
  }

  /** A sequence longer than the set it draws from repeats an element. */
  lemma {:induction false} Pigeonhole(p: seq<string>, s: set<string>) returns (i: nat, j: nat)
    requires forall k :: 0 <= k < |p| ==> p[k] in s
    requires |p| > |s|
    ensures i < j < |p| && p[i] == p[j]
  {
    var x := p[|p| - 1];
    var init := p[..|p| - 1];
    if k :| 0 <= k < |init| && init[k] == x {
      i, j := k, |p| - 1;
    } else {
      assert forall k :: 0 <= k < |init| ==> init[k] in s - {x};
      assert s == (s - {x}) + {x};
      i, j := Pigeonhole(init, s - {x});
    }
  }

  /** The nodes of a path between two occurrences of one node form a cycle. */
  lemma CycleOfRepeat(g: Graph, p: seq<string>, i: nat, j: nat)
    requires IsPath(g, p) && i < j < |p| && p[i] == p[j]
    ensures IsPath(g, p[i..j + 1]) && |p[i..j + 1]| >= 2 && p[i..j + 1][0] == p[i..j + 1][j - i]
  {
    var q := p[i..j + 1];
    assert forall k :: 0 <= k < |q| ==> q[k] == p[i + k];
  }

  /** In a graph without cycles, a stuck pass has dequeued every node. */
  lemma AcyclicAllDequeued(g: Graph, rank: map<string, nat>)
    requires Stuck(g, rank) && Acyclic(g)
    ensures forall v :: v in g.nodes ==> v in rank
  {
    forall v | v in g.nodes
      ensures v in rank
    {
      if v !in rank {
        var p := BackWalk(g, rank, v, |g.nodes.Keys|);
        var i, j := Pigeonhole(p, g.nodes.Keys);
        CycleOfRepeat(g, p, i, j);
        assert false;
      }
    }
  }

  /** In a graph without cycles, every path weighs at most the distance of its last node. */
  lemma HeaviestPaths(g: Graph, dist: map<string, int>, rank: map<string, nat>)
    requires dist.Keys == g.nodes.Keys
    requires forall v :: v in g.nodes ==> dist[v] >= Points(g, v)
    requires RankOrdered(g, rank) && Relaxed(g, dist, rank) && Stuck(g, rank)
    requires Acyclic(g)
    ensures forall p :: IsPath(g, p) && p != [] ==> Weight(g, p) <= dist[p[|p| - 1]]
  {
    AcyclicAllDequeued(g, rank);
    forall p | IsPath(g, p) && p != []
      ensures Weight(g, p) <= dist[p[|p| - 1]]
    {
      PathWeightBounded(g, dist, rank, p);
    }
  }

  /** In a graph without cycles, a path weighing at least every distance is a heaviest path. */
  lemma HeaviestPath(g: Graph, dist: map<string, int>, rank: map<string, nat>, path: seq<string>)
    requires dist.Keys == g.nodes.Keys
    requires forall v :: v in g.nodes ==> dist[v] >= Points(g, v)
    requires RankOrdered(g, rank) && Relaxed(g, dist, rank) && Stuck(g, rank)
    requires Acyclic(g)
    requires forall v :: v in g.nodes ==> dist[v] <= Weight(g, path)
    ensures forall p :: IsPath(g, p) && p != [] ==> Weight(g, p) <= Weight(g, path)
  {
    HeaviestPaths(g, dist, rank);
  }
}
