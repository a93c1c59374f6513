/** `find_critical_path`: a Kahn-style FIFO pass over the dependency graph that relaxes
    story-point distances along "blocks" edges, then walks predecessors back from the first node
    of maximum distance. Edges with an endpoint that is not a node are ignored. */
module CriticalPath {
  import opened Wrappers
  import opened DependencyGraph
  import opened KahnSpec
  import opened CriticalPathTheory

  /** The adjacency lists and in-degrees over the live edges. */
  method BuildAdjacency(g: Graph) returns (adj: map<string, seq<string>>, inDegree: map<string, int>)
    ensures AdjacencyOf(g, g.edges, adj, inDegree)
  {
    adj := map k | k in g.nodes :: [];
    inDegree := map k | k in g.nodes :: 0;
    assert g.edges[..0] == [];
    for i := 0 to |g.edges|
      invariant AdjacencyOf(g, g.edges[..i], adj, inDegree)
    {
      var e := g.edges[i];
      AdjacencyStep(g, i, adj, inDegree);
      if e.from in adj && e.to in g.nodes {
        adj := adj[e.from := adj[e.from] + [e.to]];
        inDegree := inDegree[e.to := inDegree[e.to] + 1];
      }
    }
    assert g.edges[..|g.edges|] == g.edges;
  }

  /** `[key for key, degree in in_degree.items() if degree == 0]`, in node order. */
  function Sources(order: seq<string>, inDegree: map<string, int>): (q: seq<string>)
    requires forall i :: 0 <= i < |order| ==> order[i] in inDegree
    ensures forall k :: k in q <==> k in order && inDegree[k] == 0
    ensures Distinct(order) ==> Distinct(q)
  {
    if order == [] then []
    else
      var rest := Sources(order[..|order| - 1], inDegree);
      var k := order[|order| - 1];
      assert forall j :: 0 <= j < |order| - 1 ==> order[..|order| - 1][j] == order[j];
      rest + (if inDegree[k] == 0 then [k] else [])
  }

  /** The `while queue` loop: dequeue in FIFO order, relax each successor, and enqueue a
      successor when its in-degree drops to zero. */
  method RelaxAll(g: Graph, adj: map<string, seq<string>>, inDegree0: map<string, int>)
    returns (dist: map<string, int>, pred: map<string, Option<string>>,
             ghost rank: map<string, nat>, ghost steps: nat)
    requires WellFormed(g)
    requires AdjacencyOf(g, g.edges, adj, inDegree0)
    ensures dist.Keys == g.nodes.Keys && pred.Keys == g.nodes.Keys
    ensures RankBelow(g, rank, steps)
    ensures PredChain(g, dist, pred, rank)
    ensures RankOrdered(g, rank)
    ensures Relaxed(g, dist, rank)
    ensures Stuck(g, rank)
  {
    var inDegree := inDegree0;
    var queue := Sources(g.order, inDegree);
    dist := map k | k in g.nodes :: Points(g, k);
    pred := map k | k in g.nodes :: None;
    rank := map[];
    steps := 0;
    StartKeepsBookkeeping(g, adj, inDegree, queue, dist, pred);
    while queue != []
      invariant Bookkeeping(g, inDegree, queue, rank, steps, [])
      invariant Distances(g, dist, pred, rank)
      invariant Relaxed(g, dist, rank)
      decreases g.nodes.Keys - rank.Keys
    {
      var current := queue[0];
      var queue' := queue[1..];
      ghost var rank' := rank[current := steps];
      DequeueStep(g, inDegree, queue, rank, steps, adj[current], queue', rank');
      DequeueOrdered(g, dist, pred, rank, steps, current, rank');
      DequeueRelaxed(g, dist, rank, steps, current, rank');
      dist, pred, inDegree, queue := VisitAll(g, current, adj[current], dist, pred, inDegree, queue', rank', steps + 1);
      rank, steps := rank', steps + 1;
    }
    EmptyQueueStuck(g, inDegree, rank, steps);
  }

  /** The queue starts with the sources, every distance at the node's own points. */
  lemma StartKeepsBookkeeping(g: Graph, adj: map<string, seq<string>>, inDegree: map<string, int>,
                              queue: seq<string>, dist: map<string, int>, pred: map<string, Option<string>>)
    requires WellFormed(g)
    requires AdjacencyOf(g, g.edges, adj, inDegree)
    requires queue == Sources(g.order, inDegree)
    requires dist == map k | k in g.nodes :: Points(g, k)
    requires pred == map k | k in g.nodes :: None
    ensures Bookkeeping(g, inDegree, queue, map[], 0, [])
    ensures Distances(g, dist, pred, map[]) && Relaxed(g, dist, map[])
  {
    var none: map<string, nat> := map[];
    assert none.Keys == {};
    forall v | v in g.nodes ensures inDegree[v] == PendingIn(g, g.edges, {}, v) {
    }
    assert QueueWaiting(g, inDegree, queue, none) by {
      forall i | 0 <= i < |queue| ensures queue[i] in g.nodes {
        assert queue[i] in queue;
      }
    }
  }

  /** The `for neighbor in adj_list[current]` loop. */
  method VisitAll(g: Graph, current: string, succ: seq<string>,
                  dist0: map<string, int>, pred0: map<string, Option<string>>,
                  inDegree0: map<string, int>, queue0: seq<string>,
                  ghost rank: map<string, nat>, ghost steps: nat)
    returns (dist: map<string, int>, pred: map<string, Option<string>>,
             inDegree: map<string, int>, queue: seq<string>)
    requires current in rank
    requires succ == Successors(g, g.edges, current)
    requires Bookkeeping(g, inDegree0, queue0, rank, steps, succ)
    requires Distances(g, dist0, pred0, rank)
    requires RelaxedExcept(g, dist0, rank, current)
    ensures Bookkeeping(g, inDegree, queue, rank, steps, [])
    ensures Distances(g, dist, pred, rank)
    ensures Relaxed(g, dist, rank)
  {
    dist, pred, inDegree, queue := dist0, pred0, inDegree0, queue0;
    assert succ[0..] == succ;
    for j := 0 to |succ|
      invariant Bookkeeping(g, inDegree, queue, rank, steps, succ[j..])
      invariant Distances(g, dist, pred, rank)
      invariant RelaxedExcept(g, dist, rank, current)
      invariant forall k :: 0 <= k < j ==> succ[k] in dist && dist[succ[k]] >= dist[current] + Points(g, succ[k])
    {
      var neighbor := succ[j];
      SuccessorsEdge(g, g.edges, current, neighbor);
      SliceHead(succ, j);
      var dist' := dist;
      dist, pred, inDegree, queue := Visit(g, current, neighbor, succ[j + 1..], dist, pred, inDegree, queue, rank, steps);
      RaiseKeepsRelaxed(g, dist', dist, rank, current);
      RelaxedPrefix(g, dist', dist, current, succ, j);
    }
    assert succ[|succ|..] == [];
    RelaxedComplete(g, dist, rank, current, succ);
  }

  /** The successors relaxed so far stay relaxed as distances of waiting nodes rise. */
  lemma RelaxedPrefix(g: Graph, dist: map<string, int>, dist': map<string, int>, current: string,
                      succ: seq<string>, j: nat)
    requires j < |succ| && current in dist && current in dist' && dist'[current] == dist[current]
    requires forall k :: 0 <= k < j ==> succ[k] in dist && dist[succ[k]] >= dist[current] + Points(g, succ[k])
    requires forall v :: v in dist ==> v in dist' && dist'[v] >= dist[v]
    requires succ[j] in dist' && dist'[succ[j]] >= dist'[current] + Points(g, succ[j])
    ensures forall k :: 0 <= k < j + 1 ==> succ[k] in dist' && dist'[succ[k]] >= dist'[current] + Points(g, succ[k])
  {
  }

  lemma SliceHead(s: seq<string>, j: nat)
    requires j < |s|
    ensures s[j..] == [s[j]] + s[j + 1..]
  {
  }

  /** The body of the `for neighbor in adj_list[current]` loop. */
  method Visit(g: Graph, current: string, neighbor: string, rest: seq<string>,
               dist: map<string, int>, pred: map<string, Option<string>>,
               inDegree: map<string, int>, queue: seq<string>,
               ghost rank: map<string, nat>, ghost steps: nat)
    returns (dist': map<string, int>, pred': map<string, Option<string>>,
             inDegree': map<string, int>, queue': seq<string>)
    requires Bookkeeping(g, inDegree, queue, rank, steps, [neighbor] + rest)
    requires Distances(g, dist, pred, rank)
    requires current in rank && HasEdge(g, current, neighbor)
    ensures Bookkeeping(g, inDegree', queue', rank, steps, rest)
    ensures Distances(g, dist', pred', rank)
    ensures dist'[neighbor] >= dist'[current] + Points(g, neighbor)
    ensures current in dist && dist'[current] == dist[current]
    ensures forall v :: v in rank ==> dist'[v] == dist[v]
    ensures forall v :: v in dist ==> v in dist' && dist'[v] >= dist[v]
  {
    VisitedIsWaiting(g, inDegree, queue, rank, steps, neighbor, rest);
    dist', pred' := Relax(g, current, neighbor, dist, pred, rank);
    inDegree' := inDegree[neighbor := inDegree[neighbor] - 1];
    queue' := if inDegree'[neighbor] == 0 then queue + [neighbor] else queue;
    DecrementKeepsBookkeeping(g, inDegree, queue, rank, steps, neighbor, rest, inDegree', queue');
  }

  /** `max(distances, key=distances.get)`: the first key, in node order, of maximal distance. */
  method FirstMaximum(order: seq<string>, dist: map<string, int>) returns (m: nat)
    requires |order| > 0
    requires forall i :: 0 <= i < |order| ==> order[i] in dist
    ensures m < |order|
    ensures forall i :: 0 <= i < |order| ==> dist[order[i]] <= dist[order[m]]
    ensures forall i :: 0 <= i < m ==> dist[order[i]] < dist[order[m]]
  {
    m := 0;
    for i := 1 to |order|
      invariant m < i
      invariant forall k :: 0 <= k < i ==> dist[order[k]] <= dist[order[m]]
      invariant forall k :: 0 <= k < m ==> dist[order[k]] < dist[order[m]]
    {
      if dist[order[i]] > dist[order[m]] {
        m := i;
      }
    }
  }

  /** One step back along the predecessors: the measure drops, and the distance splits into the
      predecessor's distance and the node's own points. */
  lemma PredStep(g: Graph, dist: map<string, int>, pred: map<string, Option<string>>,
                 rank: map<string, nat>, steps: nat, k: string)
    requires k in pred
    requires forall v :: v in rank ==> rank[v] < steps
    requires PredChain(g, dist, pred, rank)
    ensures k in dist && Height(rank, steps, pred[k]) < Height(rank, steps, Some(k))
    ensures pred[k].None? ==> dist[k] == Points(g, k)
    ensures pred[k].Some? ==> pred[k].value in dist && HasEdge(g, pred[k].value, k) &&
                              dist[k] == dist[pred[k].value] + Points(g, k)
  {
  }

  /** The measure increases strictly along `path`. */
  ghost predicate HeightsIncrease(rank: map<string, nat>, steps: nat, path: seq<string>) {
    forall i, j :: 0 <= i < j < |path| ==> Height(rank, steps, Some(path[i])) < Height(rank, steps, Some(path[j]))
  }

  lemma ConsIncreases(rank: map<string, nat>, steps: nat, k: string, path: seq<string>)
    requires HeightsIncrease(rank, steps, path)
    requires path != [] ==> Height(rank, steps, Some(k)) < Height(rank, steps, Some(path[0]))
    ensures HeightsIncrease(rank, steps, [k] + path)
  {
    var p := [k] + path;
    forall i, j | 0 <= i < j < |p| ensures Height(rank, steps, Some(p[i])) < Height(rank, steps, Some(p[j])) {
      if i > 0 {
        assert p[i] == path[i - 1] && p[j] == path[j - 1];
      } else if j > 1 {
        assert p[j] == path[j - 1];
      }
    }
  }

  /** Relaxing the edge `current -> neighbor` to a node not yet dequeued: the neighbour's
      distance becomes the current distance plus its points when that is larger, with `current`
      as its predecessor. This keeps the predecessor chain and the dequeue order, leaves the edge
      relaxed, changes no distance of a dequeued node and lowers none. */
  method Relax(g: Graph, current: string, neighbor: string,
               dist: map<string, int>, pred: map<string, Option<string>>, ghost rank: map<string, nat>)
    returns (dist': map<string, int>, pred': map<string, Option<string>>)
    requires Distances(g, dist, pred, rank)
    requires current in rank && neighbor !in rank && HasEdge(g, current, neighbor)
    ensures Distances(g, dist', pred', rank)
    ensures dist'[neighbor] >= dist'[current] + Points(g, neighbor)
    ensures current in dist && dist'[current] == dist[current]
    ensures forall v :: v in rank && v in dist ==> dist'[v] == dist[v]
    ensures forall v :: v in dist ==> v in dist' && dist'[v] >= dist[v]
  {
    var newDistance := dist[current] + Points(g, neighbor);
    if newDistance > dist[neighbor] {
      dist', pred' := dist[neighbor := newDistance], pred[neighbor := Some(current)];
    } else {
      dist', pred' := dist, pred;
    }
  }

  /** The reconstruction loop `while current:`, following predecessors back from `last`.
      The path is built front-first instead of appended and reversed. */
  method Reconstruct(g: Graph, dist: map<string, int>, pred: map<string, Option<string>>,
                     ghost rank: map<string, nat>, ghost steps: nat, last: string)
    returns (path: seq<string>)
    requires last in g.nodes
    requires pred.Keys == g.nodes.Keys
    requires forall v :: v in rank ==> rank[v] < steps
    requires PredChain(g, dist, pred, rank)
    ensures IsPath(g, path) && Distinct(path)
    ensures last == "" <==> path == []
    ensures path != [] ==> path[|path| - 1] == last
    ensures path != [] ==> pred[path[0]] == None || pred[path[0]] == Some("")
    ensures path != [] && pred[path[0]] == None ==> last in dist && Weight(g, path) == dist[last]
  {
    path := [];
    var current := Some(last);
    PredStep(g, dist, pred, rank, steps, last);
    while current.Some? && current.value != ""
      invariant Trail(g, dist, pred, rank, steps, last, path, current)
      decreases Height(rank, steps, current)
    {
      var k := current.value;
      TrailStep(g, dist, pred, rank, steps, last, path, current);
      path := [k] + path;
      current := pred[k];
    }
    TrailEnd(g, dist, pred, rank, steps, last, path, current);
  }

  /** The walk back from `last` has collected `path` and stands at `current`: a path of non-empty
      keys whose measure increases, ending at `last`, reached from `current` by an edge, whose
      weight is what `last`'s distance adds to `current`'s. */
  ghost predicate Trail(g: Graph, dist: map<string, int>, pred: map<string, Option<string>>,
                        rank: map<string, nat>, steps: nat, last: string, path: seq<string>,
                        current: Option<string>) {
    && (current.Some? ==> current.value in g.nodes)
    && IsPath(g, path) && HeightsIncrease(rank, steps, path)
    && (forall i :: 0 <= i < |path| ==> path[i] != "")
    && (path != [] ==>
          && Height(rank, steps, current) < Height(rank, steps, Some(path[0]))
          && path[|path| - 1] == last && path[0] in pred && pred[path[0]] == current
          && (current.Some? ==> HasEdge(g, current.value, path[0])))
    && (path == [] ==> current == Some(last))
    && last in dist
    && (current.Some? ==> current.value in dist && dist[last] == dist[current.value] + Weight(g, path))
    && (current.None? ==> dist[last] == Weight(g, path))
  }

  /** One more step back keeps the trail and lowers the measure. */
  lemma TrailStep(g: Graph, dist: map<string, int>, pred: map<string, Option<string>>,
                  rank: map<string, nat>, steps: nat, last: string, path: seq<string>,
                  current: Option<string>)
    requires pred.Keys == g.nodes.Keys
    requires forall v :: v in rank ==> rank[v] < steps
    requires PredChain(g, dist, pred, rank)
    requires Trail(g, dist, pred, rank, steps, last, path, current)
    requires current.Some? && current.value != ""
    ensures current.value in pred
    ensures Trail(g, dist, pred, rank, steps, last, [current.value] + path, pred[current.value])
    ensures Height(rank, steps, pred[current.value]) < Height(rank, steps, current)
  {
    var k := current.value;
    PredStep(g, dist, pred, rank, steps, k);
    ConsIncreases(rank, steps, k, path);
    ConsPath(g, k, path);
    var p := [k] + path;
    forall i | 0 <= i < |p| ensures p[i] != "" {
      if i > 0 {
        assert p[i] == path[i - 1];
      }
    }
  }

  /** Prepending a node joined by an edge to the first one gives a path, heavier by its points. */
  lemma ConsPath(g: Graph, k: string, path: seq<string>)
    requires IsPath(g, path) && k in g.nodes
    requires path != [] ==> HasEdge(g, k, path[0])
    ensures IsPath(g, [k] + path)
    ensures Weight(g, [k] + path) == Points(g, k) + Weight(g, path)
  {
    var p := [k] + path;
    assert p[1..] == path;
    forall i | 0 <= i < |p| - 1 ensures HasEdge(g, p[i], p[i + 1]) {
      if i > 0 {
        assert p[i] == path[i - 1] && p[i + 1] == path[i];
      }
    }
  }

  /** Where the walk stops, the trail is the promised path. */
  lemma TrailEnd(g: Graph, dist: map<string, int>, pred: map<string, Option<string>>,
                 rank: map<string, nat>, steps: nat, last: string, path: seq<string>,
                 current: Option<string>)
    requires Trail(g, dist, pred, rank, steps, last, path, current)
    requires !(current.Some? && current.value != "")
    ensures IsPath(g, path) && Distinct(path)
    ensures last == "" <==> path == []
    ensures path != [] ==> path[|path| - 1] == last
    ensures path != [] ==> path[0] in pred && (pred[path[0]] == None || pred[path[0]] == Some(""))
    ensures path != [] && pred[path[0]] == None ==> last in dist && Weight(g, path) == dist[last]
  {
    forall i, j | 0 <= i < j < |path| ensures path[i] != path[j] {
      assert Height(rank, steps, Some(path[i])) < Height(rank, steps, Some(path[j]));
    }
  }


  /** With no empty key, the reconstructed path is nonempty, weighs the maximal distance, and
      ends at the first node of that distance. */
  lemma MaximumPath(g: Graph, dist: map<string, int>, m: nat,
                    path: seq<string>)
    requires WellFormed(g) && "" !in g.nodes && dist.Keys == g.nodes.Keys
    requires m < |g.order|
    requires forall i :: 0 <= i < |g.order| ==> dist[g.order[i]] <= dist[g.order[m]]
    requires forall i :: 0 <= i < m ==> dist[g.order[i]] < dist[g.order[m]]
    requires g.order[m] == "" <==> path == []
    requires path != [] ==> path[|path| - 1] == g.order[m]
    requires path != [] ==> Weight(g, path) == dist[g.order[m]]
    ensures path != [] && Weight(g, path) == dist[path[|path| - 1]]
    ensures forall v :: v in g.nodes ==> dist[v] <= Weight(g, path)
    ensures forall i :: 0 <= i < |g.order| && g.order[i] == path[|path| - 1] ==>
              forall j :: 0 <= j < i ==> dist[g.order[j]] < Weight(g, path)
  {
    assert g.order[m] in g.nodes;
    forall v | v in g.nodes ensures dist[v] <= Weight(g, path) {
      var i :| 0 <= i < |g.order| && g.order[i] == v;
    }
    forall i | 0 <= i < |g.order| && g.order[i] == path[|path| - 1]
      ensures forall j :: 0 <= j < i ==> dist[g.order[j]] < Weight(g, path)
    {
      assert i == m;
    }
  }

  /** `find_critical_path`: fails on an empty node map (`max` of an empty sequence raises).
      `dist` and `rank` expose the pass's distances and dequeue order for the lemmas below. */
  method FindCriticalPath(g: Graph) returns (r: Result<seq<string>, string>,
                                             ghost dist: map<string, int>, ghost rank: map<string, nat>)
    requires WellFormed(g)
    ensures r.Failure? <==> g.nodes == map[]
    ensures r.Success? ==> IsPath(g, r.value) && Distinct(r.value)
    ensures dist.Keys == g.nodes.Keys && (forall v :: v in rank ==> v in g.nodes)
    ensures RankOrdered(g, rank) && Relaxed(g, dist, rank) && Stuck(g, rank)
    ensures forall v :: v in g.nodes ==> dist[v] >= Points(g, v)
    ensures r.Success? && "" !in g.nodes ==>
              && r.value != []
              && Weight(g, r.value) == dist[r.value[|r.value| - 1]]
              && (forall v :: v in g.nodes ==> dist[v] <= Weight(g, r.value))
              && (forall i :: 0 <= i < |g.order| && g.order[i] == r.value[|r.value| - 1] ==>
                    forall j :: 0 <= j < i ==> dist[g.order[j]] < Weight(g, r.value))
    ensures r.Success? && "" !in g.nodes && Acyclic(g) ==>
              forall p :: IsPath(g, p) && p != [] ==> Weight(g, p) <= Weight(g, r.value)
  {
    var adj, inDegree := BuildAdjacency(g);
    var distances, pred;
    ghost var steps;
    distances, pred, rank, steps := RelaxAll(g, adj, inDegree);
    dist := distances;
    if |g.order| == 0 {
      assert g.nodes.Keys == {};
      return Failure("max() arg is an empty sequence"), dist, rank;
    }
    var path := PathToMaximum(g, distances, pred, rank, steps);
    r := Success(path);
  }

  /** `max(distances, key=distances.get)` and the predecessor walk back from it. */
  method PathToMaximum(g: Graph, dist: map<string, int>, pred: map<string, Option<string>>,
                       ghost rank: map<string, nat>, ghost steps: nat)
    returns (path: seq<string>)
    requires WellFormed(g) && |g.order| > 0
    requires dist.Keys == g.nodes.Keys && pred.Keys == g.nodes.Keys
    requires RankBelow(g, rank, steps) && PredChain(g, dist, pred, rank)
    requires RankOrdered(g, rank) && Relaxed(g, dist, rank) && Stuck(g, rank)
    ensures IsPath(g, path) && Distinct(path)
    ensures "" !in g.nodes ==>
              && path != []
              && Weight(g, path) == dist[path[|path| - 1]]
              && (forall v :: v in g.nodes ==> dist[v] <= Weight(g, path))
              && (forall i :: 0 <= i < |g.order| && g.order[i] == path[|path| - 1] ==>
                    forall j :: 0 <= j < i ==> dist[g.order[j]] < Weight(g, path))
    ensures "" !in g.nodes && Acyclic(g) ==>
              forall p :: IsPath(g, p) && p != [] ==> Weight(g, p) <= Weight(g, path)
  {
    assert g.order[0] in g.nodes;
    var m := FirstMaximum(g.order, dist);
    path := Reconstruct(g, dist, pred, rank, steps, g.order[m]);
    if "" !in g.nodes {
      assert path != [] ==> pred[path[0]] == None;
      MaximumPath(g, dist, m, path);
      if Acyclic(g) {
        HeaviestPath(g, dist, rank, path);
      }
    }
  }
}
