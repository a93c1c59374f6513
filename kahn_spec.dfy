/** The vocabulary in which the critical-path pass is specified: live edges, paths and their
    story-point weight, adjacency lists and pending in-degrees, and the invariants of the queue
    pass, with the lemmas that carry them across one step of the pass. */
module KahnSpec {
  import opened Wrappers
  import opened DependencyGraph

  /** An edge the pass uses: both endpoints are nodes. */
  predicate Live(g: Graph, e: Edge) {
    e.from in g.nodes && e.to in g.nodes
  }

  /** Some live edge `u -> v` exists. */
  ghost predicate HasEdge(g: Graph, u: string, v: string) {
    u in g.nodes && v in g.nodes && exists i :: 0 <= i < |g.edges| && g.edges[i].from == u && g.edges[i].to == v
  }

  /** A path: a sequence of nodes, each consecutive pair joined by a live edge. */
  ghost predicate IsPath(g: Graph, p: seq<string>) {
    && (forall i :: 0 <= i < |p| ==> p[i] in g.nodes)
    && (forall i :: 0 <= i < |p| - 1 ==> HasEdge(g, p[i], p[i + 1]))
  }

  /** The story points summed along `p`. */
  function Weight(g: Graph, p: seq<string>): int {
    if p == [] then 0 else Points(g, p[0]) + Weight(g, p[1..])
  }

  /** `adj_list[u]`: the targets of the live edges of `es` leaving `u`, in edge order. */
  function Successors(g: Graph, es: seq<Edge>, u: string): seq<string> {
    if es == [] then []
    else
      var e := es[|es| - 1];
      Successors(g, es[..|es| - 1], u) + (if Live(g, e) && e.from == u then [e.to] else [])
  }

  /** The number of live edges of `es` into `v` whose source is not in `done`. */
  function PendingIn(g: Graph, es: seq<Edge>, done: set<string>, v: string): nat {
    if es == [] then 0
    else
      var e := es[|es| - 1];
      PendingIn(g, es[..|es| - 1], done, v) + (if Live(g, e) && e.to == v && e.from !in done then 1 else 0)
  }

  /** Every live edge into a dequeued node comes from a node dequeued earlier. */
  ghost predicate RankOrdered(g: Graph, rank: map<string, nat>) {
    forall i :: 0 <= i < |g.edges| && Live(g, g.edges[i]) && g.edges[i].to in rank ==>
      g.edges[i].from in rank && rank[g.edges[i].from] < rank[g.edges[i].to]
  }

  /** Every live edge out of a dequeued node has been relaxed. */
  ghost predicate Relaxed(g: Graph, dist: map<string, int>, rank: map<string, nat>) {
    forall i :: 0 <= i < |g.edges| && Live(g, g.edges[i]) && g.edges[i].from in rank ==>
      g.edges[i].from in dist && g.edges[i].to in dist &&
      dist[g.edges[i].to] >= dist[g.edges[i].from] + Points(g, g.edges[i].to)
  }

  /** A node's distance is its own points, or its predecessor's distance plus its points; a
      predecessor is a dequeued node joined by an edge, dequeued before the node if the node was. */
  ghost predicate PredChain(g: Graph, dist: map<string, int>, pred: map<string, Option<string>>,
                            rank: map<string, nat>) {
    forall v :: v in pred ==>
      && v in dist
      && dist[v] >= Points(g, v)
      && (pred[v].None? ==> dist[v] == Points(g, v))
      && (pred[v].Some? ==>
            var u := pred[v].value;
            && u in rank && u in dist && HasEdge(g, u, v)
            && dist[v] == dist[u] + Points(g, v)
            && (v in rank ==> rank[u] < rank[v]))
  }

  /** The pass stopped only where every remaining node still waits on a remaining node. */
  ghost predicate Stuck(g: Graph, rank: map<string, nat>) {
    forall v :: v in g.nodes && v !in rank ==> PendingIn(g, g.edges, rank.Keys, v) > 0
  }

  /** A measure that decreases along predecessors: dequeued nodes by rank, others above all. */
  ghost function Height(rank: map<string, nat>, steps: nat, cur: Option<string>): nat {
    match cur
    case None => 0
    case Some(k) => if k in rank then rank[k] + 1 else steps + 1
  }

  /** `adj` and `inDegree` describe the live edges among `es`. */
  ghost predicate AdjacencyOf(g: Graph, es: seq<Edge>, adj: map<string, seq<string>>, inDegree: map<string, int>) {
    && adj.Keys == g.nodes.Keys && inDegree.Keys == g.nodes.Keys
    && (forall u :: u in adj ==> adj[u] == Successors(g, es, u))
    && (forall v :: v in inDegree ==> inDegree[v] == PendingIn(g, es, {}, v))
  }

  /** One more edge extends the adjacency list of its source and the in-degree of its target. */
  lemma AdjacencyStep(g: Graph, i: nat, adj: map<string, seq<string>>, inDegree: map<string, int>)
    requires i < |g.edges|
    requires AdjacencyOf(g, g.edges[..i], adj, inDegree)
    ensures var e := g.edges[i];
      if e.from in adj && e.to in g.nodes then
        AdjacencyOf(g, g.edges[..i + 1], adj[e.from := adj[e.from] + [e.to]], inDegree[e.to := inDegree[e.to] + 1])
      else AdjacencyOf(g, g.edges[..i + 1], adj, inDegree)
  {
    assert g.edges[..i + 1][..i] == g.edges[..i];
  }

  /** Dequeued nodes are nodes, numbered below `steps`. */
  ghost predicate RankBelow(g: Graph, rank: map<string, nat>, steps: nat) {
    forall v :: v in rank ==> v in g.nodes && rank[v] < steps
  }

  /** The queue holds distinct nodes, none dequeued, each of in-degree zero. */
  ghost predicate QueueWaiting(g: Graph, inDegree: map<string, int>, queue: seq<string>, rank: map<string, nat>) {
    && (forall i :: 0 <= i < |queue| ==>
          queue[i] in g.nodes && queue[i] !in rank && queue[i] in inDegree && inDegree[queue[i]] == 0)
    && Distinct(queue)
  }

  /** A node's in-degree counts its live in-edges from nodes not yet dequeued, plus its
      occurrences in `rest`, the successors of the current node still to be visited. */
  ghost predicate Counts(g: Graph, inDegree: map<string, int>, rank: map<string, nat>, rest: seq<string>) {
    forall v :: v in g.nodes ==> v in inDegree && inDegree[v] == PendingIn(g, g.edges, rank.Keys, v) + multiset(rest)[v]
  }

  /** Dequeued nodes have in-degree zero. */
  ghost predicate DoneZero(inDegree: map<string, int>, rank: map<string, nat>) {
    forall v :: v in rank ==> v in inDegree && inDegree[v] == 0
  }

  /** Every node of in-degree zero is dequeued or queued. */
  ghost predicate ZeroReady(g: Graph, inDegree: map<string, int>, queue: seq<string>, rank: map<string, nat>) {
    forall v :: v in g.nodes && v in inDegree && inDegree[v] == 0 ==> v in rank || v in queue
  }

  /** The bookkeeping of the queue pass. */
  ghost predicate Bookkeeping(g: Graph, inDegree: map<string, int>, queue: seq<string>,
                              rank: map<string, nat>, steps: nat, rest: seq<string>) {
    && inDegree.Keys == g.nodes.Keys
    && RankBelow(g, rank, steps)
    && QueueWaiting(g, inDegree, queue, rank)
    && Counts(g, inDegree, rank, rest)
    && DoneZero(inDegree, rank)
    && ZeroReady(g, inDegree, queue, rank)
  }

  /** The distances and predecessors of the pass, and the dequeue order. */
  ghost predicate Distances(g: Graph, dist: map<string, int>, pred: map<string, Option<string>>,
                            rank: map<string, nat>) {
    && dist.Keys == g.nodes.Keys && pred.Keys == g.nodes.Keys
    && PredChain(g, dist, pred, rank)
    && RankOrdered(g, rank)
  }

  /** `Relaxed` for every dequeued node except `current`. */
  ghost predicate RelaxedExcept(g: Graph, dist: map<string, int>, rank: map<string, nat>, current: string) {
    forall i :: 0 <= i < |g.edges| && Live(g, g.edges[i]) && g.edges[i].from in rank && g.edges[i].from != current ==>
      g.edges[i].from in dist && g.edges[i].to in dist &&
      dist[g.edges[i].to] >= dist[g.edges[i].from] + Points(g, g.edges[i].to)
  }

  /** Dequeuing `current` moves its successors from the pending counts to the visit list. */
  lemma DequeueCounts(g: Graph, inDegree: map<string, int>, rank: map<string, nat>, current: string,
                      succ: seq<string>, rank': map<string, nat>)
    requires current !in rank && rank'.Keys == rank.Keys + {current}
    requires Counts(g, inDegree, rank, [])
    requires succ == Successors(g, g.edges, current)
    ensures Counts(g, inDegree, rank', succ)
  {
    PendingInSplit(g, g.edges, rank.Keys, current);
  }

  /** A node dequeued with no pending in-edge keeps the dequeue order and the predecessor chain. */
  lemma DequeueOrdered(g: Graph, dist: map<string, int>, pred: map<string, Option<string>>,
                       rank: map<string, nat>, steps: nat, current: string, rank': map<string, nat>)
    requires current !in rank && RankBelow(g, rank, steps)
    requires PendingIn(g, g.edges, rank.Keys, current) == 0
    requires rank' == rank[current := steps]
    requires RankOrdered(g, rank) && PredChain(g, dist, pred, rank)
    ensures RankOrdered(g, rank') && PredChain(g, dist, pred, rank')
  {
    PendingInDone(g, g.edges, rank.Keys, current);
  }

  /** Dequeuing the head of the queue keeps the bookkeeping, with its successors still to visit;
      the head had no pending in-edge. */
  lemma DequeueStep(g: Graph, inDegree: map<string, int>, queue: seq<string>,
                    rank: map<string, nat>, steps: nat, succ: seq<string>,
                    queue': seq<string>, rank': map<string, nat>)
    requires queue != []
    requires Bookkeeping(g, inDegree, queue, rank, steps, [])
    requires succ == Successors(g, g.edges, queue[0])
    requires queue' == queue[1..] && rank' == rank[queue[0] := steps]
    ensures Bookkeeping(g, inDegree, queue', rank', steps + 1, succ)
    ensures queue[0] in g.nodes && queue[0] !in rank
    ensures PendingIn(g, g.edges, rank.Keys, queue[0]) == 0
  {
    var current := queue[0];
    assert current in g.nodes && current !in rank && inDegree[current] == 0;
    assert rank'.Keys == rank.Keys + {current};
    DequeueCounts(g, inDegree, rank, current, succ, rank');
    var none: seq<string> := [];
    assert multiset(none)[current] == 0;
    DequeueQueue(g, inDegree, queue, rank, steps, queue', rank');
  }

  /** Relaxed edges out of the earlier dequeued nodes stay relaxed. */
  lemma DequeueRelaxed(g: Graph, dist: map<string, int>, rank: map<string, nat>, steps: nat,
                       current: string, rank': map<string, nat>)
    requires Relaxed(g, dist, rank)
    requires rank' == rank[current := steps]
    ensures RelaxedExcept(g, dist, rank', current)
  {
  }

  /** The rest of the queue still waits, and every node of in-degree zero is still dequeued or queued. */
  lemma DequeueQueue(g: Graph, inDegree: map<string, int>, queue: seq<string>,
                     rank: map<string, nat>, steps: nat, queue': seq<string>, rank': map<string, nat>)
    requires queue != []
    requires QueueWaiting(g, inDegree, queue, rank) && ZeroReady(g, inDegree, queue, rank)
    requires queue' == queue[1..] && rank' == rank[queue[0] := steps]
    ensures QueueWaiting(g, inDegree, queue', rank') && ZeroReady(g, inDegree, queue', rank')
  {
    var current := queue[0];
    forall i, j | 0 <= i < j < |queue'| ensures queue'[i] != queue'[j] {
      assert queue'[i] == queue[i + 1] && queue'[j] == queue[j + 1];
    }
    forall i | 0 <= i < |queue'| ensures queue'[i] != current && queue'[i] !in rank {
      assert queue'[i] == queue[i + 1];
    }
    forall v | v in g.nodes && v in inDegree && inDegree[v] == 0 && v !in rank'
      ensures v in queue'
    {
      var i :| 0 <= i < |queue| && queue[i] == v;
      assert queue'[i - 1] == v;
    }
  }

  /** A successor still to be visited has not been dequeued and is not queued. */
  lemma VisitedIsWaiting(g: Graph, inDegree: map<string, int>, queue: seq<string>,
                         rank: map<string, nat>, steps: nat, neighbor: string, rest: seq<string>)
    requires neighbor in g.nodes
    requires Bookkeeping(g, inDegree, queue, rank, steps, [neighbor] + rest)
    ensures neighbor !in rank && neighbor !in queue && inDegree[neighbor] >= 1
  {
    assert multiset([neighbor] + rest)[neighbor] >= 1;
  }

  /** Visiting a successor moves it from the visit list by decrementing its in-degree. */
  lemma DecrementCounts(g: Graph, inDegree: map<string, int>, rank: map<string, nat>,
                        neighbor: string, rest: seq<string>, inDegree': map<string, int>)
    requires neighbor in inDegree
    requires Counts(g, inDegree, rank, [neighbor] + rest)
    requires inDegree' == inDegree[neighbor := inDegree[neighbor] - 1]
    ensures Counts(g, inDegree', rank, rest)
  {
    assert forall v :: multiset([neighbor] + rest)[v] == multiset(rest)[v] + (if v == neighbor then 1 else 0);
  }

  /** Queuing the visited successor exactly when its in-degree reaches zero. */
  lemma DecrementQueue(g: Graph, inDegree: map<string, int>, queue: seq<string>, rank: map<string, nat>,
                       neighbor: string, inDegree': map<string, int>, queue': seq<string>)
    requires neighbor in g.nodes && neighbor in inDegree && neighbor !in rank && neighbor !in queue
    requires QueueWaiting(g, inDegree, queue, rank) && ZeroReady(g, inDegree, queue, rank)
    requires DoneZero(inDegree, rank)
    requires inDegree' == inDegree[neighbor := inDegree[neighbor] - 1]
    requires queue' == if inDegree'[neighbor] == 0 then queue + [neighbor] else queue
    ensures QueueWaiting(g, inDegree', queue', rank) && ZeroReady(g, inDegree', queue', rank)
    ensures DoneZero(inDegree', rank)
  {
    forall i | 0 <= i < |queue| ensures queue[i] != neighbor {
    }
    assert forall i :: 0 <= i < |queue| ==> queue'[i] == queue[i];
  }

  /** Decrementing the in-degree of the visited successor, and queuing it at zero. */
  lemma DecrementKeepsBookkeeping(g: Graph, inDegree: map<string, int>, queue: seq<string>,
                                  rank: map<string, nat>, steps: nat, neighbor: string, rest: seq<string>,
                                  inDegree': map<string, int>, queue': seq<string>)
    requires neighbor in g.nodes
    requires Bookkeeping(g, inDegree, queue, rank, steps, [neighbor] + rest)
    requires inDegree' == inDegree[neighbor := inDegree[neighbor] - 1]
    requires queue' == if inDegree'[neighbor] == 0 then queue + [neighbor] else queue
    ensures Bookkeeping(g, inDegree', queue', rank, steps, rest)
  {
    VisitedIsWaiting(g, inDegree, queue, rank, steps, neighbor, rest);
    DecrementCounts(g, inDegree, rank, neighbor, rest, inDegree');
    DecrementQueue(g, inDegree, queue, rank, neighbor, inDegree', queue');
  }

  /** Raising distances of nodes not yet dequeued keeps every relaxed edge relaxed. */
  lemma RaiseKeepsRelaxed(g: Graph, dist: map<string, int>, dist': map<string, int>,
                          rank: map<string, nat>, current: string)
    requires RelaxedExcept(g, dist, rank, current)
    requires dist'.Keys == dist.Keys
    requires forall v :: v in rank && v in dist ==> dist'[v] == dist[v]
    requires forall v :: v in dist ==> dist'[v] >= dist[v]
    ensures RelaxedExcept(g, dist', rank, current)
  {
  }

  /** Once every successor of `current` is relaxed, every dequeued node's edges are. */
  lemma RelaxedComplete(g: Graph, dist: map<string, int>, rank: map<string, nat>, current: string,
                        succ: seq<string>)
    requires RelaxedExcept(g, dist, rank, current)
    requires dist.Keys == g.nodes.Keys && current in dist
    requires succ == Successors(g, g.edges, current)
    requires forall k :: 0 <= k < |succ| ==> succ[k] in dist && dist[succ[k]] >= dist[current] + Points(g, succ[k])
    ensures Relaxed(g, dist, rank)
  {
    forall i | 0 <= i < |g.edges| && Live(g, g.edges[i]) && g.edges[i].from == current
      ensures dist[g.edges[i].to] >= dist[current] + Points(g, g.edges[i].to)
    {
      EdgeInSuccessors(g, g.edges, i);
    }
  }

  /** When the queue runs dry, every node not dequeued still has a pending in-edge. */
  lemma EmptyQueueStuck(g: Graph, inDegree: map<string, int>, rank: map<string, nat>, steps: nat)
    requires Bookkeeping(g, inDegree, [], rank, steps, [])
    ensures Stuck(g, rank)
  {
  }

  /** Dequeuing `u` moves its successors out of every node's pending in-count. */
  lemma {:induction false} PendingInSplit(g: Graph, es: seq<Edge>, done: set<string>, u: string)
    requires u !in done
    ensures forall v :: PendingIn(g, es, done, v) == PendingIn(g, es, done + {u}, v) + multiset(Successors(g, es, u))[v]
  {
    if es != [] {
      PendingInSplit(g, es[..|es| - 1], done, u);
    }
  }

  /** A node with no pending in-edge has all its live in-edges from `done`. */
  lemma {:induction false} PendingInDone(g: Graph, es: seq<Edge>, done: set<string>, v: string)
    requires PendingIn(g, es, done, v) == 0
    ensures forall i :: 0 <= i < |es| && Live(g, es[i]) && es[i].to == v ==> es[i].from in done
  {
    if es != [] {
      var init := es[..|es| - 1];
      PendingInDone(g, init, done, v);
      assert forall i :: 0 <= i < |init| ==> init[i] == es[i];
    }
  }

  /** Pending in-edges of `v` from outside `done` exist when the count is positive. */
  lemma {:induction false} PendingInWitness(g: Graph, es: seq<Edge>, done: set<string>, v: string)
    returns (i: nat)
    requires PendingIn(g, es, done, v) > 0
    ensures i < |es| && Live(g, es[i]) && es[i].to == v && es[i].from !in done
  {
    var init := es[..|es| - 1];
    var e := es[|es| - 1];
    if Live(g, e) && e.to == v && e.from !in done {
      i := |es| - 1;
    } else {
      i := PendingInWitness(g, init, done, v);
      assert init[i] == es[i];
    }
  }

  /** Every successor is the target of a live edge. */
  lemma {:induction false} SuccessorsEdge(g: Graph, es: seq<Edge>, u: string, x: string)
    requires es == g.edges
    requires x in Successors(g, es, u)
    ensures HasEdge(g, u, x)
  {
    SuccessorsEdgeIn(g, es, u, x);
  }

  lemma {:induction false} SuccessorsEdgeIn(g: Graph, es: seq<Edge>, u: string, x: string)
    requires x in Successors(g, es, u)
    ensures exists i :: 0 <= i < |es| && Live(g, es[i]) && es[i].from == u && es[i].to == x
  {
    var init := es[..|es| - 1];
    var e := es[|es| - 1];
    if x in Successors(g, init, u) {
      SuccessorsEdgeIn(g, init, u, x);
      var i :| 0 <= i < |init| && Live(g, init[i]) && init[i].from == u && init[i].to == x;
      assert es[i] == init[i];
    } else {
      assert Live(g, e) && e.from == u && e.to == x;
    }
  }

  /** The target of every live edge leaving `u` is a successor of `u`. */
  lemma {:induction false} EdgeInSuccessors(g: Graph, es: seq<Edge>, i: nat)
    requires i < |es| && Live(g, es[i])
    ensures es[i].to in Successors(g, es, es[i].from)
  {
    var init := es[..|es| - 1];
    if i < |es| - 1 {
      assert init[i] == es[i];
      EdgeInSuccessors(g, init, i);
    }
  }
}
