/** `identify_blockers`: every unfinished node whose outgoing edges reach at least one unfinished
    node, with the number of such edges, sorted by that number, largest first, ties kept in node
    order. */
module Blockers {
  import opened Wrappers
  import opened JiraRecords
  import opened DependencyGraph

  /** One entry of the blocker list. */
  datatype Blocker = Blocker(key: string, summary: string, status: string, blocksCount: nat,
                             blockedIssues: seq<string>, assignee: string, team: string)

  /** `[edge["to"] for edge in edges if edge["from"] == key]`: every edge counts, whether or not
      its target is a node. */
  function BlockedIssues(edges: seq<Edge>, key: string): (r: seq<string>)
    ensures |r| <= |edges|
  {
    if edges == [] then []
    else
      var e := edges[|edges| - 1];
      BlockedIssues(edges[..|edges| - 1], key) + (if e.from == key then [e.to] else [])
  }

  /** A node that is not finished. */
  predicate Waiting(g: Graph, k: string) {
    k in g.nodes && !IsFinished(g.nodes[k].status)
  }

  /** `waiting_count`: the blocked keys that are unfinished nodes, counted with repetition. */
  function WaitingCount(g: Graph, blocked: seq<string>): (n: nat)
    ensures n <= |blocked|
    ensures n == 0 <==> forall i :: 0 <= i < |blocked| ==> !Waiting(g, blocked[i])
  {
    if blocked == [] then 0
    else (if Waiting(g, blocked[0]) then 1 else 0) + WaitingCount(g, blocked[1..])
  }

  /** The record the loop appends for node `key`, if it appends one. */
  function BlockerOf(g: Graph, key: string): Option<Blocker>
    requires key in g.nodes
  {
    var node := g.nodes[key];
    if IsFinished(node.status) then None
    else
      var blocked := BlockedIssues(g.edges, key);
      if blocked == [] then None
      else
        var n := WaitingCount(g, blocked);
        if n > 0 then Some(Blocker(key, node.summary, node.status, n, blocked, node.assignee, node.team))
        else None
  }

  /** The records appended for `keys`, in order: the list before sorting. */
  function Collect(g: Graph, keys: seq<string>): seq<Blocker>
    requires forall i :: 0 <= i < |keys| ==> keys[i] in g.nodes
  {
    if keys == [] then []
    else
      var k := keys[|keys| - 1];
      Collect(g, keys[..|keys| - 1]) + (match BlockerOf(g, k) case Some(b) => [b] case None => [])
  }

  /** Places `b` before the first record whose count is not larger: an earlier record goes before
      later ones of equal count. */
  function InsertDesc(b: Blocker, s: seq<Blocker>): (r: seq<Blocker>)
    ensures |r| == |s| + 1
  {
    if s == [] || s[0].blocksCount <= b.blocksCount then [b] + s
    else [s[0]] + InsertDesc(b, s[1..])
  }

  /** `sorted(blockers, key=lambda x: x["blocks_count"], reverse=True)`, a stable sort. */
  function SortDesc(s: seq<Blocker>): (r: seq<Blocker>)
    ensures |r| == |s|
  {
    if s == [] then [] else InsertDesc(s[0], SortDesc(s[1..]))
  }

  ghost predicate SortedDesc(s: seq<Blocker>) {
    forall i, j :: 0 <= i < j < |s| ==> s[i].blocksCount >= s[j].blocksCount
  }

  /** The records of count `c`, in order. */
  function WithCount(s: seq<Blocker>, c: nat): seq<Blocker> {
    if s == [] then []
    else (if s[0].blocksCount == c then [s[0]] else []) + WithCount(s[1..], c)
  }

  /** The loop over `nodes.items()` followed by the sort. */
  method IdentifyBlockers(g: Graph) returns (r: seq<Blocker>)
    requires WellFormed(g)
    ensures r == SortDesc(Collect(g, g.order))
    ensures SortedDesc(r)
    ensures forall b :: b in r <==> b.key in g.nodes && BlockerOf(g, b.key) == Some(b)
  {
    var blockers := [];
    for i := 0 to |g.order|
      invariant blockers == Collect(g, g.order[..i])
    {
      var key := g.order[i];
      assert g.order[..i + 1][..i] == g.order[..i];
      var node := g.nodes[key];
      if !IsFinished(node.status) {
        var blocked := BlockedIssues(g.edges, key);
        if blocked != [] {
          var waiting := WaitingCount(g, blocked);
          if waiting > 0 {
            blockers := blockers + [Blocker(key, node.summary, node.status, waiting, blocked, node.assignee, node.team)];
          }
        }
      }
    }
    assert g.order[..|g.order|] == g.order;
    r := SortDesc(blockers);
    SortDescSorted(blockers);
    SortDescPermutes(blockers);
    forall b ensures b in r <==> b.key in g.nodes && BlockerOf(g, b.key) == Some(b) {
      assert b in r <==> b in multiset(r);
      assert b in blockers <==> b in multiset(blockers);
      CollectMembers(g, g.order, b);
    }
  }

  /** The blocked issues are exactly the targets of the edges leaving `key`. */
  lemma {:induction false} BlockedIssuesMembers(edges: seq<Edge>, key: string, x: string)
    ensures x in BlockedIssues(edges, key) <==> exists i :: 0 <= i < |edges| && edges[i].from == key && edges[i].to == x
  {
    if edges != [] {
      var init := edges[..|edges| - 1];
      BlockedIssuesMembers(init, key, x);
      assert forall i :: 0 <= i < |init| ==> init[i] == edges[i];
      if exists i :: 0 <= i < |edges| && edges[i].from == key && edges[i].to == x {
        var i :| 0 <= i < |edges| && edges[i].from == key && edges[i].to == x;
        if i < |init| {
          assert init[i].from == key && init[i].to == x;
        }
      }
    }
  }

  /** A record is appended for a key of `keys` exactly when `BlockerOf` gives it. */
  lemma {:induction false} CollectMembers(g: Graph, keys: seq<string>, b: Blocker)
    requires forall i :: 0 <= i < |keys| ==> keys[i] in g.nodes
    requires forall k :: k in g.nodes ==> k in keys
    ensures b in Collect(g, keys) <==> b.key in g.nodes && BlockerOf(g, b.key) == Some(b)
  {
    CollectFrom(g, keys, b);
  }

  lemma {:induction false} CollectFrom(g: Graph, keys: seq<string>, b: Blocker)
    requires forall i :: 0 <= i < |keys| ==> keys[i] in g.nodes
    ensures b in Collect(g, keys) <==> b.key in keys && BlockerOf(g, b.key) == Some(b)
  {
    if keys != [] {
      var init := keys[..|keys| - 1];
      var k := keys[|keys| - 1];
      CollectFrom(g, init, b);
      assert keys == init + [k];
      assert b.key in keys <==> b.key in init || b.key == k;
    }
  }

  /** A record's count is between one and the number of its blocked issues; it is never a finished
      node. */
  lemma BlockerShape(g: Graph, key: string)
    requires key in g.nodes && BlockerOf(g, key).Some?
    ensures var b := BlockerOf(g, key).value;
      && b.key == key && !IsFinished(b.status) && b.status == g.nodes[key].status
      && 1 <= b.blocksCount <= |b.blockedIssues|
      && b.blockedIssues == BlockedIssues(g.edges, key)
      && b.blocksCount == WaitingCount(g, b.blockedIssues)
  {
  }

  /** An unfinished node is listed exactly when one of its edges reaches an unfinished node. */
  lemma {:induction false} BlockerWhen(g: Graph, key: string)
    requires key in g.nodes
    ensures BlockerOf(g, key).Some? <==>
              !IsFinished(g.nodes[key].status) &&
              exists i :: 0 <= i < |g.edges| && g.edges[i].from == key && Waiting(g, g.edges[i].to)
  {
    var blocked := BlockedIssues(g.edges, key);
    if exists i :: 0 <= i < |g.edges| && g.edges[i].from == key && Waiting(g, g.edges[i].to) {
      var i :| 0 <= i < |g.edges| && g.edges[i].from == key && Waiting(g, g.edges[i].to);
      BlockedIssuesMembers(g.edges, key, g.edges[i].to);
      var j :| 0 <= j < |blocked| && blocked[j] == g.edges[i].to;
    }
    if BlockerOf(g, key).Some? {
      var j :| 0 <= j < |blocked| && Waiting(g, blocked[j]);
      BlockedIssuesMembers(g.edges, key, blocked[j]);
    }
  }

  lemma {:induction false} InsertDescSorted(b: Blocker, s: seq<Blocker>)
    requires SortedDesc(s)
    ensures SortedDesc(InsertDesc(b, s))
    ensures forall x :: x in InsertDesc(b, s) <==> x == b || x in s
  {
    if s != [] && s[0].blocksCount > b.blocksCount {
      InsertDescSorted(b, s[1..]);
      var t := InsertDesc(b, s[1..]);
      forall x | x in t ensures s[0].blocksCount >= x.blocksCount {
        if x != b {
          var k :| 0 <= k < |s[1..]| && s[1..][k] == x;
          assert s[k + 1] == x;
        }
      }
      assert forall x :: x in s <==> x == s[0] || x in s[1..];
    }
  }

  /** The sort orders the records by count, largest first. */
  lemma {:induction false} SortDescSorted(s: seq<Blocker>)
    ensures SortedDesc(SortDesc(s))
  {
    if s != [] {
      SortDescSorted(s[1..]);
      InsertDescSorted(s[0], SortDesc(s[1..]));
    }
  }

  lemma {:induction false} InsertDescPermutes(b: Blocker, s: seq<Blocker>)
    ensures multiset(InsertDesc(b, s)) == multiset{b} + multiset(s)
  {
    if s != [] && s[0].blocksCount > b.blocksCount {
      InsertDescPermutes(b, s[1..]);
      assert s == [s[0]] + s[1..];
    }
  }

  /** The sort neither adds, drops nor repeats a record. */
  lemma {:induction false} SortDescPermutes(s: seq<Blocker>)
    ensures multiset(SortDesc(s)) == multiset(s)
  {
    if s != [] {
      SortDescPermutes(s[1..]);
      InsertDescPermutes(s[0], SortDesc(s[1..]));
      assert s == [s[0]] + s[1..];
    }
  }

  lemma WithCountCons(x: Blocker, t: seq<Blocker>, c: nat)
    ensures WithCount([x] + t, c) == (if x.blocksCount == c then [x] else []) + WithCount(t, c)
  {
    assert ([x] + t)[1..] == t;
  }

  lemma {:induction false} InsertDescStable(b: Blocker, s: seq<Blocker>, c: nat)
    ensures WithCount(InsertDesc(b, s), c) == (if b.blocksCount == c then [b] else []) + WithCount(s, c)
  {
    if s != [] && s[0].blocksCount > b.blocksCount {
      var t := InsertDesc(b, s[1..]);
      InsertDescStable(b, s[1..], c);
      WithCountCons(s[0], t, c);
      assert InsertDesc(b, s) == [s[0]] + t;
    } else {
      WithCountCons(b, s, c);
    }
  }

  /** The sort is stable: the records of each count keep their order. */
  lemma {:induction false} SortDescStable(s: seq<Blocker>, c: nat)
    ensures WithCount(SortDesc(s), c) == WithCount(s, c)
  {
    if s != [] {
      SortDescStable(s[1..], c);
      InsertDescStable(s[0], SortDesc(s[1..]), c);
    }
  }
}
