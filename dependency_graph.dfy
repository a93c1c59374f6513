/** The dependency graph built from Jira issues: nodes keyed by issue key, kept in the order the
    keys were first inserted (as a Python dict keeps them), and "blocks" edges in discovery order. */
module DependencyGraph {
  import opened Wrappers
  import opened JiraRecords
  import Seqs

  /** One node of `graph["nodes"]`, with the builder's defaults filled in. */
  datatype Node = Node(summary: string, status: string, assignee: string, team: string,
                       dueDate: string, storyPoints: int)

  /** One entry of `graph["edges"]`: `from` blocks `to`. */
  datatype Edge = Edge(from: string, to: string, linkType: string)

  /** `order` lists the keys of `nodes` in dict insertion order. */
  datatype Graph = Graph(order: seq<string>, nodes: map<string, Node>, edges: seq<Edge>)

  predicate Distinct(s: seq<string>) {
    forall i, j :: 0 <= i < j < |s| ==> s[i] != s[j]
  }

  /** `order` is an enumeration of the node keys without repetition. */
  predicate WellFormed(g: Graph) {
    && Distinct(g.order)
    && (forall k :: k in g.nodes ==> k in g.order)
    && (forall i :: 0 <= i < |g.order| ==> g.order[i] in g.nodes)
  }

  /** The story points of node `k`, 0 for a key that is not a node. */
  function Points(g: Graph, k: string): int {
    if k in g.nodes then g.nodes[k].storyPoints else 0
  }

  /** The node the builder stores for an issue; `teamField` is the configured team field name. */
  function NodeOf(issue: Issue, teamField: string): Node {
    var f := FieldsOf(issue);
    Node(SummaryOf(f), StatusOf(f), AssigneeOf(f),
         if teamField in f.custom then f.custom[teamField] else "",
         f.dueDate.GetOr(""), StoryPointsOf(f))
  }

  /** `graph["nodes"][key] = node`: a new key goes last, an existing key keeps its place. */
  function Insert(g: Graph, key: string, node: Node): Graph {
    Graph(if key in g.nodes then g.order else g.order + [key], g.nodes[key := node], g.edges)
  }

  /** Whether reading this link raises: it is not a mapping, or the issue it names has no key. */
  predicate Raises(link: IssueLink) {
    || link.NotAMapping?
    || (link.outward.Some? && link.outward.value.key.None?)
    || (link.outward.None? && link.inward.Some? && link.inward.value.key.None?)
  }

  /** The edge a link of issue `key` contributes, if any (a link with neither direction adds none). */
  function EdgeOf(key: string, link: IssueLink): (r: Option<Edge>)
    requires !Raises(link)
  {
    var t := link.typeName.GetOr("");
    match link.outward
    case Some(o) => Some(Edge(key, o.key.value, t))
    case None =>
      match link.inward
      case Some(w) => Some(Edge(w.key.value, key, t))
      case None => None
  }

  /** The edges that `links[i..]` contribute; a raising link ends the issue's links. */
  function LinkEdgesFrom(key: string, links: seq<IssueLink>, i: nat): seq<Edge>
    requires i <= |links|
    decreases |links| - i
  {
    if i == |links| || Raises(links[i]) then []
    else
      match EdgeOf(key, links[i])
      case Some(e) => [e] + LinkEdgesFrom(key, links, i + 1)
      case None => LinkEdgesFrom(key, links, i + 1)
  }

  function LinkEdges(key: string, links: seq<IssueLink>): seq<Edge> {
    LinkEdgesFrom(key, links, 0)
  }

  /** One iteration of the builder's loop. */
  function AddIssue(g: Graph, issue: Issue, teamField: string): Graph {
    var key := KeyOf(issue);
    var h := Insert(g, key, NodeOf(issue, teamField));
    h.(edges := h.edges + LinkEdges(key, FieldsOf(issue).links))
  }

  /** The graph the builder returns, issue by issue. */
  function BuildGraph(issues: seq<Issue>, teamField: string): Graph
    decreases |issues|
  {
    if issues == [] then Graph([], map[], [])
    else AddIssue(BuildGraph(issues[..|issues| - 1], teamField), issues[|issues| - 1], teamField)
  }

  /** `build_dependency_graph`. */
  method BuildDependencyGraph(issues: seq<Issue>, teamField: string) returns (g: Graph)
    ensures g == BuildGraph(issues, teamField)
    ensures WellFormed(g)
  {
    g := Graph([], map[], []);
    var i := 0;
    while i < |issues|
      invariant 0 <= i <= |issues|
      invariant g == BuildGraph(issues[..i], teamField)
    {
      var issue := issues[i];
      var key := KeyOf(issue);
      g := Insert(g, key, NodeOf(issue, teamField));
      var added := ReadLinks(key, FieldsOf(issue).links);
      g := g.(edges := g.edges + added);
      assert issues[..i + 1][..i] == issues[..i];
      i := i + 1;
    }
    assert issues[..|issues|] == issues;
    BuildGraphWellFormed(issues, teamField);
  }

  /** The `try` block over one issue's links: the edges they add, in order, until a link that
      raises ends the block. */
  method ReadLinks(key: string, links: seq<IssueLink>) returns (added: seq<Edge>)
    ensures added == LinkEdges(key, links)
  {
    added := [];
    var j := 0;
    while j < |links|
      invariant 0 <= j <= |links|
      invariant added + LinkEdgesFrom(key, links, j) == LinkEdges(key, links)
    {
      var link := links[j];
      if link.NotAMapping? {
        break;
      }
      var linkType := link.typeName.GetOr("");
      if link.outward.Some? {
        if link.outward.value.key.None? {
          break;
        }
        added := added + [Edge(key, link.outward.value.key.value, linkType)];
      } else if link.inward.Some? {
        if link.inward.value.key.None? {
          break;
        }
        added := added + [Edge(link.inward.value.key.value, key, linkType)];
      }
      j := j + 1;
    }
  }

  // ---------------------------------------------------------------------------------------------
  // Nodes

  /** Every built graph lists each node key exactly once. */
  lemma {:induction false} BuildGraphWellFormed(issues: seq<Issue>, teamField: string)
    ensures WellFormed(BuildGraph(issues, teamField))
  {
    if issues != [] {
      BuildGraphWellFormed(issues[..|issues| - 1], teamField);
    }
  }

  /** The nodes are exactly the keys of the issues (an issue without a key gives node ""). */
  lemma {:induction false} BuildGraphKeys(issues: seq<Issue>, teamField: string)
    ensures forall k :: k in BuildGraph(issues, teamField).nodes <==>
                        exists i :: 0 <= i < |issues| && KeyOf(issues[i]) == k
  {
    if issues != [] {
      var init := issues[..|issues| - 1];
      BuildGraphKeys(init, teamField);
      forall k ensures k in BuildGraph(issues, teamField).nodes <==>
                       exists i :: 0 <= i < |issues| && KeyOf(issues[i]) == k
      {
        if k in BuildGraph(init, teamField).nodes {
          var i :| 0 <= i < |init| && KeyOf(init[i]) == k;
          assert issues[i] == init[i];
        }
        if exists i :: 0 <= i < |issues| && KeyOf(issues[i]) == k {
          var i :| 0 <= i < |issues| && KeyOf(issues[i]) == k;
          if i < |init| {
            assert init[i] == issues[i];
          }
        }
      }
    }
  }

  /** An issue's node survives unless a later issue has the same key: the last one wins. */
  lemma {:induction false} BuildGraphLastWins(issues: seq<Issue>, teamField: string, i: nat)
    requires i < |issues|
    requires forall j :: i < j < |issues| ==> KeyOf(issues[j]) != KeyOf(issues[i])
    ensures KeyOf(issues[i]) in BuildGraph(issues, teamField).nodes
    ensures BuildGraph(issues, teamField).nodes[KeyOf(issues[i])] == NodeOf(issues[i], teamField)
  {
    if i < |issues| - 1 {
      var init := issues[..|issues| - 1];
      assert forall j :: i < j < |init| ==> init[j] == issues[j];
      BuildGraphLastWins(init, teamField, i);
      assert init[i] == issues[i];
    }
  }

  /** Keys are listed in the order of their first occurrence among the issues. */
  lemma BuildGraphOrder(issues: seq<Issue>, teamField: string, a: nat, b: nat, q: nat)
    requires a < b < |BuildGraph(issues, teamField).order|
    requires q < |issues| && KeyOf(issues[q]) == BuildGraph(issues, teamField).order[b]
    ensures exists p :: 0 <= p < q && KeyOf(issues[p]) == BuildGraph(issues, teamField).order[a]
  {
    var g := BuildGraph(issues, teamField);
    var pre := issues[..q + 1];
    var h := BuildGraph(pre, teamField);
    BuildGraphPrefix(issues, q + 1, teamField);
    BuildGraphWellFormed(issues, teamField);
    BuildGraphWellFormed(pre, teamField);
    BuildGraphKeys(pre, teamField);
    assert pre[q] == issues[q];
    assert g.order[b] in h.nodes;
    var b' :| 0 <= b' < |h.order| && h.order[b'] == g.order[b];
    assert g.order[b'] == g.order[b];
    assert b' == b;
    assert h.order[a] == g.order[a] && h.order[a] in h.nodes;
    var p :| 0 <= p < |pre| && KeyOf(pre[p]) == g.order[a];
    assert issues[p] == pre[p];
    assert p != q;
  }

  /** The graph built from a prefix of the issues lists a prefix of the final key order. */
  lemma {:induction false} BuildGraphPrefix(issues: seq<Issue>, n: nat, teamField: string)
    requires n <= |issues|
    ensures BuildGraph(issues[..n], teamField).order <= BuildGraph(issues, teamField).order
    decreases |issues|
  {
    if n == |issues| {
      assert issues[..n] == issues;
    } else {
      var init := issues[..|issues| - 1];
      BuildGraphPrefix(init, n, teamField);
      assert init[..n] == issues[..n];
    }
  }

  // ---------------------------------------------------------------------------------------------
  // Edges

  /** The edges the links of one issue add. */
  function IssueEdges(issue: Issue): seq<Edge> {
    LinkEdges(KeyOf(issue), FieldsOf(issue).links)
  }

  /** The edges the links of `issues` add, issue by issue. */
  function IssuesEdges(issues: seq<Issue>): seq<Edge> {
    if issues == [] then [] else IssuesEdges(issues[..|issues| - 1]) + IssueEdges(issues[|issues| - 1])
  }

  /** The edges of a built graph depend only on the issues' links, not on the nodes. */
  lemma {:induction false} BuildGraphEdges(issues: seq<Issue>, teamField: string)
    ensures BuildGraph(issues, teamField).edges == IssuesEdges(issues)
  {
    if issues != [] {
      BuildGraphEdges(issues[..|issues| - 1], teamField);
    }
  }

  lemma {:induction false} IssuesEdgesAppend(a: seq<Issue>, b: seq<Issue>)
    ensures IssuesEdges(a + b) == IssuesEdges(a) + IssuesEdges(b)
    decreases |b|
  {
    if b == [] {
      assert a + b == a;
    } else {
      var b0, last := b[..|b| - 1], b[|b| - 1];
      IssuesEdgesAppend(a, b0);
      Seqs.AppendInit(a, b);
      calc {
        IssuesEdges(a + b);
        IssuesEdges(a + b0) + IssueEdges(last);
        IssuesEdges(a) + IssuesEdges(b0) + IssueEdges(last);
        IssuesEdges(a) + (IssuesEdges(b0) + IssueEdges(last));
      }
    }
  }

  /** Building from `a + b` gives the edges of `a` followed by those of `b`: a raising link in
      one issue does not disturb the edges of any other issue. */
  lemma BuildGraphEdgesAppend(a: seq<Issue>, b: seq<Issue>, teamField: string)
    ensures BuildGraph(a + b, teamField).edges ==
            BuildGraph(a, teamField).edges + BuildGraph(b, teamField).edges
  {
    BuildGraphEdges(a + b, teamField);
    BuildGraphEdges(a, teamField);
    BuildGraphEdges(b, teamField);
    IssuesEdgesAppend(a, b);
  }

  /** The edges of a single issue are its links' edges. */
  lemma BuildGraphSingle(issue: Issue, teamField: string)
    ensures BuildGraph([issue], teamField).edges == LinkEdges(KeyOf(issue), FieldsOf(issue).links)
    ensures BuildGraph([issue], teamField).order == [KeyOf(issue)]
  {
    assert [issue][..0] == [];
  }

  /** A raising link drops itself and the links after it, and keeps the edges before it. */
  lemma {:induction false} LinkEdgesStopAtRaise(key: string, links: seq<IssueLink>, j: nat)
    requires j < |links| && Raises(links[j])
    ensures LinkEdges(key, links) == LinkEdges(key, links[..j])
  {
    LinkEdgesFromPrefix(key, links, j, 0);
  }

  lemma {:induction false} LinkEdgesFromPrefix(key: string, links: seq<IssueLink>, j: nat, i: nat)
    requires i <= j < |links| && Raises(links[j])
    ensures LinkEdgesFrom(key, links, i) == LinkEdgesFrom(key, links[..j], i)
    decreases j - i
  {
    if i < j {
      assert links[..j][i] == links[i];
      LinkEdgesFromPrefix(key, links, j, i + 1);
    }
  }

  /** The links of an issue contribute edges independently while none of them raises. */
  lemma {:induction false} LinkEdgesAppend(key: string, a: seq<IssueLink>, b: seq<IssueLink>)
    requires forall i :: 0 <= i < |a| ==> !Raises(a[i])
    ensures LinkEdges(key, a + b) == LinkEdges(key, a) + LinkEdges(key, b)
  {
    LinkEdgesFromAppend(key, a, b, 0);
  }

  lemma {:induction false} LinkEdgesFromAppend(key: string, a: seq<IssueLink>, b: seq<IssueLink>, i: nat)
    requires i <= |a|
    requires forall i :: 0 <= i < |a| ==> !Raises(a[i])
    ensures LinkEdgesFrom(key, a + b, i) == LinkEdgesFrom(key, a, i) + LinkEdges(key, b)
    decreases |a| - i
  {
    if i == |a| {
      LinkEdgesFromShift(key, a, b, 0);
    } else {
      assert (a + b)[i] == a[i];
      LinkEdgesFromAppend(key, a, b, i + 1);
    }
  }

  lemma {:induction false} LinkEdgesFromShift(key: string, a: seq<IssueLink>, b: seq<IssueLink>, i: nat)
    requires i <= |b|
    ensures LinkEdgesFrom(key, a + b, |a| + i) == LinkEdgesFrom(key, b, i)
    decreases |b| - i
  {
    if i < |b| {
      assert (a + b)[|a| + i] == b[i];
      LinkEdgesFromShift(key, a, b, i + 1);
    }
  }

  /** Every edge of an issue's links comes from one of its links, in the documented direction:
      an outward link gives `key -> target`, otherwise an inward link gives `source -> key`. */
  lemma {:induction false} LinkEdgesDirection(key: string, links: seq<IssueLink>, i: nat, e: Edge)
    requires i <= |links|
    requires e in LinkEdgesFrom(key, links, i)
    ensures exists j :: i <= j < |links| && links[j].Link? &&
              var t := links[j].typeName.GetOr("");
              || (links[j].outward.Some? && links[j].outward.value.key.Some? &&
                  e == Edge(key, links[j].outward.value.key.value, t))
              || (links[j].outward.None? && links[j].inward.Some? && links[j].inward.value.key.Some? &&
                  e == Edge(links[j].inward.value.key.value, key, t))
    decreases |links| - i
  {
    if !(i == |links| || Raises(links[i])) {
      match EdgeOf(key, links[i])
      case Some(e0) =>
        if e != e0 {
          LinkEdgesDirection(key, links, i + 1, e);
        }
      case None =>
        LinkEdgesDirection(key, links, i + 1, e);
    }
  }

  /** An outward link to `t` yields the edge `key -> t`. */
  lemma OutwardLink(key: string, t: string, ty: Option<string>, inward: Option<LinkedIssue>)
    ensures LinkEdges(key, [Link(ty, Some(LinkedIssue(Some(t))), inward)]) == [Edge(key, t, ty.GetOr(""))]
  {
    assert LinkEdgesFrom(key, [Link(ty, Some(LinkedIssue(Some(t))), inward)], 1) == [];
  }

  /** An inward link from `s` yields the edge `s -> key`. */
  lemma InwardLink(key: string, s: string, ty: Option<string>)
    ensures LinkEdges(key, [Link(ty, None, Some(LinkedIssue(Some(s))))]) == [Edge(s, key, ty.GetOr(""))]
  {
    assert LinkEdgesFrom(key, [Link(ty, None, Some(LinkedIssue(Some(s))))], 1) == [];
  }

  /** A link with neither direction is skipped and the following links are still read. */
  lemma UndirectedLinkSkipped(key: string, ty: Option<string>, rest: seq<IssueLink>)
    ensures LinkEdges(key, [Link(ty, None, None)] + rest) == LinkEdges(key, rest)
  {
    var links := [Link(ty, None, None)] + rest;
    LinkEdgesFromShift(key, [Link(ty, None, None)], rest, 0);
  }

  /** Building from no issues gives the empty graph. */
  lemma BuildGraphEmpty(teamField: string)
    ensures BuildGraph([], teamField) == Graph([], map[], [])
  {
  }
}
