# Product-owner agent: dependency analysis, sprint reporting and message text

This project models in Dafny the in-memory core of the product-owner agent's tools, and proves properties of that model.

- **Dependency graph.** The dependency graph is built from Jira issue records (`build_dependency_graph`). Nodes are keyed by issue key, in dict insertion order. Each "blocks" edge has a `from` (blocking) and a `to` (blocked) key, and edges are kept in discovery order.
- **Critical path.** The Kahn-style longest-path pass over story points (`find_critical_path`) is modelled with its adjacency build, FIFO queue, relaxation and walk back along predecessors.
- **Blockers.** The blocker detector (`identify_blockers`) is modelled together with its stable sort on `blocks_count`, descending.
- **Timeline risk.** The risk classifier (`calculate_timeline_risk`) is modelled against a `YYYY-MM-DD` target date and a clock.
- **Gantt chart.** The model covers team grouping, status mapping and the Mermaid chart lines of `generate_gantt_chart`.
- **Sprint reporting.** The model covers the status buckets and point totals of `calculate_sprint_metrics`, the listing of tasks, the comment digest and the report summary.
- **Message text.** The model covers how text is extracted from an agent message (`_extract_text_from_message`).

Modules, one per file:

- `JiraRecords` (jira_records.dfy): the issue record as a closed datatype with `Option` fields. Its readers apply the `.get(key, default)` defaults.
- `DependencyGraph` (dependency_graph.dfy): the graph builder. `BuildGraph` is the specification function. The `BuildDependencyGraph` method is the loop, proved to compute it.
- `KahnSpec`, `CriticalPath`, `CriticalPathTheory` (kahn_spec.dfy, critical_path.dfy, critical_path_theory.dfy):
  - the invariants of the queue pass;
  - the imperative pass itself;
  - the graph-theoretic consequences: cycles are never dequeued, an acyclic graph is dequeued completely, and distances are heaviest-path weights.
- `Blockers` (blockers.dfy): the blocker records, the insertion sort and its stability.
- `Dates`, `TimelineRisk` (dates.dfy, timeline_risk.dfy): `strptime(..., "%Y-%m-%d")`, day arithmetic on proleptic Gregorian ordinals, and the risk classification.
- `Gantt` (gantt.dfy): grouping by team and the chart lines.
- `Reporting` (reporting.dfy): sprint metrics, task details, updates and the summary.
- `MessageText` (message_text.dfy): message text extraction.
- `Strings`, `Seqs`, `Wrappers`: helpers for `"\n".join`, `split("\n")`, slicing `[:n]`, `lower()` and number formatting; small sequence lemmas; and `Option`/`Result`.

Two consequences of the code worth noting:

- `days_remaining` is `(target - now).days`, and `target` is midnight of the target date. A target 14 calendar days ahead therefore gives 14 only at exactly midnight, and 13 at any later moment of the day (`TimelineRisk.FourteenDaysExample`).
- A target date in the past gives a negative `days_remaining`. The estimate is then negative, so any non-negative remaining work is rated HIGH (`TimelineRisk.OverdueIsHigh`).

Inputs the code reads from its environment are parameters:

- The configured team field name (`settings.atlassian.field_team_assignment`) is the `teamField` parameter.
- `datetime.now()` is the `now: Clock` parameter: today's date and the microseconds elapsed since midnight, fewer than 86 400 000 000.

## Model

| member | source | states |
|---|---|---|
| JiraRecords.AssigneeOf | product-owner-agent/agent/tools/dependency.py:44-46 | a missing assignee, or a present one without a display name (such as `{}`, which is falsy), reads as "Unassigned"; otherwise the assignee reads as its display name |
| DependencyGraph.BuildDependencyGraph | product-owner-agent/agent/tools/dependency.py:19-80 | the loop over the issues computes `BuildGraph`, and the graph is well formed: `order` lists every node key exactly once |
| DependencyGraph.ReadLinks | product-owner-agent/agent/tools/dependency.py:55-78 | the loop over one issue's links yields `LinkEdges`: one edge per directed link, up to the first link whose reading raises |
| DependencyGraph.BuildGraphWellFormed | product-owner-agent/agent/tools/dependency.py:36-52 | after any sequence of issues, the node keys are distinct in `order` and `order` enumerates exactly the node map's keys |
| DependencyGraph.BuildGraphKeys | product-owner-agent/agent/tools/dependency.py:36-41 | a key is a node exactly when some issue carries it (a missing key counts as "") |
| DependencyGraph.BuildGraphLastWins | product-owner-agent/agent/tools/dependency.py:41-52 | the node stored under a key is built from the last issue with that key: a later issue overwrites an earlier one |
| DependencyGraph.BuildGraphOrder | product-owner-agent/agent/tools/dependency.py:36-41 | keys are ordered by first appearance: before a key in `order`, every earlier key has already appeared in an earlier issue |
| DependencyGraph.BuildGraphPrefix | product-owner-agent/agent/tools/dependency.py:36-41 | the key order of a prefix of the issues is a prefix of the full key order: later issues never reorder earlier keys |
| DependencyGraph.BuildGraphEdges | product-owner-agent/agent/tools/dependency.py:54-78 | the edge list is, issue by issue, the edges of each issue's links, so an exception in one issue's links never affects another issue's edges |
| DependencyGraph.IssuesEdgesAppend | product-owner-agent/agent/tools/dependency.py:36-78 | the edges contributed by `a + b` are those of `a` followed by those of `b` |
| DependencyGraph.BuildGraphEdgesAppend | product-owner-agent/agent/tools/dependency.py:36-78 | building from `a + b` gives the edges of `a` followed by the edges of `b` |
| DependencyGraph.BuildGraphSingle | product-owner-agent/test_agent.py:95-110 | one issue gives the single node key `[key]`, with that issue's link edges |
| DependencyGraph.LinkEdgesStopAtRaise | product-owner-agent/agent/tools/dependency.py:55-78 | once reading a link raises, the links after it add nothing, and the edges already appended stay |
| DependencyGraph.LinkEdgesFromPrefix | product-owner-agent/agent/tools/dependency.py:57-78 | reading from any position up to a raising link yields what the links before it yield |
| DependencyGraph.LinkEdgesAppend | product-owner-agent/agent/tools/dependency.py:57-76 | when no link of `a` raises, the edges of `a + b` are the edges of `a` followed by those of `b` |
| DependencyGraph.LinkEdgesDirection | product-owner-agent/agent/tools/dependency.py:58-76 | every edge comes from one link. An outward link gives this key → target. An inward link without an outward one gives target → this key. The edge's type is the link type's name, or "" |
| DependencyGraph.OutwardLink | product-owner-agent/agent/tools/dependency.py:61-76 | an outward link gives the edge from this key to the target, even when an inward issue is also present |
| DependencyGraph.InwardLink | product-owner-agent/agent/tools/dependency.py:64-76 | an inward link gives the edge from the source to this key |
| DependencyGraph.UndirectedLinkSkipped | product-owner-agent/agent/tools/dependency.py:67-68 | a link with neither direction is skipped and adds no edge |
| DependencyGraph.BuildGraphEmpty | product-owner-agent/agent/tools/dependency.py:29-32 | no issues give no nodes and no edges |
| KahnSpec.AdjacencyStep | product-owner-agent/agent/tools/dependency.py:101-106 | one edge step keeps the adjacency invariant. An edge between two nodes is appended to its source's list and raises its target's in-degree; any other edge is ignored |
| KahnSpec.DequeueStep | product-owner-agent/agent/tools/dependency.py:115-116 | popping the queue head keeps the bookkeeping: the head is an undequeued node, none of whose live in-edges is still pending |
| KahnSpec.DequeueOrdered | product-owner-agent/agent/tools/dependency.py:115-116 | ranking the dequeued node last keeps every live edge into a dequeued node ranked from an earlier-dequeued source |
| KahnSpec.DecrementKeepsBookkeeping | product-owner-agent/agent/tools/dependency.py:125-127 | decrementing a neighbour's in-degree, and enqueueing it at zero, keeps in-degree equal to the pending live in-edges and keeps the queue equal to the ready nodes |
| KahnSpec.RelaxedComplete | product-owner-agent/agent/tools/dependency.py:118-123 | once all of the current node's successors are relaxed, every live edge out of every dequeued node is relaxed |
| KahnSpec.EmptyQueueStuck | product-owner-agent/agent/tools/dependency.py:115 | when the queue empties, every node never dequeued still has a pending live in-edge from a node never dequeued |
| KahnSpec.PendingInSplit | product-owner-agent/agent/tools/dependency.py:118-126 | dequeuing `u` lowers each node's pending in-edge count by the number of `u`'s edges to it |
| KahnSpec.SuccessorsEdgeIn | product-owner-agent/agent/tools/dependency.py:101-106 | every entry of a node's adjacency list comes from a live edge out of that node |
| KahnSpec.EdgeInSuccessors | product-owner-agent/agent/tools/dependency.py:101-106 | every live edge's target appears in its source's adjacency list |
| CriticalPath.BuildAdjacency | product-owner-agent/agent/tools/dependency.py:97-106 | the adjacency lists and in-degrees satisfy `AdjacencyOf`: edges between nodes are listed in order, edges touching a non-node are dropped, and in-degree counts the live in-edges |
| CriticalPath.Sources | product-owner-agent/agent/tools/dependency.py:109 | the initial queue holds exactly the nodes of in-degree 0, without repetition |
| CriticalPath.RelaxAll | product-owner-agent/agent/tools/dependency.py:111-127 | after the queue loop, these hold: every node has a distance and a predecessor entry; the predecessor chain is consistent; dequeue order follows the edges; every live edge out of a dequeued node is relaxed; every node never dequeued is stuck behind another such node |
| CriticalPath.VisitAll | product-owner-agent/agent/tools/dependency.py:118-127 | the loop over the current node's neighbours keeps the bookkeeping and the distance invariant, and ends with every live edge out of a dequeued node relaxed |
| CriticalPath.Visit | product-owner-agent/agent/tools/dependency.py:118-127 | one neighbour step relaxes that edge and leaves the current node's distance, and every dequeued node's distance, unchanged. No distance decreases, and the bookkeeping moves on to the remaining neighbours |
| CriticalPath.Relax | product-owner-agent/agent/tools/dependency.py:119-123 | after the step, the neighbour's distance is at least the current node's distance plus the neighbour's points, no distance drops, and the predecessor invariant holds |
| CriticalPath.FirstMaximum | product-owner-agent/agent/tools/dependency.py:130 | `max(distances, key=distances.get)` returns the maximum distance, and it is the first key in node order with that distance |
| CriticalPath.PredStep | product-owner-agent/agent/tools/dependency.py:119-123 | a node's predecessor is joined to it by an edge, its distance is the predecessor's distance plus its points, and the walk's measure decreases |
| CriticalPath.Reconstruct | product-owner-agent/agent/tools/dependency.py:131-138 | the walk back along predecessors terminates even on cyclic input, and yields a path of edges without repeated keys that ends at the chosen key. When the chain ends at a node without a predecessor, the path's weight equals that key's distance |
| CriticalPath.MaximumPath | product-owner-agent/agent/tools/dependency.py:130-138 | the returned path ends at the first maximal key, and its weight is the largest distance of all nodes |
| CriticalPath.PathToMaximum | product-owner-agent/agent/tools/dependency.py:129-138 | the path is a path of edges without repeated keys. When "" is not a key, it is non-empty and its weight is the maximum distance. In an acyclic graph no path weighs more |
| CriticalPath.FindCriticalPath | product-owner-agent/agent/tools/dependency.py:83-138 | it fails exactly on an empty node map (`max` of nothing raises). Otherwise it returns a path of edges without repeated keys, whose weight is the maximum distance, reached first in node order (when "" is not a key). In an acyclic graph that path is a heaviest path |
| CriticalPathTheory.WeightAppend | product-owner-agent/agent/tools/dependency.py:112-119 | a path's story-point weight is additive over concatenation |
| CriticalPathTheory.PathWeightBounded | product-owner-agent/agent/tools/dependency.py:115-127 | every path ending at a dequeued node weighs at most that node's distance |
| CriticalPathTheory.RankedBefore | product-owner-agent/agent/tools/dependency.py:115-127 | every node on a path into a dequeued node was dequeued earlier |
| CriticalPathTheory.CycleNeverDequeued | product-owner-agent/agent/tools/dependency.py:109-127 | no node on a cycle is ever dequeued |
| CriticalPathTheory.BackWalk | product-owner-agent/agent/tools/dependency.py:109-127 | from a node never dequeued, a path of any length can be walked backwards through nodes never dequeued |
| CriticalPathTheory.AcyclicAllDequeued | product-owner-agent/agent/tools/dependency.py:109-127 | in an acyclic graph every node is dequeued |
| CriticalPathTheory.HeaviestPaths | product-owner-agent/agent/tools/dependency.py:111-127 | in an acyclic graph every path weighs at most the final distance of its last node |
| CriticalPathTheory.HeaviestPath | product-owner-agent/agent/tools/dependency.py:130-138 | in an acyclic graph, a path that weighs at least every distance is a heaviest path |
| Blockers.WaitingCount | product-owner-agent/agent/tools/dependency.py:168-174 | `waiting_count` is at most the number of blocked keys, and is zero exactly when none of them is an unfinished node |
| Blockers.IdentifyBlockers | product-owner-agent/agent/tools/dependency.py:141-189 | the result is the blocker records sorted by `blocks_count` descending, and a record is in it exactly when it is the blocker record of some node |
| Blockers.BlockedIssuesMembers | product-owner-agent/agent/tools/dependency.py:162-164 | `blocked_issues` holds exactly the targets of the edges out of the key, including finished and missing targets |
| Blockers.CollectMembers | product-owner-agent/agent/tools/dependency.py:156-187 | the loop over the nodes collects exactly the blocker records of the nodes |
| Blockers.CollectFrom | product-owner-agent/agent/tools/dependency.py:156-187 | the loop over some keys collects exactly those keys' blocker records |
| Blockers.BlockerShape | product-owner-agent/agent/tools/dependency.py:157-187 | a blocker record carries the node's key and its unfinished status. `blocked_issues` is all out-edge targets, and `blocks_count` counts the unfinished ones among them with repetition, between 1 and their number |
| Blockers.BlockerWhen | product-owner-agent/agent/tools/dependency.py:159-176 | a node is a blocker exactly when it is unfinished and has an edge to an unfinished node |
| Blockers.InsertDescSorted | product-owner-agent/agent/tools/dependency.py:189 | inserting into a descending list keeps it descending and adds exactly the inserted record |
| Blockers.SortDescSorted | product-owner-agent/agent/tools/dependency.py:189 | the sort yields a list descending by `blocks_count` |
| Blockers.SortDescPermutes | product-owner-agent/agent/tools/dependency.py:189 | the sort is a permutation of its input |
| Blockers.InsertDescStable | product-owner-agent/agent/tools/dependency.py:189 | inserting places a record after every record with the same count |
| Blockers.SortDescStable | product-owner-agent/agent/tools/dependency.py:189 | the sort is stable: records with equal `blocks_count` keep their node order |
| Blockers.SortDesc | product-owner-agent/agent/tools/dependency.py:189 | the sort keeps the number of records; `SortDescSorted`, `SortDescPermutes` and `SortDescStable` state that it orders them descending by `blocks_count`, as a stable permutation |
| Dates.DaysInMonth | product-owner-agent/agent/tools/dependency.py:215 | months have 28 to 31 days, and 29 exactly for February of a leap year |
| Dates.ParseDate | product-owner-agent/agent/tools/dependency.py:215 | `strptime(target_date, "%Y-%m-%d")` yields only valid calendar dates |
| Dates.ParseFormat | product-owner-agent/agent/tools/dependency.py:215 | every valid date written as `YYYY-MM-DD` parses back to itself |
| Dates.ShortFields | product-owner-agent/agent/tools/dependency.py:215 | one-digit months and days are accepted ("2025-1-5") |
| Dates.RejectedDates | product-owner-agent/agent/tools/dependency.py:215 | 29 February of a common year is rejected, and so is trailing text |
| Dates.NotADate | product-owner-agent/agent/tools/dependency.py:215 | "not-a-date" does not parse |
| Dates.DaysInYear | product-owner-agent/agent/tools/dependency.py:217 | consecutive years differ by 366 ordinal days in a leap year and by 365 otherwise |
| Dates.OrdinalNextDay | product-owner-agent/agent/tools/dependency.py:217 | the next calendar day has the next ordinal, so the difference of ordinals counts days |
| TimelineRisk.CompletionRate | product-owner-agent/agent/tools/dependency.py:212 | the rate is 0 when total ≤ 0, lies between 0 and 100 when 0 ≤ completed ≤ total, and is 100 when everything is completed |
| TimelineRisk.PointsSplit | product-owner-agent/agent/tools/dependency.py:205-210 | total points are completed points plus the points of unfinished nodes |
| TimelineRisk.FinishedWithinTotal | product-owner-agent/agent/tools/dependency.py:205-210 | with non-negative points, the completed points lie between 0 and the total |
| TimelineRisk.ClassifyThresholds | product-owner-agent/agent/tools/dependency.py:219-235 | HIGH/30 exactly when 7·remaining > 5·days; MEDIUM/60 exactly when, short of that, 7·remaining > 4·days; LOW/85 otherwise |
| TimelineRisk.ClassifyMonotone | product-owner-agent/agent/tools/dependency.py:227-235 | more remaining points or fewer days never lower the risk level |
| TimelineRisk.Classify | product-owner-agent/agent/tools/dependency.py:219-235 | the comparison chain never gives UNKNOWN, and the confidence follows the level: 30 for HIGH, 60 for MEDIUM, 85 for LOW; `ClassifyThresholds` gives the bands |
| TimelineRisk.OverdueIsHigh | product-owner-agent/agent/tools/dependency.py:217-229 | a past target date with non-negative remaining work is HIGH with confidence 30 |
| TimelineRisk.RiskFields | product-owner-agent/agent/tools/dependency.py:192-250 | the level is UNKNOWN exactly when the date does not parse, and then confidence and days are 0. The totals are the node sums, `remaining_points` is total − completed, and the rate is 0 without points |
| TimelineRisk.CalculateTimelineRisk | product-owner-agent/agent/tools/dependency.py:192-250 | UNKNOWN exactly when the target date does not parse, with confidence 0 and 0 days. Otherwise the day count is the floored `.days` to the target, and level and confidence are its classification. The remaining points are total minus completed. `RiskFields` and `RiskDays` add the totals |
| TimelineRisk.RiskDays | product-owner-agent/agent/tools/dependency.py:214-235 | for a parsed date, `days_remaining` is the floor of the time to the target's midnight, and the level and confidence are its classification |
| TimelineRisk.FourteenDaysExample | product-owner-agent/agent/tools/dependency.py:214-235 | 60 of 100 points remaining, 14 calendar days ahead: HIGH, confidence 30, rate 40, and 13 days unless it is exactly midnight |
| TimelineRisk.NotADateIsUnknown | product-owner-agent/agent/tools/dependency.py:237-240 | an unparsable target date gives UNKNOWN, confidence 0 and 0 days |
| Gantt.GanttStatusOf | product-owner-agent/agent/tools/dependency.py:430-435 | a finished status (Done, Closed, Resolved) maps to done. Blocked or Impediment maps to crit. Everything else maps to active |
| Gantt.TeamOf | product-owner-agent/agent/tools/dependency.py:416-420 | a missing or empty team field becomes "Other", so a team is never empty |
| Gantt.TaskOf | product-owner-agent/agent/tools/dependency.py:425-443 | a task has the issue's key, the prefix of its summary of exactly min(30, len) characters (`summary[:30]`), and the mapped status |
| Gantt.GroupByTeam | product-owner-agent/agent/tools/dependency.py:413-443 | the grouping loop computes `Group` |
| Gantt.GroupKeys | product-owner-agent/agent/tools/dependency.py:413-423 | the team names are distinct, are exactly the dict's keys, and are exactly the teams of the issues |
| Gantt.GroupPartition | product-owner-agent/agent/tools/dependency.py:413-443 | each team's list is the tasks of exactly its issues, in input order |
| Gantt.GroupOrder | product-owner-agent/agent/tools/dependency.py:422-423 | teams are listed in the order of their first appearance among the issues |
| Gantt.TaskLines | product-owner-agent/agent/tools/dependency.py:458-462 | the `j`-th task line shows the `j`-th task with id `t{team}_{j}` |
| Gantt.Shown | product-owner-agent/agent/tools/dependency.py:458 | a section shows the first five tasks, or all of them when there are fewer |
| Gantt.SectionLines | product-owner-agent/agent/tools/dependency.py:455-464 | a section has two lines more than the tasks it shows, seven at most |
| Gantt.SectionContents | product-owner-agent/agent/tools/dependency.py:455-464 | a section opens with `    section {team}`, ends with a blank line, and lists the lines of its tasks between them |
| Gantt.SectionsShape | product-owner-agent/agent/tools/dependency.py:455-464 | the sections take at most seven lines per team, and each team's section follows the sections of the teams before it |
| Gantt.ChartFrame | product-owner-agent/agent/tools/dependency.py:446-466 | the chart opens with the Mermaid fence, `gantt`, the title line, the `    dateFormat YYYY-MM-DD` line and a blank line. It closes with the fence, and the sections come in between |
| Gantt.RenderSection | product-owner-agent/agent/tools/dependency.py:455-464 | the section loop appends exactly `SectionLines` |
| Gantt.RenderChart | product-owner-agent/agent/tools/dependency.py:446-466 | the chart loops build exactly `ChartLines` |
| Gantt.GenerateGanttChart | product-owner-agent/agent/tools/dependency.py:400-468 | no issues give the error "No issues provided for chart generation"; otherwise the result is the joined chart of the grouped issues |
| Gantt.GroupExample | product-owner-agent/agent/tools/dependency.py:413-443 | a blocked issue without a team becomes a critical task of team "Other" |
| Gantt.SectionExample | product-owner-agent/agent/tools/dependency.py:455-464 | a one-task team gives its header, its one task line and a blank line |
| Gantt.ChartExample | product-owner-agent/agent/tools/dependency.py:446-466 | a one-team chart is the header, that section and the fence, and the first task's id is `t0_0` |
| Reporting.BucketRules | product-owner-agent/agent/tools/reporting.py:44-52 | each bucket takes exactly its statuses: Done/Closed/Resolved, In Progress/In Review, Blocked/Impediment; every other status is not started |
| Reporting.CompletedPointsAreBucketPoints | product-owner-agent/agent/tools/reporting.py:44-46 | the completed points accumulated in the loop are the points of the completed bucket |
| Reporting.CompletionRate | product-owner-agent/agent/tools/reporting.py:54-56 | the rate is 0 for no issues; otherwise it lies between 0 and 100 and rate·total = completed·100 |
| Reporting.CalculateSprintMetrics | product-owner-agent/agent/tools/reporting.py:19-68 | the loop computes `Metrics`: the four buckets, the counts, the point sums and the rate |
| Reporting.BucketedStep | product-owner-agent/agent/tools/reporting.py:37-52 | one loop step appends the issue to its own bucket only, and adds its points to the total (and to the completed points when it is completed) |
| Reporting.BucketedMembers | product-owner-agent/agent/tools/reporting.py:44-52 | an issue is in a bucket exactly when it is an input issue whose status selects that bucket |
| Reporting.BucketsPartition | product-owner-agent/agent/tools/reporting.py:29-63 | the sizes of the four buckets add up to `total_issues` |
| Reporting.PointsPartition | product-owner-agent/agent/tools/reporting.py:34-52 | the total points are the sum of the four buckets' points |
| Reporting.CompletionRateBounds | product-owner-agent/agent/tools/reporting.py:54-67 | the completion rate lies between 0 and 100 and is 0 for an empty sprint; `velocity` equals `completed_story_points`, the points of the completed issues |
| Reporting.MetricsExample | product-owner-agent/test_agent.py:124-147 | a done 5-point issue and an in-progress 3-point one: 2 issues, velocity 5, 8 points, one completed, one in progress, rate 50 |
| Reporting.DetailLines | product-owner-agent/agent/tools/reporting.py:73-82 | one detail line per issue, in input order |
| Reporting.FormatTaskDetails | product-owner-agent/agent/tools/reporting.py:71-84 | no issues give "No tasks"; otherwise the result is the detail lines joined by newlines |
| Reporting.DetailsOnePerLine | product-owner-agent/agent/tools/reporting.py:82-84 | when no field holds a line break, the listing splits back into exactly one line per issue, in order |
| Reporting.UnassignedDetail | product-owner-agent/agent/tools/reporting.py:79-82 | an issue without an assignee is listed with "(Assignee: Unassigned)" |
| Reporting.LastTwo | product-owner-agent/agent/tools/reporting.py:99 | `comments[-2:]` is the last two comments, or all of them when there are fewer |
| Reporting.CommentLines | product-owner-agent/agent/tools/reporting.py:99-103 | one update line per comment, in order |
| Reporting.IssueLines | product-owner-agent/agent/tools/reporting.py:96-103 | an issue gives at most two lines, and none exactly when it has no comments |
| Reporting.FirstTen | product-owner-agent/agent/tools/reporting.py:91 | `issues[:10]` is the prefix of exactly min(10, n) issues |
| Reporting.RenderComments | product-owner-agent/agent/tools/reporting.py:92-103 | the inner loop appends exactly the issue's update lines |
| Reporting.UpdatesStep | product-owner-agent/agent/tools/reporting.py:91-103 | one more issue appends its own lines after the earlier ones |
| Reporting.FormatUpdates | product-owner-agent/agent/tools/reporting.py:87-105 | the result is the update lines of the first ten issues joined by newlines, or "No recent updates" when there are none |
| Reporting.UpdatesBound | product-owner-agent/agent/tools/reporting.py:91-103 | there are at most two update lines per issue |
| Reporting.UpdatesEmpty | product-owner-agent/agent/tools/reporting.py:96-105 | there are no update lines exactly when no issue has a comment |
| Reporting.UpdateLineSource | product-owner-agent/agent/tools/reporting.py:91-103 | every update line is the line of one of the last two comments of one of the issues |
| Reporting.UpdatesAtMostTwenty | product-owner-agent/agent/tools/reporting.py:91-103 | the digest has at most 20 lines |
| Reporting.MetricLines | product-owner-agent/agent/tools/reporting.py:266-269 | the kept lines are report lines that mention predictability, velocity, completion or risk, in any case |
| Reporting.FirstFive | product-owner-agent/agent/tools/reporting.py:271 | `[:5]` keeps the prefix of exactly min(5, n) lines |
| Reporting.MetricLinesMembers | product-owner-agent/agent/tools/reporting.py:266-269 | a line is kept exactly when it is a report line that mentions a metric |
| Reporting.MetricLinesAppend | product-owner-agent/agent/tools/reporting.py:266-269 | the kept lines of `a + b` are those of `a` followed by those of `b`: the filter keeps the report's order and its repeated lines |
| Reporting.MetricLinesOne | product-owner-agent/agent/tools/reporting.py:266-269 | a single line is kept exactly when it mentions a metric |
| Reporting.KeptLinesRoundTrip | product-owner-agent/agent/tools/reporting.py:265-271 | the first five kept lines, joined with newlines, split back into the same lines |
| Reporting.SummaryLines | product-owner-agent/agent/tools/reporting.py:265-271 | with no matching line the summary is "Report generated successfully". Otherwise it splits back into the first one to five matching lines, each a report line that mentions a metric. Their order and repetition follow the report, by `MetricLinesAppend` and `MetricLinesOne` |
| Reporting.SummaryFallback | product-owner-agent/agent/tools/reporting.py:266-271 | nothing is kept exactly when no line of the report mentions a metric |
| Reporting.GenerateReportSummary | product-owner-agent/agent/tools/reporting.py:254-271 | the fallback "Report generated successfully" when no line mentions a metric; otherwise a text that splits back into the first five kept lines |
| Strings.JoinSplit | product-owner-agent/agent/tools/reporting.py:265-271 | joining the pieces of `split("\n")` with newlines gives back the text |
| Strings.SplitJoin | product-owner-agent/agent/tools/reporting.py:265-271 | splitting newline-free lines joined with newlines gives back the lines |
| Strings.Truncate | product-owner-agent/agent/tools/reporting.py:101 | `s[:n]` is the prefix of `s` of exactly min(n, len(s)) characters, so `s` itself when `s` is short enough |
| MessageText.ExtractCases | product-owner-agent/agent/product_owner.py:368-413 | these cases hold in this order: a string is returned as is; an internal subtype gives "", before content is read; string content is returned; list content gives its text blocks concatenated; otherwise the `text` entry or ""; a value that is not a mapping gives its `str()` |
| MessageText.ExtractText | product-owner-agent/agent/product_owner.py:368-413 | a string is returned unchanged; internal tool traffic gives ""; a mapping with neither content nor text gives "". `ExtractCases` states every case in order |
| MessageText.TextBlock | product-owner-agent/agent/product_owner.py:402-404 | a "text" block contributes its `text`, or "" without one |
| MessageText.NonTextBlocksIgnored | product-owner-agent/agent/product_owner.py:400-407 | blocks that contribute nothing give the empty text |
| MessageText.BlocksTextAppend | product-owner-agent/agent/product_owner.py:400-407 | the text of `a + b` is the text of `a` followed by the text of `b` |
| MessageText.PlainString | product-owner-agent/test_message_extraction.py:11-13 | "Hello, world!" is returned unchanged |
| MessageText.TwoTextBlocks | product-owner-agent/test_message_extraction.py:16-24 | two text blocks give "This is a test." |
| MessageText.DirectText | product-owner-agent/test_message_extraction.py:27-30 | a mapping with only `text` gives that text |
| MessageText.StringContent | product-owner-agent/test_message_extraction.py:33-36 | string content is returned |
| MessageText.InternalFiltered | product-owner-agent/test_message_extraction.py:39-48 | tool_use and init messages give "" although they have content |
| MessageText.ObjectMessage | product-owner-agent/test_message_extraction.py:51-58 | an object whose attributes hold a text block gives its text |

## Left out

- I/O is not modelled. This covers the prompt file reads, `json.loads` of the tool arguments, the chart file write with its timestamped name, the Jira and agent SDK calls, the tool result wrappers (`{"content": [...], "isError": ...}`), and the async agent session code.
- The settings singleton is replaced by the `teamField` parameter. The clock (`datetime.now()`) is replaced by the `now` parameter.
- Story points are integers. Jira may deliver fractional points, and the sums would then be floating point.
- JSON values of an unexpected type are not modelled, except for the ones the code guards: a link that is not a mapping, and a linked issue without `key`. Examples are a `summary` that is a number, a `status` that is not an object, or a `text` entry that is not a string.
- `TimelineRisk.RiskFields` and `Reporting.CompletionRateBounds` state the completion rate before `round(..., 1)`. Floating-point rounding is not modelled: rates are exact reals, and the 0.8 threshold is compared exactly (7·remaining > 4·days).
- `Reporting.CompletionRateBounds` states the rate's bounds. The identity rate·total = completed·100 is stated on `Reporting.CompletionRate` itself.
- `Dates.ParseDate` accepts only ASCII digits. Python's `strptime` also accepts other Unicode decimal digits. Years 1 to 9999 are as in `datetime`.
- `Strings.Lower` folds ASCII letters only. Python's `lower()` also folds other scripts, so a metric keyword written with non-ASCII capitals is not recognised by the model.
- `CriticalPath.FindCriticalPath` gives no weight or maximality guarantee when "" is a node key. That key belongs to an issue without a key, and there `while current:` ends the walk early, so the path can be cut short.
- `CriticalPath.FindCriticalPath` claims that no path weighs more only for acyclic graphs. On a cycle, the nodes of the cycle and everything behind it are never dequeued. Their distances are then not path maxima, which is the behaviour of the code.
- `Reporting.BucketsPartition` states the partition through the bucket sizes, with `Reporting.BucketedMembers` for membership. It is not stated as a multiset identity. Order within a bucket is input order, by the definition of `Bucketed`.
- `Reporting.UpdateLineSource` states where each update line comes from by membership, not by position.
- `Gantt.TaskLines` states the id of every task line. That ids are unique across the chart is not proved.
- `Blockers.BlockerShape` counts `blocks_count` with repetition, as the code does: two edges to the same waiting issue count twice.
