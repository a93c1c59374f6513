/** The sprint reporting helpers: the status buckets and story-point totals of a sprint, the listings
    of issues and of comments given to the report prompt, and the short summary of a finished report. */
module Reporting {
  import opened Wrappers
  import opened JiraRecords
  import opened Strings
  import Seqs

  /** The four lists a sprint's issues are sorted into. */
  datatype Bucket = Completed | InProgress | Blocked | NotStarted

  /** The bucket of a status; the rules are tried in this order. */
  function BucketOf(status: string): Bucket {
    if IsFinished(status) then Completed
    else if status in ["In Progress", "In Review"] then InProgress
    else if status in ["Blocked", "Impediment"] then Blocked
    else NotStarted
  }

  /** Each rule selects its statuses and no others: the four status sets do not overlap, so the
      order of the rules decides nothing, and every other status is not started. */
  lemma BucketRules(status: string)
    ensures BucketOf(status) == Completed <==> IsFinished(status)
    ensures BucketOf(status) == InProgress <==> status == "In Progress" || status == "In Review"
    ensures BucketOf(status) == Blocked <==> status == "Blocked" || status == "Impediment"
    ensures BucketOf(status) == NotStarted <==>
              status !in ["Done", "Closed", "Resolved", "In Progress", "In Review", "Blocked", "Impediment"]
  {
  }

  function IssueBucket(issue: Issue): Bucket {
    BucketOf(StatusOf(FieldsOf(issue)))
  }

  function IssuePoints(issue: Issue): int {
    StoryPointsOf(FieldsOf(issue))
  }

  /** The issues of bucket `b`, in input order. */
  function Bucketed(issues: seq<Issue>, b: Bucket): (r: seq<Issue>)
    ensures |r| <= |issues|
  {
    if issues == [] then []
    else
      var last := issues[|issues| - 1];
      Bucketed(issues[..|issues| - 1], b) + (if IssueBucket(last) == b then [last] else [])
  }

  /** The story points of `issues`, a missing or null value counting 0. */
  function TotalPoints(issues: seq<Issue>): int {
    if issues == [] then 0 else TotalPoints(issues[..|issues| - 1]) + IssuePoints(issues[|issues| - 1])
  }

  /** The story points of the finished issues among `issues`. */
  function CompletedPoints(issues: seq<Issue>): int {
    if issues == [] then 0
    else
      var last := issues[|issues| - 1];
      CompletedPoints(issues[..|issues| - 1]) + (if IssueBucket(last) == Completed then IssuePoints(last) else 0)
  }

  lemma {:induction false} CompletedPointsAreBucketPoints(issues: seq<Issue>)
    ensures CompletedPoints(issues) == TotalPoints(Bucketed(issues, Completed))
  {
    if issues != [] {
      var init := issues[..|issues| - 1];
      CompletedPointsAreBucketPoints(init);
      BucketedSnoc(issues);
      if IssueBucket(issues[|issues| - 1]) == Completed {
        SnocPoints(Bucketed(init, Completed), issues[|issues| - 1]);
      }
    }
  }

  /** `len(completed) / len(issues) * 100 if issues else 0`. */
  function CompletionRate(completed: nat, total: nat): (r: real)
    ensures total == 0 ==> r == 0.0
    ensures 0 < total && completed <= total ==> 0.0 <= r <= 100.0 && r * total as real == completed as real * 100.0
  {
    if total > 0 then
      var share := completed as real / total as real;
      assert share * total as real == completed as real;
      share * 100.0
    else 0.0
  }

  /** The dict `calculate_sprint_metrics` returns; `completionRate` before rounding. */
  datatype SprintMetrics = SprintMetrics(
    totalIssues: nat,
    completed: seq<Issue>,
    inProgress: seq<Issue>,
    blocked: seq<Issue>,
    notStarted: seq<Issue>,
    completionRate: real,
    totalStoryPoints: int,
    completedStoryPoints: int,
    velocity: int)

  /** The metrics of a sprint, as the loop accumulates them. */
  function Metrics(issues: seq<Issue>): SprintMetrics {
    var completed := Bucketed(issues, Completed);
    SprintMetrics(
      |issues|, completed, Bucketed(issues, InProgress), Bucketed(issues, Blocked), Bucketed(issues, NotStarted),
      CompletionRate(|completed|, |issues|),
      TotalPoints(issues), TotalPoints(completed), TotalPoints(completed))
  }

  /** `calculate_sprint_metrics`: one pass that appends each issue to its bucket and adds up the
      points. */
  method CalculateSprintMetrics(issues: seq<Issue>) returns (m: SprintMetrics)
    ensures m == Metrics(issues)
  {
    var completed: seq<Issue> := [];
    var inProgress: seq<Issue> := [];
    var blocked: seq<Issue> := [];
    var notStarted: seq<Issue> := [];
    var totalStoryPoints := 0;
    var completedStoryPoints := 0;
    for i := 0 to |issues|
      invariant completed == Bucketed(issues[..i], Completed)
      invariant inProgress == Bucketed(issues[..i], InProgress)
      invariant blocked == Bucketed(issues[..i], Blocked)
      invariant notStarted == Bucketed(issues[..i], NotStarted)
      invariant totalStoryPoints == TotalPoints(issues[..i])
      invariant completedStoryPoints == CompletedPoints(issues[..i])
    {
      var issue := issues[i];
      BucketedStep(issues, i);
      var storyPoints := IssuePoints(issue);
      totalStoryPoints := totalStoryPoints + storyPoints;
      match IssueBucket(issue)
      case Completed =>
        completed := completed + [issue];
        completedStoryPoints := completedStoryPoints + storyPoints;
      case InProgress =>
        inProgress := inProgress + [issue];
      case Blocked =>
        blocked := blocked + [issue];
      case NotStarted =>
        notStarted := notStarted + [issue];
    }
    assert issues[..|issues|] == issues;
    CompletedPointsAreBucketPoints(issues);
    var rate := CompletionRate(|completed|, |issues|);
    m := SprintMetrics(|issues|, completed, inProgress, blocked, notStarted, rate,
                       totalStoryPoints, completedStoryPoints, completedStoryPoints);
  }

  /** One more issue: its bucket grows by it, the others stay, the total grows by its points. */
  lemma BucketedStep(issues: seq<Issue>, i: nat)
    requires i < |issues|
    ensures forall b :: Bucketed(issues[..i + 1], b) ==
                          if IssueBucket(issues[i]) == b then Bucketed(issues[..i], b) + [issues[i]]
                          else Bucketed(issues[..i], b)
    ensures TotalPoints(issues[..i + 1]) == TotalPoints(issues[..i]) + IssuePoints(issues[i])
    ensures CompletedPoints(issues[..i + 1]) ==
              CompletedPoints(issues[..i]) + (if IssueBucket(issues[i]) == Completed then IssuePoints(issues[i]) else 0)
  {
    assert issues[..i + 1][..i] == issues[..i];
    BucketedSnoc(issues[..i + 1]);
  }

  /** An issue is in a bucket exactly when it is one of the issues and its status selects that
      bucket. */
  lemma {:induction false} BucketedMembers(issues: seq<Issue>, b: Bucket, x: Issue)
    ensures x in Bucketed(issues, b) <==> x in issues && IssueBucket(x) == b
  {
    if issues != [] {
      var init := issues[..|issues| - 1];
      BucketedMembers(init, b, x);
      assert issues == init + [issues[|issues| - 1]];
    }
  }

  /** The four buckets split the issues: their sizes add up to the number of issues, and with
      `BucketedMembers` each issue is in the one bucket its status selects and in no other. */
  lemma {:induction false} BucketsPartition(issues: seq<Issue>)
    ensures |Bucketed(issues, Completed)| + |Bucketed(issues, InProgress)| + |Bucketed(issues, Blocked)|
            + |Bucketed(issues, NotStarted)| == |issues|
  {
    if issues != [] {
      var init := issues[..|issues| - 1];
      BucketsPartition(init);
      BucketedSnoc(issues);
    }
  }

  /** The points split the same way: the total is the sum of the buckets' points. */
  lemma {:induction false} PointsPartition(issues: seq<Issue>)
    ensures TotalPoints(issues) == TotalPoints(Bucketed(issues, Completed)) + TotalPoints(Bucketed(issues, InProgress))
                                   + TotalPoints(Bucketed(issues, Blocked)) + TotalPoints(Bucketed(issues, NotStarted))
  {
    if issues != [] {
      var init := issues[..|issues| - 1];
      var last := issues[|issues| - 1];
      PointsPartition(init);
      var b := IssueBucket(last);
      SnocPoints(Bucketed(init, b), last);
      BucketedSnoc(issues);
      assert TotalPoints(issues) == TotalPoints(init) + IssuePoints(last);
    }
  }

  /** The last issue joins its own bucket and leaves the others as they were. */
  lemma BucketedSnoc(issues: seq<Issue>)
    requires issues != []
    ensures var init := issues[..|issues| - 1];
      var last := issues[|issues| - 1];
      forall b :: Bucketed(issues, b) == if IssueBucket(last) == b then Bucketed(init, b) + [last] else Bucketed(init, b)
  {
    var init := issues[..|issues| - 1];
    forall b ensures Bucketed(init, b) + [] == Bucketed(init, b) {
    }
  }

  lemma SnocPoints(s: seq<Issue>, x: Issue)
    ensures TotalPoints(s + [x]) == TotalPoints(s) + IssuePoints(x)
  {
    assert (s + [x])[..|s|] == s;
  }

  /** The completion rate counts issues, not points: it is the completed share of the issues as
      a percentage, between 0 and 100, and 0 for an empty sprint; the velocity is the completed
      points. */
  lemma CompletionRateBounds(issues: seq<Issue>)
    ensures var m := Metrics(issues);
      && 0.0 <= m.completionRate <= 100.0
      && (issues == [] ==> m.completionRate == 0.0)
      && m.velocity == m.completedStoryPoints == TotalPoints(m.completed)
  {
    var m := Metrics(issues);
    assert |m.completed| <= |issues|;
  }

  /** A done issue of 5 points and an in-progress issue of 3: two issues, velocity 5, one in each
      of the first two buckets, a completion rate of 50. */
  lemma MetricsExample()
    ensures var done := Issue(Some("TEST-1"), Some(Fields(Some("Completed Story"), Some(StatusField(Some("Done"))),
                                                         None, map[], None, Some(5), [], [])));
      var busy := Issue(Some("TEST-2"), Some(Fields(Some("In Progress Story"), Some(StatusField(Some("In Progress"))),
                                                  None, map[], None, Some(3), [], [])));
      var m := Metrics([done, busy]);
      && m.totalIssues == 2 && m.velocity == 5 && m.totalStoryPoints == 8
      && |m.completed| == 1 && |m.inProgress| == 1 && m.completionRate == 50.0
  {
    var done := Issue(Some("TEST-1"), Some(Fields(Some("Completed Story"), Some(StatusField(Some("Done"))),
                                                 None, map[], None, Some(5), [], [])));
    var busy := Issue(Some("TEST-2"), Some(Fields(Some("In Progress Story"), Some(StatusField(Some("In Progress"))),
                                                None, map[], None, Some(3), [], [])));
    assert [done, busy][..1] == [done];
  }

  /** `- {key}: {summary} [{status}] (Assignee: {name})`. */
  function DetailLine(issue: Issue): string {
    var f := FieldsOf(issue);
    "- " + KeyOf(issue) + ": " + SummaryOf(f) + " [" + StatusOf(f) + "] (Assignee: " + AssigneeOf(f) + ")"
  }

  /** One detail line per issue, in input order. */
  function DetailLines(issues: seq<Issue>): (r: seq<string>)
    ensures |r| == |issues|
    ensures forall i :: 0 <= i < |issues| ==> r[i] == DetailLine(issues[i])
  {
    if issues == [] then [] else DetailLines(issues[..|issues| - 1]) + [DetailLine(issues[|issues| - 1])]
  }

  /** `format_task_details`. */
  method FormatTaskDetails(issues: seq<Issue>) returns (r: string)
    ensures issues == [] ==> r == "No tasks"
    ensures issues != [] ==> r == JoinLines(DetailLines(issues))
  {
    var details: seq<string> := [];
    for i := 0 to |issues|
      invariant details == DetailLines(issues[..i])
    {
      assert issues[..i + 1][..i] == issues[..i];
      details := details + [DetailLine(issues[i])];
    }
    assert issues[..|issues|] == issues;
    r := if details != [] then JoinLines(details) else "No tasks";
  }

  /** No part of the line holds a line break. */
  predicate SingleLineDetail(issue: Issue) {
    '\n' !in DetailLine(issue)
  }

  /** When no issue's fields hold a line break, the listing splits back into one line per issue,
      the `i`-th line naming the `i`-th issue and its assignee ("Unassigned" without one). */
  lemma DetailsOnePerLine(issues: seq<Issue>)
    requires issues != []
    requires forall i :: 0 <= i < |issues| ==> SingleLineDetail(issues[i])
    ensures var lines := SplitLines(JoinLines(DetailLines(issues)));
      && |lines| == |issues|
      && forall i :: 0 <= i < |issues| ==> lines[i] == DetailLine(issues[i])
  {
    SplitJoin(DetailLines(issues));
  }

  /** A missing assignee reads "Unassigned". */
  lemma UnassignedDetail(issue: Issue)
    requires FieldsOf(issue).assignee.None?
    ensures var f := FieldsOf(issue);
      DetailLine(issue) == "- " + KeyOf(issue) + ": " + SummaryOf(f) + " [" + StatusOf(f) + "] (Assignee: Unassigned)"
  {
  }

  /** `comments[-2:]`: the last two comments, or all of them when there are fewer. */
  function LastTwo(comments: seq<Comment>): (r: seq<Comment>)
    ensures |r| == (if |comments| < 2 then |comments| else 2)
    ensures r == comments[|comments| - |r|..]
  {
    if |comments| <= 2 then comments else comments[|comments| - 2..]
  }

  /** `comment.get("author", {}).get("displayName", "Unknown")`. */
  function AuthorOf(c: Comment): string {
    match c.author
    case None => "Unknown"
    case Some(p) => p.displayName.GetOr("Unknown")
  }

  /** `[{key}] {author}: {body[:200]}`. */
  function UpdateLine(key: string, c: Comment): string {
    "[" + key + "] " + AuthorOf(c) + ": " + Truncate(c.body.GetOr(""), 200)
  }

  function CommentLines(key: string, comments: seq<Comment>): (r: seq<string>)
    ensures |r| == |comments|
    ensures forall j :: 0 <= j < |comments| ==> r[j] == UpdateLine(key, comments[j])
  {
    if comments == [] then []
    else CommentLines(key, comments[..|comments| - 1]) + [UpdateLine(key, comments[|comments| - 1])]
  }

  /** The lines of the latest two comments of one issue: none exactly when it has no comment. */
  function IssueLines(issue: Issue): (r: seq<string>)
    ensures |r| <= 2
    ensures r == [] <==> FieldsOf(issue).comments == []
  {
    CommentLines(KeyOf(issue), LastTwo(FieldsOf(issue).comments))
  }

  /** The lines of the latest two comments of each of `issues`. */
  function IssueUpdates(issues: seq<Issue>): seq<string> {
    if issues == [] then [] else IssueUpdates(issues[..|issues| - 1]) + IssueLines(issues[|issues| - 1])
  }

  /** `issues[:10]`. */
  function FirstTen(issues: seq<Issue>): (r: seq<Issue>)
    ensures |r| == if |issues| <= 10 then |issues| else 10
    ensures r <= issues
  {
    if |issues| <= 10 then issues else issues[..10]
  }

  /** The lines of one issue's latest comments, by the inner loop. */
  method RenderComments(issue: Issue) returns (lines: seq<string>)
    ensures lines == IssueLines(issue)
  {
    var key := KeyOf(issue);
    var comments := LastTwo(FieldsOf(issue).comments);
    lines := [];
    for j := 0 to |comments|
      invariant lines == CommentLines(key, comments[..j])
    {
      assert comments[..j + 1][..j] == comments[..j];
      lines := lines + [UpdateLine(key, comments[j])];
    }
    assert comments[..|comments|] == comments;
  }

  /** One more issue adds its own lines after the earlier ones. */
  lemma UpdatesStep(issues: seq<Issue>, i: nat)
    requires i < |issues|
    ensures IssueUpdates(issues[..i + 1]) == IssueUpdates(issues[..i]) + IssueLines(issues[i])
  {
    assert issues[..i + 1][..i] == issues[..i];
  }

  /** `format_updates`. */
  method FormatUpdates(issues: seq<Issue>) returns (r: string)
    ensures var updates := IssueUpdates(FirstTen(issues));
      r == if updates == [] then "No recent updates" else JoinLines(updates)
  {
    var recent := FirstTen(issues);
    var updates: seq<string> := [];
    for i := 0 to |recent|
      invariant updates == IssueUpdates(recent[..i])
    {
      var lines := RenderComments(recent[i]);
      UpdatesStep(recent, i);
      updates := updates + lines;
    }
    assert recent[..|recent|] == recent;
    r := if updates != [] then JoinLines(updates) else "No recent updates";
  }

  /** Each issue gives at most two lines. */
  lemma {:induction false} UpdatesBound(issues: seq<Issue>)
    ensures |IssueUpdates(issues)| <= 2 * |issues|
  {
    if issues != [] {
      UpdatesBound(issues[..|issues| - 1]);
    }
  }

  /** The listing is empty exactly when none of the issues has a comment. */
  lemma {:induction false} UpdatesEmpty(issues: seq<Issue>)
    ensures IssueUpdates(issues) == [] <==> forall issue :: issue in issues ==> FieldsOf(issue).comments == []
  {
    if issues != [] {
      var init, last := issues[..|issues| - 1], issues[|issues| - 1];
      UpdatesEmpty(init);
      assert IssueUpdates(issues) == IssueUpdates(init) + IssueLines(last);
      Seqs.InitMembers(issues);
      if IssueUpdates(issues) == [] {
        assert IssueUpdates(init) == [] && IssueLines(last) == [];
        forall issue | issue in issues
          ensures FieldsOf(issue).comments == []
        {
          if issue != last {
            assert issue in init;
          }
        }
      } else if IssueUpdates(init) != [] {
        var w :| w in init && FieldsOf(w).comments != [];
        assert w in issues;
      } else {
        assert FieldsOf(last).comments != [];
        assert last in issues;
      }
    }
  }

  /** Every update line quotes one of the latest two comments of one of the issues, under that
      issue's key, the body cut to 200 characters. */
  lemma {:induction false} UpdateLineSource(issues: seq<Issue>, line: string)
    requires line in IssueUpdates(issues)
    ensures exists issue, c :: issue in issues && c in LastTwo(FieldsOf(issue).comments) &&
                               line == UpdateLine(KeyOf(issue), c)
  {
    var init := issues[..|issues| - 1];
    var last := issues[|issues| - 1];
    var comments := LastTwo(FieldsOf(last).comments);
    assert IssueUpdates(issues) == IssueUpdates(init) + IssueLines(last);
    Seqs.InitMembers(issues);
    if line in IssueUpdates(init) {
      UpdateLineSource(init, line);
    } else {
      assert line in CommentLines(KeyOf(last), comments);
      var j :| 0 <= j < |comments| && CommentLines(KeyOf(last), comments)[j] == line;
      assert comments[j] in comments;
    }
  }

  /** The listing reads at most the first ten issues and yields at most 20 lines. */
  lemma UpdatesAtMostTwenty(issues: seq<Issue>)
    ensures |IssueUpdates(FirstTen(issues))| <= 20
  {
    UpdatesBound(FirstTen(issues));
  }

  /** A line that mentions, in any letter case, one of the metrics a summary keeps. */
  predicate MentionsMetric(line: string) {
    var l := Lower(line);
    Contains(l, "predictability") || Contains(l, "velocity") || Contains(l, "completion") || Contains(l, "risk")
  }

  /** The lines that mention a metric, in order. */
  function MetricLines(lines: seq<string>): (r: seq<string>)
    ensures |r| <= |lines|
    ensures forall i :: 0 <= i < |r| ==> MentionsMetric(r[i]) && r[i] in lines
  {
    if lines == [] then []
    else (if MentionsMetric(lines[0]) then [lines[0]] else []) + MetricLines(lines[1..])
  }

  /** `summary_lines[:5]`. */
  function FirstFive(lines: seq<string>): (r: seq<string>)
    ensures |r| == if |lines| <= 5 then |lines| else 5
    ensures r <= lines
  {
    if |lines| <= 5 then lines else lines[..5]
  }

  /** Newline-free lines kept by the filter and cut to five read back from their join. */
  lemma KeptLinesRoundTrip(lines: seq<string>)
    requires forall i :: 0 <= i < |lines| ==> '\n' !in lines[i]
    requires MetricLines(lines) != []
    ensures SplitLines(JoinLines(FirstFive(MetricLines(lines)))) == FirstFive(MetricLines(lines))
  {
    var matched := MetricLines(lines);
    var kept := FirstFive(matched);
    assert forall i :: 0 <= i < |kept| ==> kept[i] == matched[i];
    assert forall i :: 0 <= i < |kept| ==> kept[i] in lines;
    assert forall i :: 0 <= i < |kept| ==> '\n' !in kept[i];
    SplitJoin(kept);
  }

  /** `generate_report_summary`: the fallback text when no line mentions a metric, otherwise a
      text that splits back into the first five such lines. */
  function GenerateReportSummary(content: string): (r: string)
    ensures MetricLines(SplitLines(content)) == [] ==> r == "Report generated successfully"
    ensures MetricLines(SplitLines(content)) != [] ==>
              SplitLines(r) == FirstFive(MetricLines(SplitLines(content)))
  {
    var matched := MetricLines(SplitLines(content));
    if matched != [] then
      KeptLinesRoundTrip(SplitLines(content));
      JoinLines(FirstFive(matched))
    else "Report generated successfully"
  }

  /** The filter distributes over concatenation: the kept lines of `a + b` are those of `a`
      followed by those of `b`, so the report's order and repeated lines are kept. */
  lemma {:induction false} MetricLinesAppend(a: seq<string>, b: seq<string>)
    ensures MetricLines(a + b) == MetricLines(a) + MetricLines(b)
  {
    if a != [] {
      MetricLinesAppend(a[1..], b);
      assert (a + b)[0] == a[0];
      assert (a + b)[1..] == a[1..] + b;
    } else {
      assert a + b == b;
    }
  }

  /** One line is kept exactly when it mentions a metric. */
  lemma MetricLinesOne(x: string)
    ensures MetricLines([x]) == if MentionsMetric(x) then [x] else []
  {
    assert [x][1..] == [];
  }

  /** A line is kept exactly when it is a line of the report that mentions a metric. */
  lemma {:induction false} MetricLinesMembers(lines: seq<string>, x: string)
    ensures x in MetricLines(lines) <==> x in lines && MentionsMetric(x)
  {
    if lines != [] {
      MetricLinesMembers(lines[1..], x);
      assert lines == [lines[0]] + lines[1..];
    }
  }

  /** The summary is the first five lines of the report that mention a metric, in the report's
      order, and reads back as those lines; with no such line it is the fallback text. */
  lemma SummaryLines(content: string)
    ensures var matched := MetricLines(SplitLines(content));
      && (matched == [] ==> GenerateReportSummary(content) == "Report generated successfully")
      && (matched != [] ==>
            var lines := SplitLines(GenerateReportSummary(content));
            && lines == FirstFive(matched)
            && 1 <= |lines| <= 5
            && forall i :: 0 <= i < |lines| ==> MentionsMetric(lines[i]) && lines[i] in SplitLines(content))
  {
    var matched := MetricLines(SplitLines(content));
    if matched != [] {
      var kept := FirstFive(matched);
      assert forall i :: 0 <= i < |kept| ==> kept[i] == matched[i];
    }
  }

  /** The fallback is given exactly when no line mentions a metric. */
  lemma SummaryFallback(content: string)
    ensures MetricLines(SplitLines(content)) == [] <==>
              forall i :: 0 <= i < |SplitLines(content)| ==> !MentionsMetric(SplitLines(content)[i])
  {
    var lines := SplitLines(content);
    if MetricLines(lines) == [] {
      forall i | 0 <= i < |lines| ensures !MentionsMetric(lines[i]) {
        MetricLinesMembers(lines, lines[i]);
      }
    } else {
      var x := MetricLines(lines)[0];
      MetricLinesMembers(lines, x);
    }
  }
}
