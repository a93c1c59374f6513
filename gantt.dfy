/** `generate_gantt_chart`: the issues grouped by team in order of first appearance, each issue's
    status mapped to a Mermaid task state, and the chart text with at most five tasks per team. */
module Gantt {
  import opened Wrappers
  import opened JiraRecords
  import opened Strings
  import DependencyGraph

  /** The Mermaid task states. */
  datatype GanttStatus = Done | Crit | Active

  /** The state shown for a Jira status: finished statuses are done, blocked ones critical, the
      rest active. */
  function GanttStatusOf(status: string): (r: GanttStatus)
    ensures r == Done <==> IsFinished(status)
    ensures r == Crit <==> status == "Blocked" || status == "Impediment"
  {
    if IsFinished(status) then Done
    else if status in ["Blocked", "Impediment"] then Crit
    else Active
  }

  function StatusName(s: GanttStatus): string {
    match s
    case Done => "done"
    case Crit => "crit"
    case Active => "active"
  }

  /** One entry of a team's list. */
  datatype Task = Task(key: string, summary: string, status: GanttStatus)

  /** The configured team field; missing or empty becomes "Other". */
  function TeamOf(issue: Issue, teamField: string): (r: string)
    ensures r != ""
    ensures var f := FieldsOf(issue);
      teamField !in f.custom || f.custom[teamField] == "" ==> r == "Other"
    ensures var f := FieldsOf(issue);
      teamField in f.custom && f.custom[teamField] != "" ==> r == f.custom[teamField]
  {
    var f := FieldsOf(issue);
    if teamField in f.custom && f.custom[teamField] != "" then f.custom[teamField] else "Other"
  }

  /** The entry for an issue: its key, its summary cut to 30 characters, its task state. */
  function TaskOf(issue: Issue): (t: Task)
    ensures t.key == KeyOf(issue)
    ensures var s := SummaryOf(FieldsOf(issue));
      |t.summary| == (if |s| <= 30 then |s| else 30) && t.summary <= s
    ensures t.status == GanttStatusOf(StatusOf(FieldsOf(issue)))
  {
    var f := FieldsOf(issue);
    Task(KeyOf(issue), Truncate(SummaryOf(f), 30), GanttStatusOf(StatusOf(f)))
  }

  /** The `teams` dict: `names` lists its keys in insertion order. */
  datatype Teams = Teams(names: seq<string>, tasks: map<string, seq<Task>>)

  /** The dict after the grouping loop has seen `issues`. */
  function Group(issues: seq<Issue>, teamField: string): Teams
    decreases |issues|
  {
    if issues == [] then Teams([], map[])
    else
      var prev := Group(issues[..|issues| - 1], teamField);
      var issue := issues[|issues| - 1];
      var team := TeamOf(issue, teamField);
      if team in prev.tasks then Teams(prev.names, prev.tasks[team := prev.tasks[team] + [TaskOf(issue)]])
      else Teams(prev.names + [team], prev.tasks[team := [TaskOf(issue)]])
  }

  /** The entries of the issues of `team`, in input order: an independent reading of one group. */
  function TasksOfTeam(issues: seq<Issue>, teamField: string, team: string): seq<Task> {
    if issues == [] then []
    else
      (if TeamOf(issues[0], teamField) == team then [TaskOf(issues[0])] else [])
      + TasksOfTeam(issues[1..], teamField, team)
  }

  /** `TasksOfTeam` read from the end. */
  lemma {:induction false} TasksOfTeamSnoc(issues: seq<Issue>, teamField: string, team: string)
    requires issues != []
    ensures var last := issues[|issues| - 1];
      TasksOfTeam(issues, teamField, team) ==
        TasksOfTeam(issues[..|issues| - 1], teamField, team)
        + (if TeamOf(last, teamField) == team then [TaskOf(last)] else [])
  {
    var init := issues[..|issues| - 1];
    var last := issues[|issues| - 1];
    var tail := if TeamOf(last, teamField) == team then [TaskOf(last)] else [];
    if |issues| == 1 {
      assert init == [];
      assert issues[1..] == [];
    } else {
      var head := if TeamOf(issues[0], teamField) == team then [TaskOf(issues[0])] else [];
      TasksOfTeamSnoc(issues[1..], teamField, team);
      assert issues[1..][..|issues[1..]| - 1] == init[1..];
      assert issues[1..][|issues[1..]| - 1] == last;
      assert init[0] == issues[0];
      assert TasksOfTeam(init, teamField, team) == head + TasksOfTeam(init[1..], teamField, team);
      assert TasksOfTeam(issues, teamField, team) == head + TasksOfTeam(issues[1..], teamField, team);
    }
  }

  /** A team without issues has no entries. */
  lemma {:induction false} TasksOfAbsentTeam(issues: seq<Issue>, teamField: string, team: string)
    requires forall i :: 0 <= i < |issues| ==> TeamOf(issues[i], teamField) != team
    ensures TasksOfTeam(issues, teamField, team) == []
  {
    if issues != [] {
      TasksOfAbsentTeam(issues[1..], teamField, team);
    }
  }

  /** One step of the grouping: the last issue's team is appended to the names unless it is
      already a key, and it becomes a key. */
  lemma GroupStep(issues: seq<Issue>, teamField: string)
    requires issues != []
    ensures var prev := Group(issues[..|issues| - 1], teamField);
      var team := TeamOf(issues[|issues| - 1], teamField);
      var t := Group(issues, teamField);
      && t.names == (if team in prev.tasks then prev.names else prev.names + [team])
      && t.tasks.Keys == prev.tasks.Keys + {team}
  {
  }

  /** The teams occurring in `issues` are those occurring before the last issue, and its team. */
  lemma OccursStep(issues: seq<Issue>, teamField: string, init: seq<Issue>, x: string)
    requires issues != [] && init == issues[..|issues| - 1]
    ensures (exists i :: 0 <= i < |issues| && TeamOf(issues[i], teamField) == x) <==>
            (exists i :: 0 <= i < |init| && TeamOf(init[i], teamField) == x) || TeamOf(issues[|issues| - 1], teamField) == x
  {
    if exists i :: 0 <= i < |issues| && TeamOf(issues[i], teamField) == x {
      var i :| 0 <= i < |issues| && TeamOf(issues[i], teamField) == x;
      if i < |init| {
        assert init[i] == issues[i];
      }
    }
    if exists i :: 0 <= i < |init| && TeamOf(init[i], teamField) == x {
      var i :| 0 <= i < |init| && TeamOf(init[i], teamField) == x;
      assert issues[i] == init[i];
    }
  }

  /** The dict's keys are the teams that occur, each listed once. */
  lemma {:induction false} GroupKeys(issues: seq<Issue>, teamField: string)
    ensures var t := Group(issues, teamField);
      && DependencyGraph.Distinct(t.names)
      && (forall team :: team in t.tasks <==> team in t.names)
      && (forall team :: team in t.names <==> exists i :: 0 <= i < |issues| && TeamOf(issues[i], teamField) == team)
    decreases |issues|
  {
    if issues != [] {
      var init := issues[..|issues| - 1];
      GroupKeys(init, teamField);
      GroupStep(issues, teamField);
      forall x
        ensures x in Group(issues, teamField).names <==> exists i :: 0 <= i < |issues| && TeamOf(issues[i], teamField) == x
      {
        OccursStep(issues, teamField, init, x);
      }
    }
  }

  /** The grouping is a partition: the dict's keys are the teams that occur, listed once each,
      and each team holds exactly the entries of its issues, in input order. */
  lemma {:induction false} GroupPartition(issues: seq<Issue>, teamField: string)
    ensures var t := Group(issues, teamField);
      && DependencyGraph.Distinct(t.names)
      && (forall team :: team in t.tasks <==> team in t.names)
      && (forall team :: team in t.names <==> exists i :: 0 <= i < |issues| && TeamOf(issues[i], teamField) == team)
      && (forall team :: team in t.tasks ==> t.tasks[team] == TasksOfTeam(issues, teamField, team))
    decreases |issues|
  {
    GroupKeys(issues, teamField);
    if issues != [] {
      var init := issues[..|issues| - 1];
      GroupPartition(init, teamField);
      var t := Group(issues, teamField);
      forall x | x in t.tasks
        ensures t.tasks[x] == TasksOfTeam(issues, teamField, x)
      {
        GroupTeam(issues, teamField, init, Group(init, teamField), x);
      }
    }
  }

  /** One team's list after the last issue, given the lists before it. */
  lemma GroupTeam(issues: seq<Issue>, teamField: string, init: seq<Issue>, prev: Teams, x: string)
    requires issues != [] && init == issues[..|issues| - 1] && prev == Group(init, teamField)
    requires forall team :: team in prev.tasks ==> prev.tasks[team] == TasksOfTeam(init, teamField, team)
    requires x in Group(issues, teamField).tasks
    ensures Group(issues, teamField).tasks[x] == TasksOfTeam(issues, teamField, x)
  {
    var last := issues[|issues| - 1];
    var team := TeamOf(last, teamField);
    TasksOfTeamSnoc(issues, teamField, x);
    if x != team {
      assert Group(issues, teamField).tasks[x] == prev.tasks[x];
      assert TasksOfTeam(init, teamField, x) + [] == TasksOfTeam(init, teamField, x);
    } else if team in prev.tasks {
      assert Group(issues, teamField).tasks[x] == prev.tasks[x] + [TaskOf(last)];
    } else {
      GroupKeys(init, teamField);
      TasksOfAbsentTeam(init, teamField, team);
      assert Group(issues, teamField).tasks[x] == [TaskOf(last)];
    }
  }

  /** `names` lists teams in order of first appearance in `issues`: wherever a later-listed team
      occurs, an earlier-listed team has already occurred. */
  ghost predicate FirstAppearance(issues: seq<Issue>, teamField: string, names: seq<string>) {
    forall a, b, q :: 0 <= a < b < |names| && 0 <= q < |issues| && TeamOf(issues[q], teamField) == names[b] ==>
      exists p :: 0 <= p < q && TeamOf(issues[p], teamField) == names[a]
  }

  /** The teams are listed in order of first appearance. */
  lemma {:induction false} GroupOrder(issues: seq<Issue>, teamField: string)
    ensures FirstAppearance(issues, teamField, Group(issues, teamField).names)
    decreases |issues|
  {
    if issues != [] {
      var init := issues[..|issues| - 1];
      GroupOrder(init, teamField);
      GroupKeys(init, teamField);
      GroupStep(issues, teamField);
      GroupOrderStep(issues, teamField, init, Group(init, teamField).names, Group(issues, teamField).names);
    }
  }

  /** The order after the last issue, from the order of the names before it. */
  lemma GroupOrderStep(issues: seq<Issue>, teamField: string, init: seq<Issue>,
                       prevNames: seq<string>, names: seq<string>)
    requires issues != [] && init == issues[..|issues| - 1]
    requires var team := TeamOf(issues[|issues| - 1], teamField);
      names == if team in prevNames then prevNames else prevNames + [team]
    requires forall team :: team in prevNames <==> exists i :: 0 <= i < |init| && TeamOf(init[i], teamField) == team
    requires FirstAppearance(init, teamField, prevNames)
    ensures FirstAppearance(issues, teamField, names)
  {
    forall a, b, q | 0 <= a < b < |names| && 0 <= q < |issues| && TeamOf(issues[q], teamField) == names[b]
      ensures exists p :: 0 <= p < q && TeamOf(issues[p], teamField) == names[a]
    {
      GroupOrderCase(issues, teamField, init, prevNames, names, a, b, q);
    }
  }

  /** One instance of the order after the last issue. */
  lemma GroupOrderCase(issues: seq<Issue>, teamField: string, init: seq<Issue>,
                       prevNames: seq<string>, names: seq<string>, a: nat, b: nat, q: nat)
    requires issues != [] && init == issues[..|issues| - 1]
    requires var team := TeamOf(issues[|issues| - 1], teamField);
      names == if team in prevNames then prevNames else prevNames + [team]
    requires forall team :: team in prevNames <==> exists i :: 0 <= i < |init| && TeamOf(init[i], teamField) == team
    requires FirstAppearance(init, teamField, prevNames)
    requires a < b < |names| && q < |issues| && TeamOf(issues[q], teamField) == names[b]
    ensures exists p :: 0 <= p < q && TeamOf(issues[p], teamField) == names[a]
  {
    assert names[..|prevNames|] == prevNames;
    assert names[a] == prevNames[a] && prevNames[a] in prevNames;
    if q < |init| {
      assert init[q] == issues[q];
      assert b < |prevNames|;
      var p :| 0 <= p < q && TeamOf(init[p], teamField) == prevNames[a];
      assert issues[p] == init[p];
    } else {
      var w :| 0 <= w < |init| && TeamOf(init[w], teamField) == prevNames[a];
      assert issues[w] == init[w];
    }
  }

  /** `task_id`: `t{team_idx}_{issue_idx}`. */
  function TaskId(teamIdx: nat, issueIdx: nat): string {
    "t" + NatToString(teamIdx) + "_" + NatToString(issueIdx)
  }

  function TaskLine(t: Task, teamIdx: nat, issueIdx: nat): string {
    "    " + t.summary + " :" + StatusName(t.status) + ", " + TaskId(teamIdx, issueIdx) + ", 2025-01-01, 14d"
  }

  /** The lines of the first `n` tasks, numbered from 0. */
  function TaskLines(tasks: seq<Task>, teamIdx: nat, n: nat): (r: seq<string>)
    requires n <= |tasks|
    ensures |r| == n
    ensures forall j :: 0 <= j < n ==> r[j] == TaskLine(tasks[j], teamIdx, j)
  {
    if n == 0 then [] else TaskLines(tasks, teamIdx, n - 1) + [TaskLine(tasks[n - 1], teamIdx, n - 1)]
  }

  /** How many of a team's tasks the chart shows: `team_issues[:5]`. */
  function Shown(tasks: seq<Task>): (n: nat)
    ensures n <= 5 && n <= |tasks|
    ensures n == 5 || n == |tasks|
  {
    if |tasks| < 5 then |tasks| else 5
  }

  /** A team's section: the header, its first five tasks, a blank line. */
  function SectionLines(team: string, tasks: seq<Task>, teamIdx: nat): (r: seq<string>)
    ensures |r| == 2 + Shown(tasks) <= 7
  {
    ["    section " + team] + TaskLines(tasks, teamIdx, Shown(tasks)) + [""]
  }

  /** A section opens with the team's header and closes with a blank line; between them come
      the team's first tasks, at most five, the `j`-th with id `t{teamIdx}_{j}`. */
  lemma SectionContents(team: string, tasks: seq<Task>, teamIdx: nat)
    ensures var r := SectionLines(team, tasks, teamIdx);
      && r[0] == "    section " + team && r[|r| - 1] == ""
      && forall j :: 0 <= j < Shown(tasks) ==> r[1 + j] == TaskLine(tasks[j], teamIdx, j)
  {
  }

  /** The sections of the first `n` teams. */
  function Sections(t: Teams, n: nat): (r: seq<string>)
    requires n <= |t.names|
    requires forall team :: team in t.names ==> team in t.tasks
  {
    if n == 0 then []
    else Sections(t, n - 1) + SectionLines(t.names[n - 1], t.tasks[t.names[n - 1]], n - 1)
  }

  function Header(initiativeName: string): seq<string> {
    ["```mermaid", "gantt", "    title " + initiativeName + " - Cross-Team Dependencies",
     "    dateFormat YYYY-MM-DD", ""]
  }

  /** `chart_lines` when the loops are done. */
  function ChartLines(initiativeName: string, t: Teams): seq<string>
    requires GroupShape(t)
  {
    Header(initiativeName) + Sections(t, |t.names|) + ["```"]
  }

  /** The number of lines the sections of the first `n` teams take. */
  function SectionsSize(t: Teams, n: nat): nat
    requires n <= |t.names|
    requires forall team :: team in t.names ==> team in t.tasks
  {
    if n == 0 then 0
    else
      SectionsSize(t, n - 1) + 2 + Shown(t.tasks[t.names[n - 1]])
  }

  /** Each team takes two lines plus at most five tasks, and the section of team `n - 1` starts
      where the earlier sections end. */
  lemma {:induction false} SectionsShape(t: Teams, n: nat)
    requires n <= |t.names|
    requires forall team :: team in t.names ==> team in t.tasks
    ensures |Sections(t, n)| == SectionsSize(t, n) <= 7 * n
    ensures n > 0 ==> Sections(t, n)[SectionsSize(t, n - 1)..] ==
                        SectionLines(t.names[n - 1], t.tasks[t.names[n - 1]], n - 1)
  {
    if n > 0 {
      SectionsShape(t, n - 1);
      assert |Sections(t, n - 1)| == SectionsSize(t, n - 1);
    }
  }

  /** The chart is fenced as a Mermaid block, titled with the initiative, and holds exactly the
      sections. */
  lemma ChartFrame(initiativeName: string, t: Teams)
    requires forall team :: team in t.names ==> team in t.tasks
    ensures var lines := ChartLines(initiativeName, t);
      && lines[0] == "```mermaid" && lines[1] == "gantt"
      && lines[2] == "    title " + initiativeName + " - Cross-Team Dependencies"
      && lines[3] == "    dateFormat YYYY-MM-DD" && lines[4] == ""
      && lines[|lines| - 1] == "```"
      && |lines| == 6 + SectionsSize(t, |t.names|)
      && lines[5..|lines| - 1] == Sections(t, |t.names|)
  {
    SectionsShape(t, |t.names|);
  }

  /** The grouping loop: the team of each issue, "Other" when missing or empty, gets its entry
      appended; a team met for the first time goes last. */
  method GroupByTeam(issues: seq<Issue>, teamField: string) returns (t: Teams)
    ensures t == Group(issues, teamField)
  {
    var names: seq<string> := [];
    var teams: map<string, seq<Task>> := map[];
    for i := 0 to |issues|
      invariant Teams(names, teams) == Group(issues[..i], teamField)
    {
      var issue := issues[i];
      assert issues[..i + 1][..i] == issues[..i];
      var team := TeamOf(issue, teamField);
      if team in teams {
        teams := teams[team := teams[team] + [TaskOf(issue)]];
      } else {
        names := names + [team];
        teams := teams[team := [TaskOf(issue)]];
      }
    }
    assert issues[..|issues|] == issues;
    t := Teams(names, teams);
  }

  /** The lines of one team's section, by the inner loop. */
  method RenderSection(team: string, tasks: seq<Task>, teamIdx: nat) returns (section: seq<string>)
    ensures section == SectionLines(team, tasks, teamIdx)
  {
    var lines: seq<string> := [];
    for issueIdx := 0 to Shown(tasks)
      invariant lines == TaskLines(tasks, teamIdx, issueIdx)
    {
      lines := lines + [TaskLine(tasks[issueIdx], teamIdx, issueIdx)];
    }
    section := ["    section " + team] + lines + [""];
  }

  /** `chart_lines`, section by section. */
  method RenderChart(initiativeName: string, t: Teams) returns (lines: seq<string>)
    requires GroupShape(t)
    ensures lines == ChartLines(initiativeName, t)
  {
    var sections: seq<string> := [];
    for teamIdx := 0 to |t.names|
      invariant sections == Sections(t, teamIdx)
    {
      var team := t.names[teamIdx];
      var section := RenderSection(team, t.tasks[team], teamIdx);
      sections := sections + section;
    }
    lines := Header(initiativeName) + sections + ["```"];
  }

  /** `generate_gantt_chart` without the file write: an error for no issues, otherwise the chart
      text. */
  method GenerateGanttChart(initiativeName: string, issues: seq<Issue>, teamField: string)
    returns (r: Result<string, string>)
    ensures issues == [] ==> r == Failure("No issues provided for chart generation")
    ensures issues != [] ==> GroupShape(Group(issues, teamField)) &&
                             r == Success(JoinLines(ChartLines(initiativeName, Group(issues, teamField))))
  {
    if issues == [] {
      return Failure("No issues provided for chart generation");
    }
    var t := GroupByTeam(issues, teamField);
    GroupKeys(issues, teamField);
    var lines := RenderChart(initiativeName, t);
    r := Success(JoinLines(lines));
  }

  /** One blocked issue without a team lands in team "Other" as a critical task. */
  lemma GroupExample()
    ensures var issue := Issue(Some("PROJ-1"), Some(Fields(Some("Fix login"), Some(StatusField(Some("Blocked"))),
                                                          None, map[], None, None, [], [])));
      Group([issue], "team") == Teams(["Other"], map["Other" := [Task("PROJ-1", "Fix login", Crit)]])
  {
    var issue := Issue(Some("PROJ-1"), Some(Fields(Some("Fix login"), Some(StatusField(Some("Blocked"))),
                                                  None, map[], None, None, [], [])));
    assert [issue][..0] == [];
    assert TeamOf(issue, "team") == "Other";
    assert !IsFinished("Blocked");
    assert TaskOf(issue) == Task("PROJ-1", "Fix login", Crit);
  }

  /** The section of a team with one task: its header, its one task line, a blank line. */
  lemma SectionExample()
    ensures var task := Task("PROJ-1", "Fix login", Crit);
      SectionLines("Other", [task], 0) == ["    section Other", TaskLine(task, 0, 0), ""]
  {
    var task := Task("PROJ-1", "Fix login", Crit);
    assert Shown([task]) == 1;
    assert TaskLines([task], 0, 1) == [TaskLine(task, 0, 0)];
    var header := "    section " + "Other";
    assert SectionLines("Other", [task], 0) == [header] + [TaskLine(task, 0, 0)] + [""];
    assert header == "    section Other";
  }

  /** The chart of that one team: the header, one section holding its task line, the
      closing fence. */
  lemma ChartExample()
    ensures var task := Task("PROJ-1", "Fix login", Crit);
      var t := Teams(["Other"], map["Other" := [task]]);
      && ChartLines("Mobile", t) == Header("Mobile") + ["    section Other", TaskLine(task, 0, 0), "", "```"]
      && TaskId(0, 0) == "t0_0"
  {
    var task := Task("PROJ-1", "Fix login", Crit);
    var t := Teams(["Other"], map["Other" := [task]]);
    assert NatToString(0) == "0";
    SectionExample();
    assert t.names[0] == "Other" && t.tasks["Other"] == [task];
    assert Sections(t, 1) == Sections(t, 0) + SectionLines("Other", [task], 0);
  }

  /** Every listed team has a list. */
  ghost predicate GroupShape(t: Teams) {
    forall team :: team in t.names ==> team in t.tasks
  }
}
