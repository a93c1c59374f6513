/** The shape of the Jira issue records the tools receive (parsed JSON), as a closed datatype.
    A field that the JSON may leave out is an `Option`; the readers below apply the defaults
    the source's `.get(key, default)` chains apply. */
module JiraRecords {
  import opened Wrappers

  /** A user object (`assignee`, comment `author`). */
  datatype Person = Person(displayName: Option<string>)

  /** The `status` object. */
  datatype StatusField = StatusField(name: Option<string>)

  /** The `outwardIssue` / `inwardIssue` object of a link. */
  datatype LinkedIssue = LinkedIssue(key: Option<string>)

  /** One entry of `issuelinks`: a mapping, or something that is not one (reading it raises). */
  datatype IssueLink =
    | Link(typeName: Option<string>, outward: Option<LinkedIssue>, inward: Option<LinkedIssue>)
    | NotAMapping

  /** One entry of `comment.comments`. */
  datatype Comment = Comment(author: Option<Person>, body: Option<string>)

  /** The `fields` object. `custom` holds the string-valued custom fields by field name
      (the team field is one of them); `storyPoints` is `customfield_10016`, `None` when
      missing or null. */
  datatype Fields = Fields(
    summary: Option<string>,
    status: Option<StatusField>,
    assignee: Option<Person>,
    custom: map<string, string>,
    dueDate: Option<string>,
    storyPoints: Option<int>,
    links: seq<IssueLink>,
    comments: seq<Comment>)

  datatype Issue = Issue(key: Option<string>, fields: Option<Fields>)

  /** `fields` read with default `{}`. */
  function FieldsOf(issue: Issue): Fields {
    issue.fields.GetOr(Fields(None, None, None, map[], None, None, [], []))
  }

  /** `issue.get("key", "")`. */
  function KeyOf(issue: Issue): string {
    issue.key.GetOr("")
  }

  /** `fields.get("summary", "")`. */
  function SummaryOf(f: Fields): string {
    f.summary.GetOr("")
  }

  /** `fields.get("status", {}).get("name", "")`. */
  function StatusOf(f: Fields): string {
    match f.status
    case None => ""
    case Some(s) => s.name.GetOr("")
  }

  /** The assignee's display name, "Unassigned" when the assignee or its name is missing. */
  function AssigneeOf(f: Fields): (r: string)
    ensures f.assignee.None? ==> r == "Unassigned"
    ensures f.assignee.Some? && f.assignee.value.displayName.Some? ==> r == f.assignee.value.displayName.value
    ensures f.assignee.Some? && f.assignee.value.displayName.None? ==> r == "Unassigned"
  {
    match f.assignee
    case None => "Unassigned"
    case Some(p) => p.displayName.GetOr("Unassigned")
  }

  /** `fields.get("customfield_10016", 0) or 0`: a missing, null or zero value counts as 0. */
  function StoryPointsOf(f: Fields): int {
    f.storyPoints.GetOr(0)
  }

  /** The statuses every tool treats as finished. */
  predicate IsFinished(status: string) {
    status in ["Done", "Closed", "Resolved"]
  }
}
