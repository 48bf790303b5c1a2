/**
  The repository and event records the dashboard receives from the GitHub REST API,
  reduced to the fields the statistics read. Timestamps are milliseconds since the
  epoch; a missing optional field is `None`.
 */
module GitHubTypes {
  import opened Wrappers

  const MsPerDay: int := 24 * 60 * 60 * 1000

  /** Package manifest dependencies: package name to version string. */
  type Dependencies = map<string, string>

  datatype Repo = Repo(
    name: string,
    language: Option<string>,
    stars: nat,
    forks: nat,
    watchers: nat,
    size: nat,
    createdAt: int,
    updatedAt: int,
    pushedAt: int,
    topics: seq<string>,
    hasWiki: bool,
    hasPages: bool,
    dependencies: Option<Dependencies>)

  datatype EventType =
    | PushEvent
    | PullRequestEvent
    | IssuesEvent
    | PullRequestReviewEvent
    | IssueCommentEvent
    | PullRequestReviewCommentEvent
    | CommitCommentEvent
    /** Any other type; a type named above always takes its own constructor, never this one. */
    | OtherEvent(name: string)

  /**
    An activity event. `commits` is the length of `payload.commits` when present,
    `action` is `payload.action`, `merged` is the truthiness of
    `payload.pull_request.merged`.
   */
  datatype Event = Event(
    kind: EventType,
    createdAt: int,
    repoName: string,
    commits: Option<nat>,
    action: Option<string>,
    merged: bool)

  /**
    The language a repository is grouped under: `repo.language` when truthy, so
    neither `null` nor the empty string.
   */
  function LanguageOf(r: Repo): (l: Option<string>)
    ensures l.Some? ==> l.value != "" && r.language == l
    ensures r.language.Some? && r.language.value != "" ==> l.Some?
  {
    if r.language.Some? && r.language.value != "" then r.language else None
  }

  /**
    The UTC calendar day of a timestamp (`toISOString().split('T')[0]`), as a day
    number; integer division rounds toward negative infinity, as the calendar does.
   */
  function Day(ts: int): (d: int)
    ensures d * MsPerDay <= ts < (d + 1) * MsPerDay
  {
    ts / MsPerDay
  }

  function EventDay(e: Event): int {
    Day(e.createdAt)
  }

  /** `event.payload?.commits?.length || 0`. */
  function CommitCount(e: Event): nat {
    e.commits.GetOr(0)
  }

  predicate IsPush(e: Event) {
    e.kind == PushEvent
  }

  predicate IsPullRequest(e: Event) {
    e.kind == PullRequestEvent
  }

  predicate IsOpenedPullRequest(e: Event) {
    e.kind == PullRequestEvent && e.action == Some("opened")
  }

  predicate IsOpenedIssue(e: Event) {
    e.kind == IssuesEvent && e.action == Some("opened")
  }

  predicate IsReview(e: Event) {
    e.kind == PullRequestReviewEvent
  }

  /** Commits a push contributes; other events contribute none. */
  function PushCommits(e: Event): (n: int)
    ensures n >= 0
  {
    if IsPush(e) then CommitCount(e) else 0
  }
}
