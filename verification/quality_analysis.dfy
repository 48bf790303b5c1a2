/**
  The four scorers of src/lib/quality-analysis.ts. Per-repository scores are kept in
  tenths (`0.7` is 7) so that sums are exact; the averages are reals.
 */
module QualityAnalysis {
  import opened Wrappers
  import opened Numbers
  import opened Seqs
  import opened GitHubTypes

  // ---------------------------------------------------------------- tests presence

  /** A `testing` or `tests` topic. */
  predicate HasTestTopic(r: Repo) {
    "testing" in r.topics || "tests" in r.topics
  }

  /** A name containing `test` or `spec`. */
  predicate HasTestName(r: Repo) {
    IsSubstring("test", r.name) || IsSubstring("spec", r.name)
  }

  /** One repository's test score in tenths: 7 for a test topic, 3 for a test-like name. */
  function TestPoints(r: Repo): (p: int)
    ensures 0 <= p <= 10
    ensures p == 10 <==> HasTestTopic(r) && HasTestName(r)
    ensures p == 0 <==> !HasTestTopic(r) && !HasTestName(r)
  {
    (if HasTestTopic(r) then 7 else 0) + (if HasTestName(r) then 3 else 0)
  }

  /** `calculateTestsPresence`: the mean per-repository score over `max(length, 1)`. */
  function TestsPresence(repos: seq<Repo>): real {
    (Sum(repos, TestPoints) as real / 10.0) / Max(|repos| as real, 1.0)
  }

  /**
    The tests score lies in [0, 1]; it is 0 exactly when no repository has a test topic
    or a test-like name (in particular for no repositories), and 1 exactly when there
    are repositories and every one has both.
   */
  lemma TestsPresenceRange(repos: seq<Repo>)
    ensures 0.0 <= TestsPresence(repos) <= 1.0
    ensures TestsPresence(repos) == 0.0 <==>
      forall i :: 0 <= i < |repos| ==> !HasTestTopic(repos[i]) && !HasTestName(repos[i])
    ensures TestsPresence(repos) == 1.0 <==>
      |repos| > 0 && forall i :: 0 <= i < |repos| ==> HasTestTopic(repos[i]) && HasTestName(repos[i])
  {
    SumAtMost(repos, TestPoints, 10);
    SumAtLeast(repos, TestPoints, 0);
    MeanOfTenths(Sum(repos, TestPoints), |repos|);
  }

  /**
    Dividing a total of tenths `t` with `0 <= t <= 10 * n` by `10 * max(n, 1)` gives a
    value in [0, 1] that is 0 exactly when `t` is 0 and 1 exactly when `t` is `10 * n`
    with `n > 0`.
   */
  lemma MeanOfTenths(t: int, n: nat)
    requires 0 <= t <= 10 * n
    ensures var m := (t as real / 10.0) / Max(n as real, 1.0);
      && 0.0 <= m <= 1.0
      && (m == 0.0 <==> t == 0)
      && (m == 1.0 <==> n > 0 && t == 10 * n)
  {
    if n > 0 {
      Quotient(t as real / 10.0, n as real, 0.0);
      Quotient(t as real / 10.0, n as real, 1.0);
    }
  }

  // ---------------------------------------------------------------- documentation quality

  /**
    One repository's documentation score in tenths: 4 for the README every repository
    is assumed to have, 2 each for a wiki, GitHub Pages and a non-empty topic list.
   */
  function DocPoints(r: Repo): (p: int)
    ensures 4 <= p <= 10
  {
    4 + (if r.hasWiki then 2 else 0) + (if r.hasPages then 2 else 0) + (if |r.topics| > 0 then 2 else 0)
  }

  predicate FullyDocumented(r: Repo) {
    r.hasWiki && r.hasPages && |r.topics| > 0
  }

  predicate Undocumented(r: Repo) {
    !r.hasWiki && !r.hasPages && |r.topics| == 0
  }

  /** `calculateDocQuality`: the mean per-repository score over `max(length, 1)`. */
  function DocQuality(repos: seq<Repo>): real {
    (Sum(repos, DocPoints) as real / 10.0) / Max(|repos| as real, 1.0)
  }

  /**
    No repositories score 0. Otherwise the score lies in [0.4, 1]: it is 0.4 exactly
    when no repository has a wiki, pages or topics, and 1 exactly when all have all three.
   */
  lemma DocQualityRange(repos: seq<Repo>)
    ensures |repos| == 0 ==> DocQuality(repos) == 0.0
    ensures |repos| > 0 ==> 0.4 <= DocQuality(repos) <= 1.0
    ensures |repos| > 0 ==> (DocQuality(repos) == 0.4 <==> forall i :: 0 <= i < |repos| ==> Undocumented(repos[i]))
    ensures |repos| > 0 ==> (DocQuality(repos) == 1.0 <==> forall i :: 0 <= i < |repos| ==> FullyDocumented(repos[i]))
  {
    SumAtMost(repos, DocPoints, 10);
    SumAtLeast(repos, DocPoints, 4);
    if |repos| > 0 {
      var t := Sum(repos, DocPoints);
      var n := |repos|;
      assert DocQuality(repos) == (t as real / 10.0) / n as real;
      Quotient(t as real / 10.0, n as real, 0.4);
      Quotient(t as real / 10.0, n as real, 1.0);
      assert forall i :: 0 <= i < n ==> (DocPoints(repos[i]) == 4 <==> Undocumented(repos[i]));
      assert forall i :: 0 <= i < n ==> (DocPoints(repos[i]) == 10 <==> FullyDocumented(repos[i]));
    }
  }

  // ---------------------------------------------------------------- contribution value

  datatype ActivityCounts = ActivityCounts(commits: int, pullRequests: int, reviews: int)

  /**
    The statistics object the scorer destructures; an absent field is `None` and takes
    the destructuring default (0, or an all-zero activity).
   */
  datatype ContributionInput = ContributionInput(
    totalStars: Option<int>,
    totalForks: Option<int>,
    activity: Option<ActivityCounts>)

  /** `calculateContributionValue`. */
  function ContributionValue(stats: ContributionInput): real {
    var stars := stats.totalStars.GetOr(0);
    var forks := stats.totalForks.GetOr(0);
    var activity := stats.activity.GetOr(ActivityCounts(0, 0, 0));
    var impactScore := (stars * 2 + forks * 3) as real / 100.0;
    var activityScore := (activity.commits + activity.pullRequests * 3 + activity.reviews * 2) as real / 100.0;
    (impactScore + activityScore) / 2.0
  }

  /** Every count, with defaults applied. */
  function Counts(stats: ContributionInput): seq<int> {
    var a := stats.activity.GetOr(ActivityCounts(0, 0, 0));
    [stats.totalStars.GetOr(0), stats.totalForks.GetOr(0), a.commits, a.pullRequests, a.reviews]
  }

  predicate NonNegativeCounts(stats: ContributionInput) {
    forall i :: 0 <= i < |Counts(stats)| ==> Counts(stats)[i] >= 0
  }

  /**
    With no count negative the value is not negative, and it is 0 exactly when every
    count is 0, in particular when every field is absent.
   */
  lemma ContributionValueZero(stats: ContributionInput)
    requires NonNegativeCounts(stats)
    ensures ContributionValue(stats) >= 0.0
    ensures ContributionValue(stats) == 0.0 <==> forall i :: 0 <= i < |Counts(stats)| ==> Counts(stats)[i] == 0
  {
    var c := Counts(stats);
    assert c[0] >= 0 && c[1] >= 0 && c[2] >= 0 && c[3] >= 0 && c[4] >= 0;
  }

  /** Raising any count never lowers the value: every weight is positive. */
  lemma ContributionValueMonotone(a: ContributionInput, b: ContributionInput)
    requires forall i :: 0 <= i < |Counts(a)| ==> Counts(a)[i] <= Counts(b)[i]
    ensures ContributionValue(a) <= ContributionValue(b)
  {
    var ca, cb := Counts(a), Counts(b);
    assert ca[0] <= cb[0] && ca[1] <= cb[1] && ca[2] <= cb[2] && ca[3] <= cb[3] && ca[4] <= cb[4];
  }

  // ---------------------------------------------------------------- community engagement

  /** Comments on issues, on pull request reviews and on commits. */
  predicate IsInteraction(e: Event) {
    e.kind == IssueCommentEvent || e.kind == PullRequestReviewCommentEvent || e.kind == CommitCommentEvent
  }

  /** `calculateCommunityEngagement`: the share of comment events, 0 without events. */
  function CommunityEngagement(events: seq<Event>): real {
    if |events| == 0 then 0.0
    else |Filter(events, IsInteraction)| as real / |events| as real
  }

  /**
    The engagement lies in [0, 1]; it is 0 exactly when no event is a comment (in
    particular without events) and 1 exactly when there are events and all are
    comments.
   */
  lemma CommunityEngagementRange(events: seq<Event>)
    ensures 0.0 <= CommunityEngagement(events) <= 1.0
    ensures CommunityEngagement(events) == 0.0 <==> forall i :: 0 <= i < |events| ==> !IsInteraction(events[i])
    ensures CommunityEngagement(events) == 1.0 <==>
      |events| > 0 && forall i :: 0 <= i < |events| ==> IsInteraction(events[i])
  {
    CountNone(events, IsInteraction);
    CountAll(events, IsInteraction);
    if |events| > 0 {
      var k := |Filter(events, IsInteraction)|;
      Quotient(k as real, |events| as real, 0.0);
      Quotient(k as real, |events| as real, 1.0);
    }
  }
}
