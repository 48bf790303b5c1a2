/**
  The derived values of the profile page (src/components/UserProfile.tsx): the impact
  metrics, the ranking of the repositories and the paging of the repository list.
 */
module UserProfile {
  import opened Wrappers
  import opened Numbers
  import opened Seqs
  import opened Sorting
  import opened GitHubTypes
  import opened GitHubStats
  import opened ImpactUtils

  // ---------------------------------------------------------------- impact metrics

  /** A pull request that was closed by merging it. */
  predicate IsMergedPullRequest(e: Event) {
    e.kind == PullRequestEvent && e.action == Some("closed") && e.merged
  }

  /** `events?.filter(...).length || 0`: an absent list counts nothing. */
  function CountIn(events: Option<seq<Event>>, p: Event -> bool): nat {
    if events.None? then 0 else Count(events.value, p)
  }

  /** `merged / total`, 0 without pull request events. */
  function MergeRatio(merged: nat, total: nat): real {
    if total != 0 then merged as real / total as real else 0.0
  }

  /** `prMergeRate`: the merge share as a rounded percentage. */
  function PrMergeRate(merged: nat, total: nat): int {
    if total != 0 then Round(merged as real / total as real * 100.0) else 0
  }

  /** The repository name of every event. */
  function RepoNames(events: seq<Event>): (ns: seq<string>)
    ensures |ns| == |events|
    ensures forall i :: 0 <= i < |events| ==> ns[i] == events[i].repoName
  {
    seq(|events|, i requires 0 <= i < |events| => events[i].repoName)
  }

  /** `new Set(events?.map(e => e.repo.name)).size`; `new Set(undefined)` is empty. */
  function ProjectsImpacted(events: Option<seq<Event>>): nat {
    if events.None? then 0 else |set n | n in RepoNames(events.value)|
  }

  /**
    The activity counts the page reads: those of `calculateGitHubStats` when both the
    repositories and the events are present, and all zero (the default statistics)
    otherwise.
   */
  function ProfileActivity(repos: Option<seq<Repo>>, events: Option<seq<Event>>): Activity {
    if repos.None? || events.None? then Activity(0, 0, 0, 0, Trend(false, Some(0.0)), [])
    else CalculateGitHubStats(repos.value, events.value).activity
  }

  datatype ImpactMetrics = ImpactMetrics(
    prMergeRate: int,
    totalContributions: nat,
    projectsImpacted: nat,
    contributionStreak: nat,
    impactScore: int)

  /** The `impactMetrics` memo. `repoCount` is `repos.length`, the number of the user's repositories. */
  function CalculateImpactMetrics(repos: Option<seq<Repo>>, events: Option<seq<Event>>, repoCount: nat): ImpactMetrics {
    var activity := ProfileActivity(repos, events);
    var totalPRs := CountIn(events, IsPullRequest);
    var mergedPRs := CountIn(events, IsMergedPullRequest);
    ImpactMetrics(
      PrMergeRate(mergedPRs, totalPRs),
      activity.commits + activity.pullRequests + activity.issues,
      ProjectsImpacted(events),
      CalculateStreak(events),
      ImpactScore(activity.commits, totalPRs, MergeRatio(mergedPRs, totalPRs), repoCount))
  }

  /** Merged pull requests are pull request events, so there are never more of them. */
  lemma {:induction false} MergedAtMostAll(es: seq<Event>)
    ensures Count(es, IsMergedPullRequest) <= Count(es, IsPullRequest)
    decreases |es|
  {
    if |es| > 0 {
      MergedAtMostAll(es[1..]);
    }
  }

  /**
    The merge rate is a percentage in [0, 100]: 0 without pull request events or with
    none merged, 100 when all of them were merged.
   */
  lemma PrMergeRateRange(events: Option<seq<Event>>)
    ensures var total := CountIn(events, IsPullRequest);
      var merged := CountIn(events, IsMergedPullRequest);
      var rate := PrMergeRate(merged, total);
      && 0 <= rate <= 100
      && (total == 0 || merged == 0 ==> rate == 0)
      && (merged == total ==> (total == 0 || rate == 100))
  {
    var total := CountIn(events, IsPullRequest);
    var merged := CountIn(events, IsMergedPullRequest);
    if events.Some? {
      MergedAtMostAll(events.value);
    }
    if total != 0 {
      var x := merged as real / total as real * 100.0;
      Quotient(merged as real, total as real, 1.0);
      assert 0.0 <= x <= 100.0;
      RoundMonotone(0.0, x);
      RoundMonotone(x, 100.0);
      RoundOfInt(0);
      RoundOfInt(100);
      if merged == total {
        assert x == 100.0;
      }
      if merged == 0 {
        assert x == 0.0;
      }
    }
  }

  /**
    The projects impacted are the distinct repository names among the events: as many
    as the deduplicated name list holds, and at most one per event.
   */
  lemma ProjectsImpactedCount(events: seq<Event>)
    ensures ProjectsImpacted(Some(events)) == |Dedup(RepoNames(events))| <= |events|
  {
    DedupCardinality(RepoNames(events));
    DedupLength(RepoNames(events));
  }

  /** Dropping repeats never makes a list longer. */
  lemma {:induction false} DedupLength<T>(s: seq<T>)
    ensures |Dedup(s)| <= |s|
    decreases |s|
  {
    if |s| > 0 {
      DedupLength(s[..|s| - 1]);
    }
  }

  /**
    Total contributions count every pushed commit, opened pull request and opened
    issue when both lists are present, and nothing otherwise.
   */
  lemma TotalContributionsCount(repos: Option<seq<Repo>>, events: Option<seq<Event>>, repoCount: nat)
    ensures var m := CalculateImpactMetrics(repos, events, repoCount);
      && (repos.None? || events.None? ==> m.totalContributions == 0)
      && (repos.Some? && events.Some? ==>
            m.totalContributions
              == Sum(events.value, PushCommits) + Count(events.value, IsOpenedPullRequest) + Count(events.value, IsOpenedIssue))
  {
    if repos.Some? && events.Some? {
      PushCommitTotal(events.value);
    }
  }

  /** With at most as many merged as total pull requests the merge ratio is a valid score input. */
  lemma MergeRatioScore(commits: nat, merged: nat, total: nat, repoCount: nat)
    requires merged <= total
    ensures 0 <= ImpactScore(commits, total, MergeRatio(merged, total), repoCount) <= 100
  {
    if total != 0 {
      Quotient(merged as real, total as real, 1.0);
    }
    ImpactScoreRange(commits, total, MergeRatio(merged, total), repoCount);
  }

  /** The page's impact score lies in 0..100, and is 0 when there is no activity at all. */
  lemma ImpactMetricsScore(repos: Option<seq<Repo>>, events: Option<seq<Event>>, repoCount: nat)
    ensures var m := CalculateImpactMetrics(repos, events, repoCount);
      && 0 <= m.impactScore <= 100
      && ((events.None? || events.value == []) && repoCount == 0 ==> m.impactScore == 0)
  {
    var activity := ProfileActivity(repos, events);
    var totalPRs := CountIn(events, IsPullRequest);
    var mergedPRs := CountIn(events, IsMergedPullRequest);
    if events.Some? {
      MergedAtMostAll(events.value);
    }
    MergeRatioScore(activity.commits, mergedPRs, totalPRs, repoCount);
  }

  // ---------------------------------------------------------------- project reach

  /** One repository's share of the reach: its stars plus twice its forks. */
  function RepoReach(r: Repo): int { r.stars + r.forks * 2 }

  /**
    `impactMetrics.projectReach` of the statistics memo: total stars plus twice the
    total forks. The default statistics used when a list is absent carry no impact
    metrics, so the reach is then undefined.
   */
  function ProjectReach(repos: Option<seq<Repo>>, events: Option<seq<Event>>): (r: Option<int>)
    ensures r.None? <==> repos.None? || events.None?
  {
    if repos.None? || events.None? then None
    else
      var st := CalculateGitHubStats(repos.value, events.value);
      Some(st.totalStars + st.totalForks * 2)
  }

  /** Summing the per-repository reach gives the stars total plus twice the forks total. */
  lemma {:induction false} ReachSum(repos: seq<Repo>)
    ensures Sum(repos, RepoReach) == Sum(repos, Stars) + Sum(repos, Forks) * 2
    decreases |repos|
  {
    if |repos| > 0 {
      ReachSum(repos[1..]);
    }
  }

  /**
    The reach is the sum of every repository's stars plus twice its forks, whatever
    the events are, and is never negative.
   */
  lemma ProjectReachPerRepo(repos: Option<seq<Repo>>, events: Option<seq<Event>>)
    ensures repos.Some? && events.Some? ==> ProjectReach(repos, events) == Some(Sum(repos.value, RepoReach))
    ensures ProjectReach(repos, events).Some? ==> ProjectReach(repos, events).value >= 0
  {
    if repos.Some? && events.Some? {
      StatsTotals(repos.value, events.value);
      ReachSum(repos.value);
      ReachNonNegative(repos.value);
    }
  }

  /** The statistics' star and fork totals are the sums over the repositories. */
  lemma StatsTotals(repos: seq<Repo>, events: seq<Event>)
    ensures CalculateGitHubStats(repos, events).totalStars == Sum(repos, Stars)
    ensures CalculateGitHubStats(repos, events).totalForks == Sum(repos, Forks)
  {
  }

  /** Stars and forks are counts, so the summed reach is never negative. */
  lemma ReachNonNegative(repos: seq<Repo>)
    ensures Sum(repos, RepoReach) >= 0
  {
    SumNonNegative(repos, RepoReach);
  }

  // ---------------------------------------------------------------- top repositories

  /**
    The ranking score: twice the stars plus the forks plus the last push time in
    milliseconds divided by 10^9, so that recency breaks near-ties.
   */
  function RepoScore(r: Repo): real {
    (r.stars * 2 + r.forks) as real + r.pushedAt as real / 1000000000.0
  }

  /** `topRepos`: every repository, best score first, ties in input order. */
  function TopRepos(repos: Option<seq<Repo>>): seq<Repo> {
    SortDesc(repos.GetOr([]), RepoScore)
  }

  /**
    The ranking is a permutation of the repositories (none when absent), sorted by
    descending score, and among repositories of equal score keeps their input order.
   */
  lemma TopReposShape(repos: Option<seq<Repo>>)
    ensures var top := TopRepos(repos);
      && multiset(top) == multiset(repos.GetOr([]))
      && (forall i, j :: 0 <= i < j < |top| ==> RepoScore(top[i]) >= RepoScore(top[j]))
      && (forall k :: WithKey(top, RepoScore, k) == WithKey(repos.GetOr([]), RepoScore, k))
  {
    var top := TopRepos(repos);
    assert SortedDesc(top, RepoScore);
    forall k ensures WithKey(top, RepoScore, k) == WithKey(repos.GetOr([]), RepoScore, k) {
      SortDescStable(repos.GetOr([]), RepoScore, k);
    }
  }

  // ---------------------------------------------------------------- paging

  const ReposPerPage: nat := 6
  const CollapsedCount: nat := 3

  datatype Pager = Pager(showAll: bool, displayCount: nat)

  /** The state on mount and after switching to another user. */
  const InitialPager := Pager(false, CollapsedCount)

  /** How many repositories the list may show. */
  function Limit(p: Pager): nat {
    if p.showAll then p.displayCount else CollapsedCount
  }

  /** `displayedRepos`: the first 3 when collapsed, the first `displayCount` when expanded. */
  function DisplayedRepos(top: seq<Repo>, p: Pager): (shown: seq<Repo>)
    ensures shown <= top
    ensures |shown| == MinInt(Limit(p), |top|)
  {
    Take(top, Limit(p))
  }

  function HasMoreRepos(top: seq<Repo>, p: Pager): bool {
    |top| > |DisplayedRepos(top, p)|
  }

  /** More repositories exist exactly when the list is shorter than the ranking allows. */
  lemma HasMoreReposIff(top: seq<Repo>, p: Pager)
    ensures HasMoreRepos(top, p) <==> Limit(p) < |top|
  {
  }

  /** `handleLoadMore`: expands to 6 or collapses back to 3. */
  function LoadMore(p: Pager): (q: Pager)
    ensures q.showAll == !p.showAll
    ensures q.displayCount == if q.showAll then ReposPerPage else CollapsedCount
  {
    if p.showAll then Pager(false, CollapsedCount) else Pager(true, ReposPerPage)
  }

  /** Expanding and collapsing again returns to the initial state. */
  lemma LoadMoreRoundTrip()
    ensures LoadMore(LoadMore(InitialPager)) == InitialPager
    ensures Limit(LoadMore(InitialPager)) == ReposPerPage
  {
  }

  /** `handleLoadMoreRepos`: six more, but never more than there are. */
  function LoadMoreRepos(p: Pager, repoCount: nat): (q: Pager)
    ensures q.showAll == p.showAll
    ensures q.displayCount <= repoCount
  {
    Pager(p.showAll, MinInt(p.displayCount + ReposPerPage, repoCount))
  }

  /**
    In the expanded list, loading more shows six more repositories, or all of them
    when fewer remain; the list never gets shorter.
   */
  lemma LoadMoreReposShows(top: seq<Repo>, p: Pager)
    requires p.showAll
    ensures var before := |DisplayedRepos(top, p)|;
      var after := |DisplayedRepos(top, LoadMoreRepos(p, |top|))|;
      && before <= after
      && after == if before + ReposPerPage <= |top| then before + ReposPerPage else |top|
  {
  }
}
