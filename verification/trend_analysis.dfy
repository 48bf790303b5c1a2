/**
  The trend chart of src/components/TrendAnalysis.tsx: events grouped into per-day
  contribution entries, the entries of the selected period in date order, and the
  overview totals over them. The period's start instant depends on the calendar
  (`setMonth`), so it is a parameter: `startFor(m)` is the instant `m` months back.
 */
module TrendAnalysis {
  import opened Wrappers
  import opened Seqs
  import opened Sorting
  import opened Assoc
  import opened GitHubTypes
  import opened Contributions
  import opened GitHubStats

  datatype ContributionData = ContributionData(date: int, commits: nat, pullRequests: nat, issues: nat)

  function ToContribution(b: Entry<int, Counts>): ContributionData {
    ContributionData(b.key, b.val.commits, b.val.pullRequests, b.val.issues)
  }

  function ToContributions(buckets: DayBuckets): (cs: seq<ContributionData>)
    ensures |cs| == |buckets|
    ensures forall i :: 0 <= i < |cs| ==> cs[i] == ToContribution(buckets[i])
    decreases |buckets|
  {
    if |buckets| == 0 then [] else [ToContribution(buckets[0])] + ToContributions(buckets[1..])
  }

  function TrendBuckets(events: seq<Event>): DayBuckets {
    Bucket(events, EventDay, TrendDelta)
  }

  /**
    `transformEventsToContributions`: `None` is an absent event list. Entries come in
    order of each day's first event (`Object.values` on non-numeric keys).
   */
  function TransformEvents(events: Option<seq<Event>>): (cs: seq<ContributionData>)
    ensures events.None? || |events.value| == 0 ==> cs == []
  {
    if events.None? || |events.value| == 0 then []
    else ToContributions(TrendBuckets(events.value))
  }

  /** The chart groups by the same days as the statistics, whatever each rule counts. */
  lemma TrendKeysAreDailyKeys(events: seq<Event>)
    ensures Keys(TrendBuckets(events)) == Keys(DailyBuckets(events))
  {
    BucketKeys(events, EventDay, TrendDelta);
    BucketKeys(events, EventDay, DailyDelta);
  }

  /**
    One entry per distinct event day: the dates are pairwise different, each is the
    day of some event, and every event's day has an entry.
   */
  lemma TransformDates(events: seq<Event>)
    requires |events| > 0
    ensures var cs := TransformEvents(Some(events));
      var ks := Keys(DailyBuckets(events));
      |cs| == |ks| && forall i :: 0 <= i < |cs| ==> cs[i].date == ks[i]
  {
    TrendKeysAreDailyKeys(events);
  }

  lemma TransformDays(events: seq<Event>)
    ensures var cs := TransformEvents(Some(events));
      && (forall i, j :: 0 <= i < j < |cs| ==> cs[i].date != cs[j].date)
      && (forall i :: 0 <= i < |cs| ==> exists n :: 0 <= n < |events| && EventDay(events[n]) == cs[i].date)
      && (forall n :: 0 <= n < |events| ==> exists i :: 0 <= i < |cs| && cs[i].date == EventDay(events[n]))
  {
    if |events| > 0 {
      var cs := TransformEvents(Some(events));
      var ks := Keys(DailyBuckets(events));
      TransformDates(events);
      DailyKeys(events);
      forall n | 0 <= n < |events|
        ensures exists i :: 0 <= i < |cs| && cs[i].date == EventDay(events[n])
      {
        var i :| 0 <= i < |ks| && ks[i] == EventDay(events[n]);
        assert cs[i].date == ks[i];
      }
    }
  }

  /** At each position the chart's bucket and the statistics' bucket share the day and every count but reviews. */
  lemma SameBucketAt(events: seq<Event>, i: nat)
    requires i < |DailyBuckets(events)|
    ensures var tb := TrendBuckets(events);
      var db := DailyBuckets(events);
      && i < |tb|
      && tb[i].key == db[i].key
      && tb[i].val.commits == db[i].val.commits
      && tb[i].val.pullRequests == db[i].val.pullRequests
      && tb[i].val.issues == db[i].val.issues
  {
    var tb := TrendBuckets(events);
    var db := DailyBuckets(events);
    TrendKeysAreDailyKeys(events);
    BucketKeys(events, EventDay, DailyDelta);
    assert |tb| == |Keys(tb)| == |Keys(db)| == |db|;
    var d := db[i].key;
    assert tb[i].key == Keys(tb)[i] == Keys(db)[i] == d;
    GetAt(tb, i);
    GetAt(db, i);
    BucketGet(events, EventDay, TrendDelta, d);
    BucketGet(events, EventDay, DailyDelta, d);
    TrendSumIsDailyWithoutReviews(EventsOn(events, d));
  }

  /**
    Each chart entry agrees with the heatmap entry at the same position: the same day
    and the same commits, opened pull requests and opened issues; only reviews are
    not tracked.
   */
  lemma TransformMatchesHeatmap(events: seq<Event>)
    requires |events| > 0
    ensures var cs := TransformEvents(Some(events));
      var h := Heatmap(DailyBuckets(events));
      && |cs| == |h|
      && forall i :: 0 <= i < |cs| ==>
           cs[i].date == h[i].date && cs[i].commits == h[i].commits
           && cs[i].pullRequests == h[i].pullRequests && cs[i].issues == h[i].issues
  {
    var cs := TransformEvents(Some(events));
    var h := Heatmap(DailyBuckets(events));
    TrendKeysAreDailyKeys(events);
    assert |cs| == |TrendBuckets(events)| == |Keys(TrendBuckets(events))| == |Keys(DailyBuckets(events))| == |h|;
    forall i | 0 <= i < |cs|
      ensures cs[i].date == h[i].date && cs[i].commits == h[i].commits
      ensures cs[i].pullRequests == h[i].pullRequests && cs[i].issues == h[i].issues
    {
      SameBucketAt(events, i);
    }
  }

  // ---------------------------------------------------------------- period filter

  datatype Period = SixMonths | OneYear | TwoYears | All

  /** `monthsToShow`: "all" reaches back as many months as there are entries. */
  function MonthsToShow(p: Period, entries: nat): nat {
    match p
    case SixMonths => 6
    case OneYear => 12
    case TwoYears => 24
    case All => entries
  }

  /** `new Date(item.date) >= startDate`: the entry's day starts at or after `start`. */
  function InPeriod(start: int): ContributionData -> bool {
    (c: ContributionData) => c.date * MsPerDay >= start
  }

  function EarlierFirst(c: ContributionData): real { -(c.date as real) }

  /** `filterDataByPeriod`: the entries of the period, oldest first. */
  function FilterByPeriod(contributions: seq<ContributionData>, period: Period, startFor: int -> int): seq<ContributionData> {
    if |contributions| == 0 then []
    else
      var start := startFor(MonthsToShow(period, |contributions|));
      SortDesc(Filter(contributions, InPeriod(start)), EarlierFirst)
  }

  /** The start instant `filterDataByPeriod` uses. */
  function PeriodStart(contributions: seq<ContributionData>, period: Period, startFor: int -> int): int {
    startFor(MonthsToShow(period, |contributions|))
  }

  /**
    The result is sorted by ascending date and holds exactly the input entries whose
    day starts at or after the period's start, each as often as in the input.
   */
  lemma FilterByPeriodShape(contributions: seq<ContributionData>, period: Period, startFor: int -> int)
    ensures var r := FilterByPeriod(contributions, period, startFor);
      var start := PeriodStart(contributions, period, startFor);
      && (forall i, j :: 0 <= i < j < |r| ==> r[i].date <= r[j].date)
      && multiset(r) == multiset(Filter(contributions, InPeriod(start)))
      && (forall c :: c in r <==> c in contributions && c.date * MsPerDay >= start)
  {
    var r := FilterByPeriod(contributions, period, startFor);
    var start := PeriodStart(contributions, period, startFor);
    if |contributions| > 0 {
      var kept := Filter(contributions, InPeriod(start));
      assert r == SortDesc(kept, EarlierFirst);
      assert forall i, j :: 0 <= i < j < |r| ==> EarlierFirst(r[i]) >= EarlierFirst(r[j]);
      SortDescMembers(kept, EarlierFirst);
      FilterMembers(contributions, InPeriod(start));
    }
  }

  /**
    When reaching more months back never gives a later start, a period of more months
    keeps every entry a shorter one keeps.
   */
  lemma LongerPeriodKeepsMore(contributions: seq<ContributionData>, p: Period, q: Period, startFor: int -> int)
    requires MonthsToShow(p, |contributions|) <= MonthsToShow(q, |contributions|)
    requires forall m, n :: m <= n ==> startFor(n) <= startFor(m)
    ensures forall c :: c in FilterByPeriod(contributions, p, startFor) ==> c in FilterByPeriod(contributions, q, startFor)
  {
    assert startFor(MonthsToShow(q, |contributions|)) <= startFor(MonthsToShow(p, |contributions|));
    FilterByPeriodShape(contributions, p, startFor);
    FilterByPeriodShape(contributions, q, startFor);
  }

  // ---------------------------------------------------------------- overview

  function CommitsOf(c: ContributionData): int { c.commits }
  function PullRequestsOf(c: ContributionData): int { c.pullRequests }
  function IssuesOf(c: ContributionData): int { c.issues }

  datatype Overview = Overview(totalCommits: int, totalPRs: int, totalIssues: int)

  /** `overview`: the totals over the displayed entries. */
  function CalculateOverview(shown: seq<ContributionData>): Overview {
    Overview(Sum(shown, CommitsOf), Sum(shown, PullRequestsOf), Sum(shown, IssuesOf))
  }

  /** Sorting does not matter: the overview adds up the entries of the period in input order. */
  lemma OverviewOfPeriod(contributions: seq<ContributionData>, period: Period, startFor: int -> int)
    requires |contributions| > 0
    ensures var kept := Filter(contributions, InPeriod(PeriodStart(contributions, period, startFor)));
      CalculateOverview(FilterByPeriod(contributions, period, startFor))
        == Overview(Sum(kept, CommitsOf), Sum(kept, PullRequestsOf), Sum(kept, IssuesOf))
  {
    var kept := Filter(contributions, InPeriod(PeriodStart(contributions, period, startFor)));
    SortDescSum(kept, EarlierFirst, CommitsOf);
    SortDescSum(kept, EarlierFirst, PullRequestsOf);
    SortDescSum(kept, EarlierFirst, IssuesOf);
  }

  lemma {:induction false} ContributionSums(buckets: DayBuckets)
    ensures Sum(ToContributions(buckets), CommitsOf) == TotalCounts(buckets).commits
    ensures Sum(ToContributions(buckets), PullRequestsOf) == TotalCounts(buckets).pullRequests
    ensures Sum(ToContributions(buckets), IssuesOf) == TotalCounts(buckets).issues
    decreases |buckets|
  {
    if |buckets| > 0 {
      ContributionSums(buckets[1..]);
      assert ToContributions(buckets)[1..] == ToContributions(buckets[1..]);
    }
  }

  /**
    When the period reaches back before every event, the overview counts every pushed
    commit, every opened pull request and every opened issue.
   */
  lemma OverviewOfAllEvents(events: seq<Event>, period: Period, startFor: int -> int)
    requires |events| > 0
    requires forall n :: 0 <= n < |events| ==>
      EventDay(events[n]) * MsPerDay >= PeriodStart(TransformEvents(Some(events)), period, startFor)
    ensures CalculateOverview(FilterByPeriod(TransformEvents(Some(events)), period, startFor))
         == Overview(Sum(events, PushCommits), Count(events, IsOpenedPullRequest), Count(events, IsOpenedIssue))
  {
    var cs := TransformEvents(Some(events));
    var start := PeriodStart(cs, period, startFor);
    TransformDays(events);
    assert forall i :: 0 <= i < |cs| ==> InPeriod(start)(cs[i]);
    FilterKeepsAll(cs, InPeriod(start));
    OverviewOfPeriod(cs, period, startFor);
    ContributionSums(TrendBuckets(events));
    BucketTotal(events, EventDay, TrendDelta);
    TrendSumIsDailyWithoutReviews(events);
    DailySum(events);
  }
}
