/**
  `calculateGitHubStats` and `calculateTrends` (src/lib/github-stats.ts): repository
  totals, the language breakdown, per-day contribution buckets, activity totals,
  the contribution heatmap and the trend between the earliest and latest week of
  activity.
 */
module GitHubStats {
  import opened Wrappers
  import opened Seqs
  import opened Sorting
  import opened Assoc
  import opened GitHubTypes
  import opened Contributions
  import opened Languages

  datatype LanguageSummary = LanguageSummary(name: string, count: nat, stars: nat, percentage: real, popularity: real)

  datatype HeatmapEntry = HeatmapEntry(date: int, total: nat, commits: nat, pullRequests: nat, issues: nat, reviews: nat)

  /** `rate` is `None` where the source divides by a zero early-window mean. */
  datatype Trend = Trend(increasing: bool, rate: Option<real>)

  datatype Activity = Activity(commits: nat, pullRequests: nat, issues: nat, reviews: nat, trends: Trend, heatmap: seq<HeatmapEntry>)

  datatype Stats = Stats(
    totalStars: int,
    totalForks: int,
    totalWatchers: int,
    repoCount: nat,
    topLanguages: seq<LanguageSummary>,
    totalBytes: int,
    activity: Activity)

  function Stars(r: Repo): int { r.stars }
  function Forks(r: Repo): int { r.forks }
  function Watchers(r: Repo): int { r.watchers }
  function Size(r: Repo): int { r.size }

  function CountKey(l: LanguageSummary): real { l.count as real }
  function CountOf(l: LanguageSummary): int { l.count }

  // ---------------------------------------------------------------- languages

  function Summarize(g: Entry<string, seq<Repo>>, repoCount: nat): (l: LanguageSummary)
    requires |g.val| >= 1 && repoCount >= 1
  {
    var stars := Sum(g.val, Stars);
    SumNonNegative(g.val, Stars);
    LanguageSummary(g.key, |g.val|, stars,
                    (|g.val| as real / repoCount as real) * 100.0,
                    stars as real / |g.val| as real)
  }

  function Summaries(gs: Groups, repoCount: nat): (ls: seq<LanguageSummary>)
    requires NonEmptyGroups(gs)
    requires |gs| > 0 ==> repoCount >= 1
    ensures |ls| == |gs|
    ensures forall i :: 0 <= i < |gs| ==> ls[i] == Summarize(gs[i], repoCount)
    decreases |gs|
  {
    if |gs| == 0 then [] else [Summarize(gs[0], repoCount)] + Summaries(gs[1..], repoCount)
  }

  /** `Object.entries(languageStats).map(...).sort((a, b) => b.count - a.count)`. */
  function TopLanguages(repos: seq<Repo>): seq<LanguageSummary> {
    var gs := GroupByLanguage(repos);
    GroupsWellFormed(repos);
    SortDesc(Summaries(gs, |repos|), CountKey)
  }

  /** `Object.values(languageStats).reduce((acc, lang) => acc + lang.size, 0)`. */
  function TotalBytes(repos: seq<Repo>): int {
    Sum(GroupByLanguage(repos), GroupSum(Size))
  }

  // ---------------------------------------------------------------- activity

  type DayBuckets = seq<Entry<int, Counts>>

  function DailyBuckets(events: seq<Event>): DayBuckets {
    Bucket(events, EventDay, DailyDelta)
  }

  function ToHeatmapEntry(b: Entry<int, Counts>): HeatmapEntry {
    HeatmapEntry(b.key, Total(b.val), b.val.commits, b.val.pullRequests, b.val.issues, b.val.reviews)
  }

  function Heatmap(buckets: DayBuckets): (h: seq<HeatmapEntry>)
    ensures |h| == |buckets|
    ensures forall i :: 0 <= i < |h| ==> h[i] == ToHeatmapEntry(buckets[i])
    decreases |buckets|
  {
    if |buckets| == 0 then [] else [ToHeatmapEntry(buckets[0])] + Heatmap(buckets[1..])
  }

  function ActivityTotals(events: seq<Event>, trends: Trend, heatmap: seq<HeatmapEntry>): Activity {
    var commits := Sum(Filter(events, IsPush), CommitCountInt);
    SumNonNegative(Filter(events, IsPush), CommitCountInt);
    Activity(commits,
             |Filter(events, IsOpenedPullRequest)|,
             |Filter(events, IsOpenedIssue)|,
             |Filter(events, IsReview)|,
             trends, heatmap)
  }

  function CommitCountInt(e: Event): int { CommitCount(e) }

  // ---------------------------------------------------------------- trends

  function NegDay(d: int): real { -(d as real) }

  function DayTotal(buckets: DayBuckets, d: int): int {
    match Get(buckets, d)
    case Some(c) => Total(c)
    case None => 0
  }

  function WindowSum(buckets: DayBuckets, window: seq<int>): int
    decreases |window|
  {
    if |window| == 0 then 0 else DayTotal(buckets, window[0]) + WindowSum(buckets, window[1..])
  }

  function WindowMean(buckets: DayBuckets, window: seq<int>): real
    requires |window| > 0
  {
    WindowSum(buckets, window) as real / |window| as real
  }

  /** `Object.keys(contributions).sort()`: ISO date strings sort chronologically. */
  function SortedDates(buckets: DayBuckets): (dates: seq<int>)
    requires Distinct(Keys(buckets))
    ensures multiset(dates) == multiset(Keys(buckets))
    ensures forall i, j :: 0 <= i < j < |dates| ==> dates[i] < dates[j]
  {
    var dates := SortDesc(Keys(buckets), NegDay);
    DistinctPermutation(Keys(buckets), dates);
    dates
  }

  /** `dates.slice(0, 7)`. */
  function EarlyWindow(dates: seq<int>): seq<int> {
    Take(dates, 7)
  }

  /** `dates.slice(-7)`. */
  function RecentWindow(dates: seq<int>): (w: seq<int>)
    ensures |w| == |EarlyWindow(dates)|
  {
    if |dates| <= 7 then dates else dates[|dates| - 7..]
  }

  function CalculateTrends(buckets: DayBuckets): Trend
    requires Distinct(Keys(buckets))
  {
    var dates := SortedDates(buckets);
    if |dates| < 2 then Trend(false, Some(0.0))
    else
      var early := WindowMean(buckets, EarlyWindow(dates));
      var recent := WindowMean(buckets, RecentWindow(dates));
      TrendOf(early, recent)
  }

  // ---------------------------------------------------------------- the whole

  function CalculateGitHubStats(repos: seq<Repo>, events: seq<Event>): Stats {
    var buckets := DailyBuckets(events);
    BucketKeys(events, EventDay, DailyDelta);
    Stats(Sum(repos, Stars), Sum(repos, Forks), Sum(repos, Watchers), |repos|,
          TopLanguages(repos), TotalBytes(repos),
          ActivityTotals(events, CalculateTrends(buckets), Heatmap(buckets)))
  }

  // ---------------------------------------------------------------- properties

  predicate NoLanguage(r: Repo) {
    !HasLanguage(r)
  }

  /** The events whose calendar day is `d`, in order. */
  function EventsOn(events: seq<Event>, d: int): seq<Event> {
    Select(events, Keyed(EventDay), d)
  }

  lemma {:induction false} SummariesSums(gs: Groups, repoCount: nat)
    requires NonEmptyGroups(gs)
    requires |gs| > 0 ==> repoCount >= 1
    ensures Sum(Summaries(gs, repoCount), CountOf) == Sum(gs, GroupSum(One))
    ensures Sum(Summaries(gs, repoCount), StarsOf) == Sum(gs, GroupSum(Stars))
    decreases |gs|
  {
    if |gs| > 0 {
      SummariesSums(gs[1..], repoCount);
      SumOne(gs[0].val);
      assert Summaries(gs, repoCount)[1..] == Summaries(gs[1..], repoCount);
    }
  }

  function StarsOf(l: LanguageSummary): int { l.stars }

  /**
    The per-language counts add up to the number of repositories that have a
    language: at most `repoCount`, and equal to it exactly when every repository has
    one. `totalBytes` is the size of the repositories that have a language, and the
    per-language stars plus the stars of language-less repositories give
    `totalStars`.
   */
  lemma LanguageTotals(repos: seq<Repo>, events: seq<Event>)
    ensures var s := CalculateGitHubStats(repos, events);
      && Sum(s.topLanguages, CountOf) == Count(repos, HasLanguage) <= s.repoCount == |repos|
      && (Sum(s.topLanguages, CountOf) == s.repoCount <==> forall i :: 0 <= i < |repos| ==> HasLanguage(repos[i]))
      && s.totalBytes == Sum(Filter(repos, HasLanguage), Size)
      && Sum(s.topLanguages, StarsOf) + Sum(Filter(repos, NoLanguage), Stars) == s.totalStars
  {
    var gs := GroupByLanguage(repos);
    GroupsWellFormed(repos);
    var ls := Summaries(gs, |repos|);
    SortDescSum(ls, CountKey, CountOf);
    SortDescSum(ls, CountKey, StarsOf);
    SummariesSums(gs, |repos|);
    GroupSizes(repos);
    GroupSumTotal(repos, Size);
    GroupSumTotal(repos, Stars);
    SumPartition(repos, HasLanguage, NoLanguage, Stars);
  }

  predicate SummarizableGroups(gs: Groups, n: nat) {
    NonEmptyGroups(gs) && (|gs| > 0 ==> n >= 1)
  }

  /** Every entry of the sorted summaries summarizes one of the groups. */
  lemma SortedSummaryFrom(gs: Groups, n: nat, i: nat)
    requires SummarizableGroups(gs, n)
    requires i < |SortDesc(Summaries(gs, n), CountKey)|
    ensures exists g :: 0 <= g < |gs| && SortDesc(Summaries(gs, n), CountKey)[i] == Summarize(gs[g], n)
  {
    var sum := Summaries(gs, n);
    assert SortDesc(sum, CountKey)[i] in multiset(sum);
  }

  /** Summaries of groups with distinct languages carry distinct names, also once sorted. */
  lemma SortedSummaryNames(gs: Groups, n: nat)
    requires SummarizableGroups(gs, n)
    requires Distinct(Keys(gs))
    ensures var ls := SortDesc(Summaries(gs, n), CountKey);
      forall i, j :: 0 <= i < j < |ls| ==> ls[i].name != ls[j].name
  {
    var sum := Summaries(gs, n);
    var ls := SortDesc(sum, CountKey);
    assert Distinct(sum) by {
      forall a, b | 0 <= a < b < |sum| ensures sum[a] != sum[b] {
        assert sum[a].name == Keys(gs)[a] && sum[b].name == Keys(gs)[b];
      }
    }
    DistinctPermutation(sum, ls);
    forall i, j | 0 <= i < j < |ls|
      ensures ls[i].name != ls[j].name
    {
      SortedSummaryFrom(gs, n, i);
      SortedSummaryFrom(gs, n, j);
      var gi :| 0 <= gi < |gs| && ls[i] == Summarize(gs[gi], n);
      var gj :| 0 <= gj < |gs| && ls[j] == Summarize(gs[gj], n);
      assert gi != gj;
      assert Keys(gs)[gi] != Keys(gs)[gj];
    }
  }

  /**
    Each entry of `topLanguages` counts exactly the repositories of its language and
    sums their stars; its percentage is `count / repoCount * 100` and its popularity
    `stars / count`. A non-empty list means there is at least one repository, so
    neither division is by zero.
   */
  lemma TopLanguagesEntries(repos: seq<Repo>)
    ensures var ls := TopLanguages(repos);
      && (|ls| > 0 ==> |repos| >= 1)
      && forall i :: 0 <= i < |ls| ==>
           && ls[i].count >= 1
           && ls[i].count == |Select(repos, LanguageOf, ls[i].name)|
           && ls[i].stars == Sum(Select(repos, LanguageOf, ls[i].name), Stars)
           && ls[i].percentage == (ls[i].count as real / |repos| as real) * 100.0
           && ls[i].popularity == ls[i].stars as real / ls[i].count as real
  {
    var gs := GroupByLanguage(repos);
    GroupsWellFormed(repos);
    var n := |repos|;
    var ls := TopLanguages(repos);
    assert ls == SortDesc(Summaries(gs, n), CountKey);
    assert |ls| == |gs|;
    forall i | 0 <= i < |ls|
      ensures n >= 1
      ensures ls[i].count >= 1
      ensures ls[i].count == |Select(repos, LanguageOf, ls[i].name)|
      ensures ls[i].stars == Sum(Select(repos, LanguageOf, ls[i].name), Stars)
      ensures ls[i].percentage == (ls[i].count as real / n as real) * 100.0
      ensures ls[i].popularity == ls[i].stars as real / ls[i].count as real
    {
      SortedSummaryFrom(gs, n, i);
      var g :| 0 <= g < |gs| && ls[i] == Summarize(gs[g], n);
      GroupIsSelection(repos, g);
    }
  }

  /** `topLanguages` is sorted by descending count and names each language once. */
  lemma TopLanguagesOrder(repos: seq<Repo>)
    ensures var ls := TopLanguages(repos);
      && (forall i, j :: 0 <= i < j < |ls| ==> ls[i].count >= ls[j].count)
      && (forall i, j :: 0 <= i < j < |ls| ==> ls[i].name != ls[j].name)
  {
    var gs := GroupByLanguage(repos);
    GroupsWellFormed(repos);
    var ls := TopLanguages(repos);
    assert ls == SortDesc(Summaries(gs, |repos|), CountKey);
    assert SortedDesc(ls, CountKey);
    SortedSummaryNames(gs, |repos|);
  }

  /**
    A day has a bucket exactly when some event happened on it, whatever its type.
    The bucket sums the commit lists of that day's pushes and counts its opened pull
    requests, its opened issues and its reviews.
   */
  lemma DayBucketRule(events: seq<Event>, d: int)
    ensures var b := Get(DailyBuckets(events), d);
      && (b.Some? <==> |EventsOn(events, d)| > 0)
      && (b.Some? ==>
            && b.value.commits == Sum(EventsOn(events, d), PushCommits)
            && b.value.pullRequests == Count(EventsOn(events, d), IsOpenedPullRequest)
            && b.value.issues == Count(EventsOn(events, d), IsOpenedIssue)
            && b.value.reviews == Count(EventsOn(events, d), IsReview))
  {
    BucketGet(events, EventDay, DailyDelta, d);
    DailySum(EventsOn(events, d));
  }

  function HCommits(h: HeatmapEntry): int { h.commits }
  function HPullRequests(h: HeatmapEntry): int { h.pullRequests }
  function HIssues(h: HeatmapEntry): int { h.issues }
  function HReviews(h: HeatmapEntry): int { h.reviews }

  lemma {:induction false} HeatmapSums(buckets: DayBuckets)
    ensures Sum(Heatmap(buckets), HCommits) == TotalCounts(buckets).commits
    ensures Sum(Heatmap(buckets), HPullRequests) == TotalCounts(buckets).pullRequests
    ensures Sum(Heatmap(buckets), HIssues) == TotalCounts(buckets).issues
    ensures Sum(Heatmap(buckets), HReviews) == TotalCounts(buckets).reviews
    decreases |buckets|
  {
    if |buckets| > 0 {
      HeatmapSums(buckets[1..]);
      assert Heatmap(buckets)[1..] == Heatmap(buckets[1..]);
    }
  }

  lemma PushCommitTotal(events: seq<Event>)
    ensures Sum(Filter(events, IsPush), CommitCountInt) == Sum(events, PushCommits)
  {
    SumFilter(events, IsPush, CommitCountInt);
    SumCongruent(events, Masked(IsPush, CommitCountInt), PushCommits);
  }

  /**
    The activity totals, computed by filtering the event list, equal the sums of the
    corresponding fields over the heatmap's day entries.
   */
  lemma ActivityMatchesHeatmap(events: seq<Event>, trends: Trend)
    ensures var h := Heatmap(DailyBuckets(events));
      var a := ActivityTotals(events, trends, h);
      && a.commits == Sum(h, HCommits)
      && a.pullRequests == Sum(h, HPullRequests)
      && a.issues == Sum(h, HIssues)
      && a.reviews == Sum(h, HReviews)
  {
    var buckets := DailyBuckets(events);
    HeatmapSums(buckets);
    BucketTotal(events, EventDay, DailyDelta);
    DailySum(events);
    PushCommitTotal(events);
  }

  /** The daily buckets' days are distinct and are exactly the days of the events. */
  lemma DailyKeys(events: seq<Event>)
    ensures var ks := Keys(DailyBuckets(events));
      && Distinct(ks)
      && (forall i :: 0 <= i < |ks| ==> exists n :: 0 <= n < |events| && EventDay(events[n]) == ks[i])
      && (forall n :: 0 <= n < |events| ==> EventDay(events[n]) in ks)
  {
    var ks := Keys(DailyBuckets(events));
    BucketKeys(events, EventDay, DailyDelta);
    KeysOfKeyed(events, EventDay);
    var all := KeysOf(events, Keyed(EventDay));
    assert ks == Dedup(all);
    forall i | 0 <= i < |ks|
      ensures exists n :: 0 <= n < |events| && EventDay(events[n]) == ks[i]
    {
      assert ks[i] in all;
      var n :| 0 <= n < |all| && all[n] == ks[i];
      assert EventDay(events[n]) == ks[i];
    }
    forall n | 0 <= n < |events|
      ensures EventDay(events[n]) in ks
    {
      assert all[n] == EventDay(events[n]);
    }
  }

  /**
    The heatmap has exactly one entry per distinct event day: dates are pairwise
    different, each is the day of some event, and every event's day has an entry.
   */
  lemma HeatmapDays(events: seq<Event>)
    ensures var h := Heatmap(DailyBuckets(events));
      && (forall i, j :: 0 <= i < j < |h| ==> h[i].date != h[j].date)
      && (forall i :: 0 <= i < |h| ==> exists n :: 0 <= n < |events| && EventDay(events[n]) == h[i].date)
      && (forall n :: 0 <= n < |events| ==> exists i :: 0 <= i < |h| && h[i].date == EventDay(events[n]))
  {
    HeatmapDistinctDates(events);
    HeatmapDatesFromEvents(events);
    HeatmapCoversEvents(events);
  }

  /** No two heatmap entries share a date. */
  lemma HeatmapDistinctDates(events: seq<Event>)
    ensures var h := Heatmap(DailyBuckets(events));
      forall i, j :: 0 <= i < j < |h| ==> h[i].date != h[j].date
  {
    var buckets := DailyBuckets(events);
    var ks := Keys(buckets);
    DailyKeys(events);
    HeatmapDates(buckets);
    assert forall i, j :: 0 <= i < j < |ks| ==> ks[i] != ks[j];
  }

  /** Each heatmap date is the day of some event. */
  lemma HeatmapDatesFromEvents(events: seq<Event>)
    ensures var h := Heatmap(DailyBuckets(events));
      forall i :: 0 <= i < |h| ==> exists n :: 0 <= n < |events| && EventDay(events[n]) == h[i].date
  {
    var buckets := DailyBuckets(events);
    var h := Heatmap(buckets);
    var ks := Keys(buckets);
    DailyKeys(events);
    HeatmapDates(buckets);
    forall i | 0 <= i < |h| ensures exists n :: 0 <= n < |events| && EventDay(events[n]) == h[i].date {
      assert h[i].date == ks[i];
    }
  }

  /** Every event's day has a heatmap entry. */
  lemma HeatmapCoversEvents(events: seq<Event>)
    ensures var h := Heatmap(DailyBuckets(events));
      forall n :: 0 <= n < |events| ==> exists i :: 0 <= i < |h| && h[i].date == EventDay(events[n])
  {
    var buckets := DailyBuckets(events);
    var h := Heatmap(buckets);
    var ks := Keys(buckets);
    DailyKeys(events);
    HeatmapDates(buckets);
    forall n | 0 <= n < |events|
      ensures exists i :: 0 <= i < |h| && h[i].date == EventDay(events[n])
    {
      var i :| 0 <= i < |ks| && ks[i] == EventDay(events[n]);
      assert h[i].date == ks[i];
    }
  }

  /** The heatmap's dates are the buckets' days, position by position. */
  lemma HeatmapDates(buckets: DayBuckets)
    ensures var h := Heatmap(buckets);
      && |h| == |Keys(buckets)|
      && forall i :: 0 <= i < |h| ==> h[i].date == Keys(buckets)[i]
  {
  }

  // ---------------------------------------------------------------- trend properties

  /** Fewer than two distinct days give the neutral result. */
  lemma TrendsFewDates(buckets: DayBuckets)
    requires Distinct(Keys(buckets))
    requires |buckets| < 2
    ensures CalculateTrends(buckets) == Trend(false, Some(0.0))
  {
    var dates := SortedDates(buckets);
    assert |dates| == |multiset(dates)| == |multiset(Keys(buckets))| == |buckets|;
  }

  /**
    With two to seven days both windows hold every day, so the trend is never
    increasing and the rate is 0 (undefined when there was no activity at all).
   */
  lemma TrendsShortHistory(buckets: DayBuckets)
    requires Distinct(Keys(buckets))
    requires 2 <= |buckets| <= 7
    ensures !CalculateTrends(buckets).increasing
    ensures CalculateTrends(buckets).rate.Some? ==> CalculateTrends(buckets).rate.value == 0.0
  {
    var dates := SortedDates(buckets);
    assert |dates| == |multiset(dates)| == |multiset(Keys(buckets))| == |buckets|;
    assert EarlyWindow(dates) == dates == RecentWindow(dates);
  }

  /**
    Once there are two days, the early window is the first `min(7, n)` days in
    chronological order and the recent window the last as many.
   */
  lemma TrendWindows(buckets: DayBuckets)
    requires Distinct(Keys(buckets))
    ensures var dates := SortedDates(buckets);
      && |dates| == |buckets|
      && EarlyWindow(dates) == dates[..if |dates| < 7 then |dates| else 7]
      && RecentWindow(dates) == dates[|dates| - |EarlyWindow(dates)|..]
  {
    var dates := SortedDates(buckets);
    assert |dates| == |multiset(dates)| == |multiset(Keys(buckets))| == |buckets|;
  }

  /**
    Once there are two days the trend is increasing exactly when the recent mean
    exceeds the early one; the rate is defined exactly when the early mean is non-zero,
    and then it is positive exactly when the trend is increasing.
   */
  lemma TrendsRate(buckets: DayBuckets)
    requires Distinct(Keys(buckets))
    requires |buckets| >= 2
    ensures var dates := SortedDates(buckets);
      var t := CalculateTrends(buckets);
      var early := WindowMean(buckets, EarlyWindow(dates));
      var recent := WindowMean(buckets, RecentWindow(dates));
      && (t.increasing <==> recent > early)
      && (t.rate.None? <==> early == 0.0)
      && (early > 0.0 ==> t.rate.Some? && (t.increasing <==> t.rate.value > 0.0))
      && (t.rate.Some? ==> recent == early * (1.0 + t.rate.value / 100.0))
  {
    var dates := SortedDates(buckets);
    DatesCount(buckets);
    RateFacts(WindowMean(buckets, EarlyWindow(dates)), WindowMean(buckets, RecentWindow(dates)));
  }

  /** There are as many sorted dates as buckets. */
  lemma DatesCount(buckets: DayBuckets)
    requires Distinct(Keys(buckets))
    ensures |SortedDates(buckets)| == |buckets|
  {
    var dates := SortedDates(buckets);
    assert |dates| == |multiset(dates)| == |multiset(Keys(buckets))| == |buckets|;
  }

  /** The trend built from two window means, as `calculateTrends` builds it. */
  function TrendOf(early: real, recent: real): Trend {
    Trend(recent > early, if early == 0.0 then None else Some((recent - early) / early * 100.0))
  }

  /** The trend's facts in terms of the two means alone. */
  lemma RateFacts(early: real, recent: real)
    ensures var t := TrendOf(early, recent);
      && (t.increasing <==> recent > early)
      && (t.rate.None? <==> early == 0.0)
      && (early > 0.0 ==> t.rate.Some? && (t.increasing <==> t.rate.value > 0.0))
      && (t.rate.Some? ==> recent == early * (1.0 + t.rate.value / 100.0))
  {
    if early != 0.0 {
      RateRecovers(early, recent);
    }
  }

  /**
    A percentage change applied to the old value gives the new value back; from a
    positive old value it is positive exactly when the value grew.
   */
  lemma RateRecovers(early: real, recent: real)
    requires early != 0.0
    ensures recent == early * (1.0 + ((recent - early) / early * 100.0) / 100.0)
    ensures early > 0.0 ==> ((recent - early) / early * 100.0 > 0.0 <==> recent > early)
  {
    var q := (recent - early) / early;
    assert q * early == recent - early;
    assert ((recent - early) / early * 100.0) / 100.0 == q;
  }
}
