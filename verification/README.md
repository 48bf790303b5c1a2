# GitHub dashboard statistics, modelled in Dafny

This project models the statistics pipeline of a GitHub profile dashboard (a Next.js
application written in TypeScript). The dashboard turns the repositories and public
events of a user into derived figures, and the model covers the pure logic behind them:

- **Aggregation.** Repository totals, the per-language breakdown, per-day contribution
  buckets, the contribution heatmap and the early-versus-recent trend
  (`calculateGitHubStats`).
- **Scores.** The contribution streak and the impact score, the quality and engagement
  scores, and the technology progression and experience.
- **Comparison.** The two-user comparison engine: the user list, the metric catalogue,
  differences, wins, strengths, grouping, and the value and difference tiers.
- **Charts and paging.** The monthly activity fetcher with its paging, the trend chart
  with its period filter and overview, and the pie chart with its "Others" slice.
- **Profile page.** The impact metrics, the repository ranking and the paging of the
  repository list.
- **Small components.** The tech-stack card, the search filters, the search outcome and
  error messages, and the clamping of the impact cards.

Everything is an immutable datatype and a pure function. Some inputs are parameters
rather than computed values:

- the current time (`now`);
- the start instant of a trend period (`startFor`);
- the month label of an event (`monthOf`);
- the page fetch of the activity endpoint (`Fetch`);
- the user lookup (`Lookup`).

Timestamps are integers in milliseconds, and a calendar day is `ts / 86400000`. JavaScript
objects and `Map`s used as accumulators are association lists in insertion order
(`Assoc`). Their `Object.keys` / `Object.values` order is that of first insertion, because
none of the keys is an integer-like string. `Array.prototype.sort` is stable, and is
modelled as a stable insertion sort by a real-valued key, descending (`Sorting.SortDesc`).
An ascending sort uses a negated key. A JavaScript number that can be `NaN` is
`Numbers.Num`. A division the source leaves unguarded yields `None` (an `Option`) where
the source would produce `NaN` or `Infinity`.

Module layout:

- **Shared helpers:**
  - `Wrappers`: `Option`, `Result`.
  - `Numbers`: `Math.round`, clamping, min and max.
  - `Seqs`: sums, counts, filter, dedup and take.
  - `Sorting`.
  - `Assoc`.
- **Shared domain modules:**
  - `GitHubTypes`: repositories, events and days.
  - `Contributions`: the per-event counting rules and bucketing.
  - `Languages`: grouping by language.
- **One module per source file:**
  - `GitHubStats`: `src/lib/github-stats.ts`.
  - `ImpactUtils`.
  - `QualityAnalysis`.
  - `TechAnalysis`.
  - `GitHubActivity`.
  - `UserComparison`.
  - `TrendAnalysis`.
  - `UserProfile`.
  - `LanguageChart`: `src/components/GitHubStats.tsx`.
  - `ImpactSection`.
  - `ImpactMetricsCard`: `src/components/ImpactMetrics.tsx`.
  - `TechStack`.
  - `AdvancedSearch`.
  - `UserSearch`.

Two behaviours of the code that are easy to miss:

- **Buckets for uncounted events.** The statistics, trend-chart and monthly aggregators
  create a bucket for a day or month as soon as any event falls on it, whatever the
  event's type. So a bucket can hold only zeros, for example a day with only a
  `WatchEvent`. `GitHubStats.DayBucketRule` states this rule.
- **Trend when the early mean is 0.** The code divides by zero when the mean of the
  early window is 0. The model returns `None` there (`GitHubStats.TrendsRate`).

## Model

| member | source | states |
|---|---|---|
| GitHubTypes.LanguageOf | src/lib/github-stats.ts:65 | a repository counts as having a language exactly when its language is present and not the empty string (JavaScript truthiness) |
| GitHubTypes.Day | src/lib/github-stats.ts:77 | the calendar day of a timestamp is the whole day containing it: `d * 86400000 <= ts < (d + 1) * 86400000` |
| Languages.GroupsWellFormed | src/lib/github-stats.ts:64-73 | the language map has each language once, every group is non-empty, and every member of a group has that group's language |
| Languages.GroupIsSelection | src/lib/github-stats.ts:64-73 | the group of a language holds exactly the repositories of that language, in input order |
| Languages.LanguageHasGroup | src/lib/github-stats.ts:65-71 | every repository with a language lands in the group of that language |
| Languages.GroupSizes | src/lib/github-stats.ts:64-73 | the group sizes add up to the number of repositories with a language, which is at most all of them, and equal exactly when every repository has a language |
| Languages.GroupSumTotal | src/lib/github-stats.ts:64-73 | summing any per-repository quantity over the groups gives its sum over the repositories that have a language |
| Contributions.DailySum | src/lib/github-stats.ts:82-99 | under the statistics rule a bucket's commits are the commit-list lengths of pushes, its pull requests and issues are those with action "opened", and its reviews are all review events |
| Contributions.BucketKeys | src/lib/github-stats.ts:76-80 | the buckets are keyed by the distinct keys of the events, in order of first occurrence |
| Contributions.BucketGet | src/lib/github-stats.ts:76-101 | the bucket of a key exists exactly when some event has that key, and then holds the per-event contributions of exactly those events, summed |
| Contributions.BucketTotal | src/lib/github-stats.ts:76-101 | the buckets together hold the contributions of all events, nothing lost or counted twice |
| Contributions.TrendSumIsDailyWithoutReviews | src/components/TrendAnalysis.tsx:60-74 | the trend chart counts commits, opened pull requests and opened issues like the statistics, and never reviews |
| GitHubStats.LanguageTotals | src/lib/github-stats.ts:56-128 | the language counts add up to the repositories with a language, at most `repoCount` and equal exactly when all have one; `totalBytes` is the size of the repositories with a language; language stars plus stars of language-less repositories give `totalStars` |
| GitHubStats.TopLanguagesEntries | src/lib/github-stats.ts:118-125 | each top-language entry counts exactly the repositories of its language and sums their stars, with `percentage = count / repoCount * 100` and `popularity = stars / count`, neither dividing by zero |
| GitHubStats.TopLanguagesOrder | src/lib/github-stats.ts:118-126 | the top languages are sorted by descending count and name each language once |
| GitHubStats.DayBucketRule | src/lib/github-stats.ts:76-101 | a day has a bucket exactly when some event of any type fell on it; the bucket sums that day's push commits and counts its opened pull requests, opened issues and reviews |
| GitHubStats.DailyKeys | src/lib/github-stats.ts:76-80 | the bucket days are distinct, each is some event's day, and every event's day is one of them |
| GitHubStats.HeatmapDays | src/lib/github-stats.ts:133-138 | the heatmap has exactly one entry per distinct event day |
| GitHubStats.HeatmapDistinctDates | src/lib/github-stats.ts:133-138 | no two heatmap entries share a date |
| GitHubStats.HeatmapDatesFromEvents | src/lib/github-stats.ts:133-138 | every heatmap date is the day of some event |
| GitHubStats.HeatmapCoversEvents | src/lib/github-stats.ts:133-138 | every event's day has a heatmap entry |
| GitHubStats.PushCommitTotal | src/lib/github-stats.ts:105-106 | summing commit lists over the push events equals summing each event's push commits over all events |
| GitHubStats.ActivityMatchesHeatmap | src/lib/github-stats.ts:104-138 | the activity totals, computed by filtering events, equal the sums of the matching heatmap columns |
| GitHubStats.SortedDates | src/lib/github-stats.ts:144 | the sorted dates are a permutation of the bucket days in strictly ascending order |
| GitHubStats.TrendsFewDates | src/lib/github-stats.ts:143-145 | fewer than two days give the neutral trend `{increasing: false, rate: 0}` |
| GitHubStats.TrendsShortHistory | src/lib/github-stats.ts:147-163 | with two to seven days both windows are the whole history, so the trend is never increasing and any rate is 0 |
| GitHubStats.TrendWindows | src/lib/github-stats.ts:144-148 | the early window is the first `min(7, n)` sorted days and the recent window the last as many |
| GitHubStats.TrendsRate | src/lib/github-stats.ts:150-163 | from two days on, increasing iff the recent mean exceeds the early one; the rate is undefined exactly when the early mean is 0, and otherwise positive iff increasing and the percentage change `(recent - early) / early * 100`, so that `recent == early * (1 + rate / 100)` |
| ImpactUtils.UniqueDays | src/lib/impact-utils.ts:15-20 | the unique dates are strictly decreasing and are exactly the days with some activity |
| ImpactUtils.CalculateStreak | src/lib/impact-utils.ts:12 | an absent or empty activity list has streak 0 |
| ImpactUtils.RunShape | src/lib/impact-utils.ts:22-37 | the loop counts exactly the days `u[0], u[0]-1, …` that follow one another without a gap, and stops before the first gap |
| ImpactUtils.StreakShape | src/lib/impact-utils.ts:7-40 | with `M` the latest active day the streak `r` is the number of consecutive active days `M, M-1, …, M-r+1`, so `M-r` is inactive and `1 <= r <=` the number of active days |
| ImpactUtils.StreakDependsOnDays | src/lib/impact-utils.ts:15-20 | the streak depends only on the set of active days, not on the order or multiplicity of activities |
| ImpactUtils.ImpactScore | src/lib/impact-utils.ts:53 | no commits, pull requests and repositories give score 0 |
| ImpactUtils.ImpactScoreRange | src/lib/impact-utils.ts:55-69 | with counts not negative and a merge rate in [0, 1] the score is an integer in 0..100 |
| ImpactUtils.ImpactScoreSaturates | src/lib/impact-utils.ts:56-59 | commits past 1000, pull requests past 100 and repositories past 50 do not change the score |
| ImpactUtils.ImpactScoreFull | src/lib/impact-utils.ts:62-69 | saturated counts with a perfect merge rate give exactly 100 |
| ImpactUtils.ImpactScoreMonotone | src/lib/impact-utils.ts:62-69 | raising any input never lowers the score |
| QualityAnalysis.TestPoints | src/lib/quality-analysis.ts:16-19 | one repository scores 0..1 in tenths: full exactly with both a test topic and a test-like name, nothing exactly with neither |
| QualityAnalysis.TestsPresenceRange | src/lib/quality-analysis.ts:13-21 | the tests score is in [0, 1], 0 exactly when no repository shows any test sign, 1 exactly when there are repositories and all show both |
| QualityAnalysis.DocPoints | src/lib/quality-analysis.ts:25-32 | one repository scores between 0.4 (the assumed README) and 1.0 |
| QualityAnalysis.DocQualityRange | src/lib/quality-analysis.ts:23-34 | no repositories give 0; otherwise the score is in [0.4, 1], 0.4 exactly when none has wiki, pages or topics and 1 exactly when all have all three |
| QualityAnalysis.ContributionValueZero | src/lib/quality-analysis.ts:36-47 | with the defaults for absent fields and no negative count the value is not negative, and 0 exactly when every count is 0 |
| QualityAnalysis.ContributionValueMonotone | src/lib/quality-analysis.ts:43-46 | raising any count never lowers the contribution value |
| QualityAnalysis.CommunityEngagementRange | src/lib/quality-analysis.ts:49-59 | the engagement is in [0, 1], 0 exactly when no event is a comment (or there are none), 1 exactly when all events are comments |
| TechAnalysis.TechStackEntries | src/lib/tech-analysis.ts:72-84 | each tech-stack entry counts the repositories of one language (at least one); names are distinct; the list is sorted by descending count |
| TechAnalysis.TechStackCovers | src/lib/tech-analysis.ts:75-79 | every language some repository has appears in the tech stack |
| TechAnalysis.TechStackTotal | src/lib/tech-analysis.ts:72-84 | the counts add up to the number of repositories with a language, at most the number of repositories |
| TechAnalysis.MainTechnologies | src/lib/tech-analysis.ts:100-103 | the main technologies are the first `min(3, n)` tech-stack names, and no language left out has more repositories than one kept |
| TechAnalysis.LastUpdated | src/lib/tech-analysis.ts:30 | the last use is the latest update time among the language's repositories, attained by one of them |
| TechAnalysis.TechProgressionEntries | src/lib/tech-analysis.ts:14-45 | each entry describes its language's repositories: their number, their share of all repositories in percent, their latest update and the trend of recent updates; entries are sorted by descending percentage and so by count |
| TechAnalysis.TrendCases | src/lib/tech-analysis.ts:32-34 | the trend is up iff more than a quarter of the uses are recent, down iff none is, stable otherwise |
| TechAnalysis.RecentWithin90Days | src/lib/tech-analysis.ts:10-12 | "at most 3 months ago" in 30-day months means updated at most 90 days before now |
| TechAnalysis.CreationDates | src/lib/tech-analysis.ts:87-89 | the creation dates are a permutation of the repositories' creation times in ascending order |
| TechAnalysis.ExperienceRounding | src/lib/tech-analysis.ts:86-98 | no repositories give 0; otherwise the experience is a whole number of tenths within 0.05 of the years since the earliest creation |
| UserComparison.TopLanguagesShape | src/components/UserComparison.tsx:463-475 | at most five languages, a prefix of the tech stack, by descending count, each with the number of repositories of its language |
| UserComparison.TransformUserConsistent | src/components/UserComparison.tsx:77-91 | the transformed statistics count the user's repositories, and with none every repository total is 0 |
| UserComparison.LastTwo | src/components/UserComparison.tsx:93 | `slice(-2)` keeps the last `min(2, n)` elements in order |
| UserComparison.AddUserInvariant | src/components/UserComparison.tsx:65-101 | the list keeps at most two users with distinct logins; a failed lookup or a known login leaves it unchanged; a new user becomes the last entry, the previous last user before it |
| UserComparison.LastTwoDistinct | src/components/UserComparison.tsx:93 | keeping the last two of a list with distinct logins keeps them distinct |
| UserComparison.Metrics | src/components/UserComparison.tsx:168-237 | the catalogue has six metrics |
| UserComparison.MetricsNaN | src/components/UserComparison.tsx:180-236 | a metric is NaN for either user exactly when it is a per-repository average and that user has no repositories |
| UserComparison.MetricsValues | src/components/UserComparison.tsx:180-236 | each user's values are that user's totals exactly, and that user's average stars, followers per followed account and forks per repository as whole numbers, hundredths and tenths within half a step of the exact quotient; the ratio is 0 when the user follows nobody |
| UserComparison.CalculateDifference | src/components/UserComparison.tsx:119-123 | a NaN value gives difference 0 |
| UserComparison.DifferenceSign | src/components/UserComparison.tsx:119-123 | the difference is 0, positive or negative exactly as the second value equals, exceeds or falls below the first, and is otherwise `(v2 - v1) / max(v1, 1) * 100` |
| UserComparison.WinsBounded | src/components/UserComparison.tsx:375-376 | the two users' wins together never exceed the number of metrics |
| UserComparison.LeadsMeansWins | src/components/UserComparison.tsx:415-420 | the strengths filter keeps a metric for a user exactly when that user's value is the greater one |
| UserComparison.StrengthsShape | src/components/UserComparison.tsx:415-427 | three strengths, or all of the user's wins when there are fewer; by descending importance, each a metric the user wins, none less important than a win left out, and among wins of equal importance the first ones in metric order, in that order |
| UserComparison.StrengthsChosen | src/components/UserComparison.tsx:415-427 | the number of strengths is the smaller of 3 and the number of wins, and the strengths of each importance are a prefix of the wins of that importance in metric order |
| UserComparison.LeadsAreWins | src/components/UserComparison.tsx:416-420 | the difference test selects exactly the metrics the user wins |
| UserComparison.StrengthsMembers | src/components/UserComparison.tsx:416-420 | every strength is a metric of the list on which the user has the greater value |
| UserComparison.StrengthsDisjoint | src/components/UserComparison.tsx:415-427 | no metric is a strength of both users |
| UserComparison.IdenticalUsers | src/components/UserComparison.tsx:374-381 | comparing equal statistics gives no wins and no strengths |
| UserComparison.GroupMetricsShape | src/components/UserComparison.tsx:240-251 | one group per category in order of first appearance, each holding exactly the metrics of its category, sorted by descending importance, with metrics of equal importance in list order |
| UserComparison.GroupAt | src/components/UserComparison.tsx:240-251 | each group is the metrics of its category in list order, stably sorted by descending importance |
| UserComparison.FormatTier | src/components/UserComparison.tsx:430-460 | values below 1000 print as a rounded whole number; larger ones use the largest tier not above them, scaled to at least 1 and, except in the billions tier, below 1000, with 0, 1 or 2 decimals as the scaled value is at least 100, at least 10 or below 10 |
| UserComparison.FormatDifferenceCases | src/components/UserComparison.tsx:477-508 | "Equal" exactly for equal values; a zero on one side gives the "total" phrase; for two positive values "× more" only beyond a hundredfold increase, "× less" only below a hundredth, and every other phrase says "more" exactly when the second value is larger |
| GitHubActivity.PeriodMonths | src/lib/github-activity.ts:9-17 | the look-back is 6 months for "6m", 24 for "2y", 48 for "all", and 12 for any other period, "1y" included (names inherited from `Object.prototype` excepted, see "## Left out") |
| GitHubActivity.PageCount | src/lib/github-activity.ts:39 | three pages for "all" and one for any other period |
| GitHubActivity.RequestedFrom | src/lib/github-activity.ts:42-46 | the loop requests at least one page and never more than remain |
| GitHubActivity.CollectPages | src/lib/github-activity.ts:40-46 | the loop returns the pages concatenated in order and stops at the first short page or error; every page before the last requested is full, a short page before the limit ends the loop, and at least one page is requested |
| GitHubActivity.PagesBound | src/lib/github-activity.ts:42-46 | the collected events are at most 100 per requested page |
| GitHubActivity.FetchGitHubActivity | src/lib/github-activity.ts:1-86 | a missing or empty token fails with the configuration error before any request; otherwise a page error is the result, and the events of the pages become the monthly statistics |
| GitHubActivity.MonthlySum | src/lib/github-activity.ts:62-76 | a month counts push commits and pull requests and issues opened or reopened |
| GitHubActivity.MonthBucketRule | src/lib/github-activity.ts:49-79 | a month has an entry exactly when some event of any type fell in it, and the entry counts that month's events under the monthly rule |
| GitHubActivity.MonthlyKeys | src/lib/github-activity.ts:49-81 | the month labels are distinct, each is some event's month, and every event's month has an entry |
| GitHubActivity.MonthlyTotals | src/lib/github-activity.ts:49-81 | the monthly entries together count every push commit and every opened or reopened pull request and issue |
| TrendAnalysis.TransformEvents | src/components/TrendAnalysis.tsx:46 | an absent or empty event list gives no entries |
| TrendAnalysis.TrendKeysAreDailyKeys | src/components/TrendAnalysis.tsx:48-58 | the chart groups events by the same days as the statistics |
| TrendAnalysis.TransformDays | src/components/TrendAnalysis.tsx:45-80 | one entry per distinct event day: dates pairwise different, each some event's day, every event's day present |
| TrendAnalysis.TransformMatchesHeatmap | src/components/TrendAnalysis.tsx:45-80 | each chart entry has the date, commits, opened pull requests and opened issues of the heatmap entry at the same position |
| TrendAnalysis.FilterByPeriodShape | src/components/TrendAnalysis.tsx:82-99 | the result is in ascending date order and holds exactly the entries whose day starts at or after the period start, each as often as in the input |
| TrendAnalysis.LongerPeriodKeepsMore | src/components/TrendAnalysis.tsx:86-97 | when going more months back never gives a later start, a period of more months keeps every entry a shorter one keeps |
| TrendAnalysis.OverviewOfPeriod | src/components/TrendAnalysis.tsx:109-113 | the overview totals are the sums over the period's entries, independent of the sort |
| TrendAnalysis.OverviewOfAllEvents | src/components/TrendAnalysis.tsx:101-113 | when the period starts before every event, the overview counts every push commit, opened pull request and opened issue |
| UserProfile.MergedAtMostAll | src/components/UserProfile.tsx:186-194 | merged pull requests never outnumber pull request events |
| UserProfile.PrMergeRateRange | src/components/UserProfile.tsx:205 | the merge rate is in 0..100, 0 without pull requests or merges, 100 when all were merged |
| UserProfile.ProjectsImpactedCount | src/components/UserProfile.tsx:196-198 | the projects impacted are the distinct repository names of the events, at most one per event |
| UserProfile.TotalContributionsCount | src/components/UserProfile.tsx:200-202 | total contributions are the push commits, opened pull requests and opened issues when repositories and events are present, and 0 otherwise (default statistics) |
| UserProfile.ProjectReachPerRepo | src/components/UserProfile.tsx:89-102 | the project reach is undefined when either list is absent, and otherwise the sum over repositories of stars plus twice the forks, never negative |
| UserProfile.ImpactMetricsScore | src/components/UserProfile.tsx:209-214 | the page's impact score is in 0..100, and 0 with no repositories and an absent or empty event list |
| UserProfile.TopReposShape | src/components/UserProfile.tsx:110-126 | the ranking is a permutation of the repositories (none when absent), by descending score, keeping input order among equal scores |
| UserProfile.DisplayedRepos | src/components/UserProfile.tsx:129-134 | the displayed list is a prefix of the ranking of length `min(limit, n)`, the limit being 3 when collapsed and `displayCount` when expanded |
| UserProfile.HasMoreReposIff | src/components/UserProfile.tsx:136 | more repositories exist exactly when the limit is below the ranking's length |
| UserProfile.LoadMore | src/components/UserProfile.tsx:138-146 | the toggle flips `showAll` and sets the count to 6 when expanding and 3 when collapsing |
| UserProfile.LoadMoreRoundTrip | src/components/UserProfile.tsx:76-84 | expanding then collapsing returns to the initial state, and expanding shows six |
| UserProfile.LoadMoreRepos | src/components/UserProfile.tsx:148-150 | loading more keeps the mode and never allows more than there are |
| UserProfile.LoadMoreReposShows | src/components/UserProfile.tsx:148-150 | in the expanded list, loading more shows six more, or all when fewer remain, never fewer than before |
| LanguageChart.Percentage | src/components/GitHubStats.tsx:28 | the percentage is undefined exactly when there are no repositories, and otherwise not negative, a whole number of tenths, and within 0.05 of the exact share |
| LanguageChart.Head | src/components/GitHubStats.tsx:23-29 | the chart's first slices are the first `min(8, n)` languages, in order, with their counts |
| LanguageChart.ChartShape | src/components/GitHubStats.tsx:23-42 | at most nine slices; an "Others" slice exactly when there are more than eight languages, holding the counts of the rest |
| LanguageChart.ChartSum | src/components/GitHubStats.tsx:23-42 | the slices add up to the counts of all languages |
| ImpactSection.Percent | src/components/ImpactSection.tsx:23 | NaN and values below 0 become 0, values above 100 become 100, and values in [0, 100] are unchanged |
| ImpactSection.NonNegative | src/components/ImpactSection.tsx:24 | a clamped count is not negative and leaves values already not negative unchanged |
| ImpactSection.ValidateRange | src/components/ImpactSection.tsx:22-28 | validated metrics are in range, metrics in range pass unchanged, and validating twice changes nothing |
| ImpactSection.ValidateNaN | src/components/ImpactSection.tsx:22-28 | NaN becomes 0, and so does a negative count |
| ImpactSection.ImpactLevelMonotone | src/components/ImpactSection.tsx:30-31 | a higher score never gives a lower level |
| ImpactSection.ImpactLevelThresholds | src/components/ImpactSection.tsx:30-31 | High exactly from 80, Growing exactly below 50 |
| ImpactMetricsCard.Validate | src/components/ImpactMetrics.tsx:12-17 | counts become non-negative, and the helpfulness score lies in [0, 100] and is unchanged when already in range |
| ImpactMetricsCard.ValidateKeeps | src/components/ImpactMetrics.tsx:12-17 | NaN or negative counts become 0, others pass unchanged; a NaN or negative helpfulness score becomes 0, one above 100 becomes 100, one in range is unchanged; validating twice changes nothing |
| ImpactMetricsCard.MenteeLabel | src/components/ImpactMetrics.tsx:53 | the plural is used exactly when the count is not 1 |
| TechStack.Languages | src/components/TechStack.tsx:14-16 | the collected languages are exactly the truthy languages of the repositories |
| TechStack.TechStackLanguages | src/components/TechStack.tsx:12-18 | the stack lists each language some repository has, once, and nothing else, in order of first appearance |
| TechStack.CollectedExactly | src/components/TechStack.tsx:21-46 | a label is listed exactly when some repository declares the matching dependency, and once |
| TechStack.FrameworksDetected | src/components/TechStack.tsx:21-33 | the frameworks are a duplicate-free selection of React, Vue, Angular, Next.js and Express, each present iff some repository declares react, vue, angular, next or express |
| TechStack.DatabasesDetected | src/components/TechStack.tsx:35-46 | the databases are a duplicate-free selection of MongoDB, PostgreSQL, MySQL and Redis, each present iff some repository declares mongodb, pg, mysql or redis |
| TechStack.NoManifestNoLabels | src/components/TechStack.tsx:24 | a repository without manifest dependencies adds no label |
| AdvancedSearch.ToggleLanguage | src/components/AdvancedSearch.tsx:41-48 | toggling changes only the language list, and the language is in it afterwards exactly when it was not before |
| AdvancedSearch.ToggleLanguageEffect | src/components/AdvancedSearch.tsx:44-46 | an absent language is appended; a present one is removed, every copy, and the other languages keep their multiplicities |
| AdvancedSearch.ToggleTwice | src/components/AdvancedSearch.tsx:41-48 | toggling an absent language twice restores the filters |
| AdvancedSearch.ChangeTimeFrame | src/components/AdvancedSearch.tsx:50-52 | changing the time frame sets it and leaves every other filter unchanged |
| AdvancedSearch.ResetIsInitial | src/components/AdvancedSearch.tsx:54-62 | resetting gives the initial filters whatever the state |
| UserSearch.HandleError | src/components/UserSearch.tsx:40-62 | 404 is the only warning; 404 gives the not-found message, 403 the rate-limit message and 401 the sign-in-again message, and every other status the unexpected-error message |
| UserSearch.HandleSearch | src/components/UserSearch.tsx:64-93 | a blank name gives the info message without a lookup; a user is found exactly when the name is not blank and the lookup succeeds with data, and then the field is cleared and no message shown; an empty answer shows the "No user data found" warning and hands over no user |
| UserSearch.BlankDoesNotSearch | src/components/UserSearch.tsx:66-72 | for a blank name the outcome does not depend on the lookup |
| UserSearch.FailureMessages | src/components/UserSearch.tsx:88-89 | a failed lookup shows the message of its status and finds nothing |

## Left out

- **Network and caching.** The HTTP request of the activity endpoint is the `Fetch`
  parameter and the user search is the `Lookup` parameter. Octokit, caching and React
  Query are outside the model.
- **Rendering and scheduling.** JSX, charts, animations, tooltips, colour tables and
  icons are not modelled. Neither are the debounce of the search field and React
  state, effect and memo scheduling. State updates are modelled as functions from the
  old state to the new one.
- **Clock and calendar.** `Date.now()`, `new Date()` and `setMonth` are left out. The
  current time is a parameter `now`, and the period start is a parameter `startFor`,
  because month arithmetic depends on the calendar.
- **Month labels.** `toLocaleDateString` month labels are the parameter `monthOf`.
- **String formatting.** `toFixed` and `toLocaleString` are not modelled as strings.
  - A one-decimal percentage is the real number `Round(x * 10) / 10`.
  - `formatMetricValue` and `formatDifference` return the tier, the scaled number and the
    number of decimals, not the text.
  - Binary floating point is replaced by exact reals, so rounding artefacts of the
    source's doubles are not reproduced.
- **Unguarded divisions.** These are `None` or `NaN`, not a value:
  - the trend rate with a zero early mean;
  - average stars and fork rate for a user without repositories;
  - chart percentages with no repositories.
- **Code review participation.** `codeReviewParticipation`
  (src/components/UserProfile.tsx:99) divides by the pull request count and can be
  infinite. It feeds no modelled figure, so it is left out. Tests presence, documentation
  quality, contribution value and community engagement are modelled in
  `QualityAnalysis`, and the project reach by `UserProfile.ProjectReach`.
- **Stubs.** `getMarketTrends` and `analyzeSkillGaps` in src/lib/tech-analysis.ts return
  constants and are left out.
- **Token type.** The token check for the activity endpoint is modelled as "absent or
  empty". The `typeof token !== 'string'` alternative has no counterpart, because the
  token is a string when present.
- **Whitespace.** `UserSearch.HandleSearch` tests blankness with ASCII whitespace, no-break
  space, the line and paragraph separators and the byte-order mark. Other Unicode space
  characters that `trim` also removes are not included.
- **`UserProfile.LoadMore`**: toggling twice from an expanded state where more repositories
  were loaded does not restore `displayCount`, exactly as in the source. Only the round
  trip from the initial state is stated.
- **`GitHubActivity.PeriodMonths`**: the source looks the period up in a plain object
  literal (src/lib/github-activity.ts:9-14). A period naming a property inherited from
  `Object.prototype`, such as `"toString"` or `"constructor"`, yields that property, so
  the start date becomes an invalid date and `toISOString` throws (line 22), an error
  rethrown at lines 82-84. The model treats such a period like any other unknown one:
  12 months, and the pages are fetched. Listing the inherited names would tie the model
  to one JavaScript engine's prototype.
- **`UserComparison.Metrics`**: its contract states only the number of metrics. Their
  values are stated by `MetricsNaN` and `MetricsValues`. Their names, categories and
  importances are catalogue constants that no lemma restates.
- **`UserProfile.ProfileActivity`**: when the repositories are absent it returns the
  default activity, as the statistics memo does (src/components/UserProfile.tsx:89). The
  component itself would throw in that case, at `analyzeTechProgression(repos)`
  (line 181) and `repos.length` (line 213). That crash is not modelled, so this branch
  describes the statistics memo alone.
- **The "Strong … with …" strength sentences and category titles.** Their text is not
  modelled. Only the chosen metrics are.
