/**
  `fetchGitHubActivity` (src/lib/github-activity.ts): the token check, the period's
  reach, the paged download and the monthly bucketing. The download itself is the
  parameter `fetch`: `fetch(months, page)` is the outcome of requesting `page` of the
  events of the last `months` months, a `Failure` standing for a response that is not
  `ok`. The month label of an event (`toLocaleDateString` with short month and year)
  is the parameter `monthOf`.
 */
module GitHubActivity {
  import opened Wrappers
  import opened Seqs
  import opened Assoc
  import opened GitHubTypes
  import opened Contributions

  const PageSize: nat := 100
  const TokenError := "GitHub token configuration error"

  type Fetch = (nat, nat) -> Result<seq<Event>, string>

  /** The token is configured: present and not the empty string. */
  predicate ValidToken(token: Option<string>) {
    token.Some? && token.value != ""
  }

  /** `periodInMonths[period] ?? 12`. */
  function PeriodMonths(period: string): (m: nat)
    ensures 6 <= m <= 48
    ensures period != "6m" && period != "2y" && period != "all" ==> m == 12
    ensures period == "6m" ==> m == 6
    ensures period == "2y" ==> m == 24
    ensures period == "all" ==> m == 48
  {
    if period == "6m" then 6
    else if period == "1y" then 12
    else if period == "2y" then 24
    else if period == "all" then 48
    else 12
  }

  /** Up to three pages for the whole history, one otherwise. */
  function PageCount(period: string): (n: nat)
    ensures 1 <= n <= 3
    ensures n == 3 <==> period == "all"
    ensures period != "all" ==> n == 1
  {
    if period == "all" then 3 else 1
  }

  /** A page that succeeded with a full page of events, after which the loop goes on. */
  predicate Full(page: Result<seq<Event>, string>) {
    page.Success? && |page.value| >= PageSize
  }

  /** Puts `prefix` in front of a successful download; a failure stays as it is. */
  function Prefixed(prefix: seq<Event>, rest: Result<seq<Event>, string>): Result<seq<Event>, string> {
    match rest
    case Success(es) => Success(prefix + es)
    case Failure(e) => Failure(e)
  }

  lemma PrefixedAppend(a: seq<Event>, b: seq<Event>, rest: Result<seq<Event>, string>)
    ensures Prefixed(a, Prefixed(b, rest)) == Prefixed(a + b, rest)
    ensures Prefixed([], rest) == rest
  {
    if rest.Success? {
      assert a + (b + rest.value) == (a + b) + rest.value;
      assert [] + rest.value == rest.value;
    }
  }

  /**
    The events of pages `i` to `last`: the first failure ends the download with that
    failure, and a page with fewer than `PageSize` events is the last one requested.
   */
  function PagesFrom(fetch: Fetch, months: nat, i: nat, last: nat): Result<seq<Event>, string>
    decreases last + 1 - i
  {
    if i > last then Success([])
    else
      match fetch(months, i)
      case Failure(e) => Failure(e)
      case Success(es) => if |es| < PageSize then Success(es) else Prefixed(es, PagesFrom(fetch, months, i + 1, last))
  }

  /** The number of pages from `i` on that the loop requests. */
  function RequestedFrom(fetch: Fetch, months: nat, i: nat, last: nat): (n: nat)
    ensures i <= last ==> 1 <= n <= last + 1 - i
    ensures i > last ==> n == 0
    decreases last + 1 - i
  {
    if i > last then 0
    else if Full(fetch(months, i)) then 1 + RequestedFrom(fetch, months, i + 1, last)
    else 1
  }

  /**
    The page loop. `requested` counts the pages requested: page `j` is requested
    exactly when every page before it came back full, so the loop stops after the
    first short or failed page, and never goes past `pages`.
   */
  method CollectPages(fetch: Fetch, months: nat, pages: nat) returns (r: Result<seq<Event>, string>, requested: nat)
    ensures r == PagesFrom(fetch, months, 1, pages)
    ensures requested == RequestedFrom(fetch, months, 1, pages)
    ensures requested <= pages
    ensures forall k :: 1 <= k < requested ==> Full(fetch(months, k))
    ensures 1 <= requested < pages ==> !Full(fetch(months, requested))
    ensures pages > 0 ==> requested >= 1
  {
    var all: seq<Event> := [];
    var i := 1;
    requested := 0;
    PrefixedAppend([], [], PagesFrom(fetch, months, 1, pages));
    while i <= pages
      invariant 1 <= i <= pages + 1
      invariant requested == i - 1
      invariant forall k :: 1 <= k < i ==> Full(fetch(months, k))
      invariant PagesFrom(fetch, months, 1, pages) == Prefixed(all, PagesFrom(fetch, months, i, pages))
      invariant RequestedFrom(fetch, months, 1, pages) == requested + RequestedFrom(fetch, months, i, pages)
      decreases pages + 1 - i
    {
      var page := fetch(months, i);
      requested := i;
      if page.Failure? {
        return Failure(page.error), requested;
      }
      PrefixedAppend(all, page.value, PagesFrom(fetch, months, i + 1, pages));
      all := all + page.value;
      if |page.value| < PageSize {
        return Success(all), requested;
      }
      i := i + 1;
    }
    assert all + [] == all;
    return Success(all), requested;
  }

  /** With pages of at most `PageSize` events, a download holds at most `PageSize` per page allowed. */
  lemma {:induction false} PagesBound(fetch: Fetch, months: nat, i: nat, last: nat)
    requires forall p :: fetch(months, p).Success? ==> |fetch(months, p).value| <= PageSize
    requires i >= 1
    ensures var r := PagesFrom(fetch, months, i, last);
      r.Success? ==> |r.value| <= PageSize * RequestedFrom(fetch, months, i, last)
    decreases last + 1 - i
  {
    if i <= last && Full(fetch(months, i)) {
      PagesBound(fetch, months, i + 1, last);
    }
  }

  // ---------------------------------------------------------------- monthly bucketing

  datatype MonthlyStat = MonthlyStat(date: string, commits: nat, pullRequests: nat, issues: nat)

  function ToMonthly(b: Entry<string, Counts>): MonthlyStat {
    MonthlyStat(b.key, b.val.commits, b.val.pullRequests, b.val.issues)
  }

  function MonthBuckets(events: seq<Event>, monthOf: Event -> string): seq<Entry<string, Counts>> {
    Bucket(events, monthOf, MonthlyDelta)
  }

  /** The `reduce` into month buckets followed by `Object.values`. */
  function MonthlyStats(events: seq<Event>, monthOf: Event -> string): (ms: seq<MonthlyStat>)
    ensures |ms| == |MonthBuckets(events, monthOf)|
    ensures forall i :: 0 <= i < |ms| ==> ms[i] == ToMonthly(MonthBuckets(events, monthOf)[i])
  {
    var b := MonthBuckets(events, monthOf);
    seq(|b|, i requires 0 <= i < |b| => ToMonthly(b[i]))
  }

  /** `fetchGitHubActivity`, returning the outcome and the number of pages requested. */
  method FetchGitHubActivity(token: Option<string>, period: string, fetch: Fetch, monthOf: Event -> string)
    returns (r: Result<seq<MonthlyStat>, string>, requested: nat)
    ensures !ValidToken(token) ==> r == Failure(TokenError) && requested == 0
    ensures requested <= PageCount(period)
    ensures ValidToken(token) ==>
      var pages := PagesFrom(fetch, PeriodMonths(period), 1, PageCount(period));
      && requested == RequestedFrom(fetch, PeriodMonths(period), 1, PageCount(period))
      && (pages.Failure? ==> r == Failure(pages.error))
      && (pages.Success? ==> r == Success(MonthlyStats(pages.value, monthOf)))
  {
    if !ValidToken(token) {
      return Failure(TokenError), 0;
    }
    var events;
    events, requested := CollectPages(fetch, PeriodMonths(period), PageCount(period));
    if events.Failure? {
      return Failure(events.error), requested;
    }
    return Success(MonthlyStats(events.value, monthOf)), requested;
  }

  predicate IsOpenedOrReopenedPullRequest(e: Event) {
    e.kind == PullRequestEvent && OpenedOrReopened(e)
  }

  predicate IsOpenedOrReopenedIssue(e: Event) {
    e.kind == IssuesEvent && OpenedOrReopened(e)
  }

  lemma {:induction false} MonthlySum(es: seq<Event>)
    ensures SumCounts(es, MonthlyDelta).commits == Sum(es, PushCommits)
    ensures SumCounts(es, MonthlyDelta).pullRequests == Count(es, IsOpenedOrReopenedPullRequest)
    ensures SumCounts(es, MonthlyDelta).issues == Count(es, IsOpenedOrReopenedIssue)
    decreases |es|
  {
    if |es| > 0 {
      MonthlySum(es[1..]);
    }
  }

  function EventsIn(events: seq<Event>, monthOf: Event -> string, m: string): seq<Event> {
    Select(events, Keyed(monthOf), m)
  }

  /**
    A month has an entry exactly when some event falls in it, and the entry adds up
    the pushed commits, the opened or reopened pull requests and the opened or
    reopened issues of exactly that month's events.
   */
  lemma MonthBucketRule(events: seq<Event>, monthOf: Event -> string, m: string)
    ensures var b := Get(MonthBuckets(events, monthOf), m);
      && (b.Some? <==> |EventsIn(events, monthOf, m)| > 0)
      && (b.Some? ==>
            && b.value.commits == Sum(EventsIn(events, monthOf, m), PushCommits)
            && b.value.pullRequests == Count(EventsIn(events, monthOf, m), IsOpenedOrReopenedPullRequest)
            && b.value.issues == Count(EventsIn(events, monthOf, m), IsOpenedOrReopenedIssue))
  {
    BucketGet(events, monthOf, MonthlyDelta, m);
    MonthlySum(EventsIn(events, monthOf, m));
  }

  /** The month labels of the entries, position by position. */
  function Months(ms: seq<MonthlyStat>): (ds: seq<string>)
    ensures |ds| == |ms|
    ensures forall i :: 0 <= i < |ms| ==> ds[i] == ms[i].date
  {
    seq(|ms|, i requires 0 <= i < |ms| => ms[i].date)
  }

  lemma MonthlyDates(events: seq<Event>, monthOf: Event -> string)
    ensures Months(MonthlyStats(events, monthOf)) == Dedup(KeysOf(events, Keyed(monthOf)))
  {
    BucketKeys(events, monthOf, MonthlyDelta);
  }

  /**
    Every event creates its month's entry, whatever its type: the entries' months are
    pairwise different and are exactly the months of the events.
   */
  lemma MonthlyKeys(events: seq<Event>, monthOf: Event -> string)
    ensures var ds := Months(MonthlyStats(events, monthOf));
      && Distinct(ds)
      && (forall i :: 0 <= i < |ds| ==> exists n :: 0 <= n < |events| && monthOf(events[n]) == ds[i])
      && (forall n :: 0 <= n < |events| ==> monthOf(events[n]) in ds)
  {
    var ds := Months(MonthlyStats(events, monthOf));
    var all := KeysOf(events, Keyed(monthOf));
    MonthlyDates(events, monthOf);
    KeysOfKeyed(events, monthOf);
    forall i | 0 <= i < |ds| ensures exists n :: 0 <= n < |events| && monthOf(events[n]) == ds[i] {
      var n :| 0 <= n < |all| && all[n] == ds[i];
      assert monthOf(events[n]) == ds[i];
    }
    forall n | 0 <= n < |events| ensures monthOf(events[n]) in ds {
      assert all[n] == monthOf(events[n]);
    }
  }

  function MCommits(m: MonthlyStat): int { m.commits }
  function MPullRequests(m: MonthlyStat): int { m.pullRequests }
  function MIssues(m: MonthlyStat): int { m.issues }

  lemma {:induction false} MonthlySums(buckets: seq<Entry<string, Counts>>)
    ensures var ms := seq(|buckets|, i requires 0 <= i < |buckets| => ToMonthly(buckets[i]));
      && Sum(ms, MCommits) == TotalCounts(buckets).commits
      && Sum(ms, MPullRequests) == TotalCounts(buckets).pullRequests
      && Sum(ms, MIssues) == TotalCounts(buckets).issues
    decreases |buckets|
  {
    if |buckets| > 0 {
      MonthlySums(buckets[1..]);
      var ms := seq(|buckets|, i requires 0 <= i < |buckets| => ToMonthly(buckets[i]));
      var rest := seq(|buckets[1..]|, i requires 0 <= i < |buckets[1..]| => ToMonthly(buckets[1..][i]));
      assert ms[1..] == rest;
    }
  }

  /** The months together hold every pushed commit and every opened or reopened pull request and issue. */
  lemma MonthlyTotals(events: seq<Event>, monthOf: Event -> string)
    ensures var ms := MonthlyStats(events, monthOf);
      && Sum(ms, MCommits) == Sum(events, PushCommits)
      && Sum(ms, MPullRequests) == Count(events, IsOpenedOrReopenedPullRequest)
      && Sum(ms, MIssues) == Count(events, IsOpenedOrReopenedIssue)
  {
    var b := MonthBuckets(events, monthOf);
    MonthlySums(b);
    assert MonthlyStats(events, monthOf) == seq(|b|, i requires 0 <= i < |b| => ToMonthly(b[i]));
    BucketTotal(events, monthOf, MonthlyDelta);
    MonthlySum(events);
  }
}
