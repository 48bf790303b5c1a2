/**
  Contribution buckets: activity counts grouped by a date key (a calendar day for
  the statistics and the trend chart, a month for the activity fetcher). The three
  places that build buckets share the grouping and differ only in the per-event
  counting rule, which is a parameter here.
 */
module Contributions {
  import opened Wrappers
  import opened Seqs
  import opened Assoc
  import opened GitHubTypes

  datatype Counts = Counts(commits: nat, pullRequests: nat, issues: nat, reviews: nat)

  const Zero := Counts(0, 0, 0, 0)

  function Plus(a: Counts, b: Counts): Counts {
    Counts(a.commits + b.commits, a.pullRequests + b.pullRequests, a.issues + b.issues, a.reviews + b.reviews)
  }

  /** The bucket's total activity: `Object.values(counts).reduce((a, b) => a + b, 0)`. */
  function Total(c: Counts): nat {
    c.commits + c.pullRequests + c.issues + c.reviews
  }

  /** Per-event rule of the statistics aggregator (src/lib/github-stats.ts). */
  function DailyDelta(e: Event): Counts {
    Counts(PushCommits(e),
           if IsOpenedPullRequest(e) then 1 else 0,
           if IsOpenedIssue(e) then 1 else 0,
           if IsReview(e) then 1 else 0)
  }

  /** Per-event rule of the trend chart (src/components/TrendAnalysis.tsx): no reviews. */
  function TrendDelta(e: Event): Counts {
    Counts(PushCommits(e),
           if IsOpenedPullRequest(e) then 1 else 0,
           if IsOpenedIssue(e) then 1 else 0,
           0)
  }

  predicate OpenedOrReopened(e: Event) {
    e.action == Some("opened") || e.action == Some("reopened")
  }

  /** Per-event rule of the monthly activity fetcher (src/lib/github-activity.ts). */
  function MonthlyDelta(e: Event): Counts {
    Counts(PushCommits(e),
           if e.kind == PullRequestEvent && OpenedOrReopened(e) then 1 else 0,
           if e.kind == IssuesEvent && OpenedOrReopened(e) then 1 else 0,
           0)
  }

  function Step(delta: Event -> Counts): (Counts, Event) -> Counts {
    (c, e) => Plus(c, delta(e))
  }

  function Keyed<K>(keyOf: Event -> K): Event -> Option<K> {
    e => Some(keyOf(e))
  }

  /**
    Groups the events by `keyOf`, creating an all-zero bucket the first time a key
    is seen and adding `delta` of each event to its bucket.
   */
  function Bucket<K(==)>(events: seq<Event>, keyOf: Event -> K, delta: Event -> Counts): seq<Entry<K, Counts>> {
    Collect(events, Keyed(keyOf), Zero, Step(delta))
  }

  /** Sum of `delta` over the events. */
  function SumCounts(es: seq<Event>, delta: Event -> Counts): Counts
    decreases |es|
  {
    if |es| == 0 then Zero else Plus(delta(es[0]), SumCounts(es[1..], delta))
  }

  /** Sum of all bucket values. */
  function TotalCounts<K>(a: seq<Entry<K, Counts>>): Counts
    decreases |a|
  {
    if |a| == 0 then Zero else Plus(a[0].val, TotalCounts(a[1..]))
  }

  lemma {:induction false} SumCountsSnoc(es: seq<Event>, x: Event, delta: Event -> Counts)
    ensures SumCounts(es + [x], delta) == Plus(SumCounts(es, delta), delta(x))
    decreases |es|
  {
    if |es| > 0 {
      assert (es + [x])[1..] == es[1..] + [x];
      SumCountsSnoc(es[1..], x, delta);
    }
  }

  lemma {:induction false} RunIsSumCounts(es: seq<Event>, delta: Event -> Counts)
    ensures Run(es, Zero, Step(delta)) == SumCounts(es, delta)
    decreases |es|
  {
    if |es| > 0 {
      var pre := es[..|es| - 1];
      RunIsSumCounts(pre, delta);
      SumCountsSnoc(pre, es[|es| - 1], delta);
      assert pre + [es[|es| - 1]] == es;
    }
  }

  /**
    A bucket exists for key `k` exactly when some event has key `k`, and it holds
    the sum of `delta` over exactly those events.
   */
  lemma BucketGet<K>(events: seq<Event>, keyOf: Event -> K, delta: Event -> Counts, k: K)
    ensures Get(Bucket(events, keyOf, delta), k)
         == if |Select(events, Keyed(keyOf), k)| == 0 then None
            else Some(SumCounts(Select(events, Keyed(keyOf), k), delta))
  {
    CollectGet(events, Keyed(keyOf), Zero, Step(delta), k);
    RunIsSumCounts(Select(events, Keyed(keyOf), k), delta);
  }

  /** One bucket per distinct key, in order of first occurrence. */
  lemma BucketKeys<K>(events: seq<Event>, keyOf: Event -> K, delta: Event -> Counts)
    ensures Keys(Bucket(events, keyOf, delta)) == Dedup(KeysOf(events, Keyed(keyOf)))
    ensures Distinct(Keys(Bucket(events, keyOf, delta)))
  {
    CollectKeys(events, Keyed(keyOf), Zero, Step(delta));
  }

  /** The keys of keyed events are exactly the keys of the events, in order. */
  lemma {:induction false} KeysOfKeyed<K>(events: seq<Event>, keyOf: Event -> K)
    ensures |KeysOf(events, Keyed(keyOf))| == |events|
    ensures forall i :: 0 <= i < |events| ==> KeysOf(events, Keyed(keyOf))[i] == keyOf(events[i])
    decreases |events|
  {
    if |events| > 0 {
      KeysOfKeyed(events[..|events| - 1], keyOf);
    }
  }

  lemma PlusAssoc(x: Counts, y: Counts, z: Counts)
    ensures Plus(x, Plus(y, z)) == Plus(Plus(x, y), z)
  {
  }

  lemma PlusSwap(x: Counts, y: Counts, z: Counts)
    ensures Plus(Plus(x, y), z) == Plus(Plus(x, z), y)
  {
  }

  /**
    Updating one bucket by adding `d` to it (or creating it as `d`) adds `d` to the
    total of all buckets.
   */
  lemma {:induction false} TotalCountsUpsert<K>(a: seq<Entry<K, Counts>>, k: K, f: Counts -> Counts, d: Counts)
    requires f(Get(a, k).GetOr(Zero)) == Plus(Get(a, k).GetOr(Zero), d)
    ensures TotalCounts(Upsert(a, k, Zero, f)) == Plus(TotalCounts(a), d)
    decreases |a|
  {
    var r := Upsert(a, k, Zero, f);
    if |a| == 0 {
      assert r == [Entry(k, Plus(Zero, d))];
    } else if a[0].key != k {
      var rest := Upsert(a[1..], k, Zero, f);
      assert r[0] == a[0] && r[1..] == rest;
      assert TotalCounts(rest) == Plus(TotalCounts(a[1..]), d) by {
        assert Get(a, k) == Get(a[1..], k);
        TotalCountsUpsert(a[1..], k, f, d);
      }
      assert TotalCounts(r) == Plus(a[0].val, TotalCounts(rest));
      PlusAssoc(a[0].val, TotalCounts(a[1..]), d);
    } else {
      assert r[0].val == Plus(a[0].val, d) && r[1..] == a[1..];
      assert TotalCounts(r) == Plus(Plus(a[0].val, d), TotalCounts(a[1..]));
      PlusSwap(a[0].val, d, TotalCounts(a[1..]));
    }
  }

  /** The buckets together hold the sum of `delta` over all events. */
  lemma {:induction false} BucketTotal<K>(events: seq<Event>, keyOf: Event -> K, delta: Event -> Counts)
    ensures TotalCounts(Bucket(events, keyOf, delta)) == SumCounts(events, delta)
    decreases |events|
  {
    if |events| > 0 {
      BucketTotal(events[..|events| - 1], keyOf, delta);
      BucketTotalStep(events, keyOf, delta);
      SumCountsLast(events, delta);
    }
  }

  /** The last event adds its `delta` to the total of the buckets. */
  lemma BucketTotalStep<K>(events: seq<Event>, keyOf: Event -> K, delta: Event -> Counts)
    requires |events| > 0
    ensures TotalCounts(Bucket(events, keyOf, delta))
         == Plus(TotalCounts(Bucket(events[..|events| - 1], keyOf, delta)), delta(events[|events| - 1]))
  {
    var x := events[|events| - 1];
    var b := Bucket(events[..|events| - 1], keyOf, delta);
    var f := Apply(Step(delta), x);
    BucketSnoc(events, keyOf, delta);
    assert f(Get(b, keyOf(x)).GetOr(Zero)) == Plus(Get(b, keyOf(x)).GetOr(Zero), delta(x));
    TotalCountsUpsert(b, keyOf(x), f, delta(x));
  }

  lemma SumCountsLast(events: seq<Event>, delta: Event -> Counts)
    requires |events| > 0
    ensures SumCounts(events, delta) == Plus(SumCounts(events[..|events| - 1], delta), delta(events[|events| - 1]))
  {
    var pre := events[..|events| - 1];
    SumCountsSnoc(pre, events[|events| - 1], delta);
    assert pre + [events[|events| - 1]] == events;
  }

  /** The last event updates (or creates) the bucket of its key. */
  lemma BucketSnoc<K>(events: seq<Event>, keyOf: Event -> K, delta: Event -> Counts)
    requires |events| > 0
    ensures var x := events[|events| - 1];
      Bucket(events, keyOf, delta)
        == Upsert(Bucket(events[..|events| - 1], keyOf, delta), keyOf(x), Zero, Apply(Step(delta), x))
  {
    assert Keyed(keyOf)(events[|events| - 1]) == Some(keyOf(events[|events| - 1]));
  }

  /** Field by field, the statistics rule sums commits of pushes and counts opened PRs, opened issues and reviews. */
  lemma {:induction false} DailySum(es: seq<Event>)
    ensures SumCounts(es, DailyDelta).commits == Sum(es, PushCommits)
    ensures SumCounts(es, DailyDelta).pullRequests == Count(es, IsOpenedPullRequest)
    ensures SumCounts(es, DailyDelta).issues == Count(es, IsOpenedIssue)
    ensures SumCounts(es, DailyDelta).reviews == Count(es, IsReview)
    decreases |es|
  {
    if |es| > 0 {
      DailySum(es[1..]);
      assert Sum(es, PushCommits) == PushCommits(es[0]) + Sum(es[1..], PushCommits);
    }
  }

  /** The trend-chart rule agrees with the statistics rule except that it drops reviews. */
  lemma {:induction false} TrendSumIsDailyWithoutReviews(es: seq<Event>)
    ensures SumCounts(es, TrendDelta).commits == SumCounts(es, DailyDelta).commits
    ensures SumCounts(es, TrendDelta).pullRequests == SumCounts(es, DailyDelta).pullRequests
    ensures SumCounts(es, TrendDelta).issues == SumCounts(es, DailyDelta).issues
    ensures SumCounts(es, TrendDelta).reviews == 0
    decreases |es|
  {
    if |es| > 0 {
      TrendSumIsDailyWithoutReviews(es[1..]);
    }
  }
}
