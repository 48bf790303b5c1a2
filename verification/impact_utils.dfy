/**
  `calculateStreak` and `calculateImpactScore` (src/lib/impact-utils.ts): the run of
  consecutive active days ending at the latest active day, and a 0..100 score
  weighing commits, pull requests, merge rate and repositories.
 */
module ImpactUtils {
  import opened Wrappers
  import opened Numbers
  import opened Seqs
  import opened Sorting
  import opened GitHubTypes

  // ---------------------------------------------------------------- streak

  /** The calendar day of every activity, in input order. */
  function Days(events: seq<Event>): (ds: seq<int>)
    ensures |ds| == |events|
    ensures forall i :: 0 <= i < |events| ==> ds[i] == EventDay(events[i])
  {
    seq(|events|, i requires 0 <= i < |events| => EventDay(events[i]))
  }

  /** The set of days on which there was some activity. */
  function DaySet(events: seq<Event>): set<int> {
    set i | 0 <= i < |events| :: EventDay(events[i])
  }

  function DayKey(d: int): real { d as real }

  predicate StrictlyDecreasing(s: seq<int>) {
    forall i, j :: 0 <= i < j < |s| ==> s[i] > s[j]
  }

  predicate NonIncreasing(s: seq<int>) {
    forall i, j :: 0 <= i < j < |s| ==> s[i] >= s[j]
  }

  /** `uniqueDates`: the activity days, latest first, each once. */
  function UniqueDays(events: seq<Event>): (u: seq<int>)
    ensures StrictlyDecreasing(u)
    ensures forall i :: 0 <= i < |u| ==> u[i] in DaySet(events)
    ensures forall d :: d in DaySet(events) ==> d in u
  {
    var days := Days(events);
    var sorted := SortDesc(days, DayKey);
    assert NonIncreasing(sorted) by {
      forall i, j | 0 <= i < j < |sorted| ensures sorted[i] >= sorted[j] {
        assert DayKey(sorted[i]) >= DayKey(sorted[j]);
      }
    }
    DedupDecreasing(sorted);
    var u := Dedup(sorted);
    forall i | 0 <= i < |u| ensures u[i] in DaySet(events) {
      assert u[i] in multiset(days);
      var n :| 0 <= n < |days| && days[n] == u[i];
    }
    forall d | d in DaySet(events) ensures d in u {
      var n :| 0 <= n < |events| && EventDay(events[n]) == d;
      assert days[n] in multiset(sorted);
      var k :| 0 <= k < |sorted| && sorted[k] == d;
    }
    u
  }

  /** Dropping repeats from a non-increasing sequence leaves a strictly decreasing one. */
  lemma {:induction false} DedupDecreasing(s: seq<int>)
    requires NonIncreasing(s)
    ensures StrictlyDecreasing(Dedup(s))
    decreases |s|
  {
    if |s| > 0 {
      var init := s[..|s| - 1];
      var last := s[|s| - 1];
      NonIncreasingPrefix(s);
      DedupDecreasing(init);
      var d := Dedup(init);
      if last !in d {
        forall i | 0 <= i < |d| ensures d[i] > last {
          var n :| 0 <= n < |init| && init[n] == d[i];
          assert s[n] >= s[|s| - 1];
        }
        AppendBelow(d, last);
      }
    }
  }

  lemma NonIncreasingPrefix(s: seq<int>)
    requires NonIncreasing(s) && |s| > 0
    ensures NonIncreasing(s[..|s| - 1])
  {
    var init := s[..|s| - 1];
    forall i, j | 0 <= i < j < |init| ensures init[i] >= init[j] {
      assert init[i] == s[i] && init[j] == s[j];
    }
  }

  /** A value below every element extends a strictly decreasing sequence. */
  lemma AppendBelow(d: seq<int>, last: int)
    requires StrictlyDecreasing(d)
    requires forall i :: 0 <= i < |d| ==> d[i] > last
    ensures StrictlyDecreasing(d + [last])
  {
    var r := d + [last];
    forall i, j | 0 <= i < j < |r| ensures r[i] > r[j] {
      assert r[i] == d[i];
    }
  }

  /**
    The loop of `calculateStreak`: one for the latest day, plus one for each following
    day that is exactly one day earlier than its predecessor, stopping at the first gap.
   */
  function ConsecutiveRun(u: seq<int>): (r: nat)
    ensures |u| > 0 ==> 1 <= r <= |u|
    ensures |u| == 0 ==> r == 0
    decreases |u|
  {
    if |u| == 0 then 0
    else if |u| == 1 then 1
    else if u[0] - u[1] == 1 then 1 + ConsecutiveRun(u[1..])
    else 1
  }

  /** `calculateStreak`: `None` stands for an undefined activity list. */
  function CalculateStreak(activities: Option<seq<Event>>): (streak: nat)
    ensures activities.None? || |activities.value| == 0 ==> streak == 0
  {
    if activities.None? || |activities.value| == 0 then 0
    else ConsecutiveRun(UniqueDays(activities.value))
  }

  /**
    In a strictly decreasing sequence the run covers exactly the days `u[0] - j` for
    `j < r`, and the next element, if any, lies more than one day further back.
   */
  lemma {:induction false} RunShape(u: seq<int>)
    requires StrictlyDecreasing(u)
    requires |u| > 0
    ensures forall j :: 0 <= j < ConsecutiveRun(u) ==> u[j] == u[0] - j
    ensures ConsecutiveRun(u) < |u| ==> u[ConsecutiveRun(u)] < u[0] - ConsecutiveRun(u)
    decreases |u|
  {
    if |u| > 1 && u[0] - u[1] == 1 {
      RunShape(u[1..]);
      assert ConsecutiveRun(u) == 1 + ConsecutiveRun(u[1..]);
      forall j | 1 <= j < ConsecutiveRun(u) ensures u[j] == u[0] - j {
        assert u[j] == u[1..][j - 1];
      }
    }
  }

  /**
    A run over a strictly decreasing enumeration `u` of a day set `S`: with `M = u[0]`
    the latest day, the days from `M - r + 1` to `M` are all in `S` and `M - r` is not.
   */
  lemma RunOfDaySet(u: seq<int>, S: set<int>)
    requires StrictlyDecreasing(u) && |u| > 0
    requires forall i :: 0 <= i < |u| ==> u[i] in S
    requires forall d :: d in S ==> d in u
    ensures forall d :: d in S ==> d <= u[0]
    ensures forall d :: u[0] - ConsecutiveRun(u) < d <= u[0] ==> d in S
    ensures u[0] - ConsecutiveRun(u) !in S
    ensures ConsecutiveRun(u) <= |S|
    ensures u[0] - 1 !in S ==> ConsecutiveRun(u) == 1
  {
    var r := ConsecutiveRun(u);
    RunShape(u);
    forall d | d in S ensures d <= u[0] {
      var k :| 0 <= k < |u| && u[k] == d;
    }
    forall d | u[0] - r < d <= u[0] ensures d in S {
      assert u[u[0] - d] == d;
    }
    forall k | 0 <= k < |u| ensures u[k] != u[0] - r {
      if r < k {
        assert u[k] < u[r];
      }
    }
    DistinctCardinality(u);
    assert (set x | x in u) == S;
    if r > 1 {
      assert u[0] - 1 in S;
    }
  }

  /** A non-empty activity list has at least one active day. */
  lemma SomeActiveDay(events: seq<Event>)
    requires |events| > 0
    ensures EventDay(events[0]) in DaySet(events)
    ensures |UniqueDays(events)| > 0
  {
    assert EventDay(events[0]) in DaySet(events);
  }

  /** `RunOfDaySet` for the unique days of an activity list and its day set. */
  lemma DaysRun(events: seq<Event>)
    requires |UniqueDays(events)| > 0
    ensures var S := DaySet(events);
      var u := UniqueDays(events);
      && (forall d :: d in S ==> d <= u[0])
      && (forall d :: u[0] - ConsecutiveRun(u) < d <= u[0] ==> d in S)
      && u[0] - ConsecutiveRun(u) !in S
      && ConsecutiveRun(u) <= |S|
      && u[0] in S
      && (u[0] - 1 !in S ==> ConsecutiveRun(u) == 1)
  {
    RunOfDaySet(UniqueDays(events), DaySet(events));
  }

  /**
    The streak of a non-empty activity list is the run `r` over its unique days, and
    is characterised by the day set `S` alone: with `M` the latest day in `S`, the
    days `M, M-1, …, M-(r-1)` are all active and `M-r` is not. So `1 <= r <= |S|`,
    and a gap right after the latest day gives 1.
   */
  lemma StreakShape(events: seq<Event>)
    requires |events| > 0
    ensures CalculateStreak(Some(events)) == ConsecutiveRun(UniqueDays(events))
    ensures var S := DaySet(events);
      var r := ConsecutiveRun(UniqueDays(events));
      var M := UniqueDays(events)[0];
      && M in S
      && (forall d :: d in S ==> d <= M)
      && (forall d :: M - r < d <= M ==> d in S)
      && M - r !in S
      && 1 <= r <= |S|
      && (M - 1 !in S ==> r == 1)
  {
    SomeActiveDay(events);
    DaysRun(events);
  }

  /**
    The streak depends only on which days were active: reordering the activities or
    adding more activities on already active days does not change it.
   */
  lemma StreakDependsOnDays(a: seq<Event>, b: seq<Event>)
    requires DaySet(a) == DaySet(b)
    ensures CalculateStreak(Some(a)) == CalculateStreak(Some(b))
  {
    if |a| > 0 {
      StreakShape(a);
    }
    if |b| > 0 {
      StreakShape(b);
    }
    if |a| > 0 && |b| > 0 {
      var ma, mb := UniqueDays(a)[0], UniqueDays(b)[0];
      assert ma == mb;
    }
  }

  // ---------------------------------------------------------------- impact score

  /**
    `calculateImpactScore`. Commits saturate at 1000, pull requests at 100 and
    repositories at 50; the weights are 40, 30, 20 and 10 points. The merge rate is a
    fraction, used as given.
   */
  function ImpactScore(commits: int, prs: int, mergeRate: real, repos: int): (score: int)
    ensures commits == 0 && prs == 0 && repos == 0 ==> score == 0
  {
    if commits == 0 && prs == 0 && repos == 0 then 0
    else Round(RawScore(commits, prs, mergeRate, repos))
  }

  /** The weighted sum before rounding. */
  function RawScore(commits: int, prs: int, mergeRate: real, repos: int): real {
    (Min(commits as real / 1000.0, 1.0) * 0.4
     + Min(prs as real / 100.0, 1.0) * 0.3
     + mergeRate * 0.2
     + Min(repos as real / 50.0, 1.0) * 0.1) * 100.0
  }

  predicate ValidScoreInputs(commits: int, prs: int, mergeRate: real, repos: int) {
    commits >= 0 && prs >= 0 && repos >= 0 && 0.0 <= mergeRate <= 1.0
  }

  /** With counts that are not negative and a merge rate in [0, 1], the score is in 0..100. */
  lemma ImpactScoreRange(commits: int, prs: int, mergeRate: real, repos: int)
    requires ValidScoreInputs(commits, prs, mergeRate, repos)
    ensures 0 <= ImpactScore(commits, prs, mergeRate, repos) <= 100
  {
    var raw := RawScore(commits, prs, mergeRate, repos);
    assert 0.0 <= raw <= 100.0;
  }

  /** Counts past the saturation points do not change the score. */
  lemma ImpactScoreSaturates(commits: int, prs: int, mergeRate: real, repos: int)
    ensures commits >= 1000 ==> ImpactScore(commits, prs, mergeRate, repos) == ImpactScore(1000, prs, mergeRate, repos)
    ensures prs >= 100 ==> ImpactScore(commits, prs, mergeRate, repos) == ImpactScore(commits, 100, mergeRate, repos)
    ensures repos >= 50 ==> ImpactScore(commits, prs, mergeRate, repos) == ImpactScore(commits, prs, mergeRate, 50)
  {
  }

  /** Saturating every count with a perfect merge rate gives the full score. */
  lemma ImpactScoreFull()
    ensures ImpactScore(1000, 100, 1.0, 50) == 100
  {
    assert RawScore(1000, 100, 1.0, 50) == 100.0;
    RoundOfInt(100);
  }

  /** Raising any one input never lowers the score. */
  lemma ImpactScoreMonotone(c1: int, p1: int, m1: real, r1: int, c2: int, p2: int, m2: real, r2: int)
    requires ValidScoreInputs(c1, p1, m1, r1) && ValidScoreInputs(c2, p2, m2, r2)
    requires c1 <= c2 && p1 <= p2 && m1 <= m2 && r1 <= r2
    ensures ImpactScore(c1, p1, m1, r1) <= ImpactScore(c2, p2, m2, r2)
  {
    var a := RawScore(c1, p1, m1, r1);
    var b := RawScore(c2, p2, m2, r2);
    assert Min(c1 as real / 1000.0, 1.0) <= Min(c2 as real / 1000.0, 1.0);
    assert Min(p1 as real / 100.0, 1.0) <= Min(p2 as real / 100.0, 1.0);
    assert Min(r1 as real / 50.0, 1.0) <= Min(r2 as real / 50.0, 1.0);
    assert a <= b;
    RoundMonotone(a, b);
    ImpactScoreRange(c2, p2, m2, r2);
  }
}
