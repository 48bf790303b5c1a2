/**
  The comparison engine of src/components/UserComparison.tsx: the two-user list, the
  per-user statistics, the metric catalogue, the percentage difference, wins and
  strengths, grouping by category, the top languages and the tiers and phrases used
  to print values and differences.
 */
module UserComparison {
  import opened Wrappers
  import opened Numbers
  import opened Seqs
  import opened Sorting
  import opened Assoc
  import opened GitHubTypes
  import opened TechAnalysis

  // ---------------------------------------------------------------- users

  datatype ComparedStats = ComparedStats(
    repoCount: nat,
    totalStars: nat,
    totalForks: nat,
    totalWatchers: nat,
    topLanguages: seq<TechCount>,
    followers: nat,
    following: nat)

  datatype ComparedUser = ComparedUser(login: string, stats: ComparedStats)

  function Stars(r: Repo): int { r.stars }
  function Forks(r: Repo): int { r.forks }
  function Watchers(r: Repo): int { r.watchers }

  /** `calculateTopLanguages`: the five most used languages with their repository counts. */
  function TopLanguages(repos: seq<Repo>): seq<TechCount> {
    Take(AnalyzeTechStack(repos), 5)
  }

  /**
    At most five languages, the leading entries of the tech stack: sorted by descending
    count, each counting the repositories of its language, none without a language.
   */
  lemma TopLanguagesShape(repos: seq<Repo>)
    ensures var ls := TopLanguages(repos);
      && |ls| <= 5
      && ls <= AnalyzeTechStack(repos)
      && (forall i, j :: 0 <= i < j < |ls| ==> ls[i].count >= ls[j].count)
      && (forall i :: 0 <= i < |ls| ==> ls[i].count >= 1 && ls[i].count == |Select(repos, LanguageOf, ls[i].name)|)
  {
    TechStackEntries(repos);
    var ts := AnalyzeTechStack(repos);
    var ls := TopLanguages(repos);
    assert forall i :: 0 <= i < |ls| ==> ls[i] == ts[i];
  }

  /** The statistics object `addUser` builds from a fetched user's repositories. */
  function TransformUser(login: string, repos: seq<Repo>, followers: nat, following: nat): (u: ComparedUser)
    ensures u.login == login
  {
    SumNonNegative(repos, Stars);
    SumNonNegative(repos, Forks);
    SumNonNegative(repos, Watchers);
    ComparedUser(login, ComparedStats(|repos|, Sum(repos, Stars), Sum(repos, Forks), Sum(repos, Watchers),
                                      TopLanguages(repos), followers, following))
  }

  /** Statistics of a user without repositories have every repository total at 0. */
  predicate ConsistentStats(s: ComparedStats) {
    s.repoCount == 0 ==> s.totalStars == 0 && s.totalForks == 0 && s.totalWatchers == 0
  }

  lemma TransformUserConsistent(login: string, repos: seq<Repo>, followers: nat, following: nat)
    ensures ConsistentStats(TransformUser(login, repos, followers, following).stats)
    ensures TransformUser(login, repos, followers, following).stats.repoCount == |repos|
  {
  }

  predicate HasLogin(users: seq<ComparedUser>, login: string) {
    exists i :: 0 <= i < |users| && users[i].login == login
  }

  predicate DistinctLogins(users: seq<ComparedUser>) {
    forall i, j :: 0 <= i < j < |users| ==> users[i].login != users[j].login
  }

  /** `slice(-2)`: the last two elements, or all of them when there are fewer. */
  function LastTwo<T>(s: seq<T>): (r: seq<T>)
    ensures |r| <= 2
    ensures |r| == if |s| <= 2 then |s| else 2
    ensures forall i :: 0 <= i < |r| ==> r[i] == s[|s| - |r| + i]
  {
    if |s| <= 2 then s else s[|s| - 2..]
  }

  /**
    `addUser`'s state update. A failed search (`None`) leaves the list alone, as does a
    user whose login is already listed; otherwise the user is appended and only the
    last two are kept.
   */
  function AddUser(prev: seq<ComparedUser>, found: Option<ComparedUser>): seq<ComparedUser> {
    if found.None? || HasLogin(prev, found.value.login) then prev
    else LastTwo(prev + [found.value])
  }

  /**
    The list never grows beyond two users and logins stay distinct; a new user becomes
    the last of the list, the previous last user (if any) stays before it, and a known
    login or a failed search changes nothing.
   */
  lemma AddUserInvariant(prev: seq<ComparedUser>, found: Option<ComparedUser>)
    requires |prev| <= 2 && DistinctLogins(prev)
    ensures var r := AddUser(prev, found);
      && |r| <= 2
      && DistinctLogins(r)
      && (found.None? || HasLogin(prev, found.value.login) ==> r == prev)
      && (found.Some? && !HasLogin(prev, found.value.login) ==>
            && |r| >= 1 && r[|r| - 1] == found.value
            && (|prev| >= 1 ==> |r| == 2 && r[0] == prev[|prev| - 1]))
  {
    if found.Some? && !HasLogin(prev, found.value.login) {
      var all := prev + [found.value];
      AppendNewLogin(prev, found.value);
      LastTwoDistinct(all);
    }
  }

  /** Appending a user with a new login keeps logins distinct. */
  lemma AppendNewLogin(prev: seq<ComparedUser>, u: ComparedUser)
    requires DistinctLogins(prev) && !HasLogin(prev, u.login)
    ensures DistinctLogins(prev + [u])
  {
    var all := prev + [u];
    forall i, j | 0 <= i < j < |all| ensures all[i].login != all[j].login {
      assert all[i] == prev[i];
      if j < |prev| {
        assert all[j] == prev[j];
      }
    }
  }

  lemma LastTwoDistinct(all: seq<ComparedUser>)
    requires DistinctLogins(all)
    ensures DistinctLogins(LastTwo(all))
  {
    var r := LastTwo(all);
    forall i, j | 0 <= i < j < |r| ensures r[i].login != r[j].login {
      assert r[i] == all[|all| - |r| + i] && r[j] == all[|all| - |r| + j];
    }
  }

  // ---------------------------------------------------------------- metrics

  datatype Category = Impact | Activity | Community | Quality

  /** A comparison metric; `isRatio` is `format: 'ratio'`. */
  datatype Metric = Metric(name: string, value1: Num, value2: Num, category: Category, importance: nat, isRatio: bool)

  /** `Math.round(totalStars / repoCount)`: NaN for a user without repositories. */
  function AverageStars(s: ComparedStats): Num
    requires ConsistentStats(s)
  {
    if s.repoCount == 0 then NaN else Fin(Round(s.totalStars as real / s.repoCount as real) as real)
  }

  /** `Math.round(totalForks / repoCount * 10) / 10`: NaN for a user without repositories. */
  function ForkRate(s: ComparedStats): Num
    requires ConsistentStats(s)
  {
    if s.repoCount == 0 then NaN
    else Fin(Round((s.totalForks as real / s.repoCount as real) * 10.0) as real / 10.0)
  }

  /** Followers per followed account to two decimals (`toFixed(2)`), 0 when following nobody. */
  function EngagementRatio(s: ComparedStats): real {
    if s.following > 0 then Round((s.followers as real / s.following as real) * 100.0) as real / 100.0 else 0.0
  }

  /** The six metrics of the comparison, in catalogue order. */
  function Metrics(a: ComparedStats, b: ComparedStats): (ms: seq<Metric>)
    requires ConsistentStats(a) && ConsistentStats(b)
    ensures |ms| == 6
  {
    [ Metric("Repository Impact", Fin((a.totalStars + a.totalForks) as real), Fin((b.totalStars + b.totalForks) as real), Impact, 5, false),
      Metric("Average Stars", AverageStars(a), AverageStars(b), Quality, 4, false),
      Metric("Community Size", Fin(a.followers as real), Fin(b.followers as real), Community, 4, false),
      Metric("Engagement Ratio", Fin(EngagementRatio(a)), Fin(EngagementRatio(b)), Community, 3, true),
      Metric("Repository Count", Fin(a.repoCount as real), Fin(b.repoCount as real), Activity, 3, false),
      Metric("Fork Rate", ForkRate(a), ForkRate(b), Impact, 3, false) ]
  }

  /** The metrics that are NaN for a user are exactly the per-repository averages of a user without repositories. */
  lemma MetricsNaN(a: ComparedStats, b: ComparedStats)
    requires ConsistentStats(a) && ConsistentStats(b)
    ensures forall i :: 0 <= i < 6 ==>
      (Metrics(a, b)[i].value1.NaN? <==> a.repoCount == 0 && (i == 1 || i == 5))
    ensures forall i :: 0 <= i < 6 ==>
      (Metrics(a, b)[i].value2.NaN? <==> b.repoCount == 0 && (i == 1 || i == 5))
  {
  }

  /** The value of a metric for the first user (`first`) or the second. */
  function ValueFor(m: Metric, first: bool): Num {
    if first then m.value1 else m.value2
  }

  /** `x` lies within `half` of `y`, half-way cases taken from above. */
  predicate Near(x: real, y: real, half: real) {
    y - half < x <= y + half
  }

  /** `x` is a whole multiple of `1 / scale`. */
  predicate OnGrid(x: real, scale: real) {
    (x * scale).Floor as real == x * scale
  }

  /**
    The six values of one user are that user's statistics: the exact totals, and the
    per-repository and per-followed averages rounded to a whole number, to tenths and
    to hundredths.
   */
  predicate Reflects(s: ComparedStats, ms: seq<Metric>, first: bool)
    requires |ms| == 6
  {
    && ValueFor(ms[0], first) == Fin((s.totalStars + s.totalForks) as real)
    && (s.repoCount > 0 ==> ValueFor(ms[1], first).Fin? && Near(ValueFor(ms[1], first).val, s.totalStars as real / s.repoCount as real, 0.5)
                            && OnGrid(ValueFor(ms[1], first).val, 1.0))
    && ValueFor(ms[2], first) == Fin(s.followers as real)
    && ValueFor(ms[3], first).Fin?
    && (s.following > 0 ==> Near(ValueFor(ms[3], first).val, s.followers as real / s.following as real, 0.005)
                            && OnGrid(ValueFor(ms[3], first).val, 100.0))
    && (s.following == 0 ==> ValueFor(ms[3], first).val == 0.0)
    && ValueFor(ms[4], first) == Fin(s.repoCount as real)
    && (s.repoCount > 0 ==> ValueFor(ms[5], first).Fin? && Near(ValueFor(ms[5], first).val, s.totalForks as real / s.repoCount as real, 0.05)
                            && OnGrid(ValueFor(ms[5], first).val, 10.0))
  }

  /** The first user's values reflect the first user's statistics and the second's the second's. */
  lemma MetricsValues(a: ComparedStats, b: ComparedStats)
    requires ConsistentStats(a) && ConsistentStats(b)
    ensures Reflects(a, Metrics(a, b), true)
    ensures Reflects(b, Metrics(a, b), false)
  {
    AverageStarsRounded(a);
    AverageStarsRounded(b);
    EngagementRounded(a);
    EngagementRounded(b);
    ForkRateRounded(a);
    ForkRateRounded(b);
  }

  /** Average stars are a whole number within half a star of the exact average. */
  lemma AverageStarsRounded(s: ComparedStats)
    requires ConsistentStats(s)
    ensures s.repoCount > 0 ==>
      && AverageStars(s).Fin?
      && Near(AverageStars(s).val, s.totalStars as real / s.repoCount as real, 0.5)
      && OnGrid(AverageStars(s).val, 1.0)
  {
  }

  /** The engagement ratio is a whole number of hundredths within half a hundredth of the exact ratio. */
  lemma EngagementRounded(s: ComparedStats)
    ensures s.following > 0 ==>
      && Near(EngagementRatio(s), s.followers as real / s.following as real, 0.005)
      && OnGrid(EngagementRatio(s), 100.0)
    ensures s.following == 0 ==> EngagementRatio(s) == 0.0
  {
    if s.following > 0 {
      var n := Round((s.followers as real / s.following as real) * 100.0);
      assert n as real / 100.0 * 100.0 == n as real;
    }
  }

  /** The fork rate is a whole number of tenths within half a tenth of the exact rate. */
  lemma ForkRateRounded(s: ComparedStats)
    requires ConsistentStats(s)
    ensures s.repoCount > 0 ==>
      && ForkRate(s).Fin?
      && Near(ForkRate(s).val, s.totalForks as real / s.repoCount as real, 0.05)
      && OnGrid(ForkRate(s).val, 10.0)
  {
    if s.repoCount > 0 {
      var n := Round((s.totalForks as real / s.repoCount as real) * 10.0);
      assert n as real / 10.0 * 10.0 == n as real;
    }
  }

  // ---------------------------------------------------------------- difference

  /** `calculateDifference`: the change from `v1` to `v2` as a percentage of `max(v1, 1)`. */
  function CalculateDifference(v1: Num, v2: Num): (d: real)
    ensures v1.NaN? || v2.NaN? ==> d == 0.0
  {
    if v1.NaN? || v2.NaN? then 0.0
    else if v1.val == 0.0 && v2.val == 0.0 then 0.0
    else ((v2.val - v1.val) / Max(v1.val, 1.0)) * 100.0
  }

  /**
    For two numbers the difference has the sign of `v2 - v1`: it is 0 exactly when the
    values are equal, and otherwise the change relative to `max(v1, 1)`.
   */
  lemma DifferenceSign(v1: real, v2: real)
    ensures var d := CalculateDifference(Fin(v1), Fin(v2));
      && (d == 0.0 <==> v1 == v2)
      && (d > 0.0 <==> v2 > v1)
      && (d < 0.0 <==> v2 < v1)
      && (v1 != v2 ==> d == ((v2 - v1) / Max(v1, 1.0)) * 100.0)
  {
    var m := Max(v1, 1.0);
    Quotient(v2 - v1, m, 0.0);
  }

  // ---------------------------------------------------------------- wins and strengths

  /** `a > b` on JavaScript numbers: false whenever either side is NaN. */
  predicate Greater(a: Num, b: Num) {
    a.Fin? && b.Fin? && a.val > b.val
  }

  predicate FirstWins(m: Metric) { Greater(m.value1, m.value2) }

  predicate SecondWins(m: Metric) { Greater(m.value2, m.value1) }

  /** `user1Wins` and `user2Wins`. */
  function Wins(metrics: seq<Metric>): (w: (nat, nat)) {
    (Count(metrics, FirstWins), Count(metrics, SecondWins))
  }

  lemma {:induction false} WinsBounded(metrics: seq<Metric>)
    ensures Wins(metrics).0 + Wins(metrics).1 <= |metrics|
    decreases |metrics|
  {
    if |metrics| > 0 {
      WinsBounded(metrics[1..]);
    }
  }

  /** The unguarded difference `getStrengths` filters on; NaN propagates through it. */
  function StrengthDiff(m: Metric): Num {
    if m.value1.NaN? || m.value2.NaN? then NaN
    else Fin(((m.value2.val - m.value1.val) / Max(m.value1.val, 1.0)) * 100.0)
  }

  /** `diff < 0` for the first user, `diff > 0` for the second. */
  function Leads(isFirstUser: bool): Metric -> bool {
    (m: Metric) =>
      var d := StrengthDiff(m);
      d.Fin? && (if isFirstUser then d.val < 0.0 else d.val > 0.0)
  }

  /** A user leads on a metric exactly when their value is the greater one. */
  lemma LeadsMeansWins(m: Metric)
    ensures Leads(true)(m) <==> FirstWins(m)
    ensures Leads(false)(m) <==> SecondWins(m)
  {
    if m.value1.Fin? && m.value2.Fin? {
      Quotient(m.value2.val - m.value1.val, Max(m.value1.val, 1.0), 0.0);
    }
  }

  function ImportanceKey(m: Metric): real { m.importance as real }

  /** `getStrengths`, before formatting: the (at most) three most important metrics the user leads on. */
  function GetStrengths(metrics: seq<Metric>, isFirstUser: bool): seq<Metric> {
    Take(SortDesc(Filter(metrics, Leads(isFirstUser)), ImportanceKey), 3)
  }

  /** The metrics a user wins on: `FirstWins` for the first user, `SecondWins` for the second. */
  function Won(isFirstUser: bool): Metric -> bool {
    if isFirstUser then FirstWins else SecondWins
  }

  /**
    At most three strengths, by non-increasing importance, each a metric of the list on
    which the user has the greater value; no metric the user leads on but that was
    left out is more important than one listed. There are three of them, or all the
    wins when there are fewer, and among wins of equal importance the ones listed are
    the first in metric order, in that order.
   */
  lemma StrengthsShape(metrics: seq<Metric>, isFirstUser: bool)
    ensures var st := GetStrengths(metrics, isFirstUser);
      var leads := SortDesc(Filter(metrics, Leads(isFirstUser)), ImportanceKey);
      && |st| <= 3
      && (forall i, j :: 0 <= i < j < |st| ==> st[i].importance >= st[j].importance)
      && (forall i :: 0 <= i < |st| ==> st[i] in metrics && (if isFirstUser then FirstWins(st[i]) else SecondWins(st[i])))
      && (forall i, j :: 0 <= i < |st| <= j < |leads| ==> st[i].importance >= leads[j].importance)
      && |st| == MinInt(3, Count(metrics, Won(isFirstUser)))
      && (forall k :: WithKey(st, ImportanceKey, k) <= WithKey(Filter(metrics, Won(isFirstUser)), ImportanceKey, k))
  {
    StrengthsOrdered(metrics, isFirstUser);
    StrengthsMembers(metrics, isFirstUser);
    StrengthsChosen(metrics, isFirstUser);
  }

  /** Leading on a metric (the source's difference test) selects exactly the user's wins. */
  lemma LeadsAreWins(metrics: seq<Metric>, isFirstUser: bool)
    ensures Filter(metrics, Leads(isFirstUser)) == Filter(metrics, Won(isFirstUser))
  {
    forall i | 0 <= i < |metrics| ensures Leads(isFirstUser)(metrics[i]) == Won(isFirstUser)(metrics[i]) {
      LeadsMeansWins(metrics[i]);
    }
    FilterCongruent(metrics, Leads(isFirstUser), Won(isFirstUser));
  }

  /**
    The strengths are three of the user's wins, or all of them when there are fewer;
    the sort is stable, so the wins of one importance keep the metric list's order and
    the first of them are the ones kept.
   */
  lemma StrengthsChosen(metrics: seq<Metric>, isFirstUser: bool)
    ensures var st := GetStrengths(metrics, isFirstUser);
      && |st| == MinInt(3, Count(metrics, Won(isFirstUser)))
      && (forall k :: WithKey(st, ImportanceKey, k) <= WithKey(Filter(metrics, Won(isFirstUser)), ImportanceKey, k))
  {
    var filtered := Filter(metrics, Leads(isFirstUser));
    var leads := SortDesc(filtered, ImportanceKey);
    var st := GetStrengths(metrics, isFirstUser);
    LeadsAreWins(metrics, isFirstUser);
    forall k ensures WithKey(st, ImportanceKey, k) <= WithKey(Filter(metrics, Won(isFirstUser)), ImportanceKey, k) {
      WithKeyPrefix(st, leads, ImportanceKey, k);
      SortDescStable(filtered, ImportanceKey, k);
    }
  }

  /** The strengths are the first three of the leads by importance, so none left out ranks higher. */
  lemma StrengthsOrdered(metrics: seq<Metric>, isFirstUser: bool)
    ensures var st := GetStrengths(metrics, isFirstUser);
      var leads := SortDesc(Filter(metrics, Leads(isFirstUser)), ImportanceKey);
      && |st| <= 3
      && (forall i, j :: 0 <= i < j < |st| ==> st[i].importance >= st[j].importance)
      && (forall i, j :: 0 <= i < |st| <= j < |leads| ==> st[i].importance >= leads[j].importance)
  {
    TopThreeByImportance(SortDesc(Filter(metrics, Leads(isFirstUser)), ImportanceKey));
  }

  lemma TopThreeByImportance(leads: seq<Metric>)
    requires SortedDesc(leads, ImportanceKey)
    ensures var st := Take(leads, 3);
      && |st| <= 3
      && (forall i, j :: 0 <= i < j < |st| ==> st[i].importance >= st[j].importance)
      && (forall i, j :: 0 <= i < |st| <= j < |leads| ==> st[i].importance >= leads[j].importance)
  {
    var st := Take(leads, 3);
    TakeSorted(leads, ImportanceKey, 3);
    assert forall i, j :: 0 <= i < j < |st| ==> ImportanceKey(st[i]) >= ImportanceKey(st[j]);
    assert forall i, j :: 0 <= i < |st| <= j < |leads| ==> ImportanceKey(st[i]) >= ImportanceKey(leads[j]);
  }

  /** Each strength is a metric of the list on which the user has the greater value. */
  lemma StrengthsMembers(metrics: seq<Metric>, isFirstUser: bool)
    ensures var st := GetStrengths(metrics, isFirstUser);
      forall i :: 0 <= i < |st| ==> st[i] in metrics && (if isFirstUser then FirstWins(st[i]) else SecondWins(st[i]))
  {
    var filtered := Filter(metrics, Leads(isFirstUser));
    var leads := SortDesc(filtered, ImportanceKey);
    var st := GetStrengths(metrics, isFirstUser);
    forall i | 0 <= i < |st|
      ensures st[i] in metrics && (if isFirstUser then FirstWins(st[i]) else SecondWins(st[i]))
    {
      assert st[i] == leads[i];
      assert leads[i] in multiset(filtered);
      LeadsMeansWins(st[i]);
    }
  }

  /** No metric is a strength of both users. */
  lemma StrengthsDisjoint(metrics: seq<Metric>)
    ensures forall i, j :: 0 <= i < |GetStrengths(metrics, true)| && 0 <= j < |GetStrengths(metrics, false)| ==>
      GetStrengths(metrics, true)[i] != GetStrengths(metrics, false)[j]
  {
    StrengthsShape(metrics, true);
    StrengthsShape(metrics, false);
  }

  /** Comparing a user with identical statistics yields no wins and no strengths. */
  lemma IdenticalUsers(s: ComparedStats)
    requires ConsistentStats(s)
    ensures Wins(Metrics(s, s)) == (0, 0)
    ensures GetStrengths(Metrics(s, s), true) == [] && GetStrengths(Metrics(s, s), false) == []
  {
    var ms := Metrics(s, s);
    CountNone(ms, FirstWins);
    CountNone(ms, SecondWins);
    forall i | 0 <= i < |ms| ensures !Leads(true)(ms[i]) && !Leads(false)(ms[i]) {
      LeadsMeansWins(ms[i]);
    }
    CountNone(ms, Leads(true));
    CountNone(ms, Leads(false));
  }

  // ---------------------------------------------------------------- grouping

  function CategoryOf(m: Metric): Option<Category> { Some(m.category) }

  function SortGroups(gs: seq<Entry<Category, seq<Metric>>>): (r: seq<Entry<Category, seq<Metric>>>)
    ensures |r| == |gs|
    ensures forall i :: 0 <= i < |gs| ==> r[i] == Entry(gs[i].key, SortDesc(gs[i].val, ImportanceKey))
    decreases |gs|
  {
    if |gs| == 0 then [] else [Entry(gs[0].key, SortDesc(gs[0].val, ImportanceKey))] + SortGroups(gs[1..])
  }

  /**
    `groupedMetrics`: metrics filed under their category, categories in order of first
    appearance, each group sorted by descending importance.
   */
  function GroupMetrics(metrics: seq<Metric>): seq<Entry<Category, seq<Metric>>> {
    SortGroups(Collect(metrics, CategoryOf, [], Snoc))
  }

  /** Each group is its category's metrics, in list order, sorted by importance. */
  lemma GroupAt(metrics: seq<Metric>, i: nat)
    requires i < |GroupMetrics(metrics)|
    ensures var gs := GroupMetrics(metrics);
      gs[i].val == SortDesc(Select(metrics, CategoryOf, gs[i].key), ImportanceKey)
  {
    var raw := Collect(metrics, CategoryOf, [], Snoc);
    var k := raw[i].key;
    CollectDistinct(metrics, CategoryOf, [], Snoc);
    GetAt(raw, i);
    CollectGet(metrics, CategoryOf, [], Snoc, k);
    RunSnoc(Select(metrics, CategoryOf, k));
  }

  /**
    Each category appears once, in order of first appearance; every group is sorted by
    descending importance and is a rearrangement of the metrics of its category, so
    each metric is in the group of its own category and in no other; metrics of equal
    importance within a group keep their order in the list.
   */
  lemma GroupMetricsShape(metrics: seq<Metric>)
    ensures var gs := GroupMetrics(metrics);
      && Keys(gs) == Dedup(KeysOf(metrics, CategoryOf))
      && Distinct(Keys(gs))
      && forall i :: 0 <= i < |gs| ==>
           && SortedDesc(gs[i].val, ImportanceKey)
           && multiset(gs[i].val) == multiset(Select(metrics, CategoryOf, gs[i].key))
           && (forall m :: m in gs[i].val <==> m in metrics && m.category == gs[i].key)
           && (forall k :: WithKey(gs[i].val, ImportanceKey, k) == WithKey(Select(metrics, CategoryOf, gs[i].key), ImportanceKey, k))
  {
    var raw := Collect(metrics, CategoryOf, [], Snoc);
    var gs := GroupMetrics(metrics);
    CollectKeys(metrics, CategoryOf, [], Snoc);
    CollectDistinct(metrics, CategoryOf, [], Snoc);
    assert Keys(gs) == Keys(raw);
    forall i | 0 <= i < |gs|
      ensures multiset(gs[i].val) == multiset(Select(metrics, CategoryOf, gs[i].key))
      ensures forall m :: m in gs[i].val <==> m in metrics && m.category == gs[i].key
      ensures forall k :: WithKey(gs[i].val, ImportanceKey, k) == WithKey(Select(metrics, CategoryOf, gs[i].key), ImportanceKey, k)
    {
      var sel := Select(metrics, CategoryOf, gs[i].key);
      GroupAt(metrics, i);
      forall m ensures m in gs[i].val <==> m in metrics && m.category == gs[i].key {
        SelectMember(metrics, CategoryOf, gs[i].key, m);
        assert m in gs[i].val <==> m in multiset(sel);
      }
      forall k ensures WithKey(gs[i].val, ImportanceKey, k) == WithKey(sel, ImportanceKey, k) {
        SortDescStable(sel, ImportanceKey, k);
      }
    }
  }

  // ---------------------------------------------------------------- printing

  /** The suffix tiers of `formatMetricValue`. */
  datatype Tier = Billions | Millions | Thousands

  function Threshold(t: Tier): real {
    match t
    case Billions => 1000000000.0
    case Millions => 1000000.0
    case Thousands => 1000.0
  }

  /**
    How `formatMetricValue` prints: `"0"` for NaN, a ratio with two decimals and an
    `x`, a scaled value with a tier suffix and 0, 1 or 2 decimals, or a rounded integer.
   */
  datatype Printed =
    | Zero
    | RatioText(value: real)
    | Scaled(scaled: real, tier: Tier, decimals: nat)
    | Whole(n: int)

  function FormatMetricValue(value: Num, isRatio: bool): Printed {
    if value.NaN? then Zero
    else if isRatio then RatioText(value.val)
    else if value.val >= Threshold(Billions) then ScaledBy(value.val, Billions)
    else if value.val >= Threshold(Millions) then ScaledBy(value.val, Millions)
    else if value.val >= Threshold(Thousands) then ScaledBy(value.val, Thousands)
    else Whole(Round(value.val))
  }

  function ScaledBy(v: real, t: Tier): Printed {
    var scaled := v / Threshold(t);
    Scaled(scaled, t, if scaled >= 100.0 then 0 else if scaled >= 10.0 then 1 else 2)
  }

  /**
    A number at or above 1000 is printed in the largest tier whose threshold it
    reaches, scaled into [1, 1000) (or at least 1 for billions) with fewer decimals
    the larger the scaled value; smaller numbers are rounded to an integer.
   */
  lemma FormatTier(v: real)
    ensures var p := FormatMetricValue(Fin(v), false);
      && (v < 1000.0 <==> p.Whole?)
      && (p.Whole? ==> p.n == Round(v))
      && (p.Scaled? ==>
            && Threshold(p.tier) <= v
            && (p.tier != Billions ==> v < 1000.0 * Threshold(p.tier))
            && p.scaled * Threshold(p.tier) == v
            && 1.0 <= p.scaled
            && (p.tier != Billions ==> p.scaled < 1000.0)
            && (p.decimals == 0 <==> p.scaled >= 100.0)
            && (p.decimals == 1 <==> 10.0 <= p.scaled < 100.0)
            && (p.decimals == 2 <==> p.scaled < 10.0))
  {
    var p := FormatMetricValue(Fin(v), false);
    if p.Scaled? {
      Quotient(v, Threshold(p.tier), 1.0);
      Quotient(v, Threshold(p.tier), 1000.0);
    }
  }

  /** The phrases of `formatDifference`; the printed numbers are kept as values. */
  datatype DifferenceText =
    | Equal
    | Total(value: Printed)
    | TimesMore(factor: int)
    | TimesLess(factor: int)
    | Multiple(factor: int, more: bool)
    | Percent(percent: real, more: bool)

  function FormatDifference(v1: real, v2: real): DifferenceText {
    if v1 == v2 then Equal
    else if v1 == 0.0 && v2 == 0.0 then Equal
    else if v1 == 0.0 then Total(FormatMetricValue(Fin(v2), false))
    else if v2 == 0.0 then Total(FormatMetricValue(Fin(v1), false))
    else
      var ratio := v2 / v1;
      if ratio > 100.0 then TimesMore(Round(ratio))
      else if ratio < 0.01 then TimesLess(Round(1.0 / ratio))
      else
        var percentDiff := ((v2 - v1) / v1) * 100.0;
        var magnitude := if percentDiff < 0.0 then -percentDiff else percentDiff;
        if magnitude > 100.0 then Multiple(Round(magnitude / 100.0), percentDiff > 0.0)
        else Percent(magnitude, percentDiff > 0.0)
  }

  /**
    The two values are reported equal exactly when they are; a zero on one side
    reports the other value as a total; for two positive values every other phrase
    says "more" exactly when the second value is the larger one.
   */
  lemma FormatDifferenceCases(v1: real, v2: real)
    ensures FormatDifference(v1, v2) == Equal <==> v1 == v2
    ensures v1 != v2 && (v1 == 0.0 || v2 == 0.0) ==> FormatDifference(v1, v2).Total?
    ensures v1 > 0.0 && v2 > 0.0 ==> match FormatDifference(v1, v2)
      case TimesMore(_) => v2 > 100.0 * v1
      case TimesLess(_) => v2 < v1 / 100.0
      case Multiple(_, more) => more <==> v2 > v1
      case Percent(_, more) => more <==> v2 > v1
      case _ => v1 == v2
  {
    if v1 > 0.0 && v2 > 0.0 && v1 != v2 {
      Quotient(v2, v1, 100.0);
      Quotient(v2, v1, 0.01);
      Quotient(v2 - v1, v1, 0.0);
    }
  }
}
