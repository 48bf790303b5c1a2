/**
  The tech-stack counters of src/lib/tech-analysis.ts: repositories per language,
  the three most used languages, per-language usage trends and years of experience.
  The current time `now` is a parameter, in milliseconds like every timestamp.
 */
module TechAnalysis {
  import opened Wrappers
  import opened Numbers
  import opened Seqs
  import opened Sorting
  import opened Assoc
  import opened GitHubTypes
  import opened Languages

  // ---------------------------------------------------------------- tech stack

  datatype TechCount = TechCount(name: string, count: nat)

  function CountGroup(g: Entry<string, seq<Repo>>): TechCount {
    TechCount(g.key, |g.val|)
  }

  function CountGroups(gs: Groups): (ts: seq<TechCount>)
    ensures |ts| == |gs|
    ensures forall i :: 0 <= i < |gs| ==> ts[i] == CountGroup(gs[i])
    decreases |gs|
  {
    if |gs| == 0 then [] else [CountGroup(gs[0])] + CountGroups(gs[1..])
  }

  function TechCountKey(t: TechCount): real { t.count as real }

  function TechCountOf(t: TechCount): int { t.count }

  /** `analyzeTechStack`: repositories per language, most used first (ties in first-seen order). */
  function AnalyzeTechStack(repos: seq<Repo>): seq<TechCount> {
    SortDesc(CountGroups(GroupByLanguage(repos)), TechCountKey)
  }

  /** Every entry of the sorted counts counts one of the groups. */
  lemma SortedCountFrom(gs: Groups, i: nat)
    requires i < |SortDesc(CountGroups(gs), TechCountKey)|
    ensures exists g :: 0 <= g < |gs| && SortDesc(CountGroups(gs), TechCountKey)[i] == CountGroup(gs[g])
  {
    assert SortDesc(CountGroups(gs), TechCountKey)[i] in multiset(CountGroups(gs));
  }

  lemma {:induction false} CountGroupsSum(gs: Groups)
    ensures Sum(CountGroups(gs), TechCountOf) == Sum(gs, GroupSum(One))
    decreases |gs|
  {
    if |gs| > 0 {
      CountGroupsSum(gs[1..]);
      SumOne(gs[0].val);
      assert CountGroups(gs)[1..] == CountGroups(gs[1..]);
    }
  }

  /** Counts of groups with distinct languages carry distinct names, also once sorted. */
  lemma SortedCountNames(gs: Groups)
    requires Distinct(Keys(gs))
    ensures var ts := SortDesc(CountGroups(gs), TechCountKey);
      forall i, j :: 0 <= i < j < |ts| ==> ts[i].name != ts[j].name
  {
    var cs := CountGroups(gs);
    var ts := SortDesc(cs, TechCountKey);
    assert Distinct(cs) by {
      forall a, b | 0 <= a < b < |cs| ensures cs[a] != cs[b] {
        assert cs[a].name == Keys(gs)[a] && cs[b].name == Keys(gs)[b];
      }
    }
    DistinctPermutation(cs, ts);
    forall i, j | 0 <= i < j < |ts| ensures ts[i].name != ts[j].name {
      SortedCountFrom(gs, i);
      SortedCountFrom(gs, j);
      var gi :| 0 <= gi < |gs| && ts[i] == CountGroup(gs[gi]);
      var gj :| 0 <= gj < |gs| && ts[j] == CountGroup(gs[gj]);
      assert gi != gj;
      assert Keys(gs)[gi] != Keys(gs)[gj];
    }
  }

  /**
    Each tech-stack entry counts the repositories of one language, at least one; the
    names are distinct and the list is sorted by descending count.
   */
  lemma TechStackEntries(repos: seq<Repo>)
    ensures var ts := AnalyzeTechStack(repos);
      && (forall i :: 0 <= i < |ts| ==> ts[i].count >= 1 && ts[i].count == |Select(repos, LanguageOf, ts[i].name)|)
      && (forall i, j :: 0 <= i < j < |ts| ==> ts[i].name != ts[j].name)
      && (forall i, j :: 0 <= i < j < |ts| ==> ts[i].count >= ts[j].count)
  {
    var gs := GroupByLanguage(repos);
    var ts := AnalyzeTechStack(repos);
    assert ts == SortDesc(CountGroups(gs), TechCountKey);
    GroupsWellFormed(repos);
    forall i | 0 <= i < |ts|
      ensures ts[i].count >= 1 && ts[i].count == |Select(repos, LanguageOf, ts[i].name)|
    {
      SortedCountFrom(gs, i);
      var g :| 0 <= g < |gs| && ts[i] == CountGroup(gs[g]);
      GroupIsSelection(repos, g);
    }
    SortedCountNames(gs);
    assert SortedDesc(ts, TechCountKey);
  }

  /** Every language some repository has appears in the tech stack. */
  lemma TechStackCovers(repos: seq<Repo>)
    ensures var ts := AnalyzeTechStack(repos);
      forall k :: 0 <= k < |repos| && HasLanguage(repos[k]) ==>
        exists i :: 0 <= i < |ts| && ts[i].name == LanguageOf(repos[k]).value
  {
    var gs := GroupByLanguage(repos);
    var cs := CountGroups(gs);
    var ts := AnalyzeTechStack(repos);
    assert ts == SortDesc(cs, TechCountKey);
    forall k | 0 <= k < |repos| && HasLanguage(repos[k])
      ensures exists i :: 0 <= i < |ts| && ts[i].name == LanguageOf(repos[k]).value
    {
      LanguageHasGroup(repos, k);
      var g :| 0 <= g < |gs| && gs[g].key == LanguageOf(repos[k]).value && repos[k] in gs[g].val;
      assert cs[g] in multiset(ts);
      var i :| 0 <= i < |ts| && ts[i] == cs[g];
    }
  }

  /**
    The tech-stack counts add up to the number of repositories with a language, which
    is at most the number of repositories.
   */
  lemma TechStackTotal(repos: seq<Repo>)
    ensures Sum(AnalyzeTechStack(repos), TechCountOf) == Count(repos, HasLanguage) <= |repos|
  {
    var gs := GroupByLanguage(repos);
    var cs := CountGroups(gs);
    SortDescSum(cs, TechCountKey, TechCountOf);
    CountGroupsSum(gs);
    GroupSizes(repos);
  }

  /** The language names of a tech stack, in order. */
  function Names(ts: seq<TechCount>): (ns: seq<string>)
    ensures |ns| == |ts|
    ensures forall i :: 0 <= i < |ts| ==> ns[i] == ts[i].name
  {
    seq(|ts|, i requires 0 <= i < |ts| => ts[i].name)
  }

  /** `getMainTechnologies`: the names of the first three tech-stack entries. */
  function GetMainTechnologies(repos: seq<Repo>): seq<string> {
    Names(Take(AnalyzeTechStack(repos), 3))
  }

  /**
    At most three languages are returned, the leading names of the tech stack; no
    language left out is used by more repositories than one returned.
   */
  lemma MainTechnologies(repos: seq<Repo>)
    ensures var ts := AnalyzeTechStack(repos);
      var main := GetMainTechnologies(repos);
      && |main| == MinInt(3, |ts|)
      && main <= Names(ts)
      && (forall i, j :: 0 <= i < |main| <= j < |ts| ==> ts[i].count >= ts[j].count)
  {
    var ts := AnalyzeTechStack(repos);
    assert SortedDesc(ts, TechCountKey);
    var main := GetMainTechnologies(repos);
    assert forall i :: 0 <= i < |main| ==> main[i] == Names(ts)[i];
  }

  // ---------------------------------------------------------------- tech progression

  const MsPer30Days: int := 30 * MsPerDay

  datatype TechTrend = Up | Down | Stable

  datatype TechData = TechData(name: string, count: nat, percentage: real, trend: TechTrend, lastUsed: int)

  /** `getMonthsAgo`: the age of a timestamp in 30-day months. */
  function MonthsAgo(now: int, ts: int): real {
    (now - ts) as real / MsPer30Days as real
  }

  /** Updated within the last three 30-day months. */
  function RecentAt(now: int): Repo -> bool {
    (r: Repo) => MonthsAgo(now, r.updatedAt) <= 3.0
  }

  /** Up when more than a quarter of the uses are recent, down when none is. */
  function TrendOf(recent: nat, count: nat): TechTrend {
    if recent as real > count as real / 4.0 then Up
    else if recent == 0 then Down
    else Stable
  }

  /** The latest `updated_at` of a non-empty list of repositories. */
  function LastUpdated(rs: seq<Repo>): (t: int)
    requires |rs| > 0
    ensures forall i :: 0 <= i < |rs| ==> rs[i].updatedAt <= t
    ensures exists i :: 0 <= i < |rs| && rs[i].updatedAt == t
    decreases |rs|
  {
    if |rs| == 1 then rs[0].updatedAt
    else
      var rest := LastUpdated(rs[1..]);
      assert forall i :: 1 <= i < |rs| ==> rs[i] == rs[1..][i - 1];
      if rs[0].updatedAt >= rest then rs[0].updatedAt else rest
  }

  function Progress(g: Entry<string, seq<Repo>>, totalRepos: nat, now: int): TechData
    requires |g.val| >= 1 && totalRepos >= 1
  {
    var count := |g.val|;
    TechData(g.key, count, (count as real / totalRepos as real) * 100.0,
             TrendOf(Count(g.val, RecentAt(now)), count), LastUpdated(g.val))
  }

  function Progresses(gs: Groups, totalRepos: nat, now: int): (ds: seq<TechData>)
    requires NonEmptyGroups(gs) && (|gs| > 0 ==> totalRepos >= 1)
    ensures |ds| == |gs|
    ensures forall i :: 0 <= i < |gs| ==> ds[i] == Progress(gs[i], totalRepos, now)
    decreases |gs|
  {
    if |gs| == 0 then [] else [Progress(gs[0], totalRepos, now)] + Progresses(gs[1..], totalRepos, now)
  }

  function PercentageKey(d: TechData): real { d.percentage }

  /** `analyzeTechProgression`, with the current time as a parameter. */
  function AnalyzeTechProgression(repos: seq<Repo>, now: int): seq<TechData> {
    var gs := GroupByLanguage(repos);
    GroupsWellFormed(repos);
    SortDesc(Progresses(gs, |repos|, now), PercentageKey)
  }

  /** Every entry of the sorted progressions describes one of the groups. */
  lemma SortedProgressFrom(gs: Groups, n: nat, now: int, i: nat)
    requires NonEmptyGroups(gs) && (|gs| > 0 ==> n >= 1)
    requires i < |SortDesc(Progresses(gs, n, now), PercentageKey)|
    ensures exists g :: 0 <= g < |gs| && SortDesc(Progresses(gs, n, now), PercentageKey)[i] == Progress(gs[g], n, now)
  {
    assert SortDesc(Progresses(gs, n, now), PercentageKey)[i] in multiset(Progresses(gs, n, now));
  }

  /**
    Each progression entry describes the repositories of its language: their number,
    that number as a percentage of all repositories, the latest update among them,
    and the trend of how many of them were updated recently. Entries are sorted by
    descending percentage, hence by descending count.
   */
  lemma TechProgressionEntries(repos: seq<Repo>, now: int)
    ensures var ds := AnalyzeTechProgression(repos, now);
      && (forall i, j :: 0 <= i < j < |ds| ==> ds[i].percentage >= ds[j].percentage && ds[i].count >= ds[j].count)
      && forall i :: 0 <= i < |ds| ==>
           var rs := Select(repos, LanguageOf, ds[i].name);
           && |rs| >= 1
           && ds[i].count == |rs|
           && ds[i].percentage == (|rs| as real / |repos| as real) * 100.0
           && ds[i].lastUsed == LastUpdated(rs)
           && ds[i].trend == TrendOf(Count(rs, RecentAt(now)), |rs|)
  {
    var gs := GroupByLanguage(repos);
    GroupsWellFormed(repos);
    var n := |repos|;
    var ds := AnalyzeTechProgression(repos, now);
    assert ds == SortDesc(Progresses(gs, n, now), PercentageKey);
    forall i | 0 <= i < |ds|
      ensures var rs := Select(repos, LanguageOf, ds[i].name);
        && |rs| >= 1
        && ds[i].count == |rs|
        && ds[i].percentage == (|rs| as real / n as real) * 100.0
        && ds[i].lastUsed == LastUpdated(rs)
        && ds[i].trend == TrendOf(Count(rs, RecentAt(now)), |rs|)
    {
      SortedProgressFrom(gs, n, now, i);
      var g :| 0 <= g < |gs| && ds[i] == Progress(gs[g], n, now);
      GroupIsSelection(repos, g);
    }
    forall i, j | 0 <= i < j < |ds|
      ensures ds[i].percentage >= ds[j].percentage && ds[i].count >= ds[j].count
    {
      assert PercentageKey(ds[i]) >= PercentageKey(ds[j]);
      SortedProgressFrom(gs, n, now, i);
      SortedProgressFrom(gs, n, now, j);
      PercentageOrder(ds[i].count, ds[j].count, n);
    }
  }

  /** Percentages of one total order like the counts they come from. */
  lemma PercentageOrder(a: nat, b: nat, n: nat)
    requires n >= 1
    ensures (a as real / n as real) * 100.0 >= (b as real / n as real) * 100.0 <==> a >= b
  {
    Quotient(a as real, n as real, b as real / n as real);
  }

  /**
    The three trends partition the cases: up exactly when more than a quarter of the
    uses are recent, down exactly when none is, stable otherwise.
   */
  lemma TrendCases(recent: nat, count: nat)
    ensures TrendOf(recent, count) == Up <==> 4 * recent > count
    ensures TrendOf(recent, count) == Down <==> recent == 0
    ensures TrendOf(recent, count) == Stable <==> 0 < recent && 4 * recent <= count
  {
    Quotient(count as real, 4.0, recent as real);
  }

  /** Recent means updated at most 90 days before `now`. */
  lemma RecentWithin90Days(now: int, r: Repo)
    ensures RecentAt(now)(r) <==> now - r.updatedAt <= 90 * MsPerDay
  {
    Quotient((now - r.updatedAt) as real, MsPer30Days as real, 3.0);
  }

  // ---------------------------------------------------------------- experience

  const MsPerYear: int := 365 * MsPerDay

  function CreatedKey(t: int): real { -(t as real) }

  /** The creation times, ascending (`sort((a, b) => a.getTime() - b.getTime())`). */
  function CreationDates(repos: seq<Repo>): (ds: seq<int>)
    ensures |ds| == |repos|
    ensures forall i, j :: 0 <= i < j < |ds| ==> ds[i] <= ds[j]
    ensures multiset(ds) == multiset(seq(|repos|, i requires 0 <= i < |repos| => repos[i].createdAt))
  {
    var ds := SortDesc(seq(|repos|, i requires 0 <= i < |repos| => repos[i].createdAt), CreatedKey);
    assert forall i, j :: 0 <= i < j < |ds| ==> CreatedKey(ds[i]) >= CreatedKey(ds[j]);
    ds
  }

  /** `calculateExperience`: years since the first repository, to one decimal. */
  function CalculateExperience(repos: seq<Repo>, now: int): real {
    var dates := CreationDates(repos);
    if |dates| == 0 then 0.0
    else
      var years := (now - dates[0]) as real / MsPerYear as real;
      Round(years * 10.0) as real / 10.0
  }

  /**
    No repositories give 0. Otherwise the result is a whole number of tenths within a
    twentieth of a year of the time since the earliest creation among the
    repositories.
   */
  lemma ExperienceRounding(repos: seq<Repo>, now: int)
    ensures |repos| == 0 ==> CalculateExperience(repos, now) == 0.0
    ensures |repos| > 0 ==> exists k :: (0 <= k < |repos|
      && (forall i :: 0 <= i < |repos| ==> repos[k].createdAt <= repos[i].createdAt)
      && var years := (now - repos[k].createdAt) as real / MsPerYear as real;
         var e := CalculateExperience(repos, now);
         && years - 1.0 / 20.0 < e <= years + 1.0 / 20.0
         && (e * 10.0).Floor as real == e * 10.0)
  {
    if |repos| > 0 {
      var k := EarliestCreation(repos);
      var years := (now - repos[k].createdAt) as real / MsPerYear as real;
      TenthsRounding(years);
    }
  }

  /** The first creation date is that of a repository created no later than any other. */
  lemma EarliestCreation(repos: seq<Repo>) returns (k: nat)
    requires |repos| > 0
    ensures k < |repos| && repos[k].createdAt == CreationDates(repos)[0]
    ensures forall i :: 0 <= i < |repos| ==> repos[k].createdAt <= repos[i].createdAt
  {
    var all := seq(|repos|, i requires 0 <= i < |repos| => repos[i].createdAt);
    var dates := CreationDates(repos);
    assert dates[0] in multiset(all);
    k :| 0 <= k < |repos| && all[k] == dates[0];
    forall i | 0 <= i < |repos| ensures repos[k].createdAt <= repos[i].createdAt {
      assert all[i] in multiset(dates);
      var j :| 0 <= j < |dates| && dates[j] == all[i];
    }
  }

  /** Rounding to one decimal moves a value by at most a twentieth and leaves whole tenths. */
  lemma TenthsRounding(y: real)
    ensures var e := Round(y * 10.0) as real / 10.0;
      && y - 1.0 / 20.0 < e <= y + 1.0 / 20.0
      && (e * 10.0).Floor as real == e * 10.0
  {
  }
}
