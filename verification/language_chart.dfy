/**
  The language pie chart of src/components/GitHubStats.tsx: the first eight languages
  of the statistics, followed by one "Others" slice for the rest.
 */
module LanguageChart {
  import opened Wrappers
  import opened Numbers
  import opened Seqs
  import opened GitHubStats

  const ChartSlices: nat := 8
  const OthersName := "Others"

  /**
    One slice. `percentage` is the share of the repositories as a number with one
    decimal (`toFixed(1)`), `None` when the repository count is 0 and the division
    is not finite.
   */
  datatype Slice = Slice(name: string, value: nat, percentage: Option<real>)

  /** `((count / repoCount) * 100).toFixed(1)`, for a count that is not negative. */
  function Percentage(count: nat, repoCount: nat): (p: Option<real>)
    ensures p.None? <==> repoCount == 0
    ensures p.Some? ==> p.value >= 0.0
    ensures repoCount > 0 ==>
      var exact := count as real / repoCount as real * 100.0;
      exact - 0.05 < p.value <= exact + 0.05
    ensures p.Some? ==> (p.value * 10.0).Floor as real == p.value * 10.0
  {
    if repoCount == 0 then None
    else
      var x := count as real / repoCount as real * 100.0;
      Some(Round(x * 10.0) as real / 10.0)
  }

  function ToSlice(l: LanguageSummary, repoCount: nat): Slice {
    Slice(l.name, l.count, Percentage(l.count, repoCount))
  }

  function Head(langs: seq<LanguageSummary>, repoCount: nat): (ss: seq<Slice>)
    ensures |ss| == MinInt(|langs|, ChartSlices)
    ensures forall i :: 0 <= i < |ss| ==> ss[i] == ToSlice(langs[i], repoCount)
  {
    var first := Take(langs, ChartSlices);
    seq(|first|, i requires 0 <= i < |first| => ToSlice(first[i], repoCount))
  }

  function CountOfLanguage(l: LanguageSummary): int { l.count }

  /** The chart data: the first eight languages, then "Others" when there are more. */
  function ChartData(langs: seq<LanguageSummary>, repoCount: nat): seq<Slice> {
    var head := Head(langs, repoCount);
    if |langs| > ChartSlices then head + [OthersSlice(langs, repoCount)] else head
  }

  /**
    The chart keeps the first eight languages in order, with their counts; it has an
    "Others" slice exactly when there are more than eight languages, holding the counts
    of the remaining ones; so it never has more than nine slices.
   */
  lemma ChartShape(langs: seq<LanguageSummary>, repoCount: nat)
    ensures var c := ChartData(langs, repoCount);
      && |c| <= ChartSlices + 1
      && (forall i :: 0 <= i < MinInt(|langs|, ChartSlices) ==>
            c[i].name == langs[i].name && c[i].value == langs[i].count)
      && (|c| == ChartSlices + 1 <==> |langs| > ChartSlices)
      && (|langs| <= ChartSlices ==> |c| == |langs|)
      && (|langs| > ChartSlices ==>
            c[ChartSlices].name == OthersName && c[ChartSlices].value == Sum(langs[ChartSlices..], CountOfLanguage))
  {
  }

  function SliceValue(s: Slice): int { s.value }

  lemma {:induction false} HeadSum(langs: seq<LanguageSummary>, repoCount: nat)
    ensures Sum(Head(langs, repoCount), SliceValue) == Sum(Take(langs, ChartSlices), CountOfLanguage)
  {
    SumMapped(Head(langs, repoCount), Take(langs, ChartSlices), repoCount);
  }

  lemma {:induction false} SumMapped(ss: seq<Slice>, ls: seq<LanguageSummary>, repoCount: nat)
    requires |ss| == |ls|
    requires forall i :: 0 <= i < |ss| ==> ss[i] == ToSlice(ls[i], repoCount)
    ensures Sum(ss, SliceValue) == Sum(ls, CountOfLanguage)
    decreases |ss|
  {
    if |ss| > 0 {
      SumMapped(ss[1..], ls[1..], repoCount);
    }
  }

  lemma SumSplit<T>(s: seq<T>, n: nat, f: T -> int)
    requires n <= |s|
    ensures Sum(s, f) == Sum(Take(s, n), f) + Sum(s[n..], f)
  {
    assert s == Take(s, n) + s[n..];
    SumAppend(Take(s, n), s[n..], f);
  }

  function OthersSlice(langs: seq<LanguageSummary>, repoCount: nat): Slice
    requires |langs| > ChartSlices
  {
    SumNonNegative(langs[ChartSlices..], CountOfLanguage);
    var others: nat := Sum(langs[ChartSlices..], CountOfLanguage);
    Slice(OthersName, others, Percentage(others, repoCount))
  }

  lemma OthersSum(head: seq<Slice>, langs: seq<LanguageSummary>, repoCount: nat)
    requires |langs| > ChartSlices
    ensures Sum(head + [OthersSlice(langs, repoCount)], SliceValue) == Sum(head, SliceValue) + Sum(langs[ChartSlices..], CountOfLanguage)
  {
    var last := OthersSlice(langs, repoCount);
    SumAppend(head, [last], SliceValue);
    assert Sum([last], SliceValue) == last.value;
  }

  /** The slices add up to the count of every language: nothing is lost or counted twice. */
  lemma ChartSum(langs: seq<LanguageSummary>, repoCount: nat)
    ensures Sum(ChartData(langs, repoCount), SliceValue) == Sum(langs, CountOfLanguage)
  {
    var head := Head(langs, repoCount);
    HeadSum(langs, repoCount);
    if |langs| > ChartSlices {
      assert ChartData(langs, repoCount) == head + [OthersSlice(langs, repoCount)];
      OthersSum(head, langs, repoCount);
      SumSplit(langs, ChartSlices, CountOfLanguage);
    } else {
      assert Take(langs, ChartSlices) == langs;
    }
  }
}
