/**
  Grouping repositories by language, the fold behind the language statistics
  (src/lib/github-stats.ts), the tech stack and tech progression
  (src/lib/tech-analysis.ts) and the comparison's top languages
  (src/components/UserComparison.tsx). Repositories without a language are skipped;
  languages appear in order of first occurrence.
 */
module Languages {
  import opened Wrappers
  import opened Seqs
  import opened Assoc
  import opened GitHubTypes

  type Groups = seq<Entry<string, seq<Repo>>>

  predicate HasLanguage(r: Repo) {
    LanguageOf(r).Some?
  }

  function GroupByLanguage(repos: seq<Repo>): Groups {
    Collect(repos, LanguageOf, [], Snoc)
  }

  /** The total of `f` over the repositories of one group. */
  function GroupSum(f: Repo -> int): Entry<string, seq<Repo>> -> int {
    (e: Entry<string, seq<Repo>>) => Sum(e.val, f)
  }

  /**
    The group of `lang` exists exactly when some repository has that language, and
    lists precisely those repositories, in order.
   */
  lemma GroupGet(repos: seq<Repo>, lang: string)
    ensures Get(GroupByLanguage(repos), lang)
         == if |Select(repos, LanguageOf, lang)| == 0 then None else Some(Select(repos, LanguageOf, lang))
  {
    CollectGet(repos, LanguageOf, [], Snoc, lang);
    RunSnoc(Select(repos, LanguageOf, lang));
  }

  lemma {:induction false} SelectMembers(repos: seq<Repo>, lang: string)
    ensures forall r :: r in Select(repos, LanguageOf, lang) ==> r in repos && LanguageOf(r) == Some(lang)
    decreases |repos|
  {
    if |repos| > 0 {
      SelectMembers(repos[..|repos| - 1], lang);
      assert repos == repos[..|repos| - 1] + [repos[|repos| - 1]];
    }
  }

  /**
    Languages are listed once each, every group is non-empty, and a group holds only
    repositories of its own language.
   */
  lemma GroupsWellFormed(repos: seq<Repo>)
    ensures Distinct(Keys(GroupByLanguage(repos)))
    ensures forall i :: 0 <= i < |GroupByLanguage(repos)| ==>
              |GroupByLanguage(repos)[i].val| >= 1
              && forall r :: r in GroupByLanguage(repos)[i].val ==>
                   r in repos && LanguageOf(r) == Some(GroupByLanguage(repos)[i].key)
  {
    var gs := GroupByLanguage(repos);
    CollectDistinct(repos, LanguageOf, [], Snoc);
    forall i | 0 <= i < |gs|
      ensures |gs[i].val| >= 1
      ensures forall r :: r in gs[i].val ==> r in repos && LanguageOf(r) == Some(gs[i].key)
    {
      GetAt(gs, i);
      GroupGet(repos, gs[i].key);
      SelectMembers(repos, gs[i].key);
    }
  }

  lemma {:induction false} GroupSumUpsert(a: Groups, k: string, x: Repo, f: Repo -> int)
    ensures Sum(Upsert(a, k, [], Apply(Snoc, x)), GroupSum(f)) == Sum(a, GroupSum(f)) + f(x)
    decreases |a|
  {
    var r := Upsert(a, k, [], Apply(Snoc, x));
    if |a| == 0 {
      assert Apply(Snoc, x)([]) == [x];
      assert r == [Entry(k, [x])];
      assert Sum(r, GroupSum(f)) == GroupSum(f)(r[0]) + Sum(r[1..], GroupSum(f));
      assert Sum([x], f) == f(x) + Sum([x][1..], f);
    } else if a[0].key == k {
      assert r[1..] == a[1..];
      SumAppend(a[0].val, [x], f);
      assert Sum([x], f) == f(x) + Sum([x][1..], f);
    } else {
      assert r[0] == a[0] && r[1..] == Upsert(a[1..], k, [], Apply(Snoc, x));
      GroupSumUpsert(a[1..], k, x, f);
    }
  }

  /**
    Adding `f` up group by group gives the sum of `f` over the repositories that have
    a language.
   */
  lemma {:induction false} GroupSumTotal(repos: seq<Repo>, f: Repo -> int)
    ensures Sum(GroupByLanguage(repos), GroupSum(f)) == Sum(Filter(repos, HasLanguage), f)
    decreases |repos|
  {
    if |repos| > 0 {
      var pre := repos[..|repos| - 1];
      var x := repos[|repos| - 1];
      assert repos == pre + [x];
      GroupSumTotal(pre, f);
      FilterSnoc(pre, x, HasLanguage);
      SumAppend(Filter(pre, HasLanguage), if HasLanguage(x) then [x] else [], f);
      if HasLanguage(x) {
        GroupSumUpsert(GroupByLanguage(pre), LanguageOf(x).value, x, f);
        assert Sum([x], f) == f(x) + Sum([x][1..], f);
      }
    }
  }

  /**
    The group sizes add up to the number of repositories with a language, which is
    at most the number of repositories, with equality exactly when every repository
    has a language.
   */
  lemma GroupSizes(repos: seq<Repo>)
    ensures Sum(GroupByLanguage(repos), GroupSum(One)) == Count(repos, HasLanguage)
    ensures Count(repos, HasLanguage) <= |repos|
    ensures Count(repos, HasLanguage) == |repos| <==> forall i :: 0 <= i < |repos| ==> HasLanguage(repos[i])
    ensures forall i :: 0 <= i < |GroupByLanguage(repos)| ==> GroupSum(One)(GroupByLanguage(repos)[i]) == |GroupByLanguage(repos)[i].val|
  {
    GroupSumTotal(repos, One);
    SumOne(Filter(repos, HasLanguage));
    CountAll(repos, HasLanguage);
    forall i | 0 <= i < |GroupByLanguage(repos)|
      ensures GroupSum(One)(GroupByLanguage(repos)[i]) == |GroupByLanguage(repos)[i].val|
    {
      SumOne(GroupByLanguage(repos)[i].val);
    }
  }

  predicate NonEmptyGroups(gs: Groups) {
    forall i :: 0 <= i < |gs| ==> |gs[i].val| >= 1
  }

  /** A language group holds exactly the repositories of its language, in order. */
  lemma GroupIsSelection(repos: seq<Repo>, g: nat)
    requires g < |GroupByLanguage(repos)|
    ensures GroupByLanguage(repos)[g].val == Select(repos, LanguageOf, GroupByLanguage(repos)[g].key)
  {
    GroupsWellFormed(repos);
    GetAt(GroupByLanguage(repos), g);
    GroupGet(repos, GroupByLanguage(repos)[g].key);
  }

  /** Every repository with a language is in the group of that language. */
  lemma LanguageHasGroup(repos: seq<Repo>, i: nat)
    requires i < |repos| && HasLanguage(repos[i])
    ensures exists g :: (0 <= g < |GroupByLanguage(repos)|
      && GroupByLanguage(repos)[g].key == LanguageOf(repos[i]).value
      && repos[i] in GroupByLanguage(repos)[g].val)
  {
    var lang := LanguageOf(repos[i]).value;
    SelectContains(repos, LanguageOf, lang, i);
    GroupGet(repos, lang);
    var gs := GroupByLanguage(repos);
    assert lang in Keys(gs);
    var g :| 0 <= g < |gs| && Keys(gs)[g] == lang;
    GroupIsSelection(repos, g);
  }
}
