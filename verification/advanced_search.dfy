/**
  The filter state of the advanced search form (src/components/AdvancedSearch.tsx):
  toggling languages, choosing a time frame and resetting.
 */
module AdvancedSearch {
  import opened Seqs

  datatype SearchFilters = SearchFilters(
    language: seq<string>,
    minStars: int,
    lastUpdated: string,
    hasTests: bool,
    hasDocumentation: bool)

  /** The state the form starts in. */
  const InitialFilters := SearchFilters([], 0, "1y", false, false)

  function Other(lang: string): string -> bool {
    l => l != lang
  }

  /**
    `handleLanguageToggle`: a listed language is removed, every occurrence of it; an
    unlisted one is appended. Nothing but the language list changes.
   */
  function ToggleLanguage(f: SearchFilters, lang: string): (g: SearchFilters)
    ensures g.minStars == f.minStars && g.lastUpdated == f.lastUpdated
    ensures g.hasTests == f.hasTests && g.hasDocumentation == f.hasDocumentation
    ensures lang in g.language <==> lang !in f.language
  {
    if lang in f.language then
      FilterMembers(f.language, Other(lang));
      f.(language := Filter(f.language, Other(lang)))
    else f.(language := f.language + [lang])
  }

  /**
    Toggling a listed language drops all its occurrences and keeps every other
    language as often as it was listed; toggling an unlisted one appends it at the end.
   */
  lemma ToggleLanguageEffect(f: SearchFilters, lang: string)
    ensures lang !in f.language ==> ToggleLanguage(f, lang).language == f.language + [lang]
    ensures lang in f.language ==>
      && lang !in ToggleLanguage(f, lang).language
      && forall x :: x != lang ==> multiset(ToggleLanguage(f, lang).language)[x] == multiset(f.language)[x]
  {
    if lang in f.language {
      forall x | x != lang
        ensures multiset(ToggleLanguage(f, lang).language)[x] == multiset(f.language)[x]
      {
        FilterMultiplicity(f.language, Other(lang), x);
      }
    }
  }

  /** Toggling an unlisted language twice restores the filters. */
  lemma ToggleTwice(f: SearchFilters, lang: string)
    requires lang !in f.language
    ensures ToggleLanguage(ToggleLanguage(f, lang), lang) == f
  {
    var l := f.language;
    FilterSnoc(l, lang, Other(lang));
    FilterKeepsAll(l, Other(lang));
  }

  /** `handleTimeFrameChange`: only the time frame changes. */
  function ChangeTimeFrame(f: SearchFilters, value: string): (g: SearchFilters)
    ensures g.lastUpdated == value
    ensures g.(lastUpdated := f.lastUpdated) == f
  {
    f.(lastUpdated := value)
  }

  /** `resetFilters`. */
  function ResetFilters(f: SearchFilters): SearchFilters {
    SearchFilters([], 0, "1y", false, false)
  }

  /** Resetting from any state yields exactly the initial state. */
  lemma ResetIsInitial(f: SearchFilters)
    ensures ResetFilters(f) == InitialFilters
  {
  }
}
