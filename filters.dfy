/**
 * Which skill items and project cards stay visible under the skills
 * category tabs (`filterSkills`), the skills search box
 * (`handleSkillSearch`) and the projects technology filter
 * (`filterProjects`).
 */
module Filters {
  import opened Wrappers
  import opened Text

  /**
   * `filterSkills`: a skill item is shown when the filter is "all" or equals
   * the item's `data-category` (either may be missing: `getAttribute`
   * returns `null`).
   */
  predicate ShownByCategory(filter: Option<string>, category: Option<string>) {
    filter == Some("all") || category == filter
  }

  /** The "all" tab shows every item; any other tab shows exactly the items of its category. */
  lemma CategoryFilter(filter: Option<string>, category: Option<string>)
    ensures filter == Some("all") ==> ShownByCategory(filter, category)
    ensures filter != Some("all") ==> (ShownByCategory(filter, category) <==> category == filter)
  {
  }

  /** `query.toLowerCase().trim()`. */
  function SearchTerm(query: string): string {
    Trim(ToLower(query))
  }

  /** `item.querySelector('h4')?.textContent.toLowerCase() || ''`. */
  function SkillNameKey(name: Option<string>): string {
    ToLower(name.GetOr(""))
  }

  /** `handleSkillSearch`: shown when the search term is empty or occurs in the lower-cased skill name. */
  predicate ShownBySearch(name: Option<string>, query: string) {
    MatchesTerm(name, SearchTerm(query))
  }

  /** The test of `handleSkillSearch` once the search term is computed. */
  predicate MatchesTerm(name: Option<string>, term: string) {
    term == "" || Contains(SkillNameKey(name), term)
  }

  /** A query that is empty or only white space shows every skill. */
  lemma BlankSearchShowsAll(name: Option<string>, query: string)
    requires forall k :: 0 <= k < |query| ==> IsSpace(query[k])
    ensures ShownBySearch(name, query)
  {
    var lower := ToLower(query);
    forall k | 0 <= k < |lower| ensures IsSpace(lower[k]) {
      LowerCharKeepsSpace(query[k]);
    }
    TrimEmptyIffAllSpace(lower);
  }

  /** Lower-casing the query does not change the search term. */
  lemma SearchTermOfLower(query: string)
    ensures SearchTerm(ToLower(query)) == SearchTerm(query)
  {
    ToLowerIdempotent(query);
  }

  /** Trimming the query does not change the search term. */
  lemma SearchTermOfTrimmed(query: string)
    ensures SearchTerm(Trim(query)) == SearchTerm(query)
  {
    ToLowerTrimCommute(query);
    TrimIdempotent(ToLower(query));
  }

  /** The search term is already lower case. */
  lemma SearchTermIsLower(query: string)
    ensures ToLower(SearchTerm(query)) == SearchTerm(query)
  {
    ToLowerTrimCommute(ToLower(query));
    ToLowerIdempotent(query);
  }

  /**
   * The search ignores case and surrounding white space in the query: a
   * query, its lower-cased form and its trimmed form show the same skills.
   */
  lemma SearchIgnoresCaseAndPadding(name: Option<string>, query: string)
    ensures ShownBySearch(name, ToLower(query)) == ShownBySearch(name, query)
    ensures ShownBySearch(name, Trim(query)) == ShownBySearch(name, query)
  {
    SearchTermOfLower(query);
    SearchTermOfTrimmed(query);
  }

  /** The search also ignores the case of the skill name. */
  lemma SearchIgnoresNameCase(name: string, query: string)
    ensures ShownBySearch(Some(ToLower(name)), query) == ShownBySearch(Some(name), query)
  {
    ToLowerIdempotent(name);
  }

  /** A skill whose name contains the search term somewhere is shown, whatever surrounds it. */
  lemma SearchFindsInfix(before: string, after: string, query: string)
    ensures ShownBySearch(Some(before + SearchTerm(query) + after), query)
  {
    var term := SearchTerm(query);
    SearchTermIsLower(query);
    ToLowerConcat(before, term);
    ToLowerConcat(before + term, after);
    var key := ToLower(before) + term + ToLower(after);
    assert SkillNameKey(Some(before + term + after)) == key;
    assert key[|before|..|before| + |term|] == term;
    assert OccursAt(key, term, |before|);
  }

  /**
   * `filterProjects`: a card is shown when no technology is selected or the
   * card's `data-tech` (empty when missing) contains the selection.
   */
  predicate ProjectShown(technology: string, tech: Option<string>) {
    technology == "" || Contains(tech.GetOr(""), technology)
  }

  /**
   * The project filter is a case-sensitive substring test: clearing it shows
   * every card, a card is shown whenever its tag contains the selected
   * value anywhere (so "Java" also shows a card tagged "JavaScript"), and a
   * card without a tag is shown only when nothing is selected.
   */
  lemma ProjectFilter(technology: string, before: string, after: string)
    ensures ProjectShown("", None) && ProjectShown("", Some(before))
    ensures ProjectShown(technology, Some(before + technology + after))
    ensures ProjectShown(technology, None) <==> technology == ""
  {
    ContainsTrivial(before);
    var tag := before + technology + after;
    assert OccursAt(tag, technology, |before|) by {
      assert tag[|before|..|before| + |technology|] == technology;
    }
    if technology != "" {
      assert !Contains("", technology);
    }
  }
}
