// NameStrictWithCharFilteringMatchVoter: an affiliation matches an
// organization when both names, with the configured characters filtered out,
// are non-empty and equal.

module NameStrictVoter {
  import opened AffMatchModel

  datatype NameStrictWithCharFilteringMatchVoter =
    NameStrictWithCharFilteringMatchVoter(stringFilter: StringFilter, charsToFilter: seq<char>)

  /** The comparison the voter performs on two raw names. */
  predicate FilteredNamesEqual(v: NameStrictWithCharFilteringMatchVoter, name1: string, name2: string)
  {
    var f1 := v.stringFilter.filterChars(name1, v.charsToFilter);
    var f2 := v.stringFilter.filterChars(name2, v.charsToFilter);
    f1 != "" && f2 != "" && f1 == f2
  }

  function VoteMatch(v: NameStrictWithCharFilteringMatchVoter, aff: Affiliation, org: Organization): (r: bool)
    ensures v.stringFilter.filterChars(aff.organizationName, v.charsToFilter) == "" ==> !r
    ensures v.stringFilter.filterChars(org.name, v.charsToFilter) == "" ==> !r
    ensures r <==> v.stringFilter.filterChars(aff.organizationName, v.charsToFilter) != ""
                   && v.stringFilter.filterChars(aff.organizationName, v.charsToFilter)
                      == v.stringFilter.filterChars(org.name, v.charsToFilter)
  {
    FilteredNamesEqual(v, aff.organizationName, org.name)
  }

  /** The vote is symmetric in the two names. */
  lemma VoteSymmetric(v: NameStrictWithCharFilteringMatchVoter, a1: Affiliation, o1: Organization,
                      a2: Affiliation, o2: Organization)
    requires a1.organizationName == o2.name && o1.name == a2.organizationName
    ensures VoteMatch(v, a1, o1) == VoteMatch(v, a2, o2)
  {
  }

  /** Names that differ only in filtered characters match; any other pair of
      names does not. */
  lemma SameFilteredFormMatches(v: NameStrictWithCharFilteringMatchVoter, aff: Affiliation, org: Organization)
    requires v.stringFilter.filterChars(aff.organizationName, v.charsToFilter)
             == v.stringFilter.filterChars(org.name, v.charsToFilter)
    requires v.stringFilter.filterChars(org.name, v.charsToFilter) != ""
    ensures VoteMatch(v, aff, org)
  {
  }
}
