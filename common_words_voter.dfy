// CommonWordsVoter: an affiliation matches an organization when, for at least
// one of the organization's names, the ratio of similar words between the
// filtered affiliation name and the filtered organization name reaches a
// threshold. The calculator has no default and stays null until set.

module CommonWordsVoting {
  import opened Wrappers
  import opened JavaStrings
  import opened AffMatchModel

  /** How the ratio of common words is computed. */
  datatype RatioRelation = WithRegardToAffWords | WithRegardToOrgWords

  /** The voter's configuration at one moment, as the vote reads it. */
  datatype Settings = Settings(
    stringFilter: StringFilter,
    calculator: Option<SimilarWordRatio>,
    ratioRelation: RatioRelation,
    charsToFilter: seq<char>,
    minFittingOrgWordsRatio: real,
    wordToRemoveMaxLength: int)

  /** The checks the constructor makes, in its order. */
  function CheckConstructorArgs(charsToFilter: Option<seq<char>>, wordToRemoveMaxLength: int,
                                minFittingOrgWordsRatio: real, ratioRelation: Option<RatioRelation>): (r: Outcome)
    ensures r.Pass? <==> charsToFilter.Some? && wordToRemoveMaxLength >= 0
                         && 0.0 < minFittingOrgWordsRatio <= 1.0 && ratioRelation.Some?
    ensures charsToFilter.None? ==> r == Fail(NullPointer)
    ensures charsToFilter.Some? && (wordToRemoveMaxLength < 0 || !(0.0 < minFittingOrgWordsRatio <= 1.0))
            ==> r == Fail(IllegalArgument)
    ensures (charsToFilter.Some? && wordToRemoveMaxLength >= 0 && 0.0 < minFittingOrgWordsRatio <= 1.0
             && ratioRelation.None?) ==> r == Fail(NullPointer)
    ensures r.Fail? && r.error == NullPointer ==> charsToFilter.None? || ratioRelation.None?
  {
    if charsToFilter.None? then Fail(NullPointer)
    else if wordToRemoveMaxLength < 0 then Fail(IllegalArgument)
    else if !(0.0 < minFittingOrgWordsRatio <= 1.0) then Fail(IllegalArgument)
    else if ratioRelation.None? then Fail(NullPointer)
    else Pass
  }

  function FilteredName(s: Settings, name: string): string
  {
    s.stringFilter.filterCharsAndShortWords(name, s.charsToFilter, s.wordToRemoveMaxLength)
  }

  /** isProperNumberOfSimilarWords: the relation decides the argument order. */
  function ProperNumberOfSimilarWords(ratioOf: SimilarWordRatio, relation: RatioRelation, minRatio: real,
                                      affWords: seq<string>, orgWords: seq<string>): bool
  {
    var ratio := if relation == WithRegardToAffWords then ratioOf(affWords, orgWords) else ratioOf(orgWords, affWords);
    ratio >= minRatio
  }

  /** An organization name that survives filtering and reaches the threshold. */
  predicate NameFits(s: Settings, affWords: seq<string>, name: string)
    requires s.calculator.Some?
  {
    var f := FilteredName(s, name);
    f != "" && ProperNumberOfSimilarWords(s.calculator.value, s.ratioRelation, s.minFittingOrgWordsRatio,
                                          affWords, Words(f))
  }

  /** The search over the organization names, in order, with early return. */
  function VoteOverNames(s: Settings, affWords: seq<string>, names: seq<string>): (r: Result<bool>)
    ensures names == [] ==> r == Success(false)
    ensures r.Failure? ==> r == Failure(NullPointer) && s.calculator.None?
  {
    if names == [] then Success(false)
    else if FilteredName(s, names[0]) == "" then VoteOverNames(s, affWords, names[1..])
    else if s.calculator.None? then Failure(NullPointer)
    else if NameFits(s, affWords, names[0]) then Success(true)
    else VoteOverNames(s, affWords, names[1..])
  }

  /** voteMatch, given the names the name source returned for the organization. */
  function CommonWordsVote(s: Settings, affName: string, orgNames: Result<seq<string>>): Result<bool>
  {
    var filteredAff := FilteredName(s, affName);
    if filteredAff == "" then Success(false)
    else if orgNames.Failure? then Failure(orgNames.error)
    else VoteOverNames(s, Words(filteredAff), orgNames.value)
  }

  /** The search finds a fitting name iff one exists; with no calculator set,
      reaching any non-empty filtered name is a null-pointer error. */
  lemma {:induction false} VoteOverNamesSpec(s: Settings, affWords: seq<string>, names: seq<string>)
    ensures s.calculator.Some? ==>
      VoteOverNames(s, affWords, names)
        == Success(exists i :: 0 <= i < |names| && NameFits(s, affWords, names[i]))
    ensures s.calculator.None? ==>
      VoteOverNames(s, affWords, names)
        == if exists i :: 0 <= i < |names| && FilteredName(s, names[i]) != ""
           then Failure(NullPointer) else Success(false)
  {
    if names != [] {
      VoteOverNamesSpec(s, affWords, names[1..]);
      if s.calculator.Some? {
        if exists i :: 0 <= i < |names| && NameFits(s, affWords, names[i]) {
          var i :| 0 <= i < |names| && NameFits(s, affWords, names[i]);
          if i > 0 {
            assert NameFits(s, affWords, names[1..][i - 1]);
          }
        }
        assert forall i :: 1 <= i < |names| ==> names[i] == names[1..][i - 1];
      } else {
        assert forall i :: 1 <= i < |names| ==> names[i] == names[1..][i - 1];
      }
    }
  }

  /** The vote is true iff the affiliation name survives filtering and at least
      one organization name has a similar-word ratio at or above the threshold. */
  lemma VoteTrueIff(s: Settings, affName: string, orgNames: Result<seq<string>>)
    requires s.calculator.Some?
    ensures CommonWordsVote(s, affName, orgNames) == Success(true) <==>
      FilteredName(s, affName) != "" && orgNames.Success?
      && exists i :: 0 <= i < |orgNames.value|
           && NameFits(s, Words(FilteredName(s, affName)), orgNames.value[i])
  {
    if FilteredName(s, affName) != "" && orgNames.Success? {
      VoteOverNamesSpec(s, Words(FilteredName(s, affName)), orgNames.value);
    }
  }

  /** Lowering the threshold never turns a positive vote negative. */
  lemma VoteMonotoneInThreshold(s: Settings, lower: real, affName: string, orgNames: Result<seq<string>>)
    requires s.calculator.Some? && lower <= s.minFittingOrgWordsRatio
    requires CommonWordsVote(s, affName, orgNames) == Success(true)
    ensures CommonWordsVote(s.(minFittingOrgWordsRatio := lower), affName, orgNames) == Success(true)
  {
    var t := s.(minFittingOrgWordsRatio := lower);
    VoteTrueIff(s, affName, orgNames);
    VoteTrueIff(t, affName, orgNames);
    var w := Words(FilteredName(s, affName));
    var i :| 0 <= i < |orgNames.value| && NameFits(s, w, orgNames.value[i]);
    assert NameFits(t, w, orgNames.value[i]);
  }

  /** Switching the relation is the same as switching the two word lists. */
  lemma RelationSwapsArguments(ratioOf: SimilarWordRatio, minRatio: real, affWords: seq<string>, orgWords: seq<string>)
    ensures ProperNumberOfSimilarWords(ratioOf, WithRegardToOrgWords, minRatio, affWords, orgWords)
            == ProperNumberOfSimilarWords(ratioOf, WithRegardToAffWords, minRatio, orgWords, affWords)
  {
  }

  class CommonWordsVoter {
    const stringFilter: StringFilter
    var commonSimilarWordCalculator: Option<SimilarWordRatio>
    var ratioRelation: RatioRelation
    const charsToFilter: seq<char>
    const minFittingOrgWordsRatio: real
    const wordToRemoveMaxLength: int
    var getOrgNamesFunction: OrgNamesFunction

    /** The argument checks of the constructor, kept by every setter. */
    ghost predicate Valid()
      reads this
    {
      wordToRemoveMaxLength >= 0 && 0.0 < minFittingOrgWordsRatio <= 1.0
    }

    function CurrentSettings(): Settings
      reads this
    {
      Settings(stringFilter, commonSimilarWordCalculator, ratioRelation, charsToFilter,
               minFittingOrgWordsRatio, wordToRemoveMaxLength)
    }

    /** The constructor once its checks have passed; the string filter and the
        default name source are supplied by the caller. */
    constructor (stringFilter: StringFilter, defaultOrgNames: OrgNamesFunction, charsToFilter: seq<char>,
                 wordToRemoveMaxLength: int, minFittingOrgWordsRatio: real, ratioRelation: RatioRelation)
      requires CheckConstructorArgs(Some(charsToFilter), wordToRemoveMaxLength, minFittingOrgWordsRatio,
                                    Some(ratioRelation)).Pass?
      ensures Valid()
      ensures this.stringFilter == stringFilter && this.getOrgNamesFunction == defaultOrgNames
      ensures this.charsToFilter == charsToFilter && this.wordToRemoveMaxLength == wordToRemoveMaxLength
      ensures this.minFittingOrgWordsRatio == minFittingOrgWordsRatio && this.ratioRelation == ratioRelation
      ensures commonSimilarWordCalculator.None?
    {
      this.stringFilter := stringFilter;
      this.commonSimilarWordCalculator := None;
      this.ratioRelation := ratioRelation;
      this.charsToFilter := charsToFilter;
      this.minFittingOrgWordsRatio := minFittingOrgWordsRatio;
      this.wordToRemoveMaxLength := wordToRemoveMaxLength;
      this.getOrgNamesFunction := defaultOrgNames;
    }

    /** voteMatch: filter the affiliation name, then search the organization's
        names for one with enough similar words. */
    method VoteMatch(affiliation: Affiliation, organization: Organization) returns (r: Result<bool>)
      requires Valid()
      ensures r == CommonWordsVote(CurrentSettings(), affiliation.organizationName,
                                   getOrgNamesFunction(organization))
    {
      var s := CurrentSettings();
      var filteredAffName := FilteredName(s, affiliation.organizationName);
      if filteredAffName == "" {
        return Success(false);
      }
      var affWords := Words(filteredAffName);
      var names := getOrgNamesFunction(organization);
      if names.Failure? {
        return Failure(names.error);
      }
      var orgNames := names.value;
      var i := 0;
      while i < |orgNames|
        invariant 0 <= i <= |orgNames|
        invariant VoteOverNames(s, affWords, orgNames) == VoteOverNames(s, affWords, orgNames[i..])
      {
        assert orgNames[i..][1..] == orgNames[i + 1..];
        var filteredOrgName := FilteredName(s, orgNames[i]);
        if filteredOrgName == "" {
          i := i + 1;
          continue;
        }
        if commonSimilarWordCalculator.None? {
          return Failure(NullPointer);
        }
        var orgWords := Words(filteredOrgName);
        if ProperNumberOfSimilarWords(commonSimilarWordCalculator.value, ratioRelation,
                                      minFittingOrgWordsRatio, affWords, orgWords) {
          return Success(true);
        }
        i := i + 1;
      }
      return Success(false);
    }

    method SetGetOrgNamesFunction(f: OrgNamesFunction)
      requires Valid()
      modifies this
      ensures Valid()
      ensures getOrgNamesFunction == f
      ensures commonSimilarWordCalculator == old(commonSimilarWordCalculator) && ratioRelation == old(ratioRelation)
    {
      getOrgNamesFunction := f;
    }

    method SetCommonSimilarWordCalculator(ratioOf: Option<SimilarWordRatio>)
      requires Valid()
      modifies this
      ensures Valid()
      ensures commonSimilarWordCalculator == ratioOf
      ensures getOrgNamesFunction == old(getOrgNamesFunction) && ratioRelation == old(ratioRelation)
    {
      commonSimilarWordCalculator := ratioOf;
    }

    /** setRatioRelation rejects null and then leaves the voter unchanged. */
    method SetRatioRelation(relation: Option<RatioRelation>) returns (r: Outcome)
      requires Valid()
      modifies this
      ensures Valid()
      ensures relation.None? ==> r == Fail(NullPointer) && ratioRelation == old(ratioRelation)
      ensures relation.Some? ==> r == Pass && ratioRelation == relation.value
      ensures getOrgNamesFunction == old(getOrgNamesFunction)
      ensures commonSimilarWordCalculator == old(commonSimilarWordCalculator)
    {
      if relation.None? {
        return Fail(NullPointer);
      }
      ratioRelation := relation.value;
      return Pass;
    }
  }

  /** The constructor with its checks: a failed check creates no voter. */
  method NewCommonWordsVoter(stringFilter: StringFilter, defaultOrgNames: OrgNamesFunction,
                             charsToFilter: Option<seq<char>>, wordToRemoveMaxLength: int,
                             minFittingOrgWordsRatio: real, ratioRelation: Option<RatioRelation>)
    returns (r: Result<CommonWordsVoter>)
    ensures var check := CheckConstructorArgs(charsToFilter, wordToRemoveMaxLength,
                                              minFittingOrgWordsRatio, ratioRelation);
            (check.Fail? ==> r == Failure(check.error)) && (check.Pass? <==> r.Success?)
    ensures r.Success? ==> (fresh(r.value) && r.value.Valid()
      && r.value.charsToFilter == charsToFilter.value && r.value.ratioRelation == ratioRelation.value
      && r.value.minFittingOrgWordsRatio == minFittingOrgWordsRatio
      && r.value.wordToRemoveMaxLength == wordToRemoveMaxLength
      && r.value.getOrgNamesFunction == defaultOrgNames
      && r.value.commonSimilarWordCalculator.None?)
  {
    var check := CheckConstructorArgs(charsToFilter, wordToRemoveMaxLength, minFittingOrgWordsRatio, ratioRelation);
    if check.Fail? {
      return Failure(check.error);
    }
    var v := new CommonWordsVoter(stringFilter, defaultOrgNames, charsToFilter.value, wordToRemoveMaxLength,
                                  minFittingOrgWordsRatio, ratioRelation.value);
    return Success(v);
  }
}
