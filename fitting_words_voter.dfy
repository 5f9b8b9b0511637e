// FittingOrgWordsMatchVoter: an affiliation matches an organization when a
// large enough share of the words of the filtered organization name have a
// similar word among the words of the filtered affiliation name.

module FittingWordsVoting {
  import opened Wrappers
  import opened JavaStrings
  import opened AffMatchModel

  datatype FittingOrgWordsMatchVoter = FittingOrgWordsMatchVoter(
    stringFilter: StringFilter,
    similarityChecker: SimilarityChecker,
    charsToFilter: seq<char>,
    wordToRemoveMaxLength: int,
    minFittingOrgWordsRatio: real,
    minFittingWordSimilarity: real)
  {
    /** What the constructor guarantees. */
    predicate Valid()
    {
      wordToRemoveMaxLength >= 0 && 0.0 < minFittingOrgWordsRatio <= 1.0 && 0.0 < minFittingWordSimilarity <= 1.0
    }
  }

  /** The constructor: null characters, a negative word length, or a ratio or
      similarity outside (0, 1] are rejected. */
  function NewFittingOrgWordsMatchVoter(stringFilter: StringFilter, similarityChecker: SimilarityChecker,
                                        charsToFilter: Option<seq<char>>, wordToRemoveMaxLength: int,
                                        minFittingOrgWordsRatio: real, minFittingWordSimilarity: real)
    : (r: Result<FittingOrgWordsMatchVoter>)
    ensures charsToFilter.None? ==> r == Failure(NullPointer)
    ensures charsToFilter.Some? && (wordToRemoveMaxLength < 0 || !(0.0 < minFittingOrgWordsRatio <= 1.0)
                                    || !(0.0 < minFittingWordSimilarity <= 1.0))
            ==> r == Failure(IllegalArgument)
    ensures r.Success? <==> charsToFilter.Some? && wordToRemoveMaxLength >= 0
                            && 0.0 < minFittingOrgWordsRatio <= 1.0 && 0.0 < minFittingWordSimilarity <= 1.0
    ensures r.Success? ==> (r.value.Valid() && r.value.charsToFilter == charsToFilter.value
      && r.value.wordToRemoveMaxLength == wordToRemoveMaxLength
      && r.value.minFittingOrgWordsRatio == minFittingOrgWordsRatio
      && r.value.minFittingWordSimilarity == minFittingWordSimilarity)
  {
    if charsToFilter.None? then Failure(NullPointer)
    else if wordToRemoveMaxLength < 0 then Failure(IllegalArgument)
    else if !(0.0 < minFittingOrgWordsRatio <= 1.0) then Failure(IllegalArgument)
    else if !(0.0 < minFittingWordSimilarity <= 1.0) then Failure(IllegalArgument)
    else Success(FittingOrgWordsMatchVoter(stringFilter, similarityChecker, charsToFilter.value,
                                           wordToRemoveMaxLength, minFittingOrgWordsRatio, minFittingWordSimilarity))
  }

  function FilteredName(v: FittingOrgWordsMatchVoter, name: string): string
  {
    v.stringFilter.filterCharsAndShortWords(name, v.charsToFilter, v.wordToRemoveMaxLength)
  }

  function WordSet(words: seq<string>): set<string>
  {
    set w | w in words
  }

  /** The number of organization words with a similar affiliation word. */
  function FittingCount(checker: SimilarityChecker, affWords: set<string>, orgWords: seq<string>,
                        minSimilarity: real): (n: nat)
    ensures n <= |orgWords|
  {
    if orgWords == [] then 0
    else (if checker(affWords, orgWords[0], minSimilarity) then 1 else 0)
         + FittingCount(checker, affWords, orgWords[1..], minSimilarity)
  }

  /** The share of fitting words, n out of total, reaches the ratio. */
  predicate ReachesRatio(n: nat, total: nat, ratio: real)
    requires total > 0
  {
    (n as real) / (total as real) >= ratio
  }

  lemma ReachesRatioIff(n: nat, total: nat, ratio: real)
    requires total > 0
    ensures ReachesRatio(n, total, ratio) <==> (n as real) >= ratio * (total as real)
  {
    var x, d := n as real, total as real;
    assert x == (x / d) * d;
    if x / d >= ratio {
      assert (x / d) * d >= ratio * d;
    } else {
      assert (x / d) * d < ratio * d;
    }
  }

  /** voteMatch on the two filtered names. An organization name with no words
      left after splitting cannot fit. */
  function FilteredVote(v: FittingOrgWordsMatchVoter, filteredAff: string, filteredOrg: string): bool
  {
    if filteredAff == "" || filteredOrg == "" || Words(filteredOrg) == [] then false
    else
      var n := FittingCount(v.similarityChecker, WordSet(Words(filteredAff)), Words(filteredOrg),
                            v.minFittingWordSimilarity);
      ReachesRatio(n, |Words(filteredOrg)|, v.minFittingOrgWordsRatio)
  }

  function VoteMatch(v: FittingOrgWordsMatchVoter, aff: Affiliation, org: Organization): (r: bool)
    ensures r ==> FilteredName(v, aff.organizationName) != "" && FilteredName(v, org.name) != ""
  {
    FilteredVote(v, FilteredName(v, aff.organizationName), FilteredName(v, org.name))
  }

  /** The vote compares the number of fitting words with the threshold share
      of the organization words; the threshold is inclusive. */
  lemma VoteThreshold(v: FittingOrgWordsMatchVoter, aff: Affiliation, org: Organization)
    ensures VoteMatch(v, aff, org) <==>
      var fa := FilteredName(v, aff.organizationName);
      var fo := FilteredName(v, org.name);
      fa != "" && fo != "" && |Words(fo)| > 0
      && (FittingCount(v.similarityChecker, WordSet(Words(fa)), Words(fo), v.minFittingWordSimilarity) as real)
         >= v.minFittingOrgWordsRatio * (|Words(fo)| as real)
  {
    var fa := FilteredName(v, aff.organizationName);
    var fo := FilteredName(v, org.name);
    if fa != "" && fo != "" && |Words(fo)| > 0 {
      ReachesRatioIff(FittingCount(v.similarityChecker, WordSet(Words(fa)), Words(fo), v.minFittingWordSimilarity),
                      |Words(fo)|, v.minFittingOrgWordsRatio);
    }
  }

  /** When every organization word fits, a valid voter votes for the match. */
  lemma AllWordsFitMatches(v: FittingOrgWordsMatchVoter, aff: Affiliation, org: Organization)
    requires v.Valid()
    requires FilteredName(v, aff.organizationName) != "" && FilteredName(v, org.name) != ""
    requires |Words(FilteredName(v, org.name))| > 0
    requires FittingCount(v.similarityChecker, WordSet(Words(FilteredName(v, aff.organizationName))),
                          Words(FilteredName(v, org.name)), v.minFittingWordSimilarity)
             == |Words(FilteredName(v, org.name))|
    ensures VoteMatch(v, aff, org)
  {
    var fa := FilteredName(v, aff.organizationName);
    var fo := FilteredName(v, org.name);
    var total := |Words(fo)|;
    assert VoteMatch(v, aff, org) == FilteredVote(v, fa, fo);
    assert FilteredVote(v, fa, fo) == ReachesRatio(total, total, v.minFittingOrgWordsRatio);
    ReachesRatioIff(total, total, v.minFittingOrgWordsRatio);
    RatioAtMostOne(total, v.minFittingOrgWordsRatio);
  }

  /** A ratio of at most one is reached by the whole. */
  lemma RatioAtMostOne(n: nat, ratio: real)
    requires ratio <= 1.0
    ensures (n as real) >= ratio * (n as real)
  {
    assert ratio * (n as real) <= 1.0 * (n as real);
  }

  /** Four fitting words out of five reach a threshold of 0.8, while two out of
      three do not. */
  lemma ThresholdExamples(v: FittingOrgWordsMatchVoter, aff: Affiliation, org: Organization)
    requires v.minFittingOrgWordsRatio == 0.8
    requires FilteredName(v, aff.organizationName) != "" && FilteredName(v, org.name) != ""
    ensures var words := Words(FilteredName(v, org.name));
      var n := FittingCount(v.similarityChecker, WordSet(Words(FilteredName(v, aff.organizationName))),
                            words, v.minFittingWordSimilarity);
      (|words| == 5 && n == 4 ==> VoteMatch(v, aff, org))
      && (|words| == 3 && n == 2 ==> !VoteMatch(v, aff, org))
  {
    VoteThreshold(v, aff, org);
  }

  /** A more permissive similarity checker never loses fitting words. */
  lemma {:induction false} FittingCountMonotone(c1: SimilarityChecker, c2: SimilarityChecker,
                                                affWords: set<string>, orgWords: seq<string>, sim: real)
    requires forall w :: w in orgWords && c1(affWords, w, sim) ==> c2(affWords, w, sim)
    ensures FittingCount(c1, affWords, orgWords, sim) <= FittingCount(c2, affWords, orgWords, sim)
  {
    if orgWords != [] {
      FittingCountMonotone(c1, c2, affWords, orgWords[1..], sim);
    }
  }

  lemma ReachesRatioMonotone(n1: nat, n2: nat, total: nat, ratio: real)
    requires total > 0 && n1 <= n2
    ensures ReachesRatio(n1, total, ratio) ==> ReachesRatio(n2, total, ratio)
  {
    ReachesRatioIff(n1, total, ratio);
    ReachesRatioIff(n2, total, ratio);
  }

  /** So a vote for a match survives replacing the checker by a more
      permissive one. */
  lemma VoteMonotoneInChecker(v: FittingOrgWordsMatchVoter, c2: SimilarityChecker, aff: Affiliation, org: Organization)
    requires forall s, w, sim :: v.similarityChecker(s, w, sim) ==> c2(s, w, sim)
    requires VoteMatch(v, aff, org)
    ensures VoteMatch(v.(similarityChecker := c2), aff, org)
  {
    var u := v.(similarityChecker := c2);
    var fa := FilteredName(v, aff.organizationName);
    var fo := FilteredName(v, org.name);
    assert FilteredName(u, aff.organizationName) == fa && FilteredName(u, org.name) == fo;
    var affSet := WordSet(Words(fa));
    var words := Words(fo);
    FittingCountMonotone(v.similarityChecker, c2, affSet, words, v.minFittingWordSimilarity);
    ReachesRatioMonotone(FittingCount(v.similarityChecker, affSet, words, v.minFittingWordSimilarity),
                         FittingCount(c2, affSet, words, v.minFittingWordSimilarity),
                         |words|, v.minFittingOrgWordsRatio);
  }
}
