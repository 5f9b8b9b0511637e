// The values the affiliation-matching engine works on, and the collaborators
// whose code is not part of this model, as function-typed parameters.

module AffMatchModel {
  import opened Wrappers

  /** An affiliation found in a document: the raw organization name it cites. */
  datatype Affiliation = Affiliation(documentId: string, position: int, organizationName: string)

  /** An organization known to the system. A null short name is None. */
  datatype Organization = Organization(id: string, name: string, shortName: Option<string>)

  /** A candidate (affiliation, organization) pair produced by a joiner. */
  type AffOrgPair = (Affiliation, Organization)

  /** A scored candidate match. */
  datatype MatchResult = MatchResult(affiliation: Affiliation, organization: Organization, matchStrength: real)

  /** StringFilter: removes the given characters, and optionally the words no
      longer than the given length, from a name. */
  datatype StringFilter = StringFilter(
    filterChars: (string, seq<char>) -> string,
    filterCharsAndShortWords: (string, seq<char>, int) -> string)

  /** CommonSimilarWordCalculator.calcSimilarWordRatio(words, otherWords). */
  type SimilarWordRatio = (seq<string>, seq<string>) -> real

  /** StringSimilarityChecker.containSimilarString(words, word, minSimilarity). */
  type SimilarityChecker = (set<string>, string, real) -> bool

  /** A source of the names of an organization (a Guava Function); it may
      throw, hence the Result. */
  type OrgNamesFunction = Organization -> Result<seq<string>>
}
