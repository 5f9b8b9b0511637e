# IIS workflows: affiliation matching and supporting rules, in Dafny

The Information Inference Service (IIS) is a set of Hadoop/Spark workflows.
They enrich an OpenAIRE-style information space: they import records,
extract references, match affiliations to organizations and export the
results as actions. This project models the core of these workflows and
proves properties of the model.

The main part is the affiliation-to-organization matching engine of
`iis-wf-affmatching`. It works in four stages:

- **Joining.** A joiner pairs affiliations with candidate organizations, either
  - by equal bucket hashes (`AffOrgHashBucketJoiner`), or
  - through document-to-organization relation records (`DocOrgRelationAffOrgJoiner`, `AffMatchDocumentOrganization`).
- **Voting.** Boolean voters judge each pair:
  - strict equality of the filtered names;
  - a ratio of common words against a threshold;
  - a ratio of fitting organization words.
- **Scoring.** A computer folds one strength recalculation per voter over every pair, then drops the results of zero strength.
- **Picking.** A chooser keeps the stronger of two results, preferring the left one on a tie. `AffOrgMatcher` chains join, compute and pick.

Around it, the project models several smaller rules:

- **Parameter lookup.**
  - The `$UNDEFINED$` sentinel, and the precedence of process parameters over the Hadoop configuration.
  - The report entries made from `report.`-prefixed parameters.
- **Record conversion.** The validity and field-selection rules of the project, person and document-metadata converters.
- **Export.**
  - The prefix stripping and de-duplicating loop of the entity exporter.
  - Document classes: taxonomy order and confidence capping.
  - Document similarity: threshold and two mirrored directions.
  - Citations: identifier normalisation.
- **Patent metadata retrieval.** Splitting the input against a cache, and classifying the retrieval responses.
- **The madis `file` virtual table.** Its row-strictness filters, null markers, BOM cleaning, `toj` packing and option validation.
- **Behaviours fixed by unit tests.**
  - Tag-stack matching for JATS parsing.
  - A de-duplicating approver.
  - Content-size classification.
  - Mime-type routing.
  - The identifier-mapping pipeline.
  - Citation keys.

How the Java and Python code is represented:

- **Nulls.** `null` becomes `Option`.
- **Exceptions.** A thrown exception becomes a `Result` failure naming the exception kind.
- **Spark RDDs.** They become sequences. A relational comprehension stands for each join.
- **Floats.** Floating-point strengths and ratios become `real`.
- **Collaborators whose code is not part of this model.** These become function-typed parameters: string filters, similarity calculators, hashers, the recalculator, pickers, field approvers, fault factories and XPath readers.
- **Objects whose fields change in place.** They are classes whose methods have `modifies` clauses: the matcher, the voter, the joiner, the relation record, the approver, the importer mapper, the dispatcher and the citation entry.

## Model

| member | source | states |
|---|---|---|
| AffOrgMatching.AffOrgMatcher.constructor | iis-wf/iis-wf-affmatching/src/main/java/eu/dnetlib/iis/wf/affmatching/match/AffOrgMatcher.java:28-32 | the defaults are the hash-bucket join with the default hashers, the given computer and the best-result picker |
| AffOrgMatching.AffOrgMatcher.Match | iis-wf/iis-wf-affmatching/src/main/java/eu/dnetlib/iis/wf/affmatching/match/AffOrgMatcher.java:48-61 | a null input is a null-pointer error before any work; otherwise the result is pick(compute(join(affs, orgs))), and a compute failure is passed on |
| AffOrgMatching.AffOrgMatcher.SetAffOrgJoiner | iis-wf/iis-wf-affmatching/src/main/java/eu/dnetlib/iis/wf/affmatching/match/AffOrgMatcher.java:69-71 | replaces the joiner and nothing else |
| AffOrgMatching.AffOrgMatcher.SetAffOrgMatchComputer | iis-wf/iis-wf-affmatching/src/main/java/eu/dnetlib/iis/wf/affmatching/match/AffOrgMatcher.java:73-75 | replaces the computer and nothing else |
| AffOrgMatching.MatchFeedsPicker | iis-wf/iis-wf-affmatching/src/main/java/eu/dnetlib/iis/wf/affmatching/match/AffOrgMatcher.java:54-60 | with voters configured, the match succeeds, and the picker receives exactly the sequence of positive-strength recalculated results of the joined pairs, in the joiner's order and with its multiplicities |
| AffOrgMatching.NoVotersFails | iis-wf/iis-wf-affmatching/src/main/java/eu/dnetlib/iis/wf/affmatching/match/AffOrgMatcher.java:56 | a matcher whose computer has no voters fails with an illegal-state error on any non-null input |
| HashBucketJoining.HashBucketJoin | iis-wf/iis-wf-affmatching/src/main/java/eu/dnetlib/iis/wf/affmatching/bucket/AffOrgHashBucketJoiner.java:41-47 | with no affiliations or no organizations there are no pairs; HashBucketJoinCount states the multiplicities |
| HashBucketJoining.AffOrgHashBucketJoiner.Join | iis-wf/iis-wf-affmatching/src/main/java/eu/dnetlib/iis/wf/affmatching/bucket/AffOrgHashBucketJoiner.java:38-48 | with no affiliations or no organizations there are no pairs, whatever the relations |
| HashBucketJoining.AffOrgHashBucketJoiner.constructor | iis-wf/iis-wf-affmatching/src/main/java/eu/dnetlib/iis/wf/affmatching/bucket/AffOrgHashBucketJoiner.java:24-26 | the joiner starts with the default affiliation and organization hashers |
| HashBucketJoining.AffOrgHashBucketJoiner.SetAffiliationBucketHasher | iis-wf/iis-wf-affmatching/src/main/java/eu/dnetlib/iis/wf/affmatching/bucket/AffOrgHashBucketJoiner.java:56-58 | replaces only the affiliation hasher |
| HashBucketJoining.AffOrgHashBucketJoiner.SetOrganizationBucketHasher | iis-wf/iis-wf-affmatching/src/main/java/eu/dnetlib/iis/wf/affmatching/bucket/AffOrgHashBucketJoiner.java:64-66 | replaces only the organization hasher |
| HashBucketJoining.BucketPartnersCount | iis-wf/iis-wf-affmatching/src/main/java/eu/dnetlib/iis/wf/affmatching/bucket/AffOrgHashBucketJoiner.java:45-47 | the pairs one affiliation gets from one bucket occur once per organization occurrence in that bucket |
| HashBucketJoining.HashBucketJoinCount | iis-wf/iis-wf-affmatching/src/main/java/eu/dnetlib/iis/wf/affmatching/bucket/AffOrgHashBucketJoiner.java:41-47 | no deduplication: a pair with equal hashes occurs (affiliation multiplicity) x (organization multiplicity) times, and a pair with different hashes never |
| HashBucketJoining.HashBucketJoinMembership | iis-wf/iis-wf-affmatching/src/main/java/eu/dnetlib/iis/wf/affmatching/bucket/AffOrgHashBucketJoiner.java:41-47 | soundness and completeness: a pair is emitted iff both sides are in the inputs and their hashes are equal |
| HashBucketJoining.JoinIgnoresRelations | iis-wf/iis-wf-affmatching/src/main/java/eu/dnetlib/iis/wf/affmatching/bucket/AffOrgHashBucketJoiner.java:38-48 | the document-organization argument has no effect on the output |
| DocOrgJoining.DocOrgJoin | iis-wf/iis-wf-affmatching/src/main/java/eu/dnetlib/iis/wf/affmatching/bucket/DocOrgRelationAffOrgJoiner.java:30-46 | with no affiliations or no relations there are no pairs; DocOrgJoinCount states the multiplicities |
| DocOrgJoining.RelationCountPositive | iis-wf/iis-wf-affmatching/src/main/java/eu/dnetlib/iis/wf/affmatching/bucket/DocOrgRelationAffOrgJoiner.java:33-36 | a document and an organization are linked iff at least one relation with both ids exists |
| DocOrgJoining.OrgsWithIdCount | iis-wf/iis-wf-affmatching/src/main/java/eu/dnetlib/iis/wf/affmatching/bucket/DocOrgRelationAffOrgJoiner.java:40-41 | a relation yields one pair per organization carrying its organization id, and none for an unknown or null id |
| DocOrgJoining.RelatedOrgsCount | iis-wf/iis-wf-affmatching/src/main/java/eu/dnetlib/iis/wf/affmatching/bucket/DocOrgRelationAffOrgJoiner.java:38-42 | an affiliation contributes one pair per (relation of its document, organization with that id) combination |
| DocOrgJoining.DocOrgJoinCount | iis-wf/iis-wf-affmatching/src/main/java/eu/dnetlib/iis/wf/affmatching/bucket/DocOrgRelationAffOrgJoiner.java:30-46 | a pair occurs (affiliation multiplicity) x (organization multiplicity) x (linking relations) times; duplicate relations give duplicate pairs |
| DocOrgJoining.DocOrgJoinMembership | iis-wf/iis-wf-affmatching/src/main/java/eu/dnetlib/iis/wf/affmatching/bucket/DocOrgRelationAffOrgJoiner.java:30-46 | a pair is emitted iff both sides are in the inputs and some relation links the affiliation's document to the organization's id; names play no role |
| DocOrgRelation.AffMatchDocumentOrganization.constructor | iis-wf/iis-wf-affmatching/src/main/java/eu/dnetlib/iis/wf/affmatching/bucket/projectorg/model/AffMatchDocumentOrganization.java:22-27 | once the checks have passed, the getters return the two given ids |
| DocOrgRelation.NewAffMatchDocumentOrganization | iis-wf/iis-wf-affmatching/src/main/java/eu/dnetlib/iis/wf/affmatching/bucket/projectorg/model/AffMatchDocumentOrganization.java:22-27 | construction fails with an illegal-argument error iff either id is blank or null; otherwise the record holds the given ids |
| DocOrgRelation.AffMatchDocumentOrganization.SetDocumentId | iis-wf/iis-wf-affmatching/src/main/java/eu/dnetlib/iis/wf/affmatching/bucket/projectorg/model/AffMatchDocumentOrganization.java:47-49 | sets the document id, blank or null included, and leaves the organization id alone |
| DocOrgRelation.AffMatchDocumentOrganization.SetOrganizationId | iis-wf/iis-wf-affmatching/src/main/java/eu/dnetlib/iis/wf/affmatching/bucket/projectorg/model/AffMatchDocumentOrganization.java:51-53 | sets the organization id without a check and leaves the document id alone |
| DocOrgRelation.AffMatchDocumentOrganization.HashCode | iis-wf/iis-wf-affmatching/src/main/java/eu/dnetlib/iis/wf/affmatching/bucket/projectorg/model/AffMatchDocumentOrganization.java:57-60 | the hash is a 32-bit int computed from the two ids |
| DocOrgRelation.ObjectsHashCode2 | iis-wf/iis-wf-affmatching/src/main/java/eu/dnetlib/iis/wf/affmatching/bucket/projectorg/model/AffMatchDocumentOrganization.java:59 | Guava's two-element hash, 31*(31+h1)+h2, wraps to the 32-bit range |
| DocOrgRelation.EqualsReflexiveSymmetric | iis-wf/iis-wf-affmatching/src/main/java/eu/dnetlib/iis/wf/affmatching/bucket/projectorg/model/AffMatchDocumentOrganization.java:62-72 | equals is reflexive and symmetric and never holds for null |
| DocOrgRelation.EqualsImpliesEqualHash | iis-wf/iis-wf-affmatching/src/main/java/eu/dnetlib/iis/wf/affmatching/bucket/projectorg/model/AffMatchDocumentOrganization.java:57-72 | equal records have equal hash codes |
| NameStrictVoter.VoteMatch | iis-wf/iis-wf-affmatching/src/main/java/eu/dnetlib/iis/wf/affmatching/match/voter/NameStrictWithCharFilteringMatchVoter.java:44-55 | false when either filtered name is empty; otherwise true iff the two filtered names are equal |
| NameStrictVoter.VoteSymmetric | iis-wf/iis-wf-affmatching/src/main/java/eu/dnetlib/iis/wf/affmatching/match/voter/NameStrictWithCharFilteringMatchVoter.java:46-54 | swapping the affiliation name and the organization name leaves the vote unchanged |
| NameStrictVoter.SameFilteredFormMatches | iis-wf/iis-wf-affmatching/src/test/java/eu/dnetlib/iis/wf/affmatching/match/voter/NameStrictWithCharFilteringMatchVoterTest.java:91-109 | names that differ only in filtered characters, with a non-empty filtered form, match |
| OrgShortName.GetOrgShortName | iis-wf/iis-wf-affmatching/src/main/java/eu/dnetlib/iis/wf/affmatching/match/voter/GetOrgShortNameFunction.java:29-34 | a null organization or a null short name is a null-pointer error; otherwise the result is the one-element list of the short name |
| OrgShortName.DependsOnlyOnShortName | iis-wf/iis-wf-affmatching/src/main/java/eu/dnetlib/iis/wf/affmatching/match/voter/GetOrgShortNameFunction.java:29-34 | organizations with the same short name give the same result, whatever their other fields |
| CommonWordsVoting.CheckConstructorArgs | iis-wf/iis-wf-affmatching/src/main/java/eu/dnetlib/iis/wf/affmatching/match/voter/CommonWordsVoter.java:61-65 | the checks pass iff the characters are non-null, the word length is non-negative, the ratio is in (0,1] and the relation is non-null; the null checks fail with a null-pointer error, the others with an illegal-argument error |
| CommonWordsVoting.NewCommonWordsVoter | iis-wf/iis-wf-affmatching/src/main/java/eu/dnetlib/iis/wf/affmatching/match/voter/CommonWordsVoter.java:61-72 | a failed check creates no voter; otherwise the voter holds the given settings and no calculator |
| CommonWordsVoting.CommonWordsVoter.constructor | iis-wf/iis-wf-affmatching/src/main/java/eu/dnetlib/iis/wf/affmatching/match/voter/CommonWordsVoter.java:61-72 | once the checks have passed, the fields hold the arguments and the calculator is unset |
| CommonWordsVoting.CommonWordsVoter.VoteMatch | iis-wf/iis-wf-affmatching/src/main/java/eu/dnetlib/iis/wf/affmatching/match/voter/CommonWordsVoter.java:84-110 | the vote is the name-search function over the voter's current settings and the organization's names |
| CommonWordsVoting.VoteOverNames | iis-wf/iis-wf-affmatching/src/main/java/eu/dnetlib/iis/wf/affmatching/match/voter/CommonWordsVoter.java:94-109 | no names is a negative vote; the only failure is a null-pointer error, and only when no calculator is set |
| CommonWordsVoting.VoteOverNamesSpec | iis-wf/iis-wf-affmatching/src/main/java/eu/dnetlib/iis/wf/affmatching/match/voter/CommonWordsVoter.java:94-109 | with a calculator, the search is true iff some organization name survives filtering and reaches the threshold; without one, it fails with a null-pointer error exactly when some name is reached |
| CommonWordsVoting.VoteTrueIff | iis-wf/iis-wf-affmatching/src/main/java/eu/dnetlib/iis/wf/affmatching/match/voter/CommonWordsVoter.java:84-110 | the vote is true iff the filtered affiliation name is non-empty and at least one filtered organization name fits; the threshold is inclusive |
| CommonWordsVoting.VoteMonotoneInThreshold | iis-wf/iis-wf-affmatching/src/main/java/eu/dnetlib/iis/wf/affmatching/match/voter/CommonWordsVoter.java:129 | lowering the threshold never turns a positive vote negative |
| CommonWordsVoting.RelationSwapsArguments | iis-wf/iis-wf-affmatching/src/main/java/eu/dnetlib/iis/wf/affmatching/match/voter/CommonWordsVoter.java:115-130 | the organization-words relation is the affiliation-words relation with the two word lists swapped |
| CommonWordsVoting.CommonWordsVoter.SetGetOrgNamesFunction | iis-wf/iis-wf-affmatching/src/main/java/eu/dnetlib/iis/wf/affmatching/match/voter/CommonWordsVoter.java:138-140 | replaces the name source only, and the constructor's argument checks stay valid |
| CommonWordsVoting.CommonWordsVoter.SetCommonSimilarWordCalculator | iis-wf/iis-wf-affmatching/src/main/java/eu/dnetlib/iis/wf/affmatching/match/voter/CommonWordsVoter.java:142-144 | replaces the calculator only, null included, and the constructor's argument checks stay valid |
| CommonWordsVoting.CommonWordsVoter.SetRatioRelation | iis-wf/iis-wf-affmatching/src/main/java/eu/dnetlib/iis/wf/affmatching/match/voter/CommonWordsVoter.java:146-149 | a null relation is a null-pointer error that changes nothing; otherwise only the relation is replaced; either way the constructor's argument checks stay valid |
| FittingWordsVoting.NewFittingOrgWordsMatchVoter | iis-wf/iis-wf-affmatching/src/test/java/eu/dnetlib/iis/wf/affmatching/match/voter/FittingOrgWordsMatchVoterTest.java:55-90 | null characters are a null-pointer error; a negative word length, or a ratio or similarity outside (0,1], is an illegal-argument error; otherwise the voter holds the arguments |
| FittingWordsVoting.FittingCount | iis-wf/iis-wf-affmatching/src/test/java/eu/dnetlib/iis/wf/affmatching/match/voter/FittingOrgWordsMatchVoterTest.java:93-142 | the number of organization words with a similar affiliation word is at most the number of organization words |
| FittingWordsVoting.ReachesRatioIff | iis-wf/iis-wf-affmatching/src/test/java/eu/dnetlib/iis/wf/affmatching/match/voter/FittingOrgWordsMatchVoterTest.java:109-142 | n fitting words out of total reach the ratio iff n >= ratio x total |
| FittingWordsVoting.VoteMatch | iis-wf/iis-wf-affmatching/src/test/java/eu/dnetlib/iis/wf/affmatching/match/voter/FittingOrgWordsMatchVoterTest.java:93-142 | a positive vote needs both filtered names to be non-empty |
| FittingWordsVoting.VoteThreshold | iis-wf/iis-wf-affmatching/src/test/java/eu/dnetlib/iis/wf/affmatching/match/voter/FittingOrgWordsMatchVoterTest.java:93-142 | the vote is true iff the organization name has words and the share of fitting words reaches the ratio |
| FittingWordsVoting.AllWordsFitMatches | iis-wf/iis-wf-affmatching/src/test/java/eu/dnetlib/iis/wf/affmatching/match/voter/FittingOrgWordsMatchVoterTest.java:93-107 | when every organization word fits, a valid voter votes for the match |
| FittingWordsVoting.RatioAtMostOne | iis-wf/iis-wf-affmatching/src/test/java/eu/dnetlib/iis/wf/affmatching/match/voter/FittingOrgWordsMatchVoterTest.java:93-107 | a ratio of at most one is reached when every word fits |
| FittingWordsVoting.ThresholdExamples | iis-wf/iis-wf-affmatching/src/test/java/eu/dnetlib/iis/wf/affmatching/match/voter/FittingOrgWordsMatchVoterTest.java:109-142 | with a threshold of 0.8, four fitting words out of five match and two out of three do not |
| FittingWordsVoting.FittingCountMonotone | iis-wf/iis-wf-affmatching/src/test/java/eu/dnetlib/iis/wf/affmatching/match/voter/FittingOrgWordsMatchVoterTest.java:93-142 | a more permissive similarity checker never loses fitting words |
| FittingWordsVoting.ReachesRatioMonotone | iis-wf/iis-wf-affmatching/src/test/java/eu/dnetlib/iis/wf/affmatching/match/voter/FittingOrgWordsMatchVoterTest.java:109-142 | more fitting words out of the same total still reach the ratio |
| FittingWordsVoting.VoteMonotoneInChecker | iis-wf/iis-wf-affmatching/src/test/java/eu/dnetlib/iis/wf/affmatching/match/voter/FittingOrgWordsMatchVoterTest.java:93-142 | a positive vote survives replacing the checker by a more permissive one |
| MatchComputing.InitialResults | iis-wf/iis-wf-affmatching/src/test/java/eu/dnetlib/iis/wf/affmatching/match/AffOrgMatchComputerTest.java:162-181 | each pair becomes one result with the same affiliation and organization and the initial strength |
| MatchComputing.ApplyVoters | iis-wf/iis-wf-affmatching/src/test/java/eu/dnetlib/iis/wf/affmatching/match/AffOrgMatchComputerTest.java:135-150 | the chain of per-voter maps keeps the number of results |
| MatchComputing.ApplyVotersPointwise | iis-wf/iis-wf-affmatching/src/test/java/eu/dnetlib/iis/wf/affmatching/match/AffOrgMatchComputerTest.java:146-150 | the chain recalculates every result separately, one step per voter, in voter-list order |
| MatchComputing.RecalculatedAppend | iis-wf/iis-wf-affmatching/src/test/java/eu/dnetlib/iis/wf/affmatching/match/AffOrgMatchComputerTest.java:146-150 | recalculating with a list split in two is recalculating with the first part, then with the second |
| MatchComputing.TwoVoters | iis-wf/iis-wf-affmatching/src/test/java/eu/dnetlib/iis/wf/affmatching/match/AffOrgMatchComputerTest.java:184-203 | with two voters, the result is the recalculator applied for voter 1 and then for voter 2 |
| MatchComputing.PositiveOnly | iis-wf/iis-wf-affmatching/src/test/java/eu/dnetlib/iis/wf/affmatching/match/AffOrgMatchComputerTest.java:206-222 | the filter keeps no more results than it is given, and a result is kept iff it is given and of positive strength; counts and order are stated by PositiveOnlyCount and PositiveOnlyAppend |
| MatchComputing.PositiveOnlyCount | iis-wf/iis-wf-affmatching/src/test/java/eu/dnetlib/iis/wf/affmatching/match/AffOrgMatchComputerTest.java:206-222 | a positive-strength result is kept as many times as it is given, any other not at all |
| MatchComputing.PositiveOnlyAppend | iis-wf/iis-wf-affmatching/src/test/java/eu/dnetlib/iis/wf/affmatching/match/AffOrgMatchComputerTest.java:206-222 | filtering keeps order: the filter of a concatenation is the concatenation of the filters |
| MatchComputing.FilterExamples | iis-wf/iis-wf-affmatching/src/test/java/eu/dnetlib/iis/wf/affmatching/match/AffOrgMatchComputerTest.java:206-222 | a zero-strength result is dropped and a positive one kept |
| MatchComputing.ComputeMatches | iis-wf/iis-wf-affmatching/src/test/java/eu/dnetlib/iis/wf/affmatching/match/AffOrgMatchComputerTest.java:97-119 | null pairs are a null-pointer error; no voters is an illegal-state error; on success there are no more results than pairs, all of positive strength |
| MatchComputing.RecalculatedAll | iis-wf/iis-wf-affmatching/src/test/java/eu/dnetlib/iis/wf/affmatching/match/AffOrgMatchComputerTest.java:123-160 | one recalculated result per pair |
| MatchComputing.ComputeMatchesSpec | iis-wf/iis-wf-affmatching/src/test/java/eu/dnetlib/iis/wf/affmatching/match/AffOrgMatchComputerTest.java:123-160 | with voters, the output is exactly the positive-strength filter of the sequence holding, for each pair in order, the recalculation of its initial result |
| MatchComputing.ComputeMatchesMembers | iis-wf/iis-wf-affmatching/src/test/java/eu/dnetlib/iis/wf/affmatching/match/AffOrgMatchComputerTest.java:123-160 | with voters, the computation succeeds, and a result is in the output iff it is the recalculation of some pair's initial result and its strength is positive |
| ResultChoosing.ChooseBetter | iis-wf/iis-wf-affmatching/src/test/java/eu/dnetlib/iis/wf/affmatching/match/AffMatchResultChooserTest.java:29-106 | a null operand is a null-pointer error; otherwise the result is one of the two operands, has the larger strength, and is the left one on a tie |
| ResultChoosing.ChooseBest | iis-wf/iis-wf-affmatching/src/test/java/eu/dnetlib/iis/wf/affmatching/match/AffMatchResultChooserTest.java:60-106 | the fold yields the first result or one of the rest, and one at least as strong as the first |
| ResultChoosing.ChooseBestIsFirstMax | iis-wf/iis-wf-affmatching/src/test/java/eu/dnetlib/iis/wf/affmatching/match/AffMatchResultChooserTest.java:60-106 | folding the chooser over a group gives the earliest member of maximal strength |
| CountryCodes.Normalize | iis-wf/iis-wf-affmatching/src/test/java/eu/dnetlib/iis/wf/affmatching/normalize/CountryCodeNormalizerTest.java:17-47 | a null or blank code becomes ""; a normalized code is never longer than the given one |
| CountryCodes.NormalizedShape | iis-wf/iis-wf-affmatching/src/test/java/eu/dnetlib/iis/wf/affmatching/normalize/CountryCodeNormalizerTest.java:17-47 | a normalized code is trimmed, lower-case and never "uk" |
| CountryCodes.TrimmedBlankIsEmpty | iis-wf/iis-wf-affmatching/src/test/java/eu/dnetlib/iis/wf/affmatching/normalize/CountryCodeNormalizerTest.java:23-27 | a trimmed blank string is empty |
| CountryCodes.NormalizeIdempotent | iis-wf/iis-wf-affmatching/src/test/java/eu/dnetlib/iis/wf/affmatching/normalize/CountryCodeNormalizerTest.java:17-47 | normalizing a normalized code changes nothing |
| CountryCodes.NormalizeExamples | iis-wf/iis-wf-affmatching/src/test/java/eu/dnetlib/iis/wf/affmatching/normalize/CountryCodeNormalizerTest.java:17-47 | null and blank give "", " PL" and "pl " give "pl", " UK" gives "gb" |
| RuntimeParameters.GetParamValue | iis-common/src/main/java/eu/dnetlib/iis/common/WorkflowRuntimeParameters.java:24-31 | a value is returned iff the name is set to a non-blank value other than $UNDEFINED$, and it is the stored value |
| RuntimeParameters.GetIntegerParamValue | iis-common/src/main/java/eu/dnetlib/iis/common/WorkflowRuntimeParameters.java:38-41 | an unset parameter gives null; a set one is parsed as an integer, and unparsable text is a number-format error |
| RuntimeParameters.GetParamValueWithFallback | iis-common/src/main/java/eu/dnetlib/iis/common/WorkflowRuntimeParameters.java:47-50 | the primary value when it is set, otherwise the fallback parameter's value |
| RuntimeParameters.GetParamValueOrDefault | iis-common/src/main/java/eu/dnetlib/iis/common/WorkflowRuntimeParameters.java:59-61 | the mapped value whenever the name is mapped, otherwise the default |
| RuntimeParameters.IntegerParamRoundTrip | iis-common/src/main/java/eu/dnetlib/iis/common/WorkflowRuntimeParameters.java:38-41 | an integer written as decimal text reads back as the same integer |
| RuntimeParameters.UndefinedReadsAsUnset | iis-common/src/main/java/eu/dnetlib/iis/common/WorkflowRuntimeParameters.java:19-31 | the sentinel and blank values read as unset, in both the string and the integer reader |
| ProcessParameters.GetParameterValue | iis-common/src/test/java/eu/dnetlib/iis/common/java/ProcessUtilsTest.java:31-68 | a value in the parameter map wins; otherwise the configuration value; otherwise null |
| ProcessParameters.PrecedenceCases | iis-common/src/test/java/eu/dnetlib/iis/common/java/ProcessUtilsTest.java:31-68 | the four pinned cases: neither, configuration only, parameters only, and both (parameters win) |
| ProcessParameters.ParametersShadowConfiguration | iis-common/src/test/java/eu/dnetlib/iis/common/java/ProcessUtilsTest.java:58-68 | adding a configuration value never overrides a parameter-map value |
| ReportGenerating.ReportEntries | iis-common/src/test/java/eu/dnetlib/iis/common/report/ReportGeneratorTest.java:36-62 | at most one entry per parameter, every one a counter |
| ReportGenerating.ReportEntriesSpec | iis-common/src/test/java/eu/dnetlib/iis/common/report/ReportGeneratorTest.java:36-62 | an entry appears exactly for a "report."-prefixed parameter; its key is the name without the prefix and its value the parameter's value |
| ReportGenerating.ReportExample | iis-common/src/test/java/eu/dnetlib/iis/common/report/ReportGeneratorTest.java:44-61 | the pinned case: two prefixed parameters give two counters, and the unprefixed one gives none |
| ProjectConverting.FundingClassOf | iis-wf/iis-wf-import/src/main/java/eu/dnetlib/iis/wf/importer/infospace/converter/ProjectConverter.java:98-120 | the only possible failure is the reader's I/O error |
| ProjectConverting.ExtractFundingClass | iis-wf/iis-wf-import/src/main/java/eu/dnetlib/iis/wf/importer/infospace/converter/ProjectConverter.java:98-120 | the loop yields null for a null list, and otherwise the funding class of the first non-blank tree |
| ProjectConverting.NoFundingClassIffAllBlank | iis-wf/iis-wf-import/src/main/java/eu/dnetlib/iis/wf/importer/infospace/converter/ProjectConverter.java:98-120 | no funding class comes out iff every tree is blank |
| ProjectConverting.FirstNonBlankTreeDecides | iis-wf/iis-wf-import/src/main/java/eu/dnetlib/iis/wf/importer/infospace/converter/ProjectConverter.java:100-118 | blank trees before the first non-blank one, and any trees after it, do not matter |
| ProjectConverting.Convert | iis-wf/iis-wf-import/src/main/java/eu/dnetlib/iis/wf/importer/infospace/converter/ProjectConverter.java:50-92 | a null entity is a null-pointer error; a missing project or metadata gives null; a funding-tree read error is passed on; otherwise the result is the project built by the field rules when it is valid, and null when it is not |
| ProjectConverting.ProjectFields | iis-wf/iis-wf-import/src/main/java/eu/dnetlib/iis/wf/importer/infospace/converter/ProjectConverter.java:56-82 | the project keeps the id; the acronym is set only when valid, and the grant id, optional fields and funding class only when not blank |
| ProjectConverting.DataValidity | iis-wf/iis-wf-import/src/main/java/eu/dnetlib/iis/wf/importer/infospace/converter/ProjectConverter.java:156-158 | a built project is kept iff its acronym is valid, its code is not blank or its funding class is not blank; the optional fields alone never keep it |
| ProjectConverting.OptionalsAloneYieldNull | iis-wf/iis-wf-import/src/main/java/eu/dnetlib/iis/wf/importer/infospace/converter/ProjectConverter.java:156-158 | optional1 and optional2 alone do not make a project worth keeping |
| ProjectConverting.ConvertKeepsIdentifyingFields | iis-wf/iis-wf-import/src/main/java/eu/dnetlib/iis/wf/importer/infospace/converter/ProjectConverter.java:56-85 | a valid acronym and a non-blank grant id are carried into the converted project |
| ProjectConverting.LowerKeepsBlank | iis-wf/iis-wf-import/src/main/java/eu/dnetlib/iis/wf/importer/infospace/converter/ProjectConverter.java:126-129 | lower-casing keeps a blank string blank and a non-blank one non-blank |
| ProjectConverting.AcronymValidityIgnoresCase | iis-wf/iis-wf-import/src/main/java/eu/dnetlib/iis/wf/importer/infospace/converter/ProjectConverter.java:126-129 | acronym validity does not depend on letter case |
| ProjectConverting.AcronymExamples | iis-wf/iis-wf-import/src/main/java/eu/dnetlib/iis/wf/importer/infospace/converter/ProjectConverter.java:42-45 | null, blank, "undefined" and "UNKNOWN" are invalid acronyms |
| PersonConverting.NonEmptyValue | iis-wf/iis-wf-import/src/main/java/eu/dnetlib/iis/wf/importer/infospace/converter/PersonConverter.java:47-51 | a field yields its value iff the field and the value are present and the value is non-empty |
| PersonConverting.NonNullValues | iis-wf/iis-wf-import/src/main/java/eu/dnetlib/iis/wf/importer/infospace/converter/PersonConverter.java:53-66 | the kept second names are no more than the given ones |
| PersonConverting.NonNullValuesSpec | iis-wf/iis-wf-import/src/main/java/eu/dnetlib/iis/wf/importer/infospace/converter/PersonConverter.java:53-66 | a value is kept iff some field carries it non-null, and it is kept as many times as such fields occur |
| PersonConverting.NonNullValuesAppend | iis-wf/iis-wf-import/src/main/java/eu/dnetlib/iis/wf/importer/infospace/converter/PersonConverter.java:53-66 | the kept values keep their order: the values of a concatenation are those of its first part followed by those of its second |
| PersonConverting.HandleSecondNames | iis-wf/iis-wf-import/src/main/java/eu/dnetlib/iis/wf/importer/infospace/converter/PersonConverter.java:53-66 | a null or empty list leaves the field unset; otherwise it holds the non-null values in order |
| PersonConverting.Convert | iis-wf/iis-wf-import/src/main/java/eu/dnetlib/iis/wf/importer/infospace/converter/PersonConverter.java:29-43 | a null entity is a null-pointer error; a None person or metadata gives null, a case that stands for Java nulls the protobuf getters never produce; otherwise the person holds the entity id, the non-empty first name and full name, and the non-null second names |
| PersonConverting.DefaultMetadataKeepsOnlyId | iis-wf/iis-wf-import/src/main/java/eu/dnetlib/iis/wf/importer/infospace/converter/PersonConverter.java:31-37 | metadata whose names are unset or empty strings and whose second-name list is unset or empty, as the protobuf default instances are, gives a person holding only the entity id |
| PersonConverting.WhitespaceNameKept | iis-wf/iis-wf-import/src/main/java/eu/dnetlib/iis/wf/importer/infospace/converter/PersonConverter.java:47-51 | a whitespace-only first name is non-empty and therefore kept |
| DocumentMetadataConverting.NewDocumentMetadataConverter | iis-wf/iis-wf-import/src/main/java/eu/dnetlib/iis/wf/importer/infospace/converter/DocumentMetadataConverter.java:55-57 | a null approver is a null-pointer error; otherwise the converter holds it |
| DocumentMetadataConverting.HandleTitle | iis-wf/iis-wf-import/src/main/java/eu/dnetlib/iis/wf/importer/infospace/converter/DocumentMetadataConverter.java:107-125 | the two loops choose the last approved main title, and failing that the first approved title |
| DocumentMetadataConverting.FirstApprovedTitle | iis-wf/iis-wf-import/src/main/java/eu/dnetlib/iis/wf/importer/infospace/converter/DocumentMetadataConverter.java:115-123 | a title is found iff some title is approved, and it is the value of the first approved one |
| DocumentMetadataConverting.TitleOf | iis-wf/iis-wf-import/src/main/java/eu/dnetlib/iis/wf/importer/infospace/converter/DocumentMetadataConverter.java:107-125 | a title is chosen iff some title is approved, and it is then the value of an approved title |
| DocumentMetadataConverting.TitleSpec | iis-wf/iis-wf-import/src/main/java/eu/dnetlib/iis/wf/importer/infospace/converter/DocumentMetadataConverter.java:107-125 | a main title is chosen iff one is approved, and then no approved main title follows it |
| DocumentMetadataConverting.FirstUsableDescription | iis-wf/iis-wf-import/src/main/java/eu/dnetlib/iis/wf/importer/infospace/converter/DocumentMetadataConverter.java:127-138 | an abstract exists iff some description is usable; it is neither blank nor the "null" text |
| DocumentMetadataConverting.HandleDescription | iis-wf/iis-wf-import/src/main/java/eu/dnetlib/iis/wf/importer/infospace/converter/DocumentMetadataConverter.java:127-138 | the loop stops at the first usable description |
| DocumentMetadataConverting.DescriptionIsFirst | iis-wf/iis-wf-import/src/main/java/eu/dnetlib/iis/wf/importer/infospace/converter/DocumentMetadataConverter.java:127-138 | the abstract is the earliest usable description |
| DocumentMetadataConverting.LanguageOf | iis-wf/iis-wf-import/src/main/java/eu/dnetlib/iis/wf/importer/infospace/converter/DocumentMetadataConverter.java:140-145 | the language is set iff the class id is non-blank and not "und" |
| DocumentMetadataConverting.PublisherOf | iis-wf/iis-wf-import/src/main/java/eu/dnetlib/iis/wf/importer/infospace/converter/DocumentMetadataConverter.java:147-152 | the publisher is set iff it is non-blank and approved |
| DocumentMetadataConverting.JournalOf | iis-wf/iis-wf-import/src/main/java/eu/dnetlib/iis/wf/importer/infospace/converter/DocumentMetadataConverter.java:154-159 | the journal is set iff its name is non-blank and approved |
| DocumentMetadataConverting.YearOf | iis-wf/iis-wf-import/src/main/java/eu/dnetlib/iis/wf/importer/infospace/converter/DocumentMetadataConverter.java:161-168 | no year for an unapproved date; otherwise the extracted year |
| DocumentMetadataConverting.KeywordsOf | iis-wf/iis-wf-import/src/main/java/eu/dnetlib/iis/wf/importer/infospace/converter/DocumentMetadataConverter.java:169-180 | keywords are set only when non-empty and are the extracted values; no subjects give none |
| DocumentMetadataConverting.HandlePublicationType | iis-wf/iis-wf-import/src/main/java/eu/dnetlib/iis/wf/importer/infospace/converter/DocumentMetadataConverter.java:182-196 | article iff some instance is of the article class; dataset iff some instance is of the dataset class |
| DocumentMetadataConverting.PidMap | iis-wf/iis-wf-import/src/main/java/eu/dnetlib/iis/wf/importer/infospace/converter/DocumentMetadataConverter.java:203-219 | no key and no value of the identifier map is blank |
| DocumentMetadataConverting.HandleAdditionalIds | iis-wf/iis-wf-import/src/main/java/eu/dnetlib/iis/wf/importer/infospace/converter/DocumentMetadataConverter.java:203-219 | the identifier map is set only when non-empty, and then holds every usable pid |
| DocumentMetadataConverting.PidMapSpec | iis-wf/iis-wf-import/src/main/java/eu/dnetlib/iis/wf/importer/infospace/converter/DocumentMetadataConverter.java:203-219 | a class id is a key iff some usable pid has it; its value is that of the last such pid |
| DocumentMetadataConverting.LaterPidWins | iis-wf/iis-wf-import/src/main/java/eu/dnetlib/iis/wf/importer/infospace/converter/DocumentMetadataConverter.java:208-211 | a later usable pid of a class overrides an earlier one |
| DocumentMetadataConverting.Keys | iis-wf/iis-wf-import/src/main/java/eu/dnetlib/iis/wf/importer/infospace/converter/DocumentMetadataConverter.java:225-235 | one datasource id per collected-from entry, its key, in order |
| DocumentMetadataConverting.HandleDatasourceIds | iis-wf/iis-wf-import/src/main/java/eu/dnetlib/iis/wf/importer/infospace/converter/DocumentMetadataConverter.java:225-235 | unset for an empty list; otherwise the keys of the entries in order |
| DocumentMetadataConverting.ValidAuthors | iis-wf/iis-wf-import/src/main/java/eu/dnetlib/iis/wf/importer/infospace/converter/DocumentMetadataConverter.java:245-287 | every kept author is valid, and there are no more than the sources |
| DocumentMetadataConverting.ValidAuthorsSpec | iis-wf/iis-wf-import/src/main/java/eu/dnetlib/iis/wf/importer/infospace/converter/DocumentMetadataConverter.java:245-287 | an author is kept iff one of its three name parts is non-blank |
| DocumentMetadataConverting.HandlePersons | iis-wf/iis-wf-import/src/main/java/eu/dnetlib/iis/wf/importer/infospace/converter/DocumentMetadataConverter.java:245-265 | no metadata gives no authors; otherwise the authors are set only when some author is kept |
| DocumentMetadataConverting.Convert | iis-wf/iis-wf-import/src/main/java/eu/dnetlib/iis/wf/importer/infospace/converter/DocumentMetadataConverter.java:62-105 | a null entity is a null-pointer error; a missing result gives null; a converted document carries the entity id and every field chosen by its handler: title, abstract, language, publisher, journal, year, keywords, identifiers, publication type, data sources and authors |
| EntityExporting.ConvertToMDStoreId | iis-wf/iis-wf-export-actionmanager/src/main/java/eu/dnetlib/iis/wf/export/actionmanager/entity/AbstractEntityExporterProcess.java:277-287 | null stays null; a prefixed id loses exactly the prefix; any other id is kept |
| EntityExporting.PrefixRoundTrip | iis-wf/iis-wf-export-actionmanager/src/main/java/eu/dnetlib/iis/wf/export/actionmanager/entity/AbstractEntityExporterProcess.java:277-287 | prefixing an MDStore id and converting it back gives the same id |
| EntityExporting.HandleRecord | iis-wf/iis-wf-export-actionmanager/src/main/java/eu/dnetlib/iis/wf/export/actionmanager/entity/AbstractEntityExporterProcess.java:163-184 | a null record stores nothing; an exception from the action factory or the action manager is passed on; actions are stored iff the record is non-null, the factory returns a non-null action list and storing succeeds, and then they are exactly those actions |
| EntityExporting.ExportStep | iis-wf/iis-wf-export-actionmanager/src/main/java/eu/dnetlib/iis/wf/export/actionmanager/entity/AbstractEntityExporterProcess.java:127-146 | one iteration that succeeds keeps the counter equal to the number of exported ids, and adds at most the record's entity id |
| EntityExporting.ExportAll | iis-wf/iis-wf-export-actionmanager/src/main/java/eu/dnetlib/iis/wf/export/actionmanager/entity/AbstractEntityExporterProcess.java:124-147 | the loop keeps the state consistent, and every newly exported id comes from some record |
| EntityExporting.RunSpec | iis-wf/iis-wf-export-actionmanager/src/main/java/eu/dnetlib/iis/wf/export/actionmanager/entity/AbstractEntityExporterProcess.java:103-153 | a missing MDStore location is an invalid-parameter error and a missing action set id a runtime error, both checked before any export; on success the counter equals the number of exported ids |
| EntityExporting.Run | iis-wf/iis-wf-export-actionmanager/src/main/java/eu/dnetlib/iis/wf/export/actionmanager/entity/AbstractEntityExporterProcess.java:103-153 | the while loop with its id set and counter computes the run specification |
| EntityExporting.DistinctSetSize | iis-wf/iis-wf-export-actionmanager/src/main/java/eu/dnetlib/iis/wf/export/actionmanager/entity/AbstractEntityExporterProcess.java:125-135 | a set built from distinct ids has as many members as there are ids |
| EntityExporting.CounterIsSetSize | iis-wf/iis-wf-export-actionmanager/src/main/java/eu/dnetlib/iis/wf/export/actionmanager/entity/AbstractEntityExporterProcess.java:125-135 | the counter always equals the number of exported ids |
| EntityExporting.ExportedIdIsSkipped | iis-wf/iis-wf-export-actionmanager/src/main/java/eu/dnetlib/iis/wf/export/actionmanager/entity/AbstractEntityExporterProcess.java:129 | a record whose entity id was already exported changes nothing |
| EntityExporting.NotFoundIsRetried | iis-wf/iis-wf-export-actionmanager/src/main/java/eu/dnetlib/iis/wf/export/actionmanager/entity/AbstractEntityExporterProcess.java:136-139 | a record that was not found is not marked exported, so a later record with the same id is exported |
| EntityExporting.GeneratorFailureEndsRun | iis-wf/iis-wf-export-actionmanager/src/main/java/eu/dnetlib/iis/wf/export/actionmanager/entity/AbstractEntityExporterProcess.java:139-145 | an exception from the action factory ends the whole run with that exception, whatever records follow |
| EntityExporting.StoreFailureEndsRun | iis-wf/iis-wf-export-actionmanager/src/main/java/eu/dnetlib/iis/wf/export/actionmanager/entity/AbstractEntityExporterProcess.java:139-145 | an exception from the action manager ends the whole run with that exception, whatever records follow |
| DocumentClassesExport.CappedConfidence | iis-wf/iis-wf-export-actionmanager/src/main/java/eu/dnetlib/iis/wf/export/actionmanager/module/DocumentToDocumentClassesActionBuilderModuleFactory.java:154-159 | the confidence is capped at 1 and otherwise kept |
| DocumentClassesExport.ConvertClass | iis-wf/iis-wf-export-actionmanager/src/main/java/eu/dnetlib/iis/wf/export/actionmanager/module/DocumentToDocumentClassesActionBuilderModuleFactory.java:142-164 | a subject comes out iff the class is non-null, has labels and its inference is accepted; it carries the taxonomy name |
| DocumentClassesExport.ConvertedSubjects | iis-wf/iis-wf-export-actionmanager/src/main/java/eu/dnetlib/iis/wf/export/actionmanager/module/DocumentToDocumentClassesActionBuilderModuleFactory.java:127-140 | at most one subject per class, each of the list's taxonomy |
| DocumentClassesExport.ConvertClassList | iis-wf/iis-wf-export-actionmanager/src/main/java/eu/dnetlib/iis/wf/export/actionmanager/module/DocumentToDocumentClassesActionBuilderModuleFactory.java:127-140 | the loop skips classes that yield nothing and keeps list order |
| DocumentClassesExport.ConvertedSubjectsAppend | iis-wf/iis-wf-export-actionmanager/src/main/java/eu/dnetlib/iis/wf/export/actionmanager/module/DocumentToDocumentClassesActionBuilderModuleFactory.java:127-140 | converting two lists in a row is converting their concatenation |
| DocumentClassesExport.ListSubjects | iis-wf/iis-wf-export-actionmanager/src/main/java/eu/dnetlib/iis/wf/export/actionmanager/module/DocumentToDocumentClassesActionBuilderModuleFactory.java:102-125 | a null or empty list contributes nothing |
| DocumentClassesExport.AddClassList | iis-wf/iis-wf-export-actionmanager/src/main/java/eu/dnetlib/iis/wf/export/actionmanager/module/DocumentToDocumentClassesActionBuilderModuleFactory.java:104-123 | one step appends the list's subjects to those gathered so far |
| DocumentClassesExport.ConvertDocumentClasses | iis-wf/iis-wf-export-actionmanager/src/main/java/eu/dnetlib/iis/wf/export/actionmanager/module/DocumentToDocumentClassesActionBuilderModuleFactory.java:102-125 | the five lists are converted one taxonomy after another |
| DocumentClassesExport.OrderedAppend | iis-wf/iis-wf-export-actionmanager/src/main/java/eu/dnetlib/iis/wf/export/actionmanager/module/DocumentToDocumentClassesActionBuilderModuleFactory.java:102-125 | appending subjects of a later taxonomy keeps the taxonomy order |
| DocumentClassesExport.AllSubjectsInTaxonomyOrder | iis-wf/iis-wf-export-actionmanager/src/main/java/eu/dnetlib/iis/wf/export/actionmanager/module/DocumentToDocumentClassesActionBuilderModuleFactory.java:102-125 | with distinct taxonomy names, subjects come out in the order arXiv, DDC, WoS, MeSH, ACM |
| DocumentClassesExport.BuildOafClasses | iis-wf/iis-wf-export-actionmanager/src/main/java/eu/dnetlib/iis/wf/export/actionmanager/module/DocumentToDocumentClassesActionBuilderModuleFactory.java:82-100 | no entity for null classes or when no subject is produced; otherwise the entity has the document id and all subjects |
| DocumentClassesExport.Build | iis-wf/iis-wf-export-actionmanager/src/main/java/eu/dnetlib/iis/wf/export/actionmanager/module/DocumentToDocumentClassesActionBuilderModuleFactory.java:67-75 | no actions without an entity; otherwise the update actions for it |
| DocumentClassesExport.OneConvertibleClassSuffices | iis-wf/iis-wf-export-actionmanager/src/main/java/eu/dnetlib/iis/wf/export/actionmanager/module/DocumentToDocumentClassesActionBuilderModuleFactory.java:127-164 | a class with labels and an accepted inference reaches the converted list |
| DocumentSimilarityExport.BuildOafRel | iis-wf/iis-wf-export-actionmanager/src/main/java/eu/dnetlib/iis/wf/export/actionmanager/module/DocumentSimilarityActionBuilderModuleFactory.java:122-156 | forward: source to target with the has-among class; backward: swapped, with the is-among class; the score is kept |
| DocumentSimilarityExport.CreateAction | iis-wf/iis-wf-export-actionmanager/src/main/java/eu/dnetlib/iis/wf/export/actionmanager/module/DocumentSimilarityActionBuilderModuleFactory.java:90-112 | the action is stored under the relation's source row, with its target as column |
| DocumentSimilarityExport.Build | iis-wf/iis-wf-export-actionmanager/src/main/java/eu/dnetlib/iis/wf/export/actionmanager/module/DocumentSimilarityActionBuilderModuleFactory.java:58-80 | nothing for a null record or a similarity under the threshold; a null similarity that passes is a null-pointer error; otherwise the forward and backward actions |
| DocumentSimilarityExport.DirectionsMirror | iis-wf/iis-wf-export-actionmanager/src/main/java/eu/dnetlib/iis/wf/export/actionmanager/module/DocumentSimilarityActionBuilderModuleFactory.java:67-79 | the two actions mirror each other, with swapped rows and inverse classes, and share the score |
| DocumentSimilarityExport.ThresholdInclusive | iis-wf/iis-wf-export-actionmanager/src/main/java/eu/dnetlib/iis/wf/export/actionmanager/module/DocumentSimilarityActionBuilderModuleFactory.java:63-66 | a similarity equal to the threshold passes, a smaller one does not, and no threshold lets everything pass |
| DocumentSimilarityExport.Instantiate | iis-wf/iis-wf-export-actionmanager/src/main/java/eu/dnetlib/iis/wf/export/actionmanager/module/DocumentSimilarityActionBuilderModuleFactory.java:159-171 | the threshold stays null when the value is unset or $UNDEFINED$; otherwise it is the parsed value |
| CitationsExport.CitationEntry.constructor | iis-wf/iis-wf-export-actionmanager/src/main/java/eu/dnetlib/iis/wf/export/actionmanager/module/CitationsActionBuilderModuleFactory.java:102-121 | a mutable citation entry holding the given field values |
| CitationsExport.DestinationTrust | iis-wf/iis-wf-export-actionmanager/src/main/java/eu/dnetlib/iis/wf/export/actionmanager/module/CitationsActionBuilderModuleFactory.java:133-141 | the trust is confidence x factor, or the factor alone when there is no confidence |
| CitationsExport.ExternalIdentifiers | iis-wf/iis-wf-export-actionmanager/src/main/java/eu/dnetlib/iis/wf/export/actionmanager/module/CitationsActionBuilderModuleFactory.java:142-153 | one typed id per external-id entry, with value and type taken from it and the factor as trust |
| CitationsExport.BlobOf | iis-wf/iis-wf-export-actionmanager/src/main/java/eu/dnetlib/iis/wf/export/actionmanager/module/CitationsActionBuilderModuleFactory.java:129-155 | position and raw text are copied; the identifier list is null iff there is neither a destination nor external ids; otherwise the destination id comes first, then the external ids |
| CitationsExport.Build | iis-wf/iis-wf-export-actionmanager/src/main/java/eu/dnetlib/iis/wf/export/actionmanager/module/CitationsActionBuilderModuleFactory.java:129-155 | the imperative build creates the list on demand and computes the blob entry |
| CitationsExport.NormalizeDestination | iis-wf/iis-wf-export-actionmanager/src/main/java/eu/dnetlib/iis/wf/export/actionmanager/module/CitationsActionBuilderModuleFactory.java:109-113 | the destination becomes the second separator-split token; with fewer than two tokens it is an index-out-of-bounds error |
| CitationsExport.NormalizeExternalIds | iis-wf/iis-wf-export-actionmanager/src/main/java/eu/dnetlib/iis/wf/export/actionmanager/module/CitationsActionBuilderModuleFactory.java:106-108 | an empty external-id map becomes null, a non-empty one is kept, and a null one is a null-pointer error |
| CitationsExport.NormalizeValue | iis-wf/iis-wf-export-actionmanager/src/main/java/eu/dnetlib/iis/wf/export/actionmanager/module/CitationsActionBuilderModuleFactory.java:105-114 | normalisation keeps position and raw text, keeps the destination's presence, and leaves no empty external-id map |
| CitationsExport.NormalizeEntry | iis-wf/iis-wf-export-actionmanager/src/main/java/eu/dnetlib/iis/wf/export/actionmanager/module/CitationsActionBuilderModuleFactory.java:105-114 | the entry is updated in place to its normalised value, or the error is reported |
| CitationsExport.NormalizeEntries | iis-wf/iis-wf-export-actionmanager/src/main/java/eu/dnetlib/iis/wf/export/actionmanager/module/CitationsActionBuilderModuleFactory.java:104-119 | on success every entry holds the normalised form of its old value and the result is exactly the set of their blob entries; on failure there is a first entry k whose old value cannot be normalised: the entries before it are normalised, k keeps only its external-id step, the later ones are untouched, and the error is k's |
| CitationsExport.Normalize | iis-wf/iis-wf-export-actionmanager/src/main/java/eu/dnetlib/iis/wf/export/actionmanager/module/CitationsActionBuilderModuleFactory.java:102-121 | a null list gives null; otherwise, on success, every entry holds the normalised form of its old value and the result is the set of their blob entries; on failure, the call stopped at the first entry that cannot be normalised, with its error |
| CitationsExport.BuildOafCitations | iis-wf/iis-wf-export-actionmanager/src/main/java/eu/dnetlib/iis/wf/export/actionmanager/module/CitationsActionBuilderModuleFactory.java:75-94 | no entity for null or empty citations; otherwise, on success, every citation is normalised from its old value and the entity has the document id and exactly their blob entries; a failure is the error of the first citation that cannot be normalised |
| CitationsExport.BuildActions | iis-wf/iis-wf-export-actionmanager/src/main/java/eu/dnetlib/iis/wf/export/actionmanager/module/CitationsActionBuilderModuleFactory.java:58-68 | no actions without citations; with citations, success means a document id and the actions are createUpdateActions of that id and the entity of normalised citations; all citations normalised but a null id is a null-pointer error; any other failure is the first citation's normalisation error |
| CitationsExport.DestinationLosesPrefix | iis-wf/iis-wf-export-actionmanager/src/main/java/eu/dnetlib/iis/wf/export/actionmanager/module/CitationsActionBuilderModuleFactory.java:109-113 | a destination of the form prefix, separator, id becomes the id |
| CitationsExport.UnprefixedDestinationFails | iis-wf/iis-wf-export-actionmanager/src/main/java/eu/dnetlib/iis/wf/export/actionmanager/module/CitationsActionBuilderModuleFactory.java:109-113 | a destination without a separator cannot be normalised |
| PatentRetrieval.GetId | iis-wf/iis-wf-referenceextraction/src/main/java/eu/dnetlib/iis/wf/referenceextraction/patent/PatentMetadataRetrieverJob.java:203-205 | a patent is identified by its application number |
| PatentRetrieval.ToBeProcessed | iis-wf/iis-wf-referenceextraction/src/main/java/eu/dnetlib/iis/wf/referenceextraction/patent/PatentMetadataRetrieverJob.java:91-95 | a patent is sent for retrieval iff it is in the input and has no cache entry, and never more patents than were given; ToBeProcessedCount states the counts |
| PatentRetrieval.ToBeProcessedCount | iis-wf/iis-wf-referenceextraction/src/main/java/eu/dnetlib/iis/wf/referenceextraction/patent/PatentMetadataRetrieverJob.java:91-95 | an uncached patent is sent as many times as it occurs in the input, a cached one never |
| PatentRetrieval.CacheEntriesOf | iis-wf/iis-wf-referenceextraction/src/main/java/eu/dnetlib/iis/wf/referenceextraction/patent/PatentMetadataRetrieverJob.java:91-96 | the cache entries of a patent are exactly those with its id |
| PatentRetrieval.CacheEntriesOfCount | iis-wf/iis-wf-referenceextraction/src/main/java/eu/dnetlib/iis/wf/referenceextraction/patent/PatentMetadataRetrieverJob.java:91-96 | the entries of a patent are the cache entries with its id, each as often as it is in the cache |
| PatentRetrieval.ReturnedFromCache | iis-wf/iis-wf-referenceextraction/src/main/java/eu/dnetlib/iis/wf/referenceextraction/patent/PatentMetadataRetrieverJob.java:96 | a cache entry is served iff its id is that of some input patent; ReturnedFromCacheCount states the counts |
| PatentRetrieval.ReturnedFromCacheCount | iis-wf/iis-wf-referenceextraction/src/main/java/eu/dnetlib/iis/wf/referenceextraction/patent/PatentMetadataRetrieverJob.java:96 | no deduplication: a cache entry is served once per input patent with its id, times its own multiplicity in the cache |
| PatentRetrieval.SplitIsPartition | iis-wf/iis-wf-referenceextraction/src/main/java/eu/dnetlib/iis/wf/referenceextraction/patent/PatentMetadataRetrieverJob.java:91-96 | every input patent is either served from the cache or sent for retrieval, never both |
| PatentRetrieval.ResponsesOf | iis-wf/iis-wf-referenceextraction/src/main/java/eu/dnetlib/iis/wf/referenceextraction/patent/PatentMetadataRetrieverJob.java:141-147 | one (application number, response) pair per patent sent |
| PatentRetrieval.TextOf | iis-wf/iis-wf-referenceextraction/src/main/java/eu/dnetlib/iis/wf/referenceextraction/patent/PatentMetadataRetrieverJob.java:153-158 | the document text is the content on success and empty otherwise, under the patent's id |
| PatentRetrieval.DocumentsForCache | iis-wf/iis-wf-referenceextraction/src/main/java/eu/dnetlib/iis/wf/referenceextraction/patent/PatentMetadataRetrieverJob.java:149-159 | every response except a transient failure is cached, as its document text |
| PatentRetrieval.FaultsForCache | iis-wf/iis-wf-referenceextraction/src/main/java/eu/dnetlib/iis/wf/referenceextraction/patent/PatentMetadataRetrieverJob.java:161-166 | only persistent failures are cached as faults |
| PatentRetrieval.DocumentsForOutput | iis-wf/iis-wf-referenceextraction/src/main/java/eu/dnetlib/iis/wf/referenceextraction/patent/PatentMetadataRetrieverJob.java:168-177 | one output document per response, in order |
| PatentRetrieval.FaultsForOutput | iis-wf/iis-wf-referenceextraction/src/main/java/eu/dnetlib/iis/wf/referenceextraction/patent/PatentMetadataRetrieverJob.java:179-184 | every failure, transient or persistent, becomes an output fault |
| PatentRetrieval.ClassificationCounts | iis-wf/iis-wf-referenceextraction/src/main/java/eu/dnetlib/iis/wf/referenceextraction/patent/PatentMetadataRetrieverJob.java:149-184 | cached documents plus transient failures are all responses; output faults are cached faults plus transient failures |
| PatentRetrieval.ReportEntries | iis-wf/iis-wf-referenceextraction/src/main/java/eu/dnetlib/iis/wf/referenceextraction/patent/PatentMetadataRetrieverJob.java:186-194 | three counters, in order: from cache, processed and faults, with the collection sizes |
| PatentRetrieval.RunJob | iis-wf/iis-wf-referenceextraction/src/main/java/eu/dnetlib/iis/wf/referenceextraction/patent/PatentMetadataRetrieverJob.java:91-135 | the output is the cached entries followed by the retrieved documents; only the new faults are output; a new cache version is stored iff something is to be cached |
| PatentRetrieval.OneDocumentPerRetrievedPatent | iis-wf/iis-wf-referenceextraction/src/main/java/eu/dnetlib/iis/wf/referenceextraction/patent/PatentMetadataRetrieverJob.java:118-127 | every uncached input patent yields an output document with its application number |
| MadisFile.ToUpper | iis-3rdparty-madis/src/main/resources/eu/dnetlib/iis/3rdparty/scripts/madis/functions/vtable/file.py:161-163 | upper-casing keeps the length and upper-cases each character |
| MadisFile.NullMarkerIgnoresCase | iis-3rdparty-madis/src/main/resources/eu/dnetlib/iis/3rdparty/scripts/madis/functions/vtable/file.py:161-163 | a cell is a null marker iff it reads "null" in any letter case |
| MadisFile.NullifyRow | iis-3rdparty-madis/src/main/resources/eu/dnetlib/iis/3rdparty/scripts/madis/functions/vtable/file.py:161-163 | a cell becomes None iff it is a null marker; any other cell is kept |
| MadisFile.Nullify | iis-3rdparty-madis/src/main/resources/eu/dnetlib/iis/3rdparty/scripts/madis/functions/vtable/file.py:161-163 | every row keeps its width and is nullified cell by cell |
| MadisFile.NullifyLosesOnlyCase | iis-3rdparty-madis/src/main/resources/eu/dnetlib/iis/3rdparty/scripts/madis/functions/vtable/file.py:161-163 | a nullified cell still holds its text, or was a null marker |
| MadisFile.RowsOfWidth | iis-3rdparty-madis/src/main/resources/eu/dnetlib/iis/3rdparty/scripts/madis/functions/vtable/file.py:176-180 | the kept rows all have the expected width and are no more than the input |
| MadisFile.RowsOfWidthMembers | iis-3rdparty-madis/src/main/resources/eu/dnetlib/iis/3rdparty/scripts/madis/functions/vtable/file.py:176-180 | a row is kept iff it is in the input and has the expected width |
| MadisFile.Strict0 | iis-3rdparty-madis/src/main/resources/eu/dnetlib/iis/3rdparty/scripts/madis/functions/vtable/file.py:176-180 | the generator loop yields exactly the rows of the expected width, in order |
| MadisFile.Strict0KeepsWellFormedFile | iis-3rdparty-madis/src/main/resources/eu/dnetlib/iis/3rdparty/scripts/madis/functions/vtable/file.py:176-180 | a file whose rows all have the expected width passes unchanged |
| MadisFile.FirstWrongWidth | iis-3rdparty-madis/src/main/resources/eu/dnetlib/iis/3rdparty/scripts/madis/functions/vtable/file.py:203-210 | the index of the first row of the wrong width, or the row count when there is none |
| MadisFile.Strict1 | iis-3rdparty-madis/src/main/resources/eu/dnetlib/iis/3rdparty/scripts/madis/functions/vtable/file.py:203-210 | the rows before the first wrong-width row are yielded; that row raises an error naming its 1-based line, its width and the expected width |
| MadisFile.WrongWidthLines | iis-3rdparty-madis/src/main/resources/eu/dnetlib/iis/3rdparty/scripts/madis/functions/vtable/file.py:212-220 | one report line per wrong-width row, at most one per row |
| MadisFile.WrongWidthLinesMembers | iis-3rdparty-madis/src/main/resources/eu/dnetlib/iis/3rdparty/scripts/madis/functions/vtable/file.py:212-220 | a report line is produced iff some row has the wrong width; it carries that row's line number, width, the expected width and the comma-joined contents |
| MadisFile.StrictMinus1 | iis-3rdparty-madis/src/main/resources/eu/dnetlib/iis/3rdparty/scripts/madis/functions/vtable/file.py:212-220 | the loop reports the wrong-width rows, with numbering from 2 after a header and from 1 otherwise |
| MadisFile.KeptPlusReportedIsAll | iis-3rdparty-madis/src/main/resources/eu/dnetlib/iis/3rdparty/scripts/madis/functions/vtable/file.py:176-220 | the rows strict 0 keeps plus the rows strict -1 reports are all the rows |
| MadisFile.HeaderShiftsOnlyStrictMinus1 | iis-3rdparty-madis/src/main/resources/eu/dnetlib/iis/3rdparty/scripts/madis/functions/vtable/file.py:212-220 | with a header line, strictminus1 reports the first bad row k with line number k + 2 |
| MadisFile.ShiftLines | iis-3rdparty-madis/src/main/resources/eu/dnetlib/iis/3rdparty/scripts/madis/functions/vtable/file.py:212-220 | shifting keeps the number of reported lines |
| MadisFile.HeaderShiftsLineNumbers | iis-3rdparty-madis/src/main/resources/eu/dnetlib/iis/3rdparty/scripts/madis/functions/vtable/file.py:212-220 | a header changes nothing in the strictminus1 report but the line numbers, each of which grows by one |
| MadisFile.AsciiOnly | iis-3rdparty-madis/src/main/resources/eu/dnetlib/iis/3rdparty/scripts/madis/functions/vtable/file.py:222-223 | only ASCII characters remain, and a character remains iff it is ASCII and in the input; AsciiOnlyAppend states the order |
| MadisFile.AsciiOnlyAppend | iis-3rdparty-madis/src/main/resources/eu/dnetlib/iis/3rdparty/scripts/madis/functions/vtable/file.py:222-223 | the ASCII characters keep their order: the ASCII part of a concatenation is that of its first piece followed by that of its second |
| MadisFile.Strip | iis-3rdparty-madis/src/main/resources/eu/dnetlib/iis/3rdparty/scripts/madis/functions/vtable/file.py:222-223 | the stripped text neither starts nor ends with whitespace and consists of characters of the input |
| MadisFile.StripBounds | iis-3rdparty-madis/src/main/resources/eu/dnetlib/iis/3rdparty/scripts/madis/functions/vtable/file.py:222-223 | the stripped text is a contiguous slice of the input, with only whitespace removed at either end |
| MadisFile.CleanBom | iis-3rdparty-madis/src/main/resources/eu/dnetlib/iis/3rdparty/scripts/madis/functions/vtable/file.py:222-223 | the cleaned name is ASCII only and stripped |
| MadisFile.BomIsDropped | iis-3rdparty-madis/src/main/resources/eu/dnetlib/iis/3rdparty/scripts/madis/functions/vtable/file.py:222-223 | a leading byte-order mark disappears |
| MadisFile.CleanBomIdempotent | iis-3rdparty-madis/src/main/resources/eu/dnetlib/iis/3rdparty/scripts/madis/functions/vtable/file.py:222-223 | cleaning a cleaned name changes nothing |
| MadisFile.PyHead | iis-3rdparty-madis/src/main/resources/eu/dnetlib/iis/3rdparty/scripts/madis/functions/vtable/file.py:199-201 | the first k cells as Python's r[:k] gives them, the whole row when k is past its end |
| MadisFile.PyTail | iis-3rdparty-madis/src/main/resources/eu/dnetlib/iis/3rdparty/scripts/madis/functions/vtable/file.py:199-201 | the cells from k on, as r[k:]; head and tail together give the row back |
| MadisFile.TojListRow | iis-3rdparty-madis/src/main/resources/eu/dnetlib/iis/3rdparty/scripts/madis/functions/vtable/file.py:199-201 | the first k cells, then the rest as one JSON list cell |
| MadisFile.TojList | iis-3rdparty-madis/src/main/resources/eu/dnetlib/iis/3rdparty/scripts/madis/functions/vtable/file.py:199-201 | every row is packed, in order |
| MadisFile.TojDict | iis-3rdparty-madis/src/main/resources/eu/dnetlib/iis/3rdparty/scripts/madis/functions/vtable/file.py:195-197 | the first k cells, then the rest zipped with the header as one JSON object cell |
| MadisFile.TojListLosesNothing | iis-3rdparty-madis/src/main/resources/eu/dnetlib/iis/3rdparty/scripts/madis/functions/vtable/file.py:199-201 | a packed row keeps its first k cells, and its last cell encodes exactly the rest |
| MadisFile.ParseCursorOptions | iis-3rdparty-madis/src/main/resources/eu/dnetlib/iis/3rdparty/scripts/madis/functions/vtable/file.py:226-257 | encoding, strict, fast and toj are taken out of the options; a bad strict is a number error; toj defaults to -1, or 0 when unparsable; any remaining option outside the CSV keywords is an "Invalid parameter" error |
| MadisFile.UnknownOptionRejected | iis-3rdparty-madis/src/main/resources/eu/dnetlib/iis/3rdparty/scripts/madis/functions/vtable/file.py:254-257 | an option that is neither a cursor option nor a CSV keyword is rejected |
| MadisFile.EffectiveStrict | iis-3rdparty-madis/src/main/resources/eu/dnetlib/iis/3rdparty/scripts/madis/functions/vtable/file.py:335-358 | on the JSON and line paths the strict value is kept as given; on the CSV path an explicit value is kept, and an absent one becomes 1 without fast and stays unset with fast |
| MadisFile.FilterOf | iis-3rdparty-madis/src/main/resources/eu/dnetlib/iis/3rdparty/scripts/madis/functions/vtable/file.py:364-372 | strict 0, 1 and -1 select the drop, stop and report filters; any other value none |
| MadisFile.StrictDefault | iis-3rdparty-madis/src/main/resources/eu/dnetlib/iis/3rdparty/scripts/madis/functions/vtable/file.py:335-358 | a CSV file read without options other than the header stops at the first wrong-width row |
| MadisFile.ExpectedWidth | iis-3rdparty-madis/src/main/resources/eu/dnetlib/iis/3rdparty/scripts/madis/functions/vtable/file.py:339-362 | with a header, or when the first row is peeked, the expected width is that row's width; otherwise it is the number of declared columns |
| MadisFile.GeneratedColumns | iis-3rdparty-madis/src/main/resources/eu/dnetlib/iis/3rdparty/scripts/madis/functions/vtable/file.py:378-380 | n text columns named C1 .. Cn |
| MadisFile.GeneratedNamesDistinct | iis-3rdparty-madis/src/main/resources/eu/dnetlib/iis/3rdparty/scripts/madis/functions/vtable/file.py:378-380 | the generated column names are pairwise distinct |
| MadisFile.HeaderColumns | iis-3rdparty-madis/src/main/resources/eu/dnetlib/iis/3rdparty/scripts/madis/functions/vtable/file.py:374-377 | one text column per header cell, named by its cleaned text; a null header cell is an error |
| MadisFile.CsvColumns | iis-3rdparty-madis/src/main/resources/eu/dnetlib/iis/3rdparty/scripts/madis/functions/vtable/file.py:370-380 | strict -1 appends the four report columns to the declared ones; otherwise declared names are kept, and for a first read with none declared the cleaned header or C1..Cn are used |
| MadisFile.LineColumns | iis-3rdparty-madis/src/main/resources/eu/dnetlib/iis/3rdparty/scripts/madis/functions/vtable/file.py:381-388 | a file read line by line gets the text column C1 after the declared columns |
| MadisFile.TruncateColumns | iis-3rdparty-madis/src/main/resources/eu/dnetlib/iis/3rdparty/scripts/madis/functions/vtable/file.py:392 | the pop loop keeps exactly the first toj columns |
| MadisFile.TojColumns | iis-3rdparty-madis/src/main/resources/eu/dnetlib/iis/3rdparty/scripts/madis/functions/vtable/file.py:390-399 | with toj set, the first toj columns plus Cjdict when there is a header, or Cjlist otherwise |
| MadisFile.TojKeepsRowsAligned | iis-3rdparty-madis/src/main/resources/eu/dnetlib/iis/3rdparty/scripts/madis/functions/vtable/file.py:390-399 | a row as wide as the column list is, after packing, as wide as the truncated column list plus its JSON column |
| TagHierarchy.IsWithinElement | iis-wf/iis-wf-ingest-pmc/src/test/java/eu/dnetlib/iis/wf/ingest/pmc/metadata/TagHierarchyUtilsTest.java:19-27 | an element within its expected direct parent also has that parent among its parents |
| TagHierarchy.HasAmongParents | iis-wf/iis-wf-ingest-pmc/src/test/java/eu/dnetlib/iis/wf/ingest/pmc/metadata/TagHierarchyUtilsTest.java:29-46 | when it holds, the element is the expected one and the stack holds at least as many names as are expected |
| TagHierarchy.MatchesFromTop | iis-wf/iis-wf-ingest-pmc/src/test/java/eu/dnetlib/iis/wf/ingest/pmc/metadata/TagHierarchyUtilsTest.java:29-46 | expected parents can only be found on a stack holding at least as many names |
| TagHierarchy.TopDown | iis-wf/iis-wf-ingest-pmc/src/test/java/eu/dnetlib/iis/wf/ingest/pmc/metadata/TagHierarchyUtilsTest.java:29-46 | the stack read from its top downward |
| TagHierarchy.SubsequenceDropFirst | iis-wf/iis-wf-ingest-pmc/src/test/java/eu/dnetlib/iis/wf/ingest/pmc/metadata/TagHierarchyUtilsTest.java:36-44 | dropping the first wanted name keeps an ordered selection a selection |
| TagHierarchy.MatchesFromTopIsSubsequence | iis-wf/iis-wf-ingest-pmc/src/test/java/eu/dnetlib/iis/wf/ingest/pmc/metadata/TagHierarchyUtilsTest.java:36-44 | the expected parents are found iff they form an ordered selection of the stack read top first |
| TagHierarchy.SingleNameAnywhere | iis-wf/iis-wf-ingest-pmc/src/test/java/eu/dnetlib/iis/wf/ingest/pmc/metadata/TagHierarchyUtilsTest.java:40-42 | a single name is found iff it is somewhere on the stack |
| TagHierarchy.AbsentNameFails | iis-wf/iis-wf-ingest-pmc/src/test/java/eu/dnetlib/iis/wf/ingest/pmc/metadata/TagHierarchyUtilsTest.java:45 | a list holding a name that is not on the stack is never found |
| TagHierarchy.WrongOrderFails | iis-wf/iis-wf-ingest-pmc/src/test/java/eu/dnetlib/iis/wf/ingest/pmc/metadata/TagHierarchyUtilsTest.java:43-44 | two names asked for bottom-up rather than top-down are not found |
| TagHierarchy.WithinElementIsTopMatch | iis-wf/iis-wf-ingest-pmc/src/test/java/eu/dnetlib/iis/wf/ingest/pmc/metadata/TagHierarchyUtilsTest.java:19-27 | isWithinElement implies hasAmongParents for that parent, and fails when the top of the stack is another name |
| DedupApprover.Approvals | iis-wf/iis-wf-import/src/test/java/eu/dnetlib/iis/wf/importer/content/approver/DeduplicationIdentifiableContentApproverTest.java:22-32 | one answer per call |
| DedupApprover.ApprovalsSpec | iis-wf/iis-wf-import/src/test/java/eu/dnetlib/iis/wf/importer/content/approver/DeduplicationIdentifiableContentApproverTest.java:22-32 | the i-th call is approved iff its id was neither seen before nor used by an earlier call |
| DedupApprover.FirstOccurrenceApproved | iis-wf/iis-wf-import/src/test/java/eu/dnetlib/iis/wf/importer/content/approver/DeduplicationIdentifiableContentApproverTest.java:22-32 | from a fresh approver, a call is approved iff it is the first with its id |
| DedupApprover.DeduplicationApprover.constructor | iis-wf/iis-wf-import/src/test/java/eu/dnetlib/iis/wf/importer/content/approver/DeduplicationIdentifiableContentApproverTest.java:14-20 | a fresh approver has seen no id |
| DedupApprover.DeduplicationApprover.Approve | iis-wf/iis-wf-import/src/test/java/eu/dnetlib/iis/wf/importer/content/approver/DeduplicationIdentifiableContentApproverTest.java:22-32 | approved iff the id is new, whatever the content; the id is remembered |
| DedupApprover.DeduplicationApprover.ApproveEach | iis-wf/iis-wf-import/src/test/java/eu/dnetlib/iis/wf/importer/content/approver/DeduplicationIdentifiableContentApproverTest.java:22-32 | a run of calls answers as the approval specification says and remembers every id |
| ContentImporter.Classify | iis-wf/iis-wf-import/src/test/java/eu/dnetlib/iis/wf/importer/content/DocumentContentUrlBasedImporterMapperTest.java:78-220 | written, with the record's id and the fetched bytes, iff the declared size is non-negative, within the limit and the fetch succeeds; size-invalid iff the declared size is negative or the fetch of a record within the limit reports an invalid size; size-exceeded iff a non-negative size is over the limit; unavailable iff the fetch of a record within the limit fails with an I/O error |
| ContentImporter.LimitIsInKilobytes | iis-wf/iis-wf-import/src/test/java/eu/dnetlib/iis/wf/importer/content/DocumentContentUrlBasedImporterMapperTest.java:196-220 | 1025 KB exceeds a 1 MB limit; with no limit a small record is written |
| ContentImporter.ImporterMapper.constructor | iis-wf/iis-wf-import/src/test/java/eu/dnetlib/iis/wf/importer/content/DocumentContentUrlBasedImporterMapperTest.java:57-76 | setup reads the limit once; nothing is written and every counter is zero |
| ContentImporter.ImporterMapper.Map | iis-wf/iis-wf-import/src/test/java/eu/dnetlib/iis/wf/importer/content/DocumentContentUrlBasedImporterMapperTest.java:78-220 | a record is written or adds one to exactly one counter, as the classification says |
| ContentDispatcher.MimeTypesOf | iis-wf/iis-wf-import/src/test/java/eu/dnetlib/iis/wf/importer/content/DocumentContentUrlDispatcherTest.java:70-90 | an output without a mime-type property serves no type |
| ContentDispatcher.EntriesOf | iis-wf/iis-wf-import/src/test/java/eu/dnetlib/iis/wf/importer/content/DocumentContentUrlDispatcherTest.java:70-90 | the entries of an output route exactly its listed types to it |
| ContentDispatcher.Routing | iis-wf/iis-wf-import/src/test/java/eu/dnetlib/iis/wf/importer/content/DocumentContentUrlDispatcherTest.java:70-102 | every routed mime type goes to one of the named outputs |
| ContentDispatcher.RoutingSpec | iis-wf/iis-wf-import/src/test/java/eu/dnetlib/iis/wf/importer/content/DocumentContentUrlDispatcherTest.java:70-102 | a mime type is routed iff some output lists it, and then to an output that lists it |
| ContentDispatcher.Dispatcher.constructor | iis-wf/iis-wf-import/src/test/java/eu/dnetlib/iis/wf/importer/content/DocumentContentUrlDispatcherTest.java:45-57 | a fresh dispatcher has no routing, has written nothing and is open |
| ContentDispatcher.Dispatcher.Setup | iis-wf/iis-wf-import/src/test/java/eu/dnetlib/iis/wf/importer/content/DocumentContentUrlDispatcherTest.java:59-90 | a missing multiple-outputs property is an illegal-argument error; otherwise the routing is built from the listed outputs |
| ContentDispatcher.Dispatcher.Map | iis-wf/iis-wf-import/src/test/java/eu/dnetlib/iis/wf/importer/content/DocumentContentUrlDispatcherTest.java:70-145 | a record with a routed mime type goes, unchanged, to its output; a null or unsupported type writes nothing; the default output is never written |
| ContentDispatcher.Dispatcher.Cleanup | iis-wf/iis-wf-import/src/test/java/eu/dnetlib/iis/wf/importer/content/DocumentContentUrlDispatcherTest.java:147-161 | cleanup closes the named outputs and changes nothing else |
| IdMapping.ExternalIdKey | iis-wf/iis-wf-citationmatching-direct/src/test/java/eu/dnetlib/iis/wf/citationmatching/direct/service/IdentifierMappingExtractorTest.java:156-166 | the key is the document's external id of the given type |
| IdMapping.Group | iis-wf/iis-wf-citationmatching-direct/src/test/java/eu/dnetlib/iis/wf/citationmatching/direct/service/IdentifierMappingExtractorTest.java:121-126 | a group holds exactly the kept documents with that key |
| IdMapping.Keys | iis-wf/iis-wf-citationmatching-direct/src/test/java/eu/dnetlib/iis/wf/citationmatching/direct/service/IdentifierMappingExtractorTest.java:118-124 | a key appears iff some document has an id of the type with that value |
| IdMapping.ExtractIdMapping | iis-wf/iis-wf-citationmatching-direct/src/test/java/eu/dnetlib/iis/wf/citationmatching/direct/service/IdentifierMappingExtractorTest.java:72-131 | a null collection, id type or pick function is a null-pointer error; otherwise one entry per key, mapping it to the id of the document picked from its group |
| IdMapping.EveryIdentifiedDocumentMapped | iis-wf/iis-wf-citationmatching-direct/src/test/java/eu/dnetlib/iis/wf/citationmatching/direct/service/IdentifierMappingExtractorTest.java:136-153 | a document with an id of the type is represented: its key is in the mapping and it belongs to that key's group |
| IdMapping.MappedIdCarriesKey | iis-wf/iis-wf-citationmatching-direct/src/test/java/eu/dnetlib/iis/wf/citationmatching/direct/service/IdentifierMappingExtractorTest.java:169-179 | when the pick function chooses from its group, every mapped id belongs to a document with that key |
| ReferenceReader.CitationKey | iis-wf/iis-wf-citationmatching/src/test/java/eu/dnetlib/iis/workflows/citationmatching/ReferenceMetadataInputReaderTest.java:107-113 | the key is "cit_", the document id, "_" and the decimal position |
| ReferenceReader.DocumentToCitations | iis-wf/iis-wf-citationmatching/src/test/java/eu/dnetlib/iis/workflows/citationmatching/ReferenceMetadataInputReaderTest.java:89-115 | one pair per reference, in order, keyed by the citation key and holding the reference itself |
| ReferenceReader.ReadCitations | iis-wf/iis-wf-citationmatching/src/test/java/eu/dnetlib/iis/workflows/citationmatching/ReferenceMetadataInputReaderTest.java:89-115 | every citation is a reference of some input document, keyed by that document's id and the reference's position |
| ReferenceReader.OneCitationPerReference | iis-wf/iis-wf-citationmatching/src/test/java/eu/dnetlib/iis/workflows/citationmatching/ReferenceMetadataInputReaderTest.java:101-105 | as many citations come out as there are references |
| ReferenceReader.CitationKeyInjective | iis-wf/iis-wf-citationmatching/src/test/java/eu/dnetlib/iis/workflows/citationmatching/ReferenceMetadataInputReaderTest.java:107-113 | a key determines the document id and the position, even when the id contains "_" |
| ReferenceReader.DistinctPositionsDistinctKeys | iis-wf/iis-wf-citationmatching/src/test/java/eu/dnetlib/iis/workflows/citationmatching/ReferenceMetadataInputReaderTest.java:107-113 | within a document, distinct positions give distinct keys |

## Left out

- The Spark, Hadoop, HBase, MDStore, action-manager and network I/O around every component is left out: reading and writing Avro, counters' transport, caches' locks and file-system paths. Each component is modelled on the values it reads and writes.
- Spark does not order its outputs. The joins (HashBucketJoin, DocOrgJoin) and the cache lookup (ReturnedFromCache) are stated through membership and multiplicities, so they hold for any order. The sequences elsewhere fix one order the source does not promise.
- The code of these collaborators is not part of this model. Each is a parameter, and its own behaviour is not modelled:
  - StringFilter, the similarity calculators and checkers, the bucket hashers and the strength recalculator;
  - the best-result picker, FieldApprover and MetadataConverterUtils;
  - the funding-tree XPath reader, ActionFactory, buildInference and FaultUtils;
  - the content fetcher, and Python's int(), float() and json.dumps.
- Floating-point strengths, ratios, confidences and similarities are real numbers. Rounding is not modelled.
- AffOrgMatching.AffOrgMatcher.Match: the joiner is any two-argument join function, since the matcher calls a two-argument join while the joiners shown take three.
- FittingOrgWordsMatchVoter, AffOrgMatchComputer, AffMatchResultChooser and CountryCodeNormalizer are modelled from their tests, since their main code is not part of this model. So are TagHierarchyUtils, DeduplicationIdentifiableContentApprover, the newer DocumentContentUrlBasedImporterMapper, DocumentContentUrlDispatcher, IdentifierMappingExtractor, ReferenceMetadataInputReader, ProcessUtils and ReportGenerator.
- NameStrictWithCharFilteringMatchVoter: the name source that its test injects is not in the voter's code, so the vote compares the affiliation name with the organization's name field only.
- JavaStrings: lower- and upper-casing are ASCII-only. Character.isWhitespace is limited to ASCII whitespace. No Unicode case mapping is modelled. JavaStrings.ParseInt accepts only the ASCII digits 0-9, while Integer.parseInt also accepts the other Unicode decimal digits.
- CommonWordsVoting.CommonWordsVoter.toString and every other toString are left out. They only describe the object.
- CitationsExport.NormalizeEntries: it requires the entries to be distinct objects. The list of the same entry twice, which Java would normalise twice in place, is not modelled.
- CitationsExport.Normalize: it carries the same distinct-entries requirement, and the TreeSet's ordering is modelled as a set.
- CitationsExport.BuildActions: createUpdateActions is a parameter, so the content of the actions it produces is not modelled; which entity and id it is given is stated.
- DocumentClassesExport.Build: the actions are those of createUpdateActions, a parameter. Their content is not modelled.
- DocumentSimilarityExport.CreateAction: the action payload's provenance and data-info fields are not modelled.
- EntityExporting.Run: the MDStore delivery, the action factory and the action manager's store are functions from their arguments to outcomes, exceptions included. The closing of the iterator and the action manager is not modelled. deliverMDStoreIds is a parameter.
- ContentImporter.Classify: the exact boundary of the size limit (`>` against limit x 1024) and the absence of a limit are fixed by the model but not by the tests.
- ContentDispatcher.Dispatcher.Setup: a mime type listed by two outputs is routed to the later one, which no test fixes. A blank property value is not treated as missing.
- ContentDispatcher.MimeTypesOf: the list is split on commas into non-empty tokens.
- MatchComputing.PositiveOnly: its own contract states the length bound and membership only. The counts and the order are stated by PositiveOnlyCount and PositiveOnlyAppend, since a count in the function's own contract made every proof that uses the function too costly.
- PersonConverting.NonNullValues: its own contract states the length bound only. Membership and counts are in NonNullValuesSpec and order in NonNullValuesAppend, for the same reason.
- PatentRetrieval.ToBeProcessed: its own contract states membership and the length bound. The counts are in ToBeProcessedCount, for the same reason.
- PatentRetrieval.ReturnedFromCache: its own contract states membership. The counts are in ReturnedFromCacheCount, for the same reason.
- MadisFile.AsciiOnly: its own contract states the ASCII-only result and membership. The order is in AsciiOnlyAppend, for the same reason.
- PersonConverting.Convert: a None person or metadata stands for a Java null, but the protobuf getters tested at PersonConverter.java:31 return default instances, never null. So the Success(None) branch models code the program never reaches. An entity without person data gives, in the program, a person holding only the id. DefaultMetadataKeepsOnlyId proves that outcome for the default instances.
- PatentRetrieval.RunJob: the storing of the cache, its locks and the output writes are left out. Faults are produced by a parameter.
- MadisFile: opening files, URLs, zip and gzip archives, encodings, number conversion (convnumbers), the JSON and line paths' parsing and the text of the error messages are left out.
- MadisFile.Strict1: the error carries the line number, found width and expected width, but not the message text.
- MadisFile.TojDict and MadisFile.TojList: the JSON text is produced by a parameter standing for json.dumps.
- DocOrgRelation.AffMatchDocumentOrganization.HashCode: string hashes are those of Java's String.hashCode, with the 32-bit wrap-around written out. Only its range and its agreement with equals are stated.
- Concurrency, logging and the workflow definitions (Oozie) are left out.
