// AffOrgMatcher: joins affiliations with organizations, computes the strength
// of every joined pair and picks the best result per affiliation. The
// matcher calls a two-argument join, so it is generic over a join function.

module AffOrgMatching {
  import opened Wrappers
  import opened AffMatchModel
  import opened HashBucketJoining
  import opened MatchComputing

  type Joiner = (seq<Affiliation>, seq<Organization>) -> seq<AffOrgPair>
  type Picker = seq<MatchResult> -> seq<MatchResult>

  class AffOrgMatcher<V> {
    var affOrgJoiner: Joiner
    var affOrgMatchComputer: AffOrgMatchComputer<V>
    const bestAffMatchResultPicker: Picker

    /** The defaults: a hash-bucket joiner with its default hashers, a fresh
        computer and the best-result picker, all supplied by the caller. */
    constructor (defaultAffiliationHasher: BucketHasher<Affiliation>,
                 defaultOrganizationHasher: BucketHasher<Organization>,
                 defaultComputer: AffOrgMatchComputer<V>, picker: Picker)
      ensures forall affs, orgs :: affOrgJoiner(affs, orgs)
                == HashBucketJoin(affs, orgs, defaultAffiliationHasher, defaultOrganizationHasher)
      ensures affOrgMatchComputer == defaultComputer
      ensures bestAffMatchResultPicker == picker
    {
      affOrgJoiner := (affs, orgs) => HashBucketJoin(affs, orgs, defaultAffiliationHasher, defaultOrganizationHasher);
      affOrgMatchComputer := defaultComputer;
      bestAffMatchResultPicker := picker;
    }

    /** match: null inputs are rejected before any work; then join, compute
        and pick, in that order. An empty voter list in the computer surfaces
        as its illegal-state error. */
    function Match(affiliations: Option<seq<Affiliation>>, organizations: Option<seq<Organization>>)
      : (r: Result<seq<MatchResult>>)
      reads this
      ensures affiliations.None? || organizations.None? ==> r == Failure(NullPointer)
      ensures affiliations.Some? && organizations.Some? ==>
                var computed := ComputeMatches(affOrgMatchComputer,
                                               Some(affOrgJoiner(affiliations.value, organizations.value)));
                (computed.Failure? ==> r == Failure(computed.error))
                && (computed.Success? ==> r == Success(bestAffMatchResultPicker(computed.value)))
    {
      if affiliations.None? || organizations.None? then Failure(NullPointer)
      else
        var joined := affOrgJoiner(affiliations.value, organizations.value);
        var matched :- ComputeMatches(affOrgMatchComputer, Some(joined));
        Success(bestAffMatchResultPicker(matched))
    }

    method SetAffOrgJoiner(joiner: Joiner)
      modifies this
      ensures affOrgJoiner == joiner
      ensures affOrgMatchComputer == old(affOrgMatchComputer)
    {
      affOrgJoiner := joiner;
    }

    method SetAffOrgMatchComputer(computer: AffOrgMatchComputer<V>)
      modifies this
      ensures affOrgMatchComputer == computer
      ensures affOrgJoiner == old(affOrgJoiner)
    {
      affOrgMatchComputer := computer;
    }
  }

  /** With voters configured, the picker is handed exactly the positive
      results of recalculating the pairs the joiner produced, in the joiner's
      order and with its multiplicities. */
  lemma MatchFeedsPicker<V>(m: AffOrgMatcher<V>, affs: seq<Affiliation>, orgs: seq<Organization>)
    requires m.affOrgMatchComputer.affOrgMatchVoters != []
    ensures m.Match(Some(affs), Some(orgs))
            == Success(m.bestAffMatchResultPicker(PositiveOnly(RecalculatedAll(m.affOrgJoiner(affs, orgs),
                                                                               m.affOrgMatchComputer))))
  {
    ComputeMatchesSpec(m.affOrgMatchComputer, m.affOrgJoiner(affs, orgs));
  }

  /** A matcher whose computer has no voters fails on any input. */
  lemma NoVotersFails<V>(m: AffOrgMatcher<V>, affs: seq<Affiliation>, orgs: seq<Organization>)
    requires m.affOrgMatchComputer.affOrgMatchVoters == []
    ensures m.Match(Some(affs), Some(orgs)) == Failure(IllegalState)
  {
  }
}
