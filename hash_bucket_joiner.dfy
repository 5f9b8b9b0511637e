// AffOrgHashBucketJoiner: pairs every affiliation with every organization
// that falls into the same hash bucket. The document-organization relations
// passed to it are ignored.

module HashBucketJoining {
  import opened AffMatchModel
  import opened DocOrgRelation
  import opened SeqCounts

  type BucketHasher<-T> = T -> string

  /** The organizations of orgs in bucket h, each paired with aff, in order. */
  function BucketPartners(aff: Affiliation, h: string, orgs: seq<Organization>,
                          orgHasher: BucketHasher<Organization>): seq<AffOrgPair>
  {
    if orgs == [] then []
    else (if orgHasher(orgs[0]) == h then [(aff, orgs[0])] else [])
         + BucketPartners(aff, h, orgs[1..], orgHasher)
  }

  /** The join of the two key-by-hash collections on the hash. Spark does not
      order the result, so only the multiset of pairs is meaningful. */
  function HashBucketJoin(affs: seq<Affiliation>, orgs: seq<Organization>,
                          affHasher: BucketHasher<Affiliation>,
                          orgHasher: BucketHasher<Organization>): (r: seq<AffOrgPair>)
    ensures affs == [] || orgs == [] ==> r == []
  {
    if affs == [] then []
    else BucketPartners(affs[0], affHasher(affs[0]), orgs, orgHasher)
         + HashBucketJoin(affs[1..], orgs, affHasher, orgHasher)
  }

  class AffOrgHashBucketJoiner {
    var affiliationBucketHasher: BucketHasher<Affiliation>
    var organizationBucketHasher: BucketHasher<Organization>

    /** Starts with the default hashers, which are parameters here. */
    constructor (defaultAffiliationHasher: BucketHasher<Affiliation>,
                 defaultOrganizationHasher: BucketHasher<Organization>)
      ensures affiliationBucketHasher == defaultAffiliationHasher
      ensures organizationBucketHasher == defaultOrganizationHasher
    {
      affiliationBucketHasher := defaultAffiliationHasher;
      organizationBucketHasher := defaultOrganizationHasher;
    }

    /** join: the relations are not consulted. */
    function Join(affs: seq<Affiliation>, orgs: seq<Organization>,
                  docOrgs: seq<AffMatchDocumentOrganization>): (r: seq<AffOrgPair>)
      reads this
      ensures affs == [] || orgs == [] ==> r == []
    {
      HashBucketJoin(affs, orgs, affiliationBucketHasher, organizationBucketHasher)
    }

    method SetAffiliationBucketHasher(hasher: BucketHasher<Affiliation>)
      modifies this
      ensures affiliationBucketHasher == hasher
      ensures organizationBucketHasher == old(organizationBucketHasher)
    {
      affiliationBucketHasher := hasher;
    }

    method SetOrganizationBucketHasher(hasher: BucketHasher<Organization>)
      modifies this
      ensures organizationBucketHasher == hasher
      ensures affiliationBucketHasher == old(affiliationBucketHasher)
    {
      organizationBucketHasher := hasher;
    }
  }

  lemma {:induction false} BucketPartnersCount(aff: Affiliation, h: string, orgs: seq<Organization>,
                                               orgHasher: BucketHasher<Organization>, p: AffOrgPair)
    ensures multiset(BucketPartners(aff, h, orgs, orgHasher))[p]
            == if p.0 == aff && orgHasher(p.1) == h then multiset(orgs)[p.1] else 0
  {
    if orgs != [] {
      var rest := BucketPartners(aff, h, orgs[1..], orgHasher);
      var first: seq<AffOrgPair> := if orgHasher(orgs[0]) == h then [(aff, orgs[0])] else [];
      assert BucketPartners(aff, h, orgs, orgHasher) == first + rest;
      CountConcat(first, rest, p);
      BucketPartnersCount(aff, h, orgs[1..], orgHasher, p);
      CountCons(orgs, p.1);
    }
  }

  /** Each pair occurs as often as its affiliation times its organization when
      the two hash to the same bucket, and not at all otherwise. */
  lemma {:induction false} HashBucketJoinCount(affs: seq<Affiliation>, orgs: seq<Organization>,
                                               affHasher: BucketHasher<Affiliation>,
                                               orgHasher: BucketHasher<Organization>, p: AffOrgPair)
    ensures multiset(HashBucketJoin(affs, orgs, affHasher, orgHasher))[p]
            == if affHasher(p.0) == orgHasher(p.1) then multiset(affs)[p.0] * multiset(orgs)[p.1] else 0
  {
    if affs != [] {
      var first := BucketPartners(affs[0], affHasher(affs[0]), orgs, orgHasher);
      var rest := HashBucketJoin(affs[1..], orgs, affHasher, orgHasher);
      CountConcat(first, rest, p);
      HashBucketJoinCount(affs[1..], orgs, affHasher, orgHasher, p);
      BucketPartnersCount(affs[0], affHasher(affs[0]), orgs, orgHasher, p);
      CountCons(affs, p.0);
      Distribute(if affs[0] == p.0 then 1 else 0, multiset(affs[1..])[p.0], multiset(orgs)[p.1]);
    }
  }

  /** A pair is in the join exactly when both sides are in the inputs and
      share a bucket. */
  lemma HashBucketJoinMembership(affs: seq<Affiliation>, orgs: seq<Organization>,
                                 affHasher: BucketHasher<Affiliation>,
                                 orgHasher: BucketHasher<Organization>, aff: Affiliation, org: Organization)
    ensures (aff, org) in HashBucketJoin(affs, orgs, affHasher, orgHasher)
            <==> aff in affs && org in orgs && affHasher(aff) == orgHasher(org)
  {
    HashBucketJoinCount(affs, orgs, affHasher, orgHasher, (aff, org));
    var j := HashBucketJoin(affs, orgs, affHasher, orgHasher);
    assert (aff, org) in j <==> multiset(j)[(aff, org)] > 0;
    assert aff in affs <==> multiset(affs)[aff] > 0;
    assert org in orgs <==> multiset(orgs)[org] > 0;
  }

  /** The joiner's result does not depend on the relations it is given. */
  lemma JoinIgnoresRelations(j: AffOrgHashBucketJoiner, affs: seq<Affiliation>, orgs: seq<Organization>,
                             d1: seq<AffMatchDocumentOrganization>, d2: seq<AffMatchDocumentOrganization>)
    ensures j.Join(affs, orgs, d1) == j.Join(affs, orgs, d2)
  {
  }
}
