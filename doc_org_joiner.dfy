// DocOrgRelationAffOrgJoiner: pairs an affiliation with an organization when
// a document-organization relation links the affiliation's document to the
// organization's id. A relation with a null document or organization id
// links nothing.

module DocOrgJoining {
  import opened Wrappers
  import opened AffMatchModel
  import opened DocOrgRelation
  import opened SeqCounts

  /** The organizations with the given id, each paired with aff, in order. */
  function OrgsWithId(aff: Affiliation, orgId: Option<string>, orgs: seq<Organization>): seq<AffOrgPair>
  {
    if orgs == [] then []
    else (if orgId == Some(orgs[0].id) then [(aff, orgs[0])] else [])
         + OrgsWithId(aff, orgId, orgs[1..])
  }

  /** The pairs one affiliation contributes: one per relation of its document
      and organization of that relation's id. */
  function RelatedOrgs(aff: Affiliation, orgs: seq<Organization>,
                       docOrgs: seq<AffMatchDocumentOrganization>): seq<AffOrgPair>
    reads docOrgs
  {
    if docOrgs == [] then []
    else RelationPairs(aff, orgs, docOrgs[0]) + RelatedOrgs(aff, orgs, docOrgs[1..])
  }

  /** join: affiliations keyed by document id joined with the relations, then
      re-keyed by organization id and joined with the organizations. The
      result is unordered; only its multiset of pairs is meaningful. */
  function DocOrgJoin(affs: seq<Affiliation>, orgs: seq<Organization>,
                      docOrgs: seq<AffMatchDocumentOrganization>): (r: seq<AffOrgPair>)
    reads docOrgs
    ensures affs == [] || docOrgs == [] ==> r == []
  {
    if affs == [] then []
    else RelatedOrgs(affs[0], orgs, docOrgs) + DocOrgJoin(affs[1..], orgs, docOrgs)
  }

  /** The number of relations linking a document to an organization. */
  function RelationCount(docOrgs: seq<AffMatchDocumentOrganization>, documentId: string,
                         organizationId: string): nat
    reads docOrgs
  {
    if docOrgs == [] then 0
    else (if docOrgs[0].documentId == Some(documentId) && docOrgs[0].organizationId == Some(organizationId)
          then 1 else 0)
         + RelationCount(docOrgs[1..], documentId, organizationId)
  }

  predicate Linked(docOrgs: seq<AffMatchDocumentOrganization>, documentId: string, organizationId: string)
    reads docOrgs
  {
    exists k :: 0 <= k < |docOrgs| && docOrgs[k].documentId == Some(documentId)
                && docOrgs[k].organizationId == Some(organizationId)
  }

  lemma {:induction false} RelationCountPositive(docOrgs: seq<AffMatchDocumentOrganization>,
                                                 documentId: string, organizationId: string)
    ensures RelationCount(docOrgs, documentId, organizationId) > 0 <==> Linked(docOrgs, documentId, organizationId)
  {
    if docOrgs != [] {
      RelationCountPositive(docOrgs[1..], documentId, organizationId);
      if Linked(docOrgs[1..], documentId, organizationId) {
        var k :| 0 <= k < |docOrgs[1..]| && docOrgs[1..][k].documentId == Some(documentId)
                 && docOrgs[1..][k].organizationId == Some(organizationId);
        assert docOrgs[k + 1] == docOrgs[1..][k];
      }
      if Linked(docOrgs, documentId, organizationId) {
        var k :| 0 <= k < |docOrgs| && docOrgs[k].documentId == Some(documentId)
                 && docOrgs[k].organizationId == Some(organizationId);
        if k > 0 {
          assert docOrgs[1..][k - 1] == docOrgs[k];
        }
      }
    }
  }

  lemma {:induction false} OrgsWithIdCount(aff: Affiliation, orgId: Option<string>, orgs: seq<Organization>,
                                           p: AffOrgPair)
    ensures multiset(OrgsWithId(aff, orgId, orgs))[p]
            == if p.0 == aff && orgId == Some(p.1.id) then multiset(orgs)[p.1] else 0
  {
    if orgs != [] {
      var rest := OrgsWithId(aff, orgId, orgs[1..]);
      var first: seq<AffOrgPair> := if orgId == Some(orgs[0].id) then [(aff, orgs[0])] else [];
      assert OrgsWithId(aff, orgId, orgs) == first + rest;
      CountConcat(first, rest, p);
      OrgsWithIdCount(aff, orgId, orgs[1..], p);
      CountCons(orgs, p.1);
    }
  }

  /** The pairs one relation contributes for one affiliation. */
  function RelationPairs(aff: Affiliation, orgs: seq<Organization>, d: AffMatchDocumentOrganization): seq<AffOrgPair>
    reads d
  {
    if d.documentId == Some(aff.documentId) then OrgsWithId(aff, d.organizationId, orgs) else []
  }

  lemma RelationPairsCount(aff: Affiliation, orgs: seq<Organization>, d: AffMatchDocumentOrganization, p: AffOrgPair)
    ensures multiset(RelationPairs(aff, orgs, d))[p]
            == if p.0 == aff && d.documentId == Some(aff.documentId) && d.organizationId == Some(p.1.id)
               then multiset(orgs)[p.1] else 0
  {
    OrgsWithIdCount(aff, d.organizationId, orgs, p);
  }

  lemma {:induction false} RelatedOrgsCount(aff: Affiliation, orgs: seq<Organization>,
                                            docOrgs: seq<AffMatchDocumentOrganization>, p: AffOrgPair)
    ensures multiset(RelatedOrgs(aff, orgs, docOrgs))[p]
            == if p.0 == aff then RelationCount(docOrgs, aff.documentId, p.1.id) * multiset(orgs)[p.1] else 0
  {
    if docOrgs != [] {
      var first := RelationPairs(aff, orgs, docOrgs[0]);
      var rest := RelatedOrgs(aff, orgs, docOrgs[1..]);
      assert RelatedOrgs(aff, orgs, docOrgs) == first + rest;
      CountConcat(first, rest, p);
      RelatedOrgsCount(aff, orgs, docOrgs[1..], p);
      RelationPairsCount(aff, orgs, docOrgs[0], p);
      if p.0 == aff {
        var head := if docOrgs[0].documentId == Some(aff.documentId)
                       && docOrgs[0].organizationId == Some(p.1.id) then 1 else 0;
        var m := multiset(orgs)[p.1];
        var r := RelationCount(docOrgs[1..], aff.documentId, p.1.id);
        assert RelationCount(docOrgs, aff.documentId, p.1.id) == head + r;
        Distribute(head, r, m);
      }
    }
  }

  /** Each pair occurs as often as its affiliation, times the relations
      linking its document to the organization, times its organization. */
  lemma {:induction false} DocOrgJoinCount(affs: seq<Affiliation>, orgs: seq<Organization>,
                                           docOrgs: seq<AffMatchDocumentOrganization>, p: AffOrgPair)
    ensures multiset(DocOrgJoin(affs, orgs, docOrgs))[p]
            == multiset(affs)[p.0] * RelationCount(docOrgs, p.0.documentId, p.1.id) * multiset(orgs)[p.1]
  {
    if affs != [] {
      var first := RelatedOrgs(affs[0], orgs, docOrgs);
      var rest := DocOrgJoin(affs[1..], orgs, docOrgs);
      CountConcat(first, rest, p);
      DocOrgJoinCount(affs[1..], orgs, docOrgs, p);
      RelatedOrgsCount(affs[0], orgs, docOrgs, p);
      CountCons(affs, p.0);
      Distribute3(if affs[0] == p.0 then 1 else 0, multiset(affs[1..])[p.0],
                  RelationCount(docOrgs, p.0.documentId, p.1.id), multiset(orgs)[p.1]);
    }
  }

  /** A pair is in the join exactly when both sides are in the inputs and a
      relation links the affiliation's document to the organization. */
  lemma DocOrgJoinMembership(affs: seq<Affiliation>, orgs: seq<Organization>,
                             docOrgs: seq<AffMatchDocumentOrganization>, aff: Affiliation, org: Organization)
    ensures (aff, org) in DocOrgJoin(affs, orgs, docOrgs)
            <==> aff in affs && org in orgs && Linked(docOrgs, aff.documentId, org.id)
  {
    DocOrgJoinCount(affs, orgs, docOrgs, (aff, org));
    RelationCountPositive(docOrgs, aff.documentId, org.id);
    ProductPositive(multiset(affs)[aff], RelationCount(docOrgs, aff.documentId, org.id), multiset(orgs)[org]);
  }
}
