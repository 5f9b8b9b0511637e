// AffMatchDocumentOrganization: a document-to-organization relation record.
// The constructor demands two non-blank ids; the setters take anything,
// including null (None).

module DocOrgRelation {
  import opened Wrappers
  import opened JavaStrings

  class AffMatchDocumentOrganization {
    var documentId: Option<string>
    var organizationId: Option<string>

    /** The constructor once its checks have passed. */
    constructor (documentId: string, organizationId: string)
      requires !IsBlank(documentId) && !IsBlank(organizationId)
      ensures this.documentId == Some(documentId) && this.organizationId == Some(organizationId)
    {
      this.documentId := Some(documentId);
      this.organizationId := Some(organizationId);
    }

    function GetDocumentId(): Option<string>
      reads this
    {
      documentId
    }

    function GetOrganizationId(): Option<string>
      reads this
    {
      organizationId
    }

    /** The setters do not check for blank ids and change one field each. */
    method SetDocumentId(id: Option<string>)
      modifies this
      ensures documentId == id && organizationId == old(organizationId)
    {
      documentId := id;
    }

    method SetOrganizationId(id: Option<string>)
      modifies this
      ensures organizationId == id && documentId == old(documentId)
    {
      organizationId := id;
    }

    /** equals: an instance of this class with the same two ids. */
    predicate Equals(other: object?)
      reads this, other
    {
      other is AffMatchDocumentOrganization
      && var o := other as AffMatchDocumentOrganization;
         documentId == o.documentId && organizationId == o.organizationId
    }

    /** hashCode: Guava's Objects.hashCode over the two ids. */
    function HashCode(): (h: int)
      reads this
      ensures MinInt32 <= h <= MaxInt32
    {
      ObjectsHashCode2(documentId, organizationId)
    }
  }

  /** The hash of a nullable string: 0 for null. */
  function NullableHash(s: Option<string>): int
  {
    if s.None? then 0 else StringHash(s.value)
  }

  /** Arrays.hashCode of a two-element array: 31 * (31 * 1 + h1) + h2 in int
      arithmetic. */
  function ObjectsHashCode2(a: Option<string>, b: Option<string>): (h: int)
    ensures MinInt32 <= h <= MaxInt32
  {
    Wrap32(31 * Wrap32(31 + NullableHash(a)) + NullableHash(b))
  }

  /** The constructor with its checks: a blank (or null) id is an
      illegal-argument error and creates no object. */
  method NewAffMatchDocumentOrganization(documentId: Option<string>, organizationId: Option<string>)
    returns (r: Result<AffMatchDocumentOrganization>)
    ensures r.Failure? <==> IsBlankOrNull(documentId) || IsBlankOrNull(organizationId)
    ensures r.Failure? ==> r.error == IllegalArgument
    ensures r.Success? ==> fresh(r.value) && r.value.documentId == documentId
                           && r.value.organizationId == organizationId
  {
    if IsBlankOrNull(documentId) || IsBlankOrNull(organizationId) {
      return Failure(IllegalArgument);
    }
    var d := new AffMatchDocumentOrganization(documentId.value, organizationId.value);
    return Success(d);
  }

  /** equals is reflexive and symmetric, and never holds for null. */
  lemma EqualsReflexiveSymmetric(x: AffMatchDocumentOrganization, y: AffMatchDocumentOrganization)
    ensures x.Equals(x)
    ensures x.Equals(y) <==> y.Equals(x)
    ensures !x.Equals(null)
  {
  }

  /** Equal objects have equal hash codes. */
  lemma EqualsImpliesEqualHash(x: AffMatchDocumentOrganization, y: AffMatchDocumentOrganization)
    requires x.Equals(y)
    ensures x.HashCode() == y.HashCode()
  {
  }
}
