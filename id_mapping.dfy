// IdentifierMappingExtractor: maps each external identifier of a given type
// to the id of one document that carries it. Documents are filtered on
// having that identifier, keyed by it, grouped by key, one document per
// group is picked by a supplied function, and its own id is kept.

module IdMapping {
  import opened Wrappers

  /** A document's external identifiers, by type; the map may be null. */
  datatype DocumentMetadata = DocumentMetadata(id: string, externalIdentifiers: Option<map<string, string>>)

  /** Picks one document from a non-empty group (BestDocumentPicker et al.,
      whose code is not part of this model). */
  type PickOne = seq<DocumentMetadata> -> DocumentMetadata

  /** The filter: the external-id map is present and holds the id type. */
  predicate HasIdOfType(doc: DocumentMetadata, idType: string)
  {
    doc.externalIdentifiers.Some? && idType in doc.externalIdentifiers.value
  }

  /** The key function: the document's external id of that type. */
  function ExternalIdKey(doc: DocumentMetadata, idType: string): (key: string)
    requires HasIdOfType(doc, idType)
    ensures key == doc.externalIdentifiers.value[idType]
  {
    doc.externalIdentifiers.value[idType]
  }

  /** The group of one key: the kept documents whose external id is key. */
  function Group(docs: seq<DocumentMetadata>, idType: string, key: string): (r: seq<DocumentMetadata>)
    ensures forall d :: d in r <==> d in docs && HasIdOfType(d, idType) && ExternalIdKey(d, idType) == key
  {
    if docs == [] then []
    else
      (if HasIdOfType(docs[0], idType) && ExternalIdKey(docs[0], idType) == key then [docs[0]] else [])
      + Group(docs[1..], idType, key)
  }

  /** The keys the grouping produces. */
  function Keys(docs: seq<DocumentMetadata>, idType: string): (r: set<string>)
    ensures forall k :: k in r <==> exists d :: d in docs && HasIdOfType(d, idType) && ExternalIdKey(d, idType) == k
  {
    set d | d in docs && HasIdOfType(d, idType) :: ExternalIdKey(d, idType)
  }

  /** extractIdMapping: a null document collection, id type or pick
      function is a null-pointer error; otherwise one entry per distinct
      external id, whose value is the id of the document picked from that
      id's group. */
  function ExtractIdMapping(docs: Option<seq<DocumentMetadata>>, idType: Option<string>, pick: Option<PickOne>)
    : (r: Result<map<string, string>>)
    ensures docs.None? || idType.None? || pick.None? <==> r == Failure(NullPointer)
    ensures r.Success? ==> r.value.Keys == Keys(docs.value, idType.value)
    ensures r.Success? ==> forall k :: k in r.value ==> r.value[k] == pick.value(Group(docs.value, idType.value, k)).id
  {
    if docs.None? || idType.None? || pick.None? then Failure(NullPointer)
    else
      var keys := Keys(docs.value, idType.value);
      Success(map k | k in keys :: pick.value(Group(docs.value, idType.value, k)).id)
  }

  /** Every document with an id of the type is represented: its external id
      is a key of the mapping, and its group holds it. */
  lemma EveryIdentifiedDocumentMapped(docs: seq<DocumentMetadata>, idType: string, pick: PickOne, d: DocumentMetadata)
    requires d in docs && HasIdOfType(d, idType)
    ensures ExtractIdMapping(Some(docs), Some(idType), Some(pick)).Success?
    ensures ExternalIdKey(d, idType) in ExtractIdMapping(Some(docs), Some(idType), Some(pick)).value
    ensures d in Group(docs, idType, ExternalIdKey(d, idType))
  {
  }

  /** When the pick function chooses from the group it is given, every
      mapped id belongs to a document that carries that external id. */
  lemma MappedIdCarriesKey(docs: seq<DocumentMetadata>, idType: string, pick: PickOne, k: string)
    requires forall g :: g != [] ==> pick(g) in g
    requires k in ExtractIdMapping(Some(docs), Some(idType), Some(pick)).value
    ensures exists d :: d in docs && HasIdOfType(d, idType) && ExternalIdKey(d, idType) == k
                        && d.id == ExtractIdMapping(Some(docs), Some(idType), Some(pick)).value[k]
  {
    var g := Group(docs, idType, k);
    var w :| w in docs && HasIdOfType(w, idType) && ExternalIdKey(w, idType) == k;
    assert w in g;
    assert pick(g) in g;
  }
}
