// CitationsActionBuilderModuleFactory: the citations of a document are
// normalised in place, converted to blob citation entries and exported as
// the extra info of a result entity.

module CitationsExport {
  import opened Wrappers
  import opened JavaStrings

  /** An external-id map as its entry set, in iteration order: (key, value)
      pairs. */
  type ExternalIds = seq<(string, string)>

  /** The fields of a citation entry. */
  datatype CitationValue = CitationValue(
    position: int,
    rawText: Option<string>,
    destinationDocumentId: Option<string>,
    confidenceLevel: Option<real>,
    externalDestinationDocumentIds: Option<ExternalIds>)

  /** A citation entry record, which normalize updates in place. */
  class CitationEntry {
    var position: int
    var rawText: Option<string>
    var destinationDocumentId: Option<string>
    var confidenceLevel: Option<real>
    var externalDestinationDocumentIds: Option<ExternalIds>

    function Value(): CitationValue
      reads this
    {
      CitationValue(position, rawText, destinationDocumentId, confidenceLevel, externalDestinationDocumentIds)
    }

    constructor (v: CitationValue)
      ensures Value() == v
    {
      position := v.position;
      rawText := v.rawText;
      destinationDocumentId := v.destinationDocumentId;
      confidenceLevel := v.confidenceLevel;
      externalDestinationDocumentIds := v.externalDestinationDocumentIds;
    }
  }

  datatype TypedId = TypedId(value: string, idType: string, confidenceLevel: real)

  datatype BlobCitationEntry = BlobCitationEntry(position: int, rawText: Option<string>, identifiers: Option<seq<TypedId>>)

  /** The exported entity: its id and the normalised citations it carries as
      extra info (the serialisation is not modelled). */
  datatype Oaf = Oaf(id: Option<string>, citations: set<BlobCitationEntry>)

  datatype AtomicAction = AtomicAction(rowKey: string, payload: Oaf)

  /** The module's settings: the row-prefix separator characters, the
      openaire citation type, the confidence-to-trust factor (all from
      classes not part of this model) and createUpdateActions. */
  datatype CitationsModule = CitationsModule(
    rowPrefixSeparator: string,
    openaireType: string,
    factor: real,
    createUpdateActions: (string, Oaf) -> seq<AtomicAction>)

  datatype Citations = Citations(documentId: Option<string>, citations: Option<seq<CitationEntry>>)

  // ---------------------------------------------------------------------------
  // Static build: a citation entry becomes a blob entry.

  /** The trust of the destination id: confidence times the factor, or the
      factor alone without a confidence. */
  function DestinationTrust(confidenceLevel: Option<real>, factor: real): (t: real)
    ensures confidenceLevel.None? ==> t == factor
    ensures confidenceLevel.Some? ==> t == confidenceLevel.value * factor
  {
    if confidenceLevel.Some? then confidenceLevel.value * factor else 1.0 * factor
  }

  function ExternalIdentifiers(ext: ExternalIds, factor: real): (ids: seq<TypedId>)
    ensures |ids| == |ext|
    ensures forall k :: 0 <= k < |ext| ==> ids[k] == TypedId(ext[k].1, ext[k].0, factor)
  {
    seq(|ext|, k requires 0 <= k < |ext| => TypedId(ext[k].1, ext[k].0, factor))
  }

  predicate HasExternalIds(entry: CitationValue)
  {
    entry.externalDestinationDocumentIds.Some? && entry.externalDestinationDocumentIds.value != []
  }

  /** The blob entry of a citation: position and raw text copied; the
      destination id first, then one identifier per external id; no list at
      all when there is neither. */
  function BlobOf(entry: CitationValue, openaireType: string, factor: real): (b: BlobCitationEntry)
    ensures b.position == entry.position && b.rawText == entry.rawText
    ensures b.identifiers.None? <==> entry.destinationDocumentId.None? && !HasExternalIds(entry)
    ensures b.identifiers.Some? ==>
              |b.identifiers.value| == (if entry.destinationDocumentId.Some? then 1 else 0)
                                       + (if HasExternalIds(entry) then |entry.externalDestinationDocumentIds.value| else 0)
    ensures entry.destinationDocumentId.Some? ==>
              b.identifiers.value[0] == TypedId(entry.destinationDocumentId.value, openaireType,
                                                DestinationTrust(entry.confidenceLevel, factor))
    ensures HasExternalIds(entry) ==>
              var offset := if entry.destinationDocumentId.Some? then 1 else 0;
              var ext := entry.externalDestinationDocumentIds.value;
              forall k :: 0 <= k < |ext| ==> b.identifiers.value[offset + k] == TypedId(ext[k].1, ext[k].0, factor)
  {
    var ext := if HasExternalIds(entry) then ExternalIdentifiers(entry.externalDestinationDocumentIds.value, factor)
               else [];
    var identifiers :=
      if entry.destinationDocumentId.Some? then
        Some([TypedId(entry.destinationDocumentId.value, openaireType,
                      DestinationTrust(entry.confidenceLevel, factor))] + ext)
      else if HasExternalIds(entry) then Some(ext)
      else None;
    BlobCitationEntry(entry.position, entry.rawText, identifiers)
  }

  /** build: creates the identifier list on demand and appends to it. */
  method Build(entry: CitationValue, openaireType: string, factor: real) returns (result: BlobCitationEntry)
    ensures result == BlobOf(entry, openaireType, factor)
  {
    ghost var expected := BlobOf(entry, openaireType, factor).identifiers;
    var identifiers: Option<seq<TypedId>> := None;
    if entry.destinationDocumentId.Some? {
      identifiers := Some([TypedId(entry.destinationDocumentId.value, openaireType,
                                   DestinationTrust(entry.confidenceLevel, factor))]);
    }
    if HasExternalIds(entry) {
      if identifiers.None? {
        identifiers := Some([]);
      }
      var ext := entry.externalDestinationDocumentIds.value;
      var base := identifiers.value;
      var i := 0;
      assert ExternalIdentifiers(ext[..0], factor) == [];
      assert base + [] == base;
      while i < |ext|
        invariant 0 <= i <= |ext|
        invariant identifiers == Some(base + ExternalIdentifiers(ext[..i], factor))
      {
        var id := TypedId(ext[i].1, ext[i].0, factor);
        assert (base + ExternalIdentifiers(ext[..i], factor)) + [id]
               == base + (ExternalIdentifiers(ext[..i], factor) + [id]);
        assert ExternalIdentifiers(ext[..i + 1], factor) == ExternalIdentifiers(ext[..i], factor) + [id];
        identifiers := Some(identifiers.value + [id]);
        i := i + 1;
      }
      assert ext[..i] == ext;
      assert identifiers.value == base + ExternalIdentifiers(ext, factor);
      if entry.destinationDocumentId.None? {
        assert base + ExternalIdentifiers(ext, factor) == ExternalIdentifiers(ext, factor);
      }
    } else if identifiers.Some? {
      assert identifiers.value + [] == identifiers.value;
    }
    assert identifiers == expected;
    result := BlobCitationEntry(entry.position, entry.rawText, identifiers);
  }

  // ---------------------------------------------------------------------------
  // normalize

  /** The destination id: the second token of StringUtils.split on the
      row-prefix separator; with fewer than two tokens the array index is out
      of bounds. */
  function NormalizeDestination(id: string, separator: string): (r: Result<string>)
    ensures r.Failure? <==> |Tokens(id, set c | c in separator)| < 2
    ensures r.Failure? ==> r.error == IndexOutOfBounds
    ensures r.Success? ==> r.value == Tokens(id, set c | c in separator)[1]
  {
    var tokens := Tokens(id, set c | c in separator);
    if |tokens| < 2 then Failure(IndexOutOfBounds) else Success(tokens[1])
  }

  /** An empty external-id map becomes null; isEmpty on a null map is a
      null-pointer error. */
  function NormalizeExternalIds(ext: Option<ExternalIds>): (r: Result<Option<ExternalIds>>)
    ensures ext.None? ==> r == Failure(NullPointer)
    ensures ext.Some? ==> r.Success? && (r.value.None? <==> ext.value == [])
    ensures ext.Some? && ext.value != [] ==> r.value == ext
  {
    if ext.None? then Failure(NullPointer)
    else if ext.value == [] then Success(None)
    else Success(ext)
  }

  /** The entry after the external-id step alone, which is all that changes
      when the destination id then fails to split. */
  function ExternalIdsNormalized(v: CitationValue): CitationValue
  {
    var ext := NormalizeExternalIds(v.externalDestinationDocumentIds);
    if ext.Success? then v.(externalDestinationDocumentIds := ext.value) else v
  }

  /** The entry after both normalisation steps. */
  function NormalizeValue(v: CitationValue, separator: string): (r: Result<CitationValue>)
    ensures r.Success? ==> r.value.position == v.position && r.value.rawText == v.rawText
                           && r.value.confidenceLevel == v.confidenceLevel
    ensures r.Success? ==> (r.value.destinationDocumentId.None? <==> v.destinationDocumentId.None?)
    ensures r.Success? ==> r.value.externalDestinationDocumentIds.None? || r.value.externalDestinationDocumentIds.value != []
  {
    var ext :- NormalizeExternalIds(v.externalDestinationDocumentIds);
    var withExt := v.(externalDestinationDocumentIds := ext);
    if v.destinationDocumentId.None? then Success(withExt)
    else
      var dest :- NormalizeDestination(v.destinationDocumentId.value, separator);
      Success(withExt.(destinationDocumentId := Some(dest)))
  }

  /** The body of normalize's loop for one entry, updating it in place. */
  method NormalizeEntry(e: CitationEntry, separator: string) returns (r: Result<()>)
    modifies e
    ensures r.Success? <==> NormalizeValue(old(e.Value()), separator).Success?
    ensures r.Success? ==> e.Value() == NormalizeValue(old(e.Value()), separator).value
    ensures r.Failure? ==> r.error == NormalizeValue(old(e.Value()), separator).error
                           && e.Value() == ExternalIdsNormalized(old(e.Value()))
  {
    if e.externalDestinationDocumentIds.None? {
      return Failure(NullPointer);
    }
    if e.externalDestinationDocumentIds.value == [] {
      e.externalDestinationDocumentIds := None;
    }
    if e.destinationDocumentId.Some? {
      var dest := NormalizeDestination(e.destinationDocumentId.value, separator);
      if dest.Failure? {
        return Failure(dest.error);
      }
      e.destinationDocumentId := Some(dest.value);
    }
    return Success(());
  }

  ghost predicate DistinctEntries(s: seq<CitationEntry>)
  {
    forall i, j :: 0 <= i < j < |s| ==> s[i] != s[j]
  }

  /** The blob entries of the entries as they now are. */
  ghost function Blobs(m: CitationsModule, entries: seq<CitationEntry>): set<BlobCitationEntry>
    reads set e | e in entries
  {
    set k | 0 <= k < |entries| :: BlobOf(entries[k].Value(), m.openaireType, m.factor)
  }

  /** The first n entries hold the normalised form of their old values. */
  twostate predicate NormalizedUpTo(entries: seq<CitationEntry>, separator: string, n: int)
    reads set e | e in entries
  {
    0 <= n <= |entries|
    && forall j :: 0 <= j < n ==> NormalizeValue(old(entries[j].Value()), separator) == Success(entries[j].Value())
  }

  /** normalize stopped at entry k with error err: the entries before it are
      normalised, k failed after its external-id step, and the later ones
      were not touched. */
  twostate predicate StoppedAt(entries: seq<CitationEntry>, separator: string, k: int, err: JavaError)
    reads set e | e in entries
  {
    0 <= k < |entries|
    && NormalizedUpTo(entries, separator, k)
    && NormalizeValue(old(entries[k].Value()), separator) == Failure(err)
    && entries[k].Value() == ExternalIdsNormalized(old(entries[k].Value()))
    && forall j :: k < j < |entries| ==> entries[j].Value() == old(entries[j].Value())
  }

  /** normalize's loop: every entry is normalised in place and its blob
      entry is added to the result set; the first entry that cannot be
      normalised ends the call. */
  method NormalizeEntries(m: CitationsModule, entries: seq<CitationEntry>) returns (r: Result<set<BlobCitationEntry>>)
    requires DistinctEntries(entries)
    modifies set e | e in entries
    ensures r.Success? ==> NormalizedUpTo(entries, m.rowPrefixSeparator, |entries|)
    ensures r.Success? ==> r.value == Blobs(m, entries)
    ensures r.Failure? ==> exists k :: StoppedAt(entries, m.rowPrefixSeparator, k, r.error)
  {
    var results: set<BlobCitationEntry> := {};
    ghost var blobs: seq<BlobCitationEntry> := [];
    var i := 0;
    while i < |entries|
      invariant 0 <= i <= |entries|
      invariant NormalizedUpTo(entries, m.rowPrefixSeparator, i)
      invariant forall k :: i <= k < |entries| ==> entries[k].Value() == old(entries[k].Value())
      invariant |blobs| == i
      invariant forall k :: 0 <= k < i ==> blobs[k] == BlobOf(entries[k].Value(), m.openaireType, m.factor)
      invariant forall b :: b in results <==> b in blobs
    {
      var current := entries[i];
      assert current.Value() == old(entries[i].Value());
      assert forall k :: 0 <= k < |entries| && k != i ==> entries[k] != current;
      var normalized := NormalizeEntry(current, m.rowPrefixSeparator);
      if normalized.Failure? {
        assert StoppedAt(entries, m.rowPrefixSeparator, i, normalized.error);
        return Failure(normalized.error);
      }
      var blob := Build(current.Value(), m.openaireType, m.factor);
      results := results + {blob};
      blobs := blobs + [blob];
      i := i + 1;
    }
    forall b | b in results
      ensures b in Blobs(m, entries)
    {
      var k :| 0 <= k < |blobs| && blobs[k] == b;
    }
    forall b | b in Blobs(m, entries)
      ensures b in results
    {
      var k :| 0 <= k < |entries| && b == BlobOf(entries[k].Value(), m.openaireType, m.factor);
      assert blobs[k] == b;
    }
    return Success(results);
  }

  /** normalize: a null list gives null. */
  method Normalize(m: CitationsModule, source: Option<seq<CitationEntry>>) returns (r: Result<Option<set<BlobCitationEntry>>>)
    requires source.Some? ==> DistinctEntries(source.value)
    modifies if source.Some? then set e | e in source.value else {}
    ensures source.None? ==> r == Success(None)
    ensures source.Some? && r.Success? ==> NormalizedUpTo(source.value, m.rowPrefixSeparator, |source.value|)
    ensures source.Some? && r.Success? ==> r.value == Some(Blobs(m, source.value))
    ensures source.Some? && r.Failure? ==> exists k :: StoppedAt(source.value, m.rowPrefixSeparator, k, r.error)
  {
    if source.None? {
      return Success(None);
    }
    var results := NormalizeEntries(m, source.value);
    if results.Failure? {
      return Failure(results.error);
    }
    return Success(Some(results.value));
  }

  // ---------------------------------------------------------------------------
  // buildOAFCitations and build

  /** buildOAFCitations: no entity for null or empty citations; otherwise an
      entity with the document id (when set) and the normalised citations,
      or the error of the first citation that cannot be normalised. */
  method BuildOafCitations(m: CitationsModule, source: Citations) returns (r: Result<Option<Oaf>>)
    requires source.citations.Some? ==> DistinctEntries(source.citations.value)
    modifies if source.citations.Some? then set e | e in source.citations.value else {}
    ensures source.citations.None? || source.citations.value == [] ==> r == Success(None)
    ensures source.citations.Some? && source.citations.value != [] && r.Success? ==>
              NormalizedUpTo(source.citations.value, m.rowPrefixSeparator, |source.citations.value|)
              && r.value == Some(Oaf(source.documentId, Blobs(m, source.citations.value)))
    ensures r.Failure? ==> source.citations.Some?
                           && exists k :: StoppedAt(source.citations.value, m.rowPrefixSeparator, k, r.error)
  {
    if source.citations.None? || source.citations.value == [] {
      return Success(None);
    }
    var normalized := Normalize(m, source.citations);
    if normalized.Failure? {
      return Failure(normalized.error);
    }
    return Success(Some(Oaf(source.documentId, normalized.value.value)));
  }

  /** build: the update actions of the entity, none without one; a null
      document id is a null-pointer error once there is an entity. */
  method BuildActions(m: CitationsModule, source: Citations) returns (r: Result<seq<AtomicAction>>)
    requires source.citations.Some? ==> DistinctEntries(source.citations.value)
    modifies if source.citations.Some? then set e | e in source.citations.value else {}
    ensures source.citations.None? || source.citations.value == [] ==> r == Success([])
    ensures source.citations.Some? && source.citations.value != [] && r.Success? ==>
              source.documentId.Some?
              && NormalizedUpTo(source.citations.value, m.rowPrefixSeparator, |source.citations.value|)
              && r.value == m.createUpdateActions(source.documentId.value,
                                                  Oaf(source.documentId, Blobs(m, source.citations.value)))
    ensures (source.citations.Some? && source.citations.value != []
             && NormalizedUpTo(source.citations.value, m.rowPrefixSeparator, |source.citations.value|)
             && source.documentId.None?) ==> r == Failure(NullPointer)
    ensures r.Failure? ==>
              source.citations.Some?
              && ((exists k :: StoppedAt(source.citations.value, m.rowPrefixSeparator, k, r.error))
                  || (NormalizedUpTo(source.citations.value, m.rowPrefixSeparator, |source.citations.value|)
                      && source.documentId.None? && r.error == NullPointer))
  {
    var oaf := BuildOafCitations(m, source);
    if oaf.Failure? {
      return Failure(oaf.error);
    }
    if oaf.value.None? {
      return Success([]);
    }
    if source.documentId.None? {
      return Failure(NullPointer);
    }
    return Success(m.createUpdateActions(source.documentId.value, oaf.value.value));
  }

  /** A destination id of the form prefix, separator, id loses its prefix. */
  lemma DestinationLosesPrefix(prefix: string, sep: char, id: string, separator: string)
    requires sep in separator
    requires |prefix| > 0 && forall i :: 0 <= i < |prefix| ==> prefix[i] !in separator
    requires |id| > 0 && forall i :: 0 <= i < |id| ==> id[i] !in separator
    ensures NormalizeDestination(prefix + [sep] + id, separator) == Success(id)
  {
    TwoTokens(prefix, sep, id, set c | c in separator);
  }

  /** A destination id without any separator cannot be normalised. */
  lemma UnprefixedDestinationFails(id: string, separator: string)
    requires |id| > 0 && forall i :: 0 <= i < |id| ==> id[i] !in separator
    ensures NormalizeDestination(id, separator) == Failure(IndexOutOfBounds)
  {
    SingleToken(id, set c | c in separator);
  }
}
