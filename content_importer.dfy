// DocumentContentUrlBasedImporterMapper: each record names a document, its
// URL and its declared size in kilobytes. The content is written out when it
// can be fetched within the size limit; otherwise exactly one of three
// counters (size invalid, size exceeded, unavailable) moves.

module ContentImporter {
  import opened Wrappers

  datatype DocumentContentUrl = DocumentContentUrl(id: string, url: string, contentSizeKB: int)

  datatype DocumentContent = DocumentContent(id: string, pdf: seq<bv8>)

  /** What fetching the URL gives: the bytes, or one of the two exceptions
      the fetch may throw. */
  datatype Fetched = Content(bytes: seq<bv8>) | InvalidSize | Unavailable

  /** The four ways a record can end. */
  datatype Outcome = Written(content: DocumentContent) | SizeInvalidOutcome | SizeExceededOutcome | UnavailableOutcome

  const KilobytesPerMegabyte: int := 1024

  /** The size check before any fetch: a negative declared size is invalid,
      and with a limit a size above limit megabytes is too large. */
  predicate SizeExceeds(contentSizeKB: int, maxFileSizeMB: Option<int>)
  {
    maxFileSizeMB.Some? && contentSizeKB > maxFileSizeMB.value * KilobytesPerMegabyte
  }

  /** The outcome of one record. */
  function Classify(record: DocumentContentUrl, maxFileSizeMB: Option<int>, fetch: string -> Fetched): (o: Outcome)
    ensures o.Written? <==> record.contentSizeKB >= 0 && !SizeExceeds(record.contentSizeKB, maxFileSizeMB)
                            && fetch(record.url).Content?
    ensures o.Written? ==> o.content == DocumentContent(record.id, fetch(record.url).bytes)
    ensures o == SizeInvalidOutcome <==> record.contentSizeKB < 0
                                         || (!SizeExceeds(record.contentSizeKB, maxFileSizeMB) && fetch(record.url).InvalidSize?)
    ensures o == SizeExceededOutcome <==> record.contentSizeKB >= 0 && SizeExceeds(record.contentSizeKB, maxFileSizeMB)
    ensures o == UnavailableOutcome <==> record.contentSizeKB >= 0 && !SizeExceeds(record.contentSizeKB, maxFileSizeMB)
                                         && fetch(record.url).Unavailable?
  {
    if record.contentSizeKB < 0 then SizeInvalidOutcome
    else if SizeExceeds(record.contentSizeKB, maxFileSizeMB) then SizeExceededOutcome
    else match fetch(record.url)
      case Content(bytes) => Written(DocumentContent(record.id, bytes))
      case InvalidSize => SizeInvalidOutcome
      case Unavailable => UnavailableOutcome
  }

  /** 1025 KB against a 1 MB limit is over the limit; 1 KB with no limit is
      fetched. */
  lemma LimitIsInKilobytes(record: DocumentContentUrl, fetch: string -> Fetched)
    ensures record.contentSizeKB == 1025 ==> Classify(record, Some(1), fetch) == SizeExceededOutcome
    ensures record.contentSizeKB == 1 && fetch(record.url).Content? ==> Classify(record, None, fetch).Written?
  {
  }

  class ImporterMapper {
    const maxFileSizeMB: Option<int>
    /** The records written to the output, in order. */
    var written: seq<DocumentContent>
    var sizeInvalid: nat
    var sizeExceeded: nat
    var unavailable: nat

    /** setup: the size limit is read once; all counters start at zero. */
    constructor(maxFileSizeMB: Option<int>)
      ensures this.maxFileSizeMB == maxFileSizeMB
      ensures written == [] && sizeInvalid == 0 && sizeExceeded == 0 && unavailable == 0
    {
      this.maxFileSizeMB := maxFileSizeMB;
      written := [];
      sizeInvalid, sizeExceeded, unavailable := 0, 0, 0;
    }

    /** The number of records handled so far. */
    function Handled(): nat
      reads this
    {
      |written| + sizeInvalid + sizeExceeded + unavailable
    }

    /** map: one record is either written or counted, never both. */
    method Map(record: DocumentContentUrl, fetch: string -> Fetched)
      modifies this
      ensures var o := Classify(record, maxFileSizeMB, fetch);
              && written == old(written) + (if o.Written? then [o.content] else [])
              && sizeInvalid == old(sizeInvalid) + (if o == SizeInvalidOutcome then 1 else 0)
              && sizeExceeded == old(sizeExceeded) + (if o == SizeExceededOutcome then 1 else 0)
              && unavailable == old(unavailable) + (if o == UnavailableOutcome then 1 else 0)
      ensures Handled() == old(Handled()) + 1
    {
      if record.contentSizeKB < 0 {
        sizeInvalid := sizeInvalid + 1;
      } else if maxFileSizeMB.Some? && record.contentSizeKB > maxFileSizeMB.value * KilobytesPerMegabyte {
        sizeExceeded := sizeExceeded + 1;
      } else {
        var fetched := fetch(record.url);
        match fetched {
          case Content(bytes) =>
            written := written + [DocumentContent(record.id, bytes)];
          case InvalidSize =>
            sizeInvalid := sizeInvalid + 1;
          case Unavailable =>
            unavailable := unavailable + 1;
        }
      }
    }
  }
}
