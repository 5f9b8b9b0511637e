// PatentMetadataRetrieverJob: patents already in the cache are served from
// it, the others are retrieved from the remote service; responses are
// classified into cache entries, output documents and faults.

module PatentRetrieval {
  import opened Wrappers
  import opened SeqCounts

  const CounterProcessedTotal: string := "processing.referenceExtraction.patent.retrieval.processed.total"
  const CounterProcessedFault: string := "processing.referenceExtraction.patent.retrieval.processed.fault"
  const CounterFromCacheTotal: string := "processing.referenceExtraction.patent.retrieval.fromCache.total"

  datatype ImportedPatent = ImportedPatent(applnNr: string, publnAuth: string, publnNr: string)

  datatype DocumentText = DocumentText(id: string, text: string)

  /** FacadeContentRetrieverResponse: success with content, or one of the two
      failure kinds with the exception (by its message). */
  datatype Response = Success(content: string) | TransientFailure(exception: string) | PersistentFailure(exception: string)
  {
    predicate IsFailure() { !Success? }
  }

  datatype Fault = Fault(supportedEntityId: string, cause: string)

  /** FaultUtils.exceptionToFault, whose code is not part of this model. */
  type FaultMaker = (string, string) -> Fault

  datatype ReportEntry = ReportEntry(key: string, count: nat)

  /** getId: a patent is identified by its application number. */
  function GetId(patent: ImportedPatent): (id: string)
    ensures id == patent.applnNr
  {
    patent.applnNr
  }

  // ---------------------------------------------------------------------------
  // The cache split: the left outer join of the input with the cache.

  predicate IsCached(patent: ImportedPatent, cache: seq<DocumentText>)
  {
    exists k :: 0 <= k < |cache| && cache[k].id == GetId(patent)
  }

  /** The patents without a cache entry, in input order. */
  function ToBeProcessed(input: seq<ImportedPatent>, cache: seq<DocumentText>): (r: seq<ImportedPatent>)
    ensures |r| <= |input|
    ensures forall p :: p in r <==> p in input && !IsCached(p, cache)
  {
    if input == [] then []
    else (if IsCached(input[0], cache) then [] else [input[0]]) + ToBeProcessed(input[1..], cache)
  }

  /** The left outer join yields an uncached patent once per occurrence in
      the input, and a cached one never. */
  lemma {:induction false} ToBeProcessedCount(input: seq<ImportedPatent>, cache: seq<DocumentText>, p: ImportedPatent)
    ensures multiset(ToBeProcessed(input, cache))[p] == if IsCached(p, cache) then 0 else multiset(input)[p]
  {
    if input != [] {
      ToBeProcessedCount(input[1..], cache, p);
      CountCons(input, p);
      var first: seq<ImportedPatent> := if IsCached(input[0], cache) then [] else [input[0]];
      CountConcat(first, ToBeProcessed(input[1..], cache), p);
    }
  }

  /** The cache entries of one patent. */
  function CacheEntriesOf(patent: ImportedPatent, cache: seq<DocumentText>): (r: seq<DocumentText>)
    ensures forall d :: d in r <==> d in cache && d.id == GetId(patent)
  {
    if cache == [] then []
    else (if cache[0].id == GetId(patent) then [cache[0]] else []) + CacheEntriesOf(patent, cache[1..])
  }

  /** A patent's cache entries are each served as often as the cache holds
      them. */
  lemma {:induction false} CacheEntriesOfCount(patent: ImportedPatent, cache: seq<DocumentText>, d: DocumentText)
    ensures multiset(CacheEntriesOf(patent, cache))[d] == if d.id == GetId(patent) then multiset(cache)[d] else 0
  {
    if cache != [] {
      CacheEntriesOfCount(patent, cache[1..], d);
      CountCons(cache, d);
      var first: seq<DocumentText> := if cache[0].id == GetId(patent) then [cache[0]] else [];
      CountConcat(first, CacheEntriesOf(patent, cache[1..]), d);
    }
  }

  /** The cache entries of every cached patent, in input order. */
  function ReturnedFromCache(input: seq<ImportedPatent>, cache: seq<DocumentText>): (r: seq<DocumentText>)
    ensures forall d :: d in r <==> d in cache && exists p :: p in input && d.id == GetId(p)
  {
    if input == [] then []
    else CacheEntriesOf(input[0], cache) + ReturnedFromCache(input[1..], cache)
  }

  /** The number of input patents carrying the given id. */
  function IdCount(input: seq<ImportedPatent>, id: string): nat
  {
    if input == [] then 0 else (if GetId(input[0]) == id then 1 else 0) + IdCount(input[1..], id)
  }

  /** The left outer join pairs every input patent with every cache entry of
      its id: an entry is served once per input patent with that id. */
  lemma {:induction false} ReturnedFromCacheCount(input: seq<ImportedPatent>, cache: seq<DocumentText>, d: DocumentText)
    ensures multiset(ReturnedFromCache(input, cache))[d] == IdCount(input, d.id) * multiset(cache)[d]
  {
    if input != [] {
      var first := CacheEntriesOf(input[0], cache);
      var rest := ReturnedFromCache(input[1..], cache);
      assert ReturnedFromCache(input, cache) == first + rest;
      var h := if GetId(input[0]) == d.id then 1 else 0;
      var t := IdCount(input[1..], d.id);
      var m := multiset(cache)[d];
      assert IdCount(input, d.id) == h + t;
      ReturnedFromCacheCount(input[1..], cache, d);
      CacheEntriesOfCount(input[0], cache, d);
      assert multiset(first)[d] == h * m;
      CountConcat(first, rest, d);
      Distribute(h, t, m);
    }
  }

  /** Every input patent is served from the cache or sent for retrieval, and
      never both. */
  lemma SplitIsPartition(input: seq<ImportedPatent>, cache: seq<DocumentText>, p: ImportedPatent)
    requires p in input
    ensures p in ToBeProcessed(input, cache) <==> !IsCached(p, cache)
    ensures IsCached(p, cache) <==> exists d :: d in ReturnedFromCache(input, cache) && d.id == GetId(p)
  {
    if IsCached(p, cache) {
      var k :| 0 <= k < |cache| && cache[k].id == GetId(p);
      assert cache[k] in ReturnedFromCache(input, cache);
    }
  }

  // ---------------------------------------------------------------------------
  // The four response mappers.

  /** The document text of a response: its content on success, else empty. */
  function TextOf(id: string, response: Response): (d: DocumentText)
    ensures d.id == id
    ensures d.text == (if response.Success? then response.content else "")
  {
    DocumentText(id, if response.Success? then response.content else "")
  }

  /** mapContentRetrieverResponsesToDocumentTextForCache: every response but
      a transient failure. */
  function DocumentsForCache(responses: seq<(string, Response)>): (r: seq<DocumentText>)
    ensures |r| <= |responses|
    ensures forall d :: d in r <==> exists k :: 0 <= k < |responses| && !responses[k].1.TransientFailure?
                                                && d == TextOf(responses[k].0, responses[k].1)
  {
    if responses == [] then []
    else
      var rest := DocumentsForCache(responses[1..]);
      assert forall k :: 1 <= k < |responses| ==> responses[k] == responses[1..][k - 1];
      (if responses[0].1.TransientFailure? then [] else [TextOf(responses[0].0, responses[0].1)]) + rest
  }

  /** mapContentRetrieverResponsesToFaultForCache: persistent failures only. */
  function FaultsForCache(responses: seq<(string, Response)>, toFault: FaultMaker): (r: seq<Fault>)
    ensures |r| <= |responses|
    ensures forall f :: f in r <==> exists k :: 0 <= k < |responses| && responses[k].1.PersistentFailure?
                                                && f == toFault(responses[k].0, responses[k].1.exception)
  {
    if responses == [] then []
    else
      var rest := FaultsForCache(responses[1..], toFault);
      assert forall k :: 1 <= k < |responses| ==> responses[k] == responses[1..][k - 1];
      (if responses[0].1.PersistentFailure? then [toFault(responses[0].0, responses[0].1.exception)] else []) + rest
  }

  /** mapContentRetrieverResponsesToDocumentTextForOutput: one document per
      response. */
  function DocumentsForOutput(responses: seq<(string, Response)>): (r: seq<DocumentText>)
    ensures |r| == |responses|
    ensures forall k :: 0 <= k < |responses| ==> r[k] == TextOf(responses[k].0, responses[k].1)
  {
    seq(|responses|, k requires 0 <= k < |responses| => TextOf(responses[k].0, responses[k].1))
  }

  /** mapContentRetrieverResponsesToFaultForOutput: every failure, transient
      or persistent. */
  function FaultsForOutput(responses: seq<(string, Response)>, toFault: FaultMaker): (r: seq<Fault>)
    ensures |r| <= |responses|
    ensures forall f :: f in r <==> exists k :: 0 <= k < |responses| && responses[k].1.IsFailure()
                                                && f == toFault(responses[k].0, responses[k].1.exception)
  {
    if responses == [] then []
    else
      var rest := FaultsForOutput(responses[1..], toFault);
      assert forall k :: 1 <= k < |responses| ==> responses[k] == responses[1..][k - 1];
      (if responses[0].1.IsFailure() then [toFault(responses[0].0, responses[0].1.exception)] else []) + rest
  }

  function TransientCount(responses: seq<(string, Response)>): nat
  {
    if responses == [] then 0
    else (if responses[0].1.TransientFailure? then 1 else 0) + TransientCount(responses[1..])
  }

  /** The classification is exhaustive: each response is either cached or a
      transient failure, and the output faults are the cached faults plus the
      transient ones. */
  lemma {:induction false} ClassificationCounts(responses: seq<(string, Response)>, toFault: FaultMaker)
    ensures |DocumentsForCache(responses)| + TransientCount(responses) == |responses|
    ensures |FaultsForOutput(responses, toFault)| == |FaultsForCache(responses, toFault)| + TransientCount(responses)
  {
    if responses != [] {
      ClassificationCounts(responses[1..], toFault);
    }
  }

  // ---------------------------------------------------------------------------
  // The job's data flow, without its I/O.

  datatype JobOutput = JobOutput(
    documents: seq<DocumentText>,
    faults: seq<Fault>,
    report: seq<ReportEntry>,
    newCache: Option<(seq<DocumentText>, seq<Fault>)>)

  /** generateReportEntries: the from-cache, processed and fault counters. */
  function ReportEntries(fromCache: seq<DocumentText>, processed: seq<DocumentText>, faults: seq<Fault>)
    : (r: seq<ReportEntry>)
    ensures |r| == 3
    ensures r[0] == ReportEntry(CounterFromCacheTotal, |fromCache|)
    ensures r[1] == ReportEntry(CounterProcessedTotal, |processed|)
    ensures r[2] == ReportEntry(CounterProcessedFault, |faults|)
  {
    [ReportEntry(CounterFromCacheTotal, |fromCache|), ReportEntry(CounterProcessedTotal, |processed|),
     ReportEntry(CounterProcessedFault, |faults|)]
  }

  /** The job: the uncached patents are retrieved; a new cache version is
      stored only when something is to be cached; the output holds the cached
      entries followed by the retrieved ones, and only the new faults. */
  function RunJob(input: seq<ImportedPatent>, cache: seq<DocumentText>, cachedFaults: seq<Fault>,
                  retrieveContent: ImportedPatent -> Response, toFault: FaultMaker): (out: JobOutput)
    ensures out.documents == ReturnedFromCache(input, cache)
                             + DocumentsForOutput(ResponsesOf(ToBeProcessed(input, cache), retrieveContent))
    ensures out.faults == FaultsForOutput(ResponsesOf(ToBeProcessed(input, cache), retrieveContent), toFault)
    ensures out.report == ReportEntries(ReturnedFromCache(input, cache),
                                        DocumentsForOutput(ResponsesOf(ToBeProcessed(input, cache), retrieveContent)),
                                        out.faults)
    ensures out.newCache.Some? <==>
              DocumentsForCache(ResponsesOf(ToBeProcessed(input, cache), retrieveContent)) != []
  {
    var fromCache := ReturnedFromCache(input, cache);
    var responses := ResponsesOf(ToBeProcessed(input, cache), retrieveContent);
    var toCache := DocumentsForCache(responses);
    var faultsToCache := FaultsForCache(responses, toFault);
    var retrieved := DocumentsForOutput(responses);
    var faults := FaultsForOutput(responses, toFault);
    JobOutput(
      if retrieved != [] then fromCache + retrieved else fromCache,
      faults,
      ReportEntries(fromCache, retrieved, faults),
      if toCache != [] then Some((cache + toCache, cachedFaults + faultsToCache)) else None)
  }

  /** retrieveFromRemoteService: one (id, response) pair per patent. */
  function ResponsesOf(patents: seq<ImportedPatent>, retrieveContent: ImportedPatent -> Response)
    : (r: seq<(string, Response)>)
    ensures |r| == |patents|
    ensures forall k :: 0 <= k < |patents| ==> r[k] == (GetId(patents[k]), retrieveContent(patents[k]))
  {
    seq(|patents|, k requires 0 <= k < |patents| => (GetId(patents[k]), retrieveContent(patents[k])))
  }

  /** Each patent sent for retrieval yields exactly one output document, with
      its application number as id. */
  lemma OneDocumentPerRetrievedPatent(input: seq<ImportedPatent>, cache: seq<DocumentText>,
                                      retrieveContent: ImportedPatent -> Response, toFault: FaultMaker, p: ImportedPatent)
    requires p in input && !IsCached(p, cache)
    ensures TextOf(p.applnNr, retrieveContent(p)) in RunJob(input, cache, [], retrieveContent, toFault).documents
  {
    var todo := ToBeProcessed(input, cache);
    assert p in todo;
    var k :| 0 <= k < |todo| && todo[k] == p;
    var docs := DocumentsForOutput(ResponsesOf(todo, retrieveContent));
    var fromCache := ReturnedFromCache(input, cache);
    assert docs[k] == TextOf(p.applnNr, retrieveContent(p));
    assert (fromCache + docs)[|fromCache| + k] == docs[k];
    assert RunJob(input, cache, [], retrieveContent, toFault).documents == fromCache + docs;
  }
}
