// DocumentSimilarityActionBuilderModuleFactory: a similarity between two
// documents becomes two relation actions, one from each document to the
// other, unless it falls below the configured threshold.

module DocumentSimilarityExport {
  import opened Wrappers
  import opened RuntimeParameters

  const HasAmongTopNSimilarDocuments: string := "hasAmongTopNSimilarDocuments"
  const IsAmongTopNSimilarDocuments: string := "isAmongTopNSimilarDocuments"

  /** The input record; the similarity is a nullable Float. */
  datatype DocumentSimilarity = DocumentSimilarity(documentId: string, otherDocumentId: string, similarity: Option<real>)

  /** The result-result relation of an OAF object (its provenance and
      timestamp are not modelled). */
  datatype Rel = Rel(source: string, target: string, relClass: string, similarity: real)

  /** An atomic action: the row it is stored under, the target column and the
      relation it carries. */
  datatype AtomicAction = AtomicAction(rowKey: string, targetColumn: string, rel: Rel)

  datatype DocumentSimilarityModule = DocumentSimilarityModule(similarityThreshold: Option<real>)

  /** buildOAFRel: source and target swapped, and the inverse class, when
      inverted. */
  function BuildOafRel(sourceId: string, targetDocId: string, score: real, invert: bool): (rel: Rel)
    ensures rel.similarity == score
    ensures !invert ==> rel.source == sourceId && rel.target == targetDocId && rel.relClass == HasAmongTopNSimilarDocuments
    ensures invert ==> rel.source == targetDocId && rel.target == sourceId && rel.relClass == IsAmongTopNSimilarDocuments
  {
    Rel(if invert then targetDocId else sourceId, if invert then sourceId else targetDocId,
        if invert then IsAmongTopNSimilarDocuments else HasAmongTopNSimilarDocuments, score)
  }

  /** createActions: the single action of one direction; the row key and the
      target column are swapped in backward mode. */
  function CreateAction(sim: DocumentSimilarity, score: real, backwardMode: bool): (a: AtomicAction)
    ensures a.rel == BuildOafRel(sim.documentId, sim.otherDocumentId, score, backwardMode)
    ensures a.rowKey == a.rel.source && a.targetColumn == a.rel.target
  {
    AtomicAction(if backwardMode then sim.otherDocumentId else sim.documentId,
                 if backwardMode then sim.documentId else sim.otherDocumentId,
                 BuildOafRel(sim.documentId, sim.otherDocumentId, score, backwardMode))
  }

  /** The threshold check: applied only when both the threshold and the
      similarity are set, and only a strictly smaller similarity is dropped. */
  predicate PassesThreshold(threshold: Option<real>, similarity: Option<real>)
  {
    !(threshold.Some? && similarity.Some? && similarity.value < threshold.value)
  }

  /** build: nothing for a null record or a similarity under the threshold;
      otherwise the forward action followed by the backward one. A similarity
      that is null gets past the threshold check and is then unboxed, which is
      a null-pointer error. */
  method Build(m: DocumentSimilarityModule, sim: Option<DocumentSimilarity>) returns (r: Result<seq<AtomicAction>>)
    ensures sim.None? ==> r == Success([])
    ensures sim.Some? && !PassesThreshold(m.similarityThreshold, sim.value.similarity) ==> r == Success([])
    ensures sim.Some? && sim.value.similarity.None? ==> r == Failure(NullPointer)
    ensures sim.Some? && sim.value.similarity.Some? && PassesThreshold(m.similarityThreshold, sim.value.similarity)
            ==> r == Success([CreateAction(sim.value, sim.value.similarity.value, false),
                              CreateAction(sim.value, sim.value.similarity.value, true)])
  {
    if sim.None? {
      return Success([]);
    }
    var o := sim.value;
    if m.similarityThreshold.Some? && o.similarity.Some? && o.similarity.value < m.similarityThreshold.value {
      return Success([]);
    }
    if o.similarity.None? {
      return Failure(NullPointer);
    }
    var simActions := [CreateAction(o, o.similarity.value, false)];
    var reverseSimActions := [CreateAction(o, o.similarity.value, true)];
    var results: seq<AtomicAction> := [];
    results := results + simActions;
    assert results == simActions;
    results := results + reverseSimActions;
    assert results == [CreateAction(o, o.similarity.value, false), CreateAction(o, o.similarity.value, true)];
    return Success(results);
  }

  /** The two actions mirror each other: each is stored under the row of its
      own source, the relations point in opposite directions with inverse
      classes, and both carry the same score. */
  lemma DirectionsMirror(sim: DocumentSimilarity, score: real)
    ensures var f := CreateAction(sim, score, false);
            var b := CreateAction(sim, score, true);
            f.rowKey == b.targetColumn && f.targetColumn == b.rowKey
            && f.rel.source == b.rel.target && f.rel.target == b.rel.source
            && f.rel.similarity == b.rel.similarity
            && f.rel.relClass != b.rel.relClass
  {
    assert HasAmongTopNSimilarDocuments[0] != IsAmongTopNSimilarDocuments[0];
  }

  /** The threshold is inclusive: a similarity equal to it is exported, one
      below it is not. */
  lemma ThresholdInclusive(threshold: real, similarity: real)
    ensures PassesThreshold(Some(threshold), Some(threshold))
    ensures similarity < threshold ==> !PassesThreshold(Some(threshold), Some(similarity))
    ensures PassesThreshold(None, Some(similarity))
  {
  }

  /** instantiate: the threshold stays null when the configuration value is
      absent or "$UNDEFINED$"; otherwise it is parsed by Float.valueOf, whose
      failure is a number-format error. */
  function Instantiate(config: Configuration, thresholdParam: string, parseFloat: string -> Result<real>)
    : (r: Result<DocumentSimilarityModule>)
    ensures ConfigGet(thresholdParam, config).None? ==> r == Success(DocumentSimilarityModule(None))
    ensures ConfigGet(thresholdParam, config) == Some(UndefinedNonemptyValue) ==> r == Success(DocumentSimilarityModule(None))
    ensures r.Success? && r.value.similarityThreshold.Some? ==>
              ConfigGet(thresholdParam, config).Some?
              && ConfigGet(thresholdParam, config).value != UndefinedNonemptyValue
              && parseFloat(ConfigGet(thresholdParam, config).value) == Success(r.value.similarityThreshold.value)
  {
    var thresholdStr := ConfigGet(thresholdParam, config);
    if thresholdStr.Some? && thresholdStr.value != UndefinedNonemptyValue then
      var threshold :- parseFloat(thresholdStr.value);
      Success(DocumentSimilarityModule(Some(threshold)))
    else Success(DocumentSimilarityModule(None))
  }
}
