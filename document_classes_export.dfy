// DocumentToDocumentClassesActionBuilderModuleFactory: the document classes
// of one document, grouped by taxonomy, become the subjects of a result
// entity that is exported as update actions.

module DocumentClassesExport {
  import opened Wrappers
  import opened JavaStrings

  /** The trust level used for a class without a confidence level. */
  const ActionTrust09: real := 0.9

  /** The provenance record built for a subject; its content is produced by
      buildInference, whose code is not part of this model. */
  datatype DataInfo = DataInfo(trust: real)

  datatype DocumentClass = DocumentClass(classLabels: seq<string>, confidenceLevel: Option<real>)

  /** The five class lists of a document, each possibly null. */
  datatype DocumentClasses = DocumentClasses(
    arXivClasses: Option<seq<Option<DocumentClass>>>,
    ddcClasses: Option<seq<Option<DocumentClass>>>,
    woSClasses: Option<seq<Option<DocumentClass>>>,
    meshEuroPMCClasses: Option<seq<Option<DocumentClass>>>,
    acmClasses: Option<seq<Option<DocumentClass>>>)

  datatype DocumentToDocumentClasses = DocumentToDocumentClasses(documentId: string, classes: Option<DocumentClasses>)

  /** The taxonomy names, HBase constants not part of this model. */
  datatype Taxonomies = Taxonomies(arXiv: string, ddc: string, woS: string, meshEuroPMC: string, acm: string)

  datatype Subject = Subject(classid: string, value: string, dataInfo: DataInfo)

  /** The result entity carrying the subjects. */
  datatype Oaf = Oaf(id: string, subjects: seq<Subject>)

  datatype AtomicAction = AtomicAction(rowKey: string, payload: Oaf)

  /** The module: buildInference (None when the trust-level threshold is
      exceeded), buildInferenceForTrustLevel and createUpdateActions come from
      classes that are not part of this model. */
  datatype DocumentClassesModule = DocumentClassesModule(
    taxonomies: Taxonomies,
    hierarchySeparator: string,
    buildInference: real -> Option<DataInfo>,
    buildInferenceForTrustLevel: real -> Option<DataInfo>,
    createUpdateActions: (string, Oaf) -> seq<AtomicAction>)

  /** The confidence handed to buildInference: capped at 1. */
  function CappedConfidence(confidence: real): (c: real)
    ensures c <= 1.0
    ensures confidence < 1.0 ==> c == confidence
    ensures confidence >= 1.0 ==> c == 1.0
  {
    if confidence < 1.0 then confidence else 1.0
  }

  /** The data info for a class: its capped confidence, or the fixed 0.9
      trust level when it has none. */
  function InferenceFor(m: DocumentClassesModule, cls: DocumentClass): Option<DataInfo>
  {
    if cls.confidenceLevel.Some? then m.buildInference(CappedConfidence(cls.confidenceLevel.value))
    else m.buildInferenceForTrustLevel(ActionTrust09)
  }

  /** convertAvroToProtoBuff of one class: nothing for a null class or empty
      labels, nothing when the trust-level threshold is exceeded, otherwise a
      subject of the taxonomy with the joined labels. */
  function ConvertClass(m: DocumentClassesModule, cls: Option<DocumentClass>, taxonomy: string): (r: Option<Subject>)
    ensures r.Some? <==> cls.Some? && cls.value.classLabels != [] && InferenceFor(m, cls.value).Some?
    ensures r.Some? ==> r.value.classid == taxonomy
                        && r.value.value == Join(cls.value.classLabels, m.hierarchySeparator)
                        && r.value.dataInfo == InferenceFor(m, cls.value).value
  {
    if cls.None? || cls.value.classLabels == [] then None
    else
      var info := InferenceFor(m, cls.value);
      if info.None? then None
      else Some(Subject(taxonomy, Join(cls.value.classLabels, m.hierarchySeparator), info.value))
  }

  /** The subjects of one class list, in list order. */
  function ConvertedSubjects(m: DocumentClassesModule, source: seq<Option<DocumentClass>>, taxonomy: string)
    : (r: seq<Subject>)
    ensures |r| <= |source|
    ensures forall s :: s in r ==> s.classid == taxonomy
  {
    if source == [] then []
    else
      var head := ConvertClass(m, source[0], taxonomy);
      (if head.Some? then [head.value] else []) + ConvertedSubjects(m, source[1..], taxonomy)
  }

  /** convertAvroToProtoBuff of a class list: a class that yields nothing is
      skipped and the loop goes on. */
  method ConvertClassList(m: DocumentClassesModule, source: seq<Option<DocumentClass>>, taxonomy: string)
    returns (results: seq<Subject>)
    ensures results == ConvertedSubjects(m, source, taxonomy)
  {
    results := [];
    var i := 0;
    while i < |source|
      invariant 0 <= i <= |source|
      invariant results + ConvertedSubjects(m, source[i..], taxonomy) == ConvertedSubjects(m, source, taxonomy)
    {
      assert source[i..][1..] == source[i + 1..];
      var result := ConvertClass(m, source[i], taxonomy);
      if result.Some? {
        results := results + [result.value];
      }
      i := i + 1;
    }
    assert ConvertedSubjects(m, source[i..], taxonomy) == [];
    assert results + [] == results;
  }

  /** Converting two lists one after the other is converting their
      concatenation: a dropped class does not affect the others. */
  lemma {:induction false} ConvertedSubjectsAppend(m: DocumentClassesModule, a: seq<Option<DocumentClass>>,
                                                   b: seq<Option<DocumentClass>>, taxonomy: string)
    ensures ConvertedSubjects(m, a + b, taxonomy) == ConvertedSubjects(m, a, taxonomy) + ConvertedSubjects(m, b, taxonomy)
  {
    if a != [] {
      assert (a + b)[1..] == a[1..] + b;
      ConvertedSubjectsAppend(m, a[1..], b, taxonomy);
    } else {
      assert a + b == b;
    }
  }

  /** A class list contributes nothing when null or empty. */
  function ListSubjects(m: DocumentClassesModule, source: Option<seq<Option<DocumentClass>>>, taxonomy: string)
    : (r: seq<Subject>)
    ensures source.None? || source.value == [] ==> r == []
    ensures forall s :: s in r ==> s.classid == taxonomy
  {
    if source.None? || source.value == [] then [] else ConvertedSubjects(m, source.value, taxonomy)
  }

  /** The subjects of all five lists, taxonomy by taxonomy. */
  function AllSubjects(m: DocumentClassesModule, c: DocumentClasses): seq<Subject>
  {
    var t := m.taxonomies;
    ListSubjects(m, c.arXivClasses, t.arXiv) + ListSubjects(m, c.ddcClasses, t.ddc)
    + ListSubjects(m, c.woSClasses, t.woS) + ListSubjects(m, c.meshEuroPMCClasses, t.meshEuroPMC)
    + ListSubjects(m, c.acmClasses, t.acm)
  }

  /** One "if the list is not empty, add all its subjects" step. */
  method AddClassList(m: DocumentClassesModule, list: seq<Subject>, source: Option<seq<Option<DocumentClass>>>,
                      taxonomy: string) returns (r: seq<Subject>)
    ensures r == list + ListSubjects(m, source, taxonomy)
  {
    r := list;
    if source.Some? && source.value != [] {
      var converted := ConvertClassList(m, source.value, taxonomy);
      r := r + converted;
    } else {
      assert r + [] == r;
    }
  }

  /** convertAvroToProtoBuff of the document classes: appends each non-empty
      list's subjects in the fixed taxonomy order. */
  method ConvertDocumentClasses(m: DocumentClassesModule, c: DocumentClasses) returns (list: seq<Subject>)
    ensures list == AllSubjects(m, c)
  {
    var t := m.taxonomies;
    list := AddClassList(m, [], c.arXivClasses, t.arXiv);
    assert list == ListSubjects(m, c.arXivClasses, t.arXiv);
    list := AddClassList(m, list, c.ddcClasses, t.ddc);
    list := AddClassList(m, list, c.woSClasses, t.woS);
    list := AddClassList(m, list, c.meshEuroPMCClasses, t.meshEuroPMC);
    list := AddClassList(m, list, c.acmClasses, t.acm);
  }

  /** The position of a taxonomy in the export order. */
  function TaxonomyRank(t: Taxonomies, classid: string): nat
  {
    if classid == t.arXiv then 0
    else if classid == t.ddc then 1
    else if classid == t.woS then 2
    else if classid == t.meshEuroPMC then 3
    else 4
  }

  predicate DistinctTaxonomies(t: Taxonomies)
  {
    t.arXiv != t.ddc && t.arXiv != t.woS && t.arXiv != t.meshEuroPMC && t.arXiv != t.acm
    && t.ddc != t.woS && t.ddc != t.meshEuroPMC && t.ddc != t.acm
    && t.woS != t.meshEuroPMC && t.woS != t.acm
    && t.meshEuroPMC != t.acm
  }

  predicate InTaxonomyOrder(t: Taxonomies, s: seq<Subject>)
  {
    forall i, j :: 0 <= i < j < |s| ==> TaxonomyRank(t, s[i].classid) <= TaxonomyRank(t, s[j].classid)
  }

  lemma OrderedAppend(t: Taxonomies, a: seq<Subject>, b: seq<Subject>, k: nat)
    requires InTaxonomyOrder(t, a)
    requires forall s :: s in a ==> TaxonomyRank(t, s.classid) <= k
    requires forall s :: s in b ==> TaxonomyRank(t, s.classid) == k
    ensures InTaxonomyOrder(t, a + b)
    ensures forall s :: s in a + b ==> TaxonomyRank(t, s.classid) <= k
  {
    forall i, j | 0 <= i < j < |a + b|
      ensures TaxonomyRank(t, (a + b)[i].classid) <= TaxonomyRank(t, (a + b)[j].classid)
    {
      if j >= |a| {
        assert (a + b)[j] in b;
        if i < |a| {
          assert (a + b)[i] in a;
        } else {
          assert (a + b)[i] in b;
        }
      }
    }
  }

  /** With distinct taxonomy names, the subjects come out in the order arXiv,
      DDC, WoS, MeshEuroPMC, ACM. */
  lemma AllSubjectsInTaxonomyOrder(m: DocumentClassesModule, c: DocumentClasses)
    requires DistinctTaxonomies(m.taxonomies)
    ensures InTaxonomyOrder(m.taxonomies, AllSubjects(m, c))
  {
    var t := m.taxonomies;
    var a := ListSubjects(m, c.arXivClasses, t.arXiv);
    var b := ListSubjects(m, c.ddcClasses, t.ddc);
    var w := ListSubjects(m, c.woSClasses, t.woS);
    var h := ListSubjects(m, c.meshEuroPMCClasses, t.meshEuroPMC);
    var x := ListSubjects(m, c.acmClasses, t.acm);
    OrderedAppend(t, [], a, 0);
    assert [] + a == a;
    OrderedAppend(t, a, b, 1);
    OrderedAppend(t, a + b, w, 2);
    OrderedAppend(t, a + b + w, h, 3);
    OrderedAppend(t, a + b + w + h, x, 4);
  }

  /** buildOAFClasses: no entity for null classes or when no subject is
      left. */
  function BuildOafClasses(m: DocumentClassesModule, source: DocumentToDocumentClasses): (r: Option<Oaf>)
    ensures source.classes.None? ==> r.None?
    ensures source.classes.Some? ==> (r.Some? <==> AllSubjects(m, source.classes.value) != [])
    ensures r.Some? ==> r.value.id == source.documentId && r.value.subjects == AllSubjects(m, source.classes.value)
  {
    if source.classes.None? then None
    else
      var subjects := AllSubjects(m, source.classes.value);
      if subjects == [] then None else Some(Oaf(source.documentId, subjects))
  }

  /** build: the update actions for the entity, or none. */
  function Build(m: DocumentClassesModule, source: DocumentToDocumentClasses): (actions: seq<AtomicAction>)
    ensures BuildOafClasses(m, source).None? ==> actions == []
    ensures BuildOafClasses(m, source).Some? ==>
              actions == m.createUpdateActions(source.documentId, BuildOafClasses(m, source).value)
  {
    var oaf := BuildOafClasses(m, source);
    if oaf.Some? then m.createUpdateActions(source.documentId, oaf.value) else []
  }

  /** A class of any taxonomy with at least one label and an accepted
      confidence makes the document exported. */
  lemma {:induction false} OneConvertibleClassSuffices(m: DocumentClassesModule, source: seq<Option<DocumentClass>>,
                                                       k: nat, taxonomy: string)
    requires k < |source| && ConvertClass(m, source[k], taxonomy).Some?
    ensures ConvertClass(m, source[k], taxonomy).value in ConvertedSubjects(m, source, taxonomy)
  {
    if k > 0 {
      assert source[1..][k - 1] == source[k];
      OneConvertibleClassSuffices(m, source[1..], k - 1, taxonomy);
    }
  }
}
