// DocumentMetadataConverter: an information-space entity carrying a result
// becomes a DocumentMetadata record. Each field has its own selection rule;
// most of them consult the field approver on the field's data info.

module DocumentMetadataConverting {
  import opened Wrappers
  import opened JavaStrings

  const NullStringValue: string := "null"
  const LangClassidUndefined: string := "und"

  /** The provenance record attached to a field; only the approver reads it. */
  datatype DataInfo = DataInfo(provenance: string)

  type FieldApprover = DataInfo -> bool

  datatype StructuredProperty = StructuredProperty(value: string, classid: string, dataInfo: DataInfo)
  datatype StringField = StringField(value: string, dataInfo: DataInfo)
  datatype Journal = Journal(name: string, dataInfo: DataInfo)
  datatype Instance = Instance(instancetypeClassid: string)
  datatype KeyValue = KeyValue(key: string)
  datatype SourceAuthor = SourceAuthor(name: string, surname: string, fullname: string)

  datatype ResultMetadata = ResultMetadata(
    titles: seq<StructuredProperty>,
    descriptions: seq<StringField>,
    languageClassid: string,
    publisher: StringField,
    journal: Journal,
    dateOfAcceptance: StringField,
    subjects: seq<StructuredProperty>,
    authors: seq<SourceAuthor>)

  datatype SourceResult = SourceResult(instances: seq<Instance>, metadata: Option<ResultMetadata>)

  datatype OafEntity = OafEntity(
    id: string, result: Option<SourceResult>, pids: seq<StructuredProperty>, collectedFrom: seq<KeyValue>)

  /** The semantic class identifiers the converter compares against. */
  datatype SemanticClasses = SemanticClasses(mainTitle: string, instanceTypeArticle: string, instanceTypeDataset: string)

  /** The year extraction and the approved-value extraction, whose code is not
      part of this model. */
  datatype ConverterUtils = ConverterUtils(
    extractYearOrNull: string -> Option<int>,
    extractValues: (seq<StructuredProperty>, FieldApprover) -> seq<string>)

  datatype DocumentMetadataConverter = DocumentMetadataConverter(
    fieldApprover: FieldApprover, classes: SemanticClasses, utils: ConverterUtils)

  datatype PublicationType = PublicationType(article: bool, dataset: bool)

  datatype Author = Author(name: Option<string>, surname: Option<string>, fullname: Option<string>)

  datatype DocumentMetadata = DocumentMetadata(
    id: string,
    title: Option<string>,
    abstractText: Option<string>,
    language: Option<string>,
    publisher: Option<string>,
    journal: Option<string>,
    year: Option<int>,
    keywords: Option<seq<string>>,
    publicationType: PublicationType,
    externalIdentifiers: Option<map<string, string>>,
    datasourceIds: Option<seq<string>>,
    authors: Option<seq<Author>>)

  /** The constructor: a null approver is a null-pointer error. */
  function NewDocumentMetadataConverter(approver: Option<FieldApprover>, classes: SemanticClasses,
                                        utils: ConverterUtils): (r: Result<DocumentMetadataConverter>)
    ensures approver.None? ==> r == Failure(NullPointer)
    ensures approver.Some? ==> r.Success? && r.value.fieldApprover == approver.value
  {
    if approver.None? then Failure(NullPointer)
    else Success(DocumentMetadataConverter(approver.value, classes, utils))
  }

  // ---------------------------------------------------------------------------
  // Title: the last approved main title, else the first approved title.

  predicate IsApprovedMainTitle(c: DocumentMetadataConverter, t: StructuredProperty)
  {
    t.classid == c.classes.mainTitle && c.fieldApprover(t.dataInfo)
  }

  function LastApprovedMainTitle(c: DocumentMetadataConverter, titles: seq<StructuredProperty>): Option<string>
  {
    if titles == [] then None
    else if IsApprovedMainTitle(c, titles[|titles| - 1]) then Some(titles[|titles| - 1].value)
    else LastApprovedMainTitle(c, titles[..|titles| - 1])
  }

  function FirstApprovedTitle(c: DocumentMetadataConverter, titles: seq<StructuredProperty>): (r: Option<string>)
    ensures r.Some? <==> exists k :: 0 <= k < |titles| && c.fieldApprover(titles[k].dataInfo)
    ensures r.Some? ==> exists k :: 0 <= k < |titles| && c.fieldApprover(titles[k].dataInfo)
                                    && r.value == titles[k].value
                                    && forall j :: 0 <= j < k ==> !c.fieldApprover(titles[j].dataInfo)
  {
    if titles == [] then None
    else if c.fieldApprover(titles[0].dataInfo) then Some(titles[0].value)
    else
      var rest := FirstApprovedTitle(c, titles[1..]);
      assert forall k :: 1 <= k < |titles| ==> titles[k] == titles[1..][k - 1];
      rest
  }

  /** The title is the value of an approved title, and there is one exactly
      when some title is approved. */
  function TitleOf(c: DocumentMetadataConverter, titles: seq<StructuredProperty>): (r: Option<string>)
    ensures r.Some? <==> exists k :: 0 <= k < |titles| && c.fieldApprover(titles[k].dataInfo)
    ensures r.Some? ==> exists k :: 0 <= k < |titles| && c.fieldApprover(titles[k].dataInfo)
                                    && r.value == titles[k].value
  {
    TitleSpec(c, titles);
    var main := LastApprovedMainTitle(c, titles);
    if main.Some? then main else FirstApprovedTitle(c, titles)
  }

  /** handleTitle: the first loop keeps overwriting with every approved main
      title; the second runs only when it found none. */
  method HandleTitle(c: DocumentMetadataConverter, titles: seq<StructuredProperty>) returns (title: Option<string>)
    ensures title == TitleOf(c, titles)
  {
    title := None;
    var i := 0;
    while i < |titles|
      invariant 0 <= i <= |titles|
      invariant title == LastApprovedMainTitle(c, titles[..i])
    {
      assert titles[..i + 1][..i] == titles[..i];
      if IsApprovedMainTitle(c, titles[i]) {
        title := Some(titles[i].value);
      }
      i := i + 1;
    }
    assert titles[..i] == titles;
    if title.None? {
      i := 0;
      while i < |titles|
        invariant 0 <= i <= |titles|
        invariant FirstApprovedTitle(c, titles) == FirstApprovedTitle(c, titles[i..])
      {
        if c.fieldApprover(titles[i].dataInfo) {
          title := Some(titles[i].value);
          break;
        }
        assert titles[i..][1..] == titles[i + 1..];
        i := i + 1;
      }
    }
  }

  /** The title chosen: some approved main title with no approved main title
      after it, or, when there is none, the first approved title. */
  lemma {:induction false} TitleSpec(c: DocumentMetadataConverter, titles: seq<StructuredProperty>)
    ensures LastApprovedMainTitle(c, titles).Some? <==>
              exists k :: 0 <= k < |titles| && IsApprovedMainTitle(c, titles[k])
    ensures LastApprovedMainTitle(c, titles).Some? ==>
              exists k :: 0 <= k < |titles| && IsApprovedMainTitle(c, titles[k])
                          && LastApprovedMainTitle(c, titles) == Some(titles[k].value)
                          && forall j :: k < j < |titles| ==> !IsApprovedMainTitle(c, titles[j])
  {
    if titles != [] {
      var n := |titles| - 1;
      var init := titles[..n];
      TitleSpec(c, init);
      assert forall k :: 0 <= k < n ==> init[k] == titles[k];
      if !IsApprovedMainTitle(c, titles[n]) && LastApprovedMainTitle(c, init).Some? {
        var k :| 0 <= k < |init| && IsApprovedMainTitle(c, init[k])
                 && LastApprovedMainTitle(c, init) == Some(init[k].value)
                 && forall j :: k < j < |init| ==> !IsApprovedMainTitle(c, init[j]);
        assert forall j :: k < j < |titles| ==> !IsApprovedMainTitle(c, titles[j]) by {
          forall j | k < j < |titles|
            ensures !IsApprovedMainTitle(c, titles[j])
          {
            if j < n {
              assert titles[j] == init[j];
            }
          }
        }
      }
    }
  }

  // ---------------------------------------------------------------------------
  // Abstract: the first approved, non-blank description other than "null".

  predicate IsUsableDescription(c: DocumentMetadataConverter, d: StringField)
  {
    c.fieldApprover(d.dataInfo) && !IsBlank(d.value) && d.value != NullStringValue
  }

  function FirstUsableDescription(c: DocumentMetadataConverter, descriptions: seq<StringField>): (r: Option<string>)
    ensures r.Some? <==> exists k :: 0 <= k < |descriptions| && IsUsableDescription(c, descriptions[k])
    ensures r.Some? ==> r.value != NullStringValue && !IsBlank(r.value)
  {
    if descriptions == [] then None
    else if IsUsableDescription(c, descriptions[0]) then Some(descriptions[0].value)
    else
      var rest := FirstUsableDescription(c, descriptions[1..]);
      assert forall k :: 1 <= k < |descriptions| ==> descriptions[k] == descriptions[1..][k - 1];
      rest
  }

  /** handleDescription: stops at the first usable description. */
  method HandleDescription(c: DocumentMetadataConverter, descriptions: seq<StringField>)
    returns (abstractText: Option<string>)
    ensures abstractText == FirstUsableDescription(c, descriptions)
  {
    var i := 0;
    while i < |descriptions|
      invariant 0 <= i <= |descriptions|
      invariant FirstUsableDescription(c, descriptions) == FirstUsableDescription(c, descriptions[i..])
    {
      if IsUsableDescription(c, descriptions[i]) {
        return Some(descriptions[i].value);
      }
      assert descriptions[i..][1..] == descriptions[i + 1..];
      i := i + 1;
    }
    return None;
  }

  /** The abstract is the earliest usable description: nothing before it was
      usable. */
  lemma {:induction false} DescriptionIsFirst(c: DocumentMetadataConverter, descriptions: seq<StringField>, k: nat)
    requires k < |descriptions| && IsUsableDescription(c, descriptions[k])
    requires forall j :: 0 <= j < k ==> !IsUsableDescription(c, descriptions[j])
    ensures FirstUsableDescription(c, descriptions) == Some(descriptions[k].value)
  {
    if k > 0 {
      assert descriptions[1..][k - 1] == descriptions[k];
      DescriptionIsFirst(c, descriptions[1..], k - 1);
    }
  }

  // ---------------------------------------------------------------------------
  // The single-valued fields.

  /** handleLanguage: the class id unless blank or "und"; no approval. */
  function LanguageOf(languageClassid: string): (r: Option<string>)
    ensures r.Some? <==> !IsBlank(languageClassid) && languageClassid != LangClassidUndefined
  {
    if !IsBlank(languageClassid) && languageClassid != LangClassidUndefined then Some(languageClassid) else None
  }

  /** handlePublisher: a non-blank, approved value. */
  function PublisherOf(c: DocumentMetadataConverter, publisher: StringField): (r: Option<string>)
    ensures r.Some? <==> !IsBlank(publisher.value) && c.fieldApprover(publisher.dataInfo)
  {
    if !IsBlank(publisher.value) && c.fieldApprover(publisher.dataInfo) then Some(publisher.value) else None
  }

  /** handleJournal: a non-blank, approved name. */
  function JournalOf(c: DocumentMetadataConverter, journal: Journal): (r: Option<string>)
    ensures r.Some? <==> !IsBlank(journal.name) && c.fieldApprover(journal.dataInfo)
  {
    if !IsBlank(journal.name) && c.fieldApprover(journal.dataInfo) then Some(journal.name) else None
  }

  /** handleYear: the extracted year of an approved date of acceptance. */
  function YearOf(c: DocumentMetadataConverter, date: StringField): (r: Option<int>)
    ensures !c.fieldApprover(date.dataInfo) ==> r.None?
    ensures c.fieldApprover(date.dataInfo) ==> r == c.utils.extractYearOrNull(date.value)
  {
    if c.fieldApprover(date.dataInfo) then c.utils.extractYearOrNull(date.value) else None
  }

  /** handleKeywords: the extracted values, set only when there are some. */
  function KeywordsOf(c: DocumentMetadataConverter, subjects: seq<StructuredProperty>): (r: Option<seq<string>>)
    ensures r.Some? ==> r.value != [] && r.value == c.utils.extractValues(subjects, c.fieldApprover)
    ensures subjects == [] ==> r.None?
  {
    if subjects == [] then None
    else
      var extracted := c.utils.extractValues(subjects, c.fieldApprover);
      if extracted == [] then None else Some(extracted)
  }

  // ---------------------------------------------------------------------------
  // Publication type: the article and dataset flags.

  predicate HasInstanceOf(instances: seq<Instance>, classid: string)
  {
    exists k :: 0 <= k < |instances| && instances[k].instancetypeClassid == classid
  }

  /** handlePublicationType: an instance of the article class sets the
      article flag, otherwise one of the dataset class sets the dataset flag. */
  method HandlePublicationType(c: DocumentMetadataConverter, instances: seq<Instance>) returns (t: PublicationType)
    ensures t.article <==> HasInstanceOf(instances, c.classes.instanceTypeArticle)
    ensures t.dataset <==> HasInstanceOf(instances, c.classes.instanceTypeDataset)
                           && c.classes.instanceTypeDataset != c.classes.instanceTypeArticle
  {
    var article, dataset := false, false;
    var i := 0;
    while i < |instances|
      invariant 0 <= i <= |instances|
      invariant article <==> HasInstanceOf(instances[..i], c.classes.instanceTypeArticle)
      invariant dataset <==> HasInstanceOf(instances[..i], c.classes.instanceTypeDataset)
                             && c.classes.instanceTypeDataset != c.classes.instanceTypeArticle
    {
      assert forall k :: 0 <= k < i ==> instances[..i + 1][k] == instances[..i][k];
      assert instances[..i + 1][i] == instances[i];
      if instances[i].instancetypeClassid == c.classes.instanceTypeArticle {
        article := true;
      } else if instances[i].instancetypeClassid == c.classes.instanceTypeDataset {
        dataset := true;
      }
      i := i + 1;
    }
    assert instances[..i] == instances;
    t := PublicationType(article, dataset);
  }

  function PublicationTypeOf(c: DocumentMetadataConverter, instances: seq<Instance>): PublicationType
  {
    PublicationType(HasInstanceOf(instances, c.classes.instanceTypeArticle),
                    HasInstanceOf(instances, c.classes.instanceTypeDataset)
                    && c.classes.instanceTypeDataset != c.classes.instanceTypeArticle)
  }

  // ---------------------------------------------------------------------------
  // External identifiers: class id to value, a later pid overwriting an
  // earlier one of the same class.

  predicate IsUsablePid(c: DocumentMetadataConverter, p: StructuredProperty)
  {
    !IsBlank(p.classid) && !IsBlank(p.value) && c.fieldApprover(p.dataInfo)
  }

  /** The map after putting every usable pid, in order. */
  function PidMap(c: DocumentMetadataConverter, pids: seq<StructuredProperty>): (m: map<string, string>)
    ensures forall key :: key in m ==> !IsBlank(key) && !IsBlank(m[key])
  {
    if pids == [] then map[]
    else
      var m := PidMap(c, pids[..|pids| - 1]);
      var p := pids[|pids| - 1];
      if IsUsablePid(c, p) then m[p.classid := p.value] else m
  }

  /** handleAdditionalIds: builds the map and sets it only when non-empty. */
  method HandleAdditionalIds(c: DocumentMetadataConverter, pids: seq<StructuredProperty>)
    returns (ids: Option<map<string, string>>)
    ensures ids == (if PidMap(c, pids) == map[] then None else Some(PidMap(c, pids)))
  {
    var additionalIds: map<string, string> := map[];
    var i := 0;
    while i < |pids|
      invariant 0 <= i <= |pids|
      invariant additionalIds == PidMap(c, pids[..i])
    {
      assert pids[..i + 1][..i] == pids[..i];
      if IsUsablePid(c, pids[i]) {
        additionalIds := additionalIds[pids[i].classid := pids[i].value];
      }
      i := i + 1;
    }
    assert pids[..i] == pids;
    if additionalIds == map[] {
      return None;
    }
    return Some(additionalIds);
  }

  /** A class id is a key exactly when some usable pid has it, and its value
      is that of the last such pid. */
  lemma {:induction false} PidMapSpec(c: DocumentMetadataConverter, pids: seq<StructuredProperty>, key: string)
    ensures key in PidMap(c, pids) <==>
              exists k :: 0 <= k < |pids| && IsUsablePid(c, pids[k]) && pids[k].classid == key
    ensures key in PidMap(c, pids) ==>
              exists k :: 0 <= k < |pids| && IsUsablePid(c, pids[k]) && pids[k].classid == key
                          && PidMap(c, pids)[key] == pids[k].value
                          && forall j :: k < j < |pids| ==> !(IsUsablePid(c, pids[j]) && pids[j].classid == key)
  {
    if pids != [] {
      var n := |pids| - 1;
      var init := pids[..n];
      PidMapSpec(c, init, key);
      assert forall k :: 0 <= k < n ==> init[k] == pids[k];
      var p := pids[n];
      if !(IsUsablePid(c, p) && p.classid == key) && key in PidMap(c, init) {
        var k :| 0 <= k < |init| && IsUsablePid(c, init[k]) && init[k].classid == key
                 && PidMap(c, init)[key] == init[k].value
                 && forall j :: k < j < |init| ==> !(IsUsablePid(c, init[j]) && init[j].classid == key);
        forall j | k < j < |pids|
          ensures !(IsUsablePid(c, pids[j]) && pids[j].classid == key)
        {
          if j < n {
            assert pids[j] == init[j];
          }
        }
      }
    }
  }

  // ---------------------------------------------------------------------------
  // Datasource ids: one key per collected-from entry, in order.

  function Keys(collectedFrom: seq<KeyValue>): (ks: seq<string>)
    ensures |ks| == |collectedFrom|
    ensures forall i :: 0 <= i < |ks| ==> ks[i] == collectedFrom[i].key
  {
    seq(|collectedFrom|, i requires 0 <= i < |collectedFrom| => collectedFrom[i].key)
  }

  /** handleDatasourceIds: set only for a non-empty collected-from list. */
  method HandleDatasourceIds(collectedFrom: seq<KeyValue>) returns (ids: Option<seq<string>>)
    ensures collectedFrom == [] ==> ids.None?
    ensures collectedFrom != [] ==> ids.Some? && |ids.value| == |collectedFrom|
    ensures collectedFrom != [] ==> ids.Some? && (forall i :: 0 <= i < |collectedFrom| ==> ids.value[i] == collectedFrom[i].key)
  {
    if collectedFrom == [] {
      return None;
    }
    var datasourceIds: seq<string> := [];
    var i := 0;
    while i < |collectedFrom|
      invariant 0 <= i <= |collectedFrom|
      invariant |datasourceIds| == i
      invariant forall k :: 0 <= k < i ==> datasourceIds[k] == collectedFrom[k].key
    {
      datasourceIds := datasourceIds + [collectedFrom[i].key];
      i := i + 1;
    }
    return Some(datasourceIds);
  }

  // ---------------------------------------------------------------------------
  // Authors: each name part kept when not blank; an author with no part left
  // is dropped.

  function AuthorOf(a: SourceAuthor): Author
  {
    Author(if !IsBlank(a.name) then Some(a.name) else None,
           if !IsBlank(a.surname) then Some(a.surname) else None,
           if !IsBlank(a.fullname) then Some(a.fullname) else None)
  }

  predicate IsValidAuthor(a: Author)
  {
    a.name.Some? || a.surname.Some? || a.fullname.Some?
  }

  function ValidAuthors(sources: seq<SourceAuthor>): (r: seq<Author>)
    ensures |r| <= |sources|
    ensures forall a :: a in r ==> IsValidAuthor(a)
  {
    if sources == [] then []
    else (if IsValidAuthor(AuthorOf(sources[0])) then [AuthorOf(sources[0])] else []) + ValidAuthors(sources[1..])
  }

  /** handlePersons: the authors list is set only when some author is kept. */
  method HandlePersons(metadata: Option<ResultMetadata>) returns (authors: Option<seq<Author>>)
    ensures metadata.None? ==> authors.None?
    ensures metadata.Some? ==> authors == (if ValidAuthors(metadata.value.authors) == [] then None
                                           else Some(ValidAuthors(metadata.value.authors)))
  {
    if metadata.None? {
      return None;
    }
    var sources := metadata.value.authors;
    var kept: seq<Author> := [];
    var i := 0;
    while i < |sources|
      invariant 0 <= i <= |sources|
      invariant kept + ValidAuthors(sources[i..]) == ValidAuthors(sources)
    {
      assert sources[i..][1..] == sources[i + 1..];
      var author := AuthorOf(sources[i]);
      ghost var rest := ValidAuthors(sources[i + 1..]);
      if IsValidAuthor(author) {
        assert ValidAuthors(sources[i..]) == [author] + rest;
        assert kept + ([author] + rest) == (kept + [author]) + rest;
        kept := kept + [author];
      } else {
        assert ValidAuthors(sources[i..]) == rest;
      }
      i := i + 1;
    }
    assert ValidAuthors(sources[i..]) == [];
    assert kept + [] == kept;
    if kept == [] {
      return None;
    }
    return Some(kept);
  }

  /** An author is kept exactly when one of its three name parts is not
      blank. */
  lemma {:induction false} ValidAuthorsSpec(sources: seq<SourceAuthor>, a: Author)
    ensures a in ValidAuthors(sources) <==>
              exists k :: 0 <= k < |sources| && a == AuthorOf(sources[k])
                          && (!IsBlank(sources[k].name) || !IsBlank(sources[k].surname) || !IsBlank(sources[k].fullname))
  {
    if sources != [] {
      ValidAuthorsSpec(sources[1..], a);
      assert forall k :: 1 <= k < |sources| ==> sources[k] == sources[1..][k - 1];
      if exists k :: 0 <= k < |sources| && a == AuthorOf(sources[k])
                     && (!IsBlank(sources[k].name) || !IsBlank(sources[k].surname) || !IsBlank(sources[k].fullname)) {
        var k :| 0 <= k < |sources| && a == AuthorOf(sources[k])
                 && (!IsBlank(sources[k].name) || !IsBlank(sources[k].surname) || !IsBlank(sources[k].fullname));
        if k > 0 {
          assert sources[1..][k - 1] == sources[k];
        }
      }
    }
  }

  // ---------------------------------------------------------------------------
  // convert

  function AuthorsOf(metadata: Option<ResultMetadata>): Option<seq<Author>>
  {
    if metadata.None? || ValidAuthors(metadata.value.authors) == [] then None
    else Some(ValidAuthors(metadata.value.authors))
  }

  /** convert: a null entity is a null-pointer error and an entity without a
      result converts to null; otherwise every field follows its rule, the
      metadata-based ones only when the result has metadata. */
  function Convert(c: DocumentMetadataConverter, entity: Option<OafEntity>): (r: Result<Option<DocumentMetadata>>)
    ensures entity.None? ==> r == Failure(NullPointer)
    ensures entity.Some? ==> r.Success? && (r.value.None? <==> entity.value.result.None?)
    ensures r.Success? && r.value.Some? ==>
              var d := r.value.value;
              var res := entity.value.result.value;
              d.id == entity.value.id
              && d.publicationType == PublicationTypeOf(c, res.instances)
              && d.externalIdentifiers == (if PidMap(c, entity.value.pids) == map[] then None
                                           else Some(PidMap(c, entity.value.pids)))
              && (entity.value.collectedFrom == [] ==> d.datasourceIds.None?)
              && (entity.value.collectedFrom != [] ==> d.datasourceIds == Some(Keys(entity.value.collectedFrom)))
              && d.authors == AuthorsOf(res.metadata)
              && (res.metadata.None? ==> d.title.None? && d.abstractText.None? && d.language.None?
                                         && d.publisher.None? && d.journal.None? && d.year.None? && d.keywords.None?)
              && (res.metadata.Some? ==> d.title == TitleOf(c, res.metadata.value.titles)
                                         && d.abstractText == FirstUsableDescription(c, res.metadata.value.descriptions)
                                         && d.language == LanguageOf(res.metadata.value.languageClassid)
                                         && d.publisher == PublisherOf(c, res.metadata.value.publisher)
                                         && d.journal == JournalOf(c, res.metadata.value.journal)
                                         && d.year == YearOf(c, res.metadata.value.dateOfAcceptance)
                                         && d.keywords == KeywordsOf(c, res.metadata.value.subjects))
  {
    if entity.None? then Failure(NullPointer)
    else if entity.value.result.None? then Success(None)
    else
      var e := entity.value;
      var res := e.result.value;
      var md := res.metadata;
      var pidMap := PidMap(c, e.pids);
      Success(Some(DocumentMetadata(
        e.id,
        if md.Some? then TitleOf(c, md.value.titles) else None,
        if md.Some? then FirstUsableDescription(c, md.value.descriptions) else None,
        if md.Some? then LanguageOf(md.value.languageClassid) else None,
        if md.Some? then PublisherOf(c, md.value.publisher) else None,
        if md.Some? then JournalOf(c, md.value.journal) else None,
        if md.Some? then YearOf(c, md.value.dateOfAcceptance) else None,
        if md.Some? then KeywordsOf(c, md.value.subjects) else None,
        PublicationTypeOf(c, res.instances),
        if pidMap == map[] then None else Some(pidMap),
        if e.collectedFrom == [] then None else Some(Keys(e.collectedFrom)),
        AuthorsOf(md))))
  }

  /** A pid of a class overrides an earlier pid of the same class. */
  lemma LaterPidWins(c: DocumentMetadataConverter, pids: seq<StructuredProperty>, p: StructuredProperty)
    requires IsUsablePid(c, p)
    ensures PidMap(c, pids + [p])[p.classid] == p.value
  {
    assert (pids + [p])[..|pids|] == pids;
  }
}
