// ProjectConverter: an information-space entity carrying a project becomes a
// Project record, or null when it has no project, no metadata, or none of a
// funding class, a usable acronym and a grant id.

module ProjectConverting {
  import opened Wrappers
  import opened JavaStrings

  const FunderFundingSeparator: string := "::"

  /** Acronyms that, trimmed and lower-cased, mean "no acronym". */
  const AcronymSkipLowercasedValues: set<string> := {"undefined", "unknown"}

  datatype ProjectMetadata = ProjectMetadata(
    acronym: string, code: string, optional1: string, optional2: string, fundingTree: seq<string>)

  datatype SourceProject = SourceProject(metadata: Option<ProjectMetadata>)

  datatype OafEntity = OafEntity(id: string, project: Option<SourceProject>)

  datatype Project = Project(
    id: string,
    projectAcronym: Option<string>,
    projectGrantId: Option<string>,
    optional1: Option<string>,
    optional2: Option<string>,
    fundingClass: Option<string>)

  /** The XPath evaluation of one funding tree: the funder short name and
      the level-0 funding name, or None when the XML cannot be processed. */
  type FundingTreeReader = string -> Option<(string, string)>

  /** isAcronymValid: not blank, and not a skip value once trimmed and
      lower-cased. */
  predicate IsAcronymValid(acronym: Option<string>)
  {
    !IsBlankOrNull(acronym) && ToLower(Trim(acronym.value)) !in AcronymSkipLowercasedValues
  }

  /** The funding class of the first non-blank tree, null when there is none;
      an unreadable first non-blank tree is an I/O error. */
  function FundingClassOf(trees: seq<string>, reader: FundingTreeReader): (r: Result<Option<string>>)
    ensures r.Failure? ==> r.error == IOFailure
  {
    if trees == [] then Success(None)
    else if !IsBlank(trees[0]) then
      match reader(trees[0])
      case None => Failure(IOFailure)
      case Some((shortName, level0Name)) => Success(Some(shortName + FunderFundingSeparator + level0Name))
    else FundingClassOf(trees[1..], reader)
  }

  /** extractFundingClass: walks the list and stops at the first non-blank
      tree. */
  method ExtractFundingClass(trees: Option<seq<string>>, reader: FundingTreeReader)
    returns (r: Result<Option<string>>)
    ensures trees.None? ==> r == Success(None)
    ensures trees.Some? ==> r == FundingClassOf(trees.value, reader)
  {
    if trees.None? || trees.value == [] {
      return Success(None);
    }
    var list := trees.value;
    var i := 0;
    while i < |list|
      invariant 0 <= i <= |list|
      invariant FundingClassOf(list, reader) == FundingClassOf(list[i..], reader)
    {
      if !IsBlank(list[i]) {
        var parsed := reader(list[i]);
        if parsed.None? {
          return Failure(IOFailure);
        }
        var (shortName, level0Name) := parsed.value;
        return Success(Some(shortName + FunderFundingSeparator + level0Name));
      }
      assert list[i..][1..] == list[i + 1..];
      i := i + 1;
    }
    return Success(None);
  }

  predicate AllBlank(trees: seq<string>)
  {
    forall k :: 0 <= k < |trees| ==> IsBlank(trees[k])
  }

  /** No funding class comes out exactly when every tree is blank. */
  lemma {:induction false} NoFundingClassIffAllBlank(trees: seq<string>, reader: FundingTreeReader)
    ensures FundingClassOf(trees, reader) == Success(None) <==> AllBlank(trees)
  {
    if trees != [] {
      NoFundingClassIffAllBlank(trees[1..], reader);
      if AllBlank(trees) {
        assert forall k :: 0 <= k < |trees[1..]| ==> trees[1..][k] == trees[k + 1];
      }
      if AllBlank(trees[1..]) && IsBlank(trees[0]) {
        forall k | 0 <= k < |trees|
          ensures IsBlank(trees[k])
        {
          if k > 0 {
            assert trees[k] == trees[1..][k - 1];
          }
        }
      }
    }
  }

  /** Only the first non-blank tree matters: blank trees before it and any
      trees after it do not change the result. */
  lemma {:induction false} FirstNonBlankTreeDecides(blanks: seq<string>, tree: string, rest: seq<string>,
                                                     reader: FundingTreeReader)
    requires AllBlank(blanks) && !IsBlank(tree)
    ensures FundingClassOf(blanks + [tree] + rest, reader) == FundingClassOf([tree], reader)
  {
    if blanks == [] {
      assert blanks + [tree] + rest == [tree] + rest;
    } else {
      assert (blanks + [tree] + rest)[1..] == blanks[1..] + [tree] + rest;
      FirstNonBlankTreeDecides(blanks[1..], tree, rest, reader);
    }
  }

  /** The field rules: the acronym when valid, the other fields when not
      blank. */
  function ProjectFields(id: string, m: ProjectMetadata, fundingClass: Option<string>): (p: Project)
    ensures p.id == id
    ensures p.projectAcronym.Some? ==> IsAcronymValid(p.projectAcronym)
    ensures p.projectGrantId.Some? ==> !IsBlank(p.projectGrantId.value)
    ensures p.optional1.Some? ==> !IsBlank(p.optional1.value)
    ensures p.optional2.Some? ==> !IsBlank(p.optional2.value)
    ensures p.fundingClass.Some? ==> !IsBlank(p.fundingClass.value)
  {
    Project(
      id,
      if IsAcronymValid(Some(m.acronym)) then Some(m.acronym) else None,
      if !IsBlank(m.code) then Some(m.code) else None,
      if !IsBlank(m.optional1) then Some(m.optional1) else None,
      if !IsBlank(m.optional2) then Some(m.optional2) else None,
      if !IsBlankOrNull(fundingClass) then fundingClass else None)
  }

  /** isDataValid: a funding class, an acronym or a grant id. */
  predicate IsDataValid(p: Project)
  {
    p.fundingClass.Some? || p.projectAcronym.Some? || p.projectGrantId.Some?
  }

  /** A converted project is kept exactly when its metadata has a valid
      acronym or a non-blank code, or its funding class is not blank; the
      two optional fields never make it valid. */
  lemma DataValidity(id: string, m: ProjectMetadata, fundingClass: Option<string>)
    ensures IsDataValid(ProjectFields(id, m, fundingClass))
            <==> IsAcronymValid(Some(m.acronym)) || !IsBlank(m.code) || !IsBlankOrNull(fundingClass)
  {
  }

  /** convert: a null entity is a null-pointer error; a missing project or
      missing metadata gives null, as does a project without identifying
      data. */
  function Convert(entity: Option<OafEntity>, reader: FundingTreeReader): (r: Result<Option<Project>>)
    ensures entity.None? ==> r == Failure(NullPointer)
    ensures entity.Some? && (entity.value.project.None? || entity.value.project.value.metadata.None?)
            ==> r == Success(None)
    ensures r.Success? && r.value.Some? ==> r.value.value.id == entity.value.id && IsDataValid(r.value.value)
    ensures r.Failure? ==> r.error == NullPointer || r.error == IOFailure
    ensures entity.Some? && entity.value.project.Some? && entity.value.project.value.metadata.Some? ==>
              var m := entity.value.project.value.metadata.value;
              var fundingClass := FundingClassOf(m.fundingTree, reader);
              (fundingClass.Failure? ==> r == Failure(fundingClass.error))
              && (fundingClass.Success? ==>
                    var p := ProjectFields(entity.value.id, m, fundingClass.value);
                    r == Success(if IsDataValid(p) then Some(p) else None))
  {
    if entity.None? then Failure(NullPointer)
    else if entity.value.project.None? || entity.value.project.value.metadata.None? then Success(None)
    else
      var m := entity.value.project.value.metadata.value;
      var fundingClass :- FundingClassOf(m.fundingTree, reader);
      var p := ProjectFields(entity.value.id, m, fundingClass);
      if IsDataValid(p) then Success(Some(p)) else Success(None)
  }

  /** optional1 and optional2 alone do not make a project worth keeping. */
  lemma OptionalsAloneYieldNull(e: OafEntity, m: ProjectMetadata, reader: FundingTreeReader)
    requires e.project == Some(SourceProject(Some(m)))
    requires !IsAcronymValid(Some(m.acronym)) && IsBlank(m.code) && AllBlank(m.fundingTree)
    ensures Convert(Some(e), reader) == Success(None)
  {
    NoFundingClassIffAllBlank(m.fundingTree, reader);
  }

  /** A converted project keeps a usable acronym and a non-blank grant id,
      whatever the other fields hold. */
  lemma ConvertKeepsIdentifyingFields(e: OafEntity, m: ProjectMetadata, reader: FundingTreeReader)
    requires e.project == Some(SourceProject(Some(m)))
    requires FundingClassOf(m.fundingTree, reader).Success?
    requires IsAcronymValid(Some(m.acronym)) || !IsBlank(m.code)
    ensures Convert(Some(e), reader).Success? && Convert(Some(e), reader).value.Some?
    ensures var p := Convert(Some(e), reader).value.value;
            (IsAcronymValid(Some(m.acronym)) ==> p.projectAcronym == Some(m.acronym))
            && (!IsBlank(m.code) ==> p.projectGrantId == Some(m.code))
  {
  }

  /** Lower-casing keeps whitespace, so blankness survives it. */
  lemma LowerKeepsBlank(s: string)
    ensures IsBlank(ToLower(s)) <==> IsBlank(s)
  {
    assert forall i :: 0 <= i < |s| ==> (ToLower(s)[i] in Whitespace <==> s[i] in Whitespace);
  }

  /** The validity of an acronym does not depend on letter case. */
  lemma AcronymValidityIgnoresCase(acronym: string)
    ensures IsAcronymValid(Some(ToLower(acronym))) <==> IsAcronymValid(Some(acronym))
  {
    LowerKeepsBlank(acronym);
    LowerKeepsTrim(acronym);
    LowerIdempotent(Trim(acronym));
  }

  /** The skip values are rejected in any letter case, as are null and blank
      acronyms. */
  lemma AcronymExamples()
    ensures !IsAcronymValid(None)
    ensures !IsAcronymValid(Some("  "))
    ensures !IsAcronymValid(Some("undefined"))
    ensures !IsAcronymValid(Some("UNKNOWN"))
  {
    assert IsBlank("  ");
    assert !IsBlank("undefined") by { assert "undefined"[0] !in Whitespace; }
    assert Trim("undefined") == "undefined" by {
      assert TrimFrom("undefined", 0) == 0;
      assert TrimTo("undefined", 0, 9) == 9;
    }
    assert ToLower("undefined") == "undefined";
    AcronymValidityIgnoresCase("UNKNOWN");
    assert ToLower("UNKNOWN") == "unknown";
    assert !IsBlank("unknown") by { assert "unknown"[0] !in Whitespace; }
    assert Trim("unknown") == "unknown" by {
      assert TrimFrom("unknown", 0) == 0;
      assert TrimTo("unknown", 0, 7) == 7;
    }
    assert ToLower("unknown") == "unknown";
  }
}
