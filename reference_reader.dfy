// ReferenceMetadataInputReader: every reference of a document becomes one
// citation, keyed "cit_<document id>_<reference position>".

module ReferenceReader {
  import opened JavaStrings

  /** A reference of a document; its bibliographic metadata is carried
      along untouched. */
  datatype ReferenceMetadata = ReferenceMetadata(position: int, basicMetadata: seq<string>)

  datatype DocumentMetadata = DocumentMetadata(id: string, references: seq<ReferenceMetadata>)

  const CitationKeyPrefix: string := "cit_"

  /** The key of the citation at the given position of a document. */
  function CitationKey(documentId: string, position: int): (key: string)
    ensures |key| > |CitationKeyPrefix| + |documentId| + 1
    ensures key[..|CitationKeyPrefix|] == CitationKeyPrefix
    ensures key[|CitationKeyPrefix|..|CitationKeyPrefix| + |documentId|] == documentId
    ensures key[|CitationKeyPrefix| + |documentId|] == '_'
    ensures key[|CitationKeyPrefix| + |documentId| + 1..] == IntToString(position)
  {
    CitationKeyPrefix + documentId + "_" + IntToString(position)
  }

  /** The document-to-citations flat map: one (key, reference) pair per
      reference, in reference order, with the reference itself as value. */
  function DocumentToCitations(doc: DocumentMetadata): (r: seq<(string, ReferenceMetadata)>)
    ensures |r| == |doc.references|
    ensures forall i :: 0 <= i < |r| ==> r[i].1 == doc.references[i]
    ensures forall i :: 0 <= i < |r| ==> r[i].0 == CitationKey(doc.id, doc.references[i].position)
  {
    seq(|doc.references|, i requires 0 <= i < |doc.references| =>
      (CitationKey(doc.id, doc.references[i].position), doc.references[i]))
  }

  /** readCitations over a whole input, document after document. */
  function ReadCitations(docs: seq<DocumentMetadata>): (r: seq<(string, ReferenceMetadata)>)
    ensures forall i :: 0 <= i < |r| ==>
              exists d :: d in docs && r[i].1 in d.references && r[i].0 == CitationKey(d.id, r[i].1.position)
  {
    if docs == [] then [] else DocumentToCitations(docs[0]) + ReadCitations(docs[1..])
  }

  /** As many citations come out as there are references going in. */
  lemma {:induction false} OneCitationPerReference(docs: seq<DocumentMetadata>)
    ensures |ReadCitations(docs)| == ReferenceCount(docs)
  {
    if docs != [] {
      OneCitationPerReference(docs[1..]);
    }
  }

  function ReferenceCount(docs: seq<DocumentMetadata>): nat
  {
    if docs == [] then 0 else |docs[0].references| + ReferenceCount(docs[1..])
  }

  /** A printed integer contains no underscore. */
  lemma NoUnderscoreInNumber(n: int, k: int)
    requires 0 <= k < |IntToString(n)|
    ensures IntToString(n)[k] != '_'
  {
    if n < 0 {
      assert IntToString(n) == "-" + Digits(-n);
      if k > 0 {
        assert IntToString(n)[k] == Digits(-n)[k - 1];
      }
    }
  }

  /** Citation keys are unambiguous: the key gives back both the document id
      and the position, even when the document id itself contains '_'. */
  lemma CitationKeyInjective(d1: string, p1: int, d2: string, p2: int)
    requires CitationKey(d1, p1) == CitationKey(d2, p2)
    ensures d1 == d2 && p1 == p2
  {
    var n1, n2 := IntToString(p1), IntToString(p2);
    var key := CitationKey(d1, p1);
    assert key == CitationKeyPrefix + d1 + "_" + n1;
    assert key == CitationKeyPrefix + d2 + "_" + n2;
    if |n1| < |n2| {
      var k := |n2| - |n1| - 1;
      assert key[|key| - |n1| - 1] == '_';
      assert key[|key| - |n1| - 1] == n2[k];
      NoUnderscoreInNumber(p2, k);
    } else if |n2| < |n1| {
      var k := |n1| - |n2| - 1;
      assert key[|key| - |n2| - 1] == '_';
      assert key[|key| - |n2| - 1] == n1[k];
      NoUnderscoreInNumber(p1, k);
    } else {
      assert n1 == key[|key| - |n1|..] == n2;
      IntToStringInjective(p1, p2);
      assert d1 == key[|CitationKeyPrefix|..|key| - |n1| - 1] == d2;
    }
  }

  /** Within one document, references at distinct positions get distinct
      keys. */
  lemma DistinctPositionsDistinctKeys(doc: DocumentMetadata, i: int, j: int)
    requires 0 <= i < |doc.references| && 0 <= j < |doc.references|
    requires doc.references[i].position != doc.references[j].position
    ensures DocumentToCitations(doc)[i].0 != DocumentToCitations(doc)[j].0
  {
    if DocumentToCitations(doc)[i].0 == DocumentToCitations(doc)[j].0 {
      CitationKeyInjective(doc.id, doc.references[i].position, doc.id, doc.references[j].position);
    }
  }
}
