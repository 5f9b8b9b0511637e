// TagHierarchyUtils: questions a SAX handler asks about the stack of open
// element names while parsing a JATS document. The stack is a sequence with
// its top at the end, as java.util.Stack pushes.

module TagHierarchy {

  /** The element just opened is the expected one and its direct parent, the
      top of the stack, is the expected parent. */
  predicate IsWithinElement(qName: string, expectedElement: string, parents: seq<string>, expectedParent: string)
    ensures IsWithinElement(qName, expectedElement, parents, expectedParent) ==>
              HasAmongParents(qName, expectedElement, parents, [expectedParent])
  {
    assert [expectedParent][1..] == [];
    qName == expectedElement && |parents| > 0 && parents[|parents| - 1] == expectedParent
  }

  /** The expected parents are met walking the stack from its top downward,
      in the order given and with gaps allowed: each name is matched against
      the nearest remaining stack entry that carries it. */
  function MatchesFromTop(expectedParents: seq<string>, parents: seq<string>): (r: bool)
    ensures r && expectedParents != [] ==> parents != []
    ensures r ==> |expectedParents| <= |parents|
  {
    if expectedParents == [] then true
    else if parents == [] then false
    else if parents[|parents| - 1] == expectedParents[0] then
      MatchesFromTop(expectedParents[1..], parents[..|parents| - 1])
    else MatchesFromTop(expectedParents, parents[..|parents| - 1])
  }

  /** hasAmongParents. */
  predicate HasAmongParents(qName: string, expectedElement: string, parents: seq<string>, expectedParents: seq<string>)
    ensures HasAmongParents(qName, expectedElement, parents, expectedParents) ==>
              qName == expectedElement && |expectedParents| <= |parents|
  {
    qName == expectedElement && MatchesFromTop(expectedParents, parents)
  }

  // ---------------------------------------------------------------------------
  // A reference definition: an ordered selection from the stack read top
  // first.

  /** The stack read from its top downward. */
  function TopDown(parents: seq<string>): (r: seq<string>)
    ensures |r| == |parents|
    ensures forall i :: 0 <= i < |parents| ==> r[i] == parents[|parents| - 1 - i]
  {
    if parents == [] then [] else [parents[|parents| - 1]] + TopDown(parents[..|parents| - 1])
  }

  /** a can be obtained from b by deleting elements. */
  predicate IsSubsequence(a: seq<string>, b: seq<string>)
  {
    if a == [] then true
    else if b == [] then false
    else (a[0] == b[0] && IsSubsequence(a[1..], b[1..])) || IsSubsequence(a, b[1..])
  }

  /** Dropping the first wanted element keeps a selection a selection. */
  lemma {:induction false} SubsequenceDropFirst(a: seq<string>, b: seq<string>)
    requires a != [] && IsSubsequence(a, b)
    ensures IsSubsequence(a[1..], b)
  {
    if a[0] == b[0] && IsSubsequence(a[1..], b[1..]) {
      if a[1..] != [] {
        SubsequenceDropFirst(a[1..], b[1..]);
        assert IsSubsequence(a[1..][1..], b[1..]);
      }
    } else {
      SubsequenceDropFirst(a, b[1..]);
    }
  }

  /** The greedy walk from the top finds the names exactly when they form an
      ordered selection of the stack read top first. */
  lemma {:induction false} MatchesFromTopIsSubsequence(expectedParents: seq<string>, parents: seq<string>)
    ensures MatchesFromTop(expectedParents, parents) <==> IsSubsequence(expectedParents, TopDown(parents))
    decreases |parents|
  {
    if expectedParents != [] && parents != [] {
      var rest := parents[..|parents| - 1];
      var td := TopDown(parents);
      assert td[0] == parents[|parents| - 1] && td[1..] == TopDown(rest);
      MatchesFromTopIsSubsequence(expectedParents, rest);
      MatchesFromTopIsSubsequence(expectedParents[1..], rest);
      if parents[|parents| - 1] == expectedParents[0] && IsSubsequence(expectedParents, td[1..]) {
        SubsequenceDropFirst(expectedParents, td[1..]);
      }
    }
  }

  /** A single name is found wherever it sits in the stack. */
  lemma {:induction false} SingleNameAnywhere(name: string, parents: seq<string>)
    ensures MatchesFromTop([name], parents) <==> name in parents
    decreases |parents|
  {
    if parents != [] {
      var rest := parents[..|parents| - 1];
      SingleNameAnywhere(name, rest);
      assert parents == rest + [parents[|parents| - 1]];
      assert [name][1..] == [];
    }
  }

  /** A name that is not on the stack is never found. */
  lemma {:induction false} AbsentNameFails(expectedParents: seq<string>, parents: seq<string>, i: int)
    requires 0 <= i < |expectedParents| && expectedParents[i] !in parents
    ensures !MatchesFromTop(expectedParents, parents)
    decreases |parents|
  {
    if parents != [] {
      var rest := parents[..|parents| - 1];
      assert expectedParents[i] !in rest;
      if parents[|parents| - 1] == expectedParents[0] {
        assert i > 0;
        AbsentNameFails(expectedParents[1..], rest, i - 1);
      } else {
        AbsentNameFails(expectedParents, rest, i);
      }
    }
  }

  /** Two names each on the stack once are found in top-down order only: on
      the stack ref-list, ref (top), asking for ref-list then ref fails. */
  lemma {:induction false} WrongOrderFails(parents: seq<string>, lower: string, upper: string, i: int, j: int)
    requires 0 <= i < j < |parents| && parents[i] == lower && parents[j] == upper && lower != upper
    requires forall k :: 0 <= k < |parents| && k != i ==> parents[k] != lower
    requires forall k :: 0 <= k < |parents| && k != j ==> parents[k] != upper
    ensures !MatchesFromTop([lower, upper], parents)
    decreases |parents|
  {
    var rest := parents[..|parents| - 1];
    if j == |parents| - 1 {
      assert upper !in rest;
      AbsentNameFails([lower, upper], rest, 1);
    } else {
      WrongOrderFails(rest, lower, upper, i, j);
    }
  }

  /** isWithinElement looks at the direct parent only: a parent deeper in
      the stack than its top does not satisfy it, although hasAmongParents
      finds it; when it holds, hasAmongParents holds for that parent too. */
  lemma WithinElementIsTopMatch(qName: string, parents: seq<string>, expectedParent: string)
    requires |parents| > 0
    ensures IsWithinElement(qName, qName, parents, expectedParent) ==> HasAmongParents(qName, qName, parents, [expectedParent])
    ensures parents[|parents| - 1] != expectedParent ==> !IsWithinElement(qName, qName, parents, expectedParent)
  {
    assert [expectedParent][1..] == [];
  }
}
