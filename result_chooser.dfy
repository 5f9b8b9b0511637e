// AffMatchResultChooser: of two match results, the stronger one; the first
// one on a tie.

module ResultChoosing {
  import opened Wrappers
  import opened AffMatchModel

  function ChooseBetter(r1: Option<MatchResult>, r2: Option<MatchResult>): (r: Result<MatchResult>)
    ensures r1.None? || r2.None? ==> r == Failure(NullPointer)
    ensures r1.Some? && r2.Some? ==> r.Success?
    ensures r.Success? ==> (r.value == r1.value || r.value == r2.value)
    ensures r.Success? ==> r.value.matchStrength >= r1.value.matchStrength
                           && r.value.matchStrength >= r2.value.matchStrength
    ensures r.Success? && r2.value.matchStrength <= r1.value.matchStrength ==> r.value == r1.value
  {
    if r1.None? || r2.None? then Failure(NullPointer)
    else if r2.value.matchStrength > r1.value.matchStrength then Success(r2.value)
    else Success(r1.value)
  }

  /** Folding the chooser over a group, in the group's order. */
  function ChooseBest(first: MatchResult, rest: seq<MatchResult>): (r: MatchResult)
    ensures r == first || r in rest
    ensures r.matchStrength >= first.matchStrength
    decreases |rest|
  {
    if rest == [] then first
    else ChooseBest(ChooseBetter(Some(first), Some(rest[0])).value, rest[1..])
  }

  /** The fold yields a member of the group of maximal strength, and the
      earliest such member. */
  lemma {:induction false} ChooseBestIsFirstMax(first: MatchResult, rest: seq<MatchResult>)
    ensures var b := ChooseBest(first, rest);
      var group := [first] + rest;
      b in group
      && (forall x :: x in group ==> x.matchStrength <= b.matchStrength)
      && exists k :: 0 <= k < |group| && group[k] == b
                     && forall j :: 0 <= j < k ==> group[j].matchStrength < b.matchStrength
    decreases |rest|
  {
    var group := [first] + rest;
    if rest != [] {
      var c := ChooseBetter(Some(first), Some(rest[0])).value;
      ChooseBestIsFirstMax(c, rest[1..]);
      var b := ChooseBest(c, rest[1..]);
      var tail := [c] + rest[1..];
      assert b == ChooseBest(first, rest);
      forall x | x in group
        ensures x.matchStrength <= b.matchStrength
      {
        if x != first && x != rest[0] {
          assert x in rest[1..];
        }
      }
      var k :| 0 <= k < |tail| && tail[k] == b
               && forall j :: 0 <= j < k ==> tail[j].matchStrength < b.matchStrength;
      if k == 0 {
        if c == first {
          assert group[0] == b;
        } else {
          assert group[1] == b;
          assert group[0].matchStrength < b.matchStrength;
        }
      } else {
        assert group[k + 1] == b;
        forall j | 0 <= j < k + 1
          ensures group[j].matchStrength < b.matchStrength
        {
          if j >= 2 {
            assert group[j] == tail[j - 1];
          }
        }
      }
    }
  }
}
