// AffOrgMatchComputer: turns every joined affiliation-organization pair into a
// match result, lets every voter in turn recalculate the result's strength,
// and keeps the results whose final strength is positive.

module MatchComputing {
  import opened Wrappers
  import opened AffMatchModel
  import opened SeqCounts

  /** The recalculator gives the result after one voter's say. */
  type Recalculator<-V> = (MatchResult, V) -> MatchResult

  /** initialMatchStrength is the strength the AffMatchResult constructor
      gives a fresh pair; AffMatchResult is not part of this model. */
  datatype AffOrgMatchComputer<!V> = AffOrgMatchComputer(
    affOrgMatchVoters: seq<V>,
    recalculator: Recalculator<V>,
    initialMatchStrength: real)

  /** The first map: a result per pair, carrying the pair's affiliation and
      organization, in the pairs' order. */
  function InitialResults(pairs: seq<AffOrgPair>, strength: real): (rs: seq<MatchResult>)
    ensures |rs| == |pairs|
    ensures forall i :: 0 <= i < |pairs| ==>
              rs[i].affiliation == pairs[i].0 && rs[i].organization == pairs[i].1
  {
    seq(|pairs|, i requires 0 <= i < |pairs| => MatchResult(pairs[i].0, pairs[i].1, strength))
  }

  /** One map over the collection: the recalculation for one voter. */
  function ApplyVoter<V>(results: seq<MatchResult>, voter: V, recalc: Recalculator<V>): seq<MatchResult>
  {
    seq(|results|, i requires 0 <= i < |results| => recalc(results[i], voter))
  }

  /** The chain of maps, one per voter, in voter-list order. */
  function ApplyVoters<V>(results: seq<MatchResult>, voters: seq<V>, recalc: Recalculator<V>)
    : (rs: seq<MatchResult>)
    ensures |rs| == |results|
    decreases |voters|
  {
    if voters == [] then results
    else ApplyVoters(ApplyVoter(results, voters[0], recalc), voters[1..], recalc)
  }

  /** The reference: what happens to one result, voter after voter. */
  function Recalculated<V>(r: MatchResult, voters: seq<V>, recalc: Recalculator<V>): MatchResult
    decreases |voters|
  {
    if voters == [] then r else Recalculated(recalc(r, voters[0]), voters[1..], recalc)
  }

  /** The final filter: keep the results with a positive strength. */
  function PositiveOnly(results: seq<MatchResult>): (kept: seq<MatchResult>)
    ensures |kept| <= |results|
    ensures forall x :: x in kept <==> x in results && x.matchStrength > 0.0
  {
    if results == [] then []
    else (if results[0].matchStrength > 0.0 then [results[0]] else []) + PositiveOnly(results[1..])
  }

  /** The filter keeps a positive result as often as it occurs and drops
      every other. */
  lemma {:induction false} PositiveOnlyCount(results: seq<MatchResult>, x: MatchResult)
    ensures multiset(PositiveOnly(results))[x] == if x.matchStrength > 0.0 then multiset(results)[x] else 0
  {
    if results != [] {
      PositiveOnlyCount(results[1..], x);
      CountCons(results, x);
      var first: seq<MatchResult> := if results[0].matchStrength > 0.0 then [results[0]] else [];
      CountConcat(first, PositiveOnly(results[1..]), x);
    }
  }

  /** The filter keeps order: filtering a concatenation filters each part. */
  lemma {:induction false} PositiveOnlyAppend(a: seq<MatchResult>, b: seq<MatchResult>)
    ensures PositiveOnly(a + b) == PositiveOnly(a) + PositiveOnly(b)
  {
    if a == [] {
      assert a + b == b;
    } else {
      assert (a + b)[0] == a[0];
      assert (a + b)[1..] == a[1..] + b;
      PositiveOnlyAppend(a[1..], b);
      var first: seq<MatchResult> := if a[0].matchStrength > 0.0 then [a[0]] else [];
      assert PositiveOnly(a + b) == first + PositiveOnly(a[1..] + b);
      assert first + (PositiveOnly(a[1..]) + PositiveOnly(b)) == (first + PositiveOnly(a[1..])) + PositiveOnly(b);
    }
  }

  /** The reference for the computer's output before filtering: each pair's
      fresh result recalculated by every voter, in pair order. */
  function RecalculatedAll<V>(pairs: seq<AffOrgPair>, c: AffOrgMatchComputer<V>): (rs: seq<MatchResult>)
    ensures |rs| == |pairs|
  {
    seq(|pairs|, i requires 0 <= i < |pairs| =>
      Recalculated(MatchResult(pairs[i].0, pairs[i].1, c.initialMatchStrength), c.affOrgMatchVoters, c.recalculator))
  }

  /** computeMatches: a null pair collection is a null-pointer error and an
      empty voter list an illegal-state error. */
  function ComputeMatches<V>(c: AffOrgMatchComputer<V>, joined: Option<seq<AffOrgPair>>)
    : (r: Result<seq<MatchResult>>)
    ensures joined.None? ==> r == Failure(NullPointer)
    ensures joined.Some? && c.affOrgMatchVoters == [] ==> r == Failure(IllegalState)
    ensures r.Success? <==> joined.Some? && c.affOrgMatchVoters != []
    ensures r.Success? ==> |r.value| <= |joined.value|
    ensures r.Success? ==> forall x :: x in r.value ==> x.matchStrength > 0.0
  {
    if joined.None? then Failure(NullPointer)
    else if c.affOrgMatchVoters == [] then Failure(IllegalState)
    else
      var initial := InitialResults(joined.value, c.initialMatchStrength);
      Success(PositiveOnly(ApplyVoters(initial, c.affOrgMatchVoters, c.recalculator)))
  }

  /** The chain of maps recalculates every result separately, one step per
      voter, in order. */
  lemma {:induction false} ApplyVotersPointwise<V>(results: seq<MatchResult>, voters: seq<V>, recalc: Recalculator<V>)
    ensures forall i :: 0 <= i < |results| ==>
              ApplyVoters(results, voters, recalc)[i] == Recalculated(results[i], voters, recalc)
    decreases |voters|
  {
    if voters != [] {
      var next := ApplyVoter(results, voters[0], recalc);
      ApplyVotersPointwise(next, voters[1..], recalc);
    }
  }

  /** Recalculating with a voter list split in two is recalculating with the
      first part and then with the second. */
  lemma {:induction false} RecalculatedAppend<V>(r: MatchResult, v1: seq<V>, v2: seq<V>, recalc: Recalculator<V>)
    ensures Recalculated(r, v1 + v2, recalc) == Recalculated(Recalculated(r, v1, recalc), v2, recalc)
    decreases |v1|
  {
    if v1 != [] {
      assert (v1 + v2)[0] == v1[0];
      assert (v1 + v2)[1..] == v1[1..] + v2;
      RecalculatedAppend(recalc(r, v1[0]), v1[1..], v2, recalc);
      assert Recalculated(r, v1 + v2, recalc) == Recalculated(recalc(r, v1[0]), v1[1..] + v2, recalc);
    } else {
      assert v1 + v2 == v2;
    }
  }

  /** The two-voter case the computer's test pins down: the second voter
      recalculates what the first one produced. */
  lemma TwoVoters<V>(r: MatchResult, voter1: V, voter2: V, recalc: Recalculator<V>)
    ensures Recalculated(r, [voter1, voter2], recalc) == recalc(recalc(r, voter1), voter2)
  {
    var two := [voter1, voter2];
    assert two[0] == voter1 && two[1..] == [voter2];
    assert [voter2][0] == voter2 && [voter2][1..] == [];
    assert Recalculated(recalc(r, voter1), [voter2], recalc)
        == Recalculated(recalc(recalc(r, voter1), voter2), [], recalc);
  }

  /** The output of computeMatches is the positive-strength results of
      recalculating each joined pair with every voter, in pair order and
      with the pairs' multiplicities. */
  lemma ComputeMatchesSpec<V>(c: AffOrgMatchComputer<V>, pairs: seq<AffOrgPair>)
    requires c.affOrgMatchVoters != []
    ensures ComputeMatches(c, Some(pairs)) == Success(PositiveOnly(RecalculatedAll(pairs, c)))
  {
    var initial := InitialResults(pairs, c.initialMatchStrength);
    ApplyVotersPointwise(initial, c.affOrgMatchVoters, c.recalculator);
    assert forall i :: 0 <= i < |pairs| ==>
      initial[i] == MatchResult(pairs[i].0, pairs[i].1, c.initialMatchStrength);
    assert ApplyVoters(initial, c.affOrgMatchVoters, c.recalculator) == RecalculatedAll(pairs, c);
  }

  /** Hence a result is in the output exactly when it is positive and is the
      recalculation of some joined pair. */
  lemma ComputeMatchesMembers<V>(c: AffOrgMatchComputer<V>, pairs: seq<AffOrgPair>, x: MatchResult)
    requires c.affOrgMatchVoters != []
    ensures ComputeMatches(c, Some(pairs)).Success?
    ensures x in ComputeMatches(c, Some(pairs)).value <==>
              x.matchStrength > 0.0
              && exists i :: 0 <= i < |pairs| && x == Recalculated(MatchResult(pairs[i].0, pairs[i].1, c.initialMatchStrength),
                                                                   c.affOrgMatchVoters, c.recalculator)
  {
    ComputeMatchesSpec(c, pairs);
    var all := RecalculatedAll(pairs, c);
    if x in all {
      var i :| 0 <= i < |all| && all[i] == x;
      assert x == Recalculated(MatchResult(pairs[i].0, pairs[i].1, c.initialMatchStrength),
                               c.affOrgMatchVoters, c.recalculator);
    }
    if exists i :: 0 <= i < |pairs| && x == Recalculated(MatchResult(pairs[i].0, pairs[i].1, c.initialMatchStrength),
                                                         c.affOrgMatchVoters, c.recalculator) {
      var i :| 0 <= i < |pairs| && x == Recalculated(MatchResult(pairs[i].0, pairs[i].1, c.initialMatchStrength),
                                                     c.affOrgMatchVoters, c.recalculator);
      assert all[i] == x;
    }
  }

  /** The filter drops a zero-strength result and keeps a positive one. */
  lemma FilterExamples(r1: MatchResult, r2: MatchResult)
    requires r1.matchStrength == 5.0 && r2.matchStrength == 0.0
    ensures PositiveOnly([r1, r2]) == [r1]
  {
    assert [r1, r2][1..] == [r2];
  }
}
