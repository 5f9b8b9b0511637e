// DeduplicationIdentifiableContentApprover: approves a piece of content the
// first time its identifier is seen and rejects every later one with the
// same identifier, whatever the content.

module DedupApprover {

  /** The approvals a fresh sequence of calls receives, given the ids
      already seen before the first of them. */
  function Approvals(seen: set<string>, ids: seq<string>): (r: seq<bool>)
    ensures |r| == |ids|
    decreases |ids|
  {
    if ids == [] then []
    else [ids[0] !in seen] + Approvals(seen + {ids[0]}, ids[1..])
  }

  /** The i-th call is approved exactly when its id was neither seen before
      nor used by an earlier call. */
  lemma {:induction false} ApprovalsSpec(seen: set<string>, ids: seq<string>, i: int)
    requires 0 <= i < |ids|
    ensures Approvals(seen, ids)[i] <==> ids[i] !in seen && ids[i] !in ids[..i]
    decreases i
  {
    if i > 0 {
      ApprovalsSpec(seen + {ids[0]}, ids[1..], i - 1);
      assert ids[..i] == [ids[0]] + ids[1..][..i - 1];
    }
  }

  /** Starting from nothing, every distinct id is approved exactly once: at
      its first occurrence. */
  lemma FirstOccurrenceApproved(ids: seq<string>, i: int)
    requires 0 <= i < |ids|
    ensures Approvals({}, ids)[i] <==> forall j :: 0 <= j < i ==> ids[j] != ids[i]
  {
    ApprovalsSpec({}, ids, i);
  }

  class DeduplicationApprover {
    /** The ids approved so far. */
    var seen: set<string>

    constructor()
      ensures seen == {}
    {
      seen := {};
    }

    /** approve(id, content): true for an id not yet seen, which is then
        remembered; the content plays no part. */
    method Approve(id: string, content: seq<bv8>) returns (approved: bool)
      modifies this
      ensures approved <==> id !in old(seen)
      ensures seen == old(seen) + {id}
    {
      approved := id !in seen;
      seen := seen + {id};
    }

    /** A run of approvals, one per id, in order. */
    method ApproveEach(ids: seq<string>, content: seq<bv8>) returns (results: seq<bool>)
      modifies this
      ensures results == Approvals(old(seen), ids)
      ensures forall x :: x in seen <==> x in old(seen) || x in ids
    {
      results := [];
      var k := 0;
      while k < |ids|
        invariant 0 <= k <= |ids|
        invariant forall x :: x in seen <==> x in old(seen) || x in ids[..k]
        invariant results + Approvals(seen, ids[k..]) == Approvals(old(seen), ids)
      {
        assert ids[k..][1..] == ids[k + 1..];
        ghost var rest := Approvals(seen + {ids[k]}, ids[k + 1..]);
        assert Approvals(seen, ids[k..]) == [ids[k] !in seen] + rest;
        var approved := Approve(ids[k], content);
        assert results + ([approved] + rest) == (results + [approved]) + rest;
        results := results + [approved];
        assert ids[..k + 1] == ids[..k] + [ids[k]];
        k := k + 1;
      }
      assert ids[..k] == ids;
      assert Approvals(seen, ids[k..]) == [];
      assert results + [] == results;
    }
  }
}
