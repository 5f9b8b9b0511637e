// Small facts about occurrence counts in sequences, shared by the joiners.

module SeqCounts {
  /** Counts add up over a concatenation. */
  lemma CountConcat<T>(a: seq<T>, b: seq<T>, x: T)
    ensures multiset(a + b)[x] == multiset(a)[x] + multiset(b)[x]
  {
  }

  /** The count in a non-empty sequence is the head's share plus the tail's. */
  lemma CountCons<T>(s: seq<T>, x: T)
    requires s != []
    ensures multiset(s)[x] == (if s[0] == x then 1 else 0) + multiset(s[1..])[x]
  {
    assert s == [s[0]] + s[1..];
  }

  lemma Distribute(h: int, t: int, m: int)
    ensures (h + t) * m == h * m + t * m
  {
  }

  lemma Distribute3(h: int, t: int, r: int, m: int)
    ensures (h + t) * r * m == h * r * m + t * r * m
  {
    Distribute(h, t, r);
    Distribute(h * r, t * r, m);
  }

  lemma ProductPositive(a: nat, r: nat, o: nat)
    ensures a * r * o > 0 <==> a > 0 && r > 0 && o > 0
  {
    if a > 0 && r > 0 && o > 0 {
      assert a * r > 0;
    }
  }
}
