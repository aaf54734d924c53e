/** Profile numbers 1 .. n, the numbering the acquisition loop hands out. */
module Numbering {

  /** The set {1, 2, ..., n}. */
  function ProfileRange(n: nat): (r: set<nat>)
    ensures forall k :: k in r <==> 1 <= k <= n
    decreases n
  {
    if n == 0 then {} else ProfileRange(n - 1) + {n}
  }

  /** {1, ..., n} has exactly n members. */
  lemma {:induction false} ProfileRangeSize(n: nat)
    ensures |ProfileRange(n)| == n
    decreases n
  {
    if n > 0 {
      ProfileRangeSize(n - 1);
      assert n !in ProfileRange(n - 1);
    }
  }
}
