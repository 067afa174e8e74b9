/** What several components share. */
module Basics {

  newtype byte = x: int | 0 <= x < 256

  ghost predicate NoRepeat(ids: seq<nat>) {
    forall i, j | 0 <= i < j < |ids| :: ids[i] != ids[j]
  }

  function Count(b: bool): nat {
    if b then 1 else 0
  }

  lemma MulMono(c: nat, a: int, b: int)
    requires a <= b
    ensures c * a <= c * b
  {
  }

  lemma MulCancel(c: nat, a: int, b: int)
    requires c >= 1 && c * a < c * b
    ensures a < b
  {
    if b <= a {
      MulMono(c, b, a);
    }
  }
}
