/** What several modules share. */
module Basics {

  datatype Option<T> = None | Some(value: T)

  /** An address. */
  type Ptr = nat

  /** m' still has everything that m has at the addresses of s. */
  ghost predicate Agree<N>(m: map<Ptr, N>, m': map<Ptr, N>, s: set<Ptr>) {
    forall n :: n in s && n in m ==> n in m' && m[n] == m'[n]
  }

  function Pow2(e: nat): (p: nat)
    ensures p >= 1
  {
    if e == 0 then 1 else 2 * Pow2(e - 1)
  }

  lemma SubsetSize<T>(a: set<T>, b: set<T>)
    requires a <= b
    ensures |a| <= |b|
    decreases b
  {
    if a != {} {
      var x :| x in a;
      SubsetSize(a - {x}, b - {x});
    }
  }
}
