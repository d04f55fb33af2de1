/** What several of the models share. */
module Common {

  datatype Option<T> = None | Some(value: T)

  /** A run of a step system: its states, and the actions that lead from each to the next. */
  datatype Trace<S, A> = Trace(states: seq<S>, acts: seq<A>)

  type Byte = b: int | 0 <= b < 0x100

  function Min(a: nat, b: nat): nat {
    if a < b then a else b
  }

  function PowerOfTwo(n: nat): (p: nat)
    ensures p >= 1
  {
    if n == 0 then 1 else 2 * PowerOfTwo(n - 1)
  }

  lemma SubsetSize<T>(a: set<T>, b: set<T>)
    requires a <= b
    ensures |a| <= |b|
  {
    assert b == a + (b - a);
  }
}
