module Basics {
  datatype Option<+T> = None | Some(value: T)

  /** Always true.  "For all k, Look(k) implies P" is the same as P, but the verifier opens it
      only where a proof names Look, which keeps large invariants out of unrelated proofs. */
  ghost predicate Look(k: nat) { true }

  ghost predicate Distinct<T>(s: seq<T>) {
    forall i, j :: 0 <= i < j < |s| ==> s[i] != s[j]
  }

  function Pow2(n: nat): (r: nat)
    ensures r > 0
  {
    if n == 0 then 1 else 2 * Pow2(n - 1)
  }
}
