module Sequences {

  /** The first place of `x` in the sequence, or its length. */
  function Index(s: seq<nat>, x: nat): (k: nat)
    ensures k <= |s| && (k < |s| ==> s[k] == x)
    ensures forall i :: 0 <= i < k ==> s[i] != x
  {
    if s == [] || s[0] == x then 0 else 1 + Index(s[1..], x)
  }

  lemma {:induction false} IndexIs(s: seq<nat>, x: nat, k: nat)
    requires k <= |s| && (k < |s| ==> s[k] == x) && forall i :: 0 <= i < k ==> s[i] != x
    ensures Index(s, x) == k
  {
    if s != [] && k > 0 {
      IndexIs(s[1..], x, k - 1);
    }
  }
}
