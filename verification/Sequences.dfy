/** Facts about sequences that the solver is better told than left to find. */
module Sequences {

  lemma {:induction false} Regroup<T>(a: seq<T>, b: seq<T>, c: seq<T>)
    ensures a + (b + c) == a + b + c
  {
  }

  lemma {:induction false} Snoc<T>(s: seq<T>, n: nat)
    requires 0 < n <= |s|
    ensures s[..n] == s[..n - 1] + [s[n - 1]] && s[..n][..n - 1] == s[..n - 1]
  {
  }

  ghost predicate Increasing(s: seq<nat>) {
    forall i, j :: 0 <= i < j < |s| ==> s[i] < s[j]
  }

  predicate Below(s: seq<nat>, n: nat) {
    forall i :: 0 <= i < |s| ==> s[i] < n
  }

  /** The numbers below `n` that are kept, in order. */
  function Positions(keep: nat -> bool, n: nat): seq<nat> {
    if n == 0 then [] else Positions(keep, n - 1) + if keep(n - 1) then [n - 1] else []
  }

  lemma {:induction false} AppendLarger(s: seq<nat>, n: nat)
    requires Increasing(s) && Below(s, n)
    ensures Increasing(s + [n]) && Below(s + [n], n + 1)
    ensures forall k: nat :: k in s + [n] <==> k in s || k == n
  {
  }

  lemma {:induction false} PositionsAre(keep: nat -> bool, n: nat)
    ensures Increasing(Positions(keep, n)) && Below(Positions(keep, n), n)
    ensures forall k: nat :: k in Positions(keep, n) <==> k < n && keep(k)
  {
    if n > 0 {
      PositionsAre(keep, n - 1);
      AppendLarger(Positions(keep, n - 1), n - 1);
    }
  }
}
