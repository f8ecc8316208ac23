/** The Fisher-Yates shuffle of js/main.js (`shuffleArray`). Every call of
    `Math.random()` is replaced by an explicit draw: at round `i` the loop swaps
    cell `i` with cell `draws[i]`, and `Math.floor(Math.random() * (i + 1))`
    always lies in [0, i]. */
module Shuffle {

  /** No value occurs twice in `s`. */
  predicate Distinct<T(==)>(s: seq<T>) {
    forall i, j :: 0 <= i < j < |s| ==> s[i] != s[j]
  }

  /** `draws` holds one admissible draw per round of a shuffle of `n` cells. */
  predicate ValidDraws(draws: seq<nat>, n: nat) {
    |draws| == n && forall i :: 0 <= i < n ==> draws[i] <= i
  }

  /** `[s[i], s[j]] = [s[j], s[i]]` on a copy of `s`. */
  function Swap<T>(s: seq<T>, i: nat, j: nat): (r: seq<T>)
    requires i < |s| && j < |s|
    ensures |r| == |s| && r[i] == s[j] && r[j] == s[i]
    ensures forall k :: 0 <= k < |s| && k != i && k != j ==> r[k] == s[k]
  {
    s[i := s[j]][j := s[i]]
  }

  /** The rounds `k - 1`, `k - 2`, ..., `1` of the shuffle loop, applied to `s`
      in that order: what is still to be done when the loop counter is `k - 1`. */
  function Rounds<T>(s: seq<T>, draws: seq<nat>, k: nat): (r: seq<T>)
    requires k <= |s| && ValidDraws(draws, |s|)
    ensures |r| == |s|
    ensures forall i :: k <= i < |s| ==> r[i] == s[i]
    decreases k
  {
    if k <= 1 then s else Rounds(Swap(s, k - 1, draws[k - 1]), draws, k - 1)
  }

  /** The array `shuffleArray` returns for the given draws. */
  function Shuffled<T>(s: seq<T>, draws: seq<nat>): (r: seq<T>)
    requires ValidDraws(draws, |s|)
    ensures |r| == |s|
  {
    Rounds(s, draws, |s|)
  }

  lemma SwapPermutes<T>(s: seq<T>, i: nat, j: nat)
    requires i < |s| && j < |s|
    ensures multiset(Swap(s, i, j)) == multiset(s)
  {
  }

  lemma SwapKeepsDistinct<T>(s: seq<T>, i: nat, j: nat)
    requires i < |s| && j < |s| && Distinct(s)
    ensures Distinct(Swap(s, i, j))
  {
    var r := Swap(s, i, j);
    forall p, q | 0 <= p < q < |r|
      ensures r[p] != r[q]
    {
      var p' := if p == i then j else if p == j then i else p;
      var q' := if q == i then j else if q == j then i else q;
      assert r[p] == s[p'] && r[q] == s[q'] && p' != q';
    }
  }

  lemma {:induction false} RoundsPermute<T>(s: seq<T>, draws: seq<nat>, k: nat)
    requires k <= |s| && ValidDraws(draws, |s|)
    ensures |Rounds(s, draws, k)| == |s|
    ensures multiset(Rounds(s, draws, k)) == multiset(s)
    decreases k
  {
    if k > 1 {
      SwapPermutes(s, k - 1, draws[k - 1]);
      RoundsPermute(Swap(s, k - 1, draws[k - 1]), draws, k - 1);
    }
  }

  lemma {:induction false} RoundsKeepDistinct<T>(s: seq<T>, draws: seq<nat>, k: nat)
    requires k <= |s| && ValidDraws(draws, |s|) && Distinct(s)
    ensures Distinct(Rounds(s, draws, k))
    decreases k
  {
    if k > 1 {
      SwapKeepsDistinct(s, k - 1, draws[k - 1]);
      RoundsKeepDistinct(Swap(s, k - 1, draws[k - 1]), draws, k - 1);
    }
  }

  /** Whatever the draws, the shuffle returns a permutation of its argument. */
  lemma ShuffledPermutes<T>(s: seq<T>, draws: seq<nat>)
    requires ValidDraws(draws, |s|)
    ensures |Shuffled(s, draws)| == |s|
    ensures multiset(Shuffled(s, draws)) == multiset(s)
    ensures forall x :: x in Shuffled(s, draws) <==> x in s
  {
    RoundsPermute(s, draws, |s|);
    var r := Shuffled(s, draws);
    forall x ensures x in r <==> x in s {
      assert x in r <==> x in multiset(r);
      assert x in s <==> x in multiset(s);
    }
  }

  /** A shuffle of distinct values holds distinct values. */
  lemma ShuffledKeepsDistinct<T>(s: seq<T>, draws: seq<nat>)
    requires ValidDraws(draws, |s|)
    ensures Distinct(s) ==> Distinct(Shuffled(s, draws))
  {
    if Distinct(s) {
      RoundsKeepDistinct(s, draws, |s|);
    }
  }

  /** For fewer than two cells the loop body never runs. */
  lemma ShortShuffleIsIdentity<T>(s: seq<T>, draws: seq<nat>)
    requires ValidDraws(draws, |s|) && |s| <= 1
    ensures Shuffled(s, draws) == s
  {
  }

  /** `shuffleArray`: copy the argument into a fresh array, then swap cell `i`
      with cell `draws[i]` for `i` from the last index down to 1. The argument,
      a value here, cannot change. */
  method ShuffleArray<T>(s: seq<T>, draws: seq<nat>) returns (r: seq<T>)
    requires ValidDraws(draws, |s|)
    ensures r == Shuffled(s, draws)
    ensures |r| == |s| && multiset(r) == multiset(s)
  {
    var shuffled := new T[|s|](k requires 0 <= k < |s| => s[k]);
    assert shuffled[..] == s;
    var i := |s| - 1;
    while i > 0
      invariant -1 <= i < |s|
      invariant Rounds(shuffled[..], draws, i + 1) == Shuffled(s, draws)
    {
      var j := draws[i];
      shuffled[i], shuffled[j] := shuffled[j], shuffled[i];
      i := i - 1;
    }
    r := shuffled[..];
    ShuffledPermutes(s, draws);
  }
}
