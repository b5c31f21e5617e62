/** The Fisher-Yates shuffle the session components run on a copy of their
    input. The random choices are an input: `picks[k]` is the index
    `Math.floor(Math.random() * (i + 1))` chosen at the k-th step, the step
    that fills position `i = n - 1 - k`, so it lies in 0..i. */
module Shuffle {

  /** One pick per step (a list of n items takes n - 1 steps), each in range. */
  predicate ValidPicks(picks: seq<nat>, n: nat) {
    |picks| == (if n == 0 then 0 else n - 1)
    && forall k :: 0 <= k < |picks| ==> picks[k] <= n - 1 - k
  }

  function Swap<T>(s: seq<T>, i: nat, j: nat): (t: seq<T>)
    requires i < |s| && j < |s|
    ensures |t| == |s| && t[i] == s[j] && t[j] == s[i]
    ensures forall k :: 0 <= k < |s| && k != i && k != j ==> t[k] == s[k]
  {
    seq(|s|, k requires 0 <= k < |s| => if k == i then s[j] else if k == j then s[i] else s[k])
  }

  lemma SwapPermutes<T>(s: seq<T>, i: nat, j: nat)
    requires i < |s| && j < |s|
    ensures multiset(Swap(s, i, j)) == multiset(s)
  {
    assert Swap(s, i, j) == s[i := s[j]][j := s[i]];
  }

  /** The list after the first `k` steps; step k swaps position n - k with
      the k-th pick. */
  function Steps<T>(s: seq<T>, picks: seq<nat>, k: nat): (t: seq<T>)
    requires ValidPicks(picks, |s|) && k <= |picks|
    ensures |t| == |s|
    decreases k
  {
    if k == 0 then s
    else Swap(Steps(s, picks, k - 1), |s| - k, picks[k - 1])
  }

  /** One step permutes the list. */
  lemma StepPermutes<T>(s: seq<T>, picks: seq<nat>, k: nat)
    requires ValidPicks(picks, |s|) && 0 < k <= |picks|
    ensures multiset(Steps(s, picks, k)) == multiset(Steps(s, picks, k - 1))
  {
    SwapPermutes(Steps(s, picks, k - 1), |s| - k, picks[k - 1]);
  }

  /** Whatever the picks, every prefix of the steps permutes the list. */
  lemma {:induction false} StepsPermute<T>(s: seq<T>, picks: seq<nat>, k: nat)
    requires ValidPicks(picks, |s|) && k <= |picks|
    ensures multiset(Steps(s, picks, k)) == multiset(s)
    decreases k
  {
    if k > 0 {
      StepPermutes(s, picks, k - 1 + 1);
      StepsPermute(s, picks, k - 1);
    }
  }

  /** The whole shuffle: a permutation of its input. */
  function FisherYates<T>(s: seq<T>, picks: seq<nat>): (t: seq<T>)
    requires ValidPicks(picks, |s|)
    ensures |t| == |s| && multiset(t) == multiset(s)
  {
    StepsPermute(s, picks, |picks|);
    Steps(s, picks, |picks|)
  }

  /** `[a[i], a[j]] = [a[j], a[i]]` */
  method SwapInPlace<T>(a: array<T>, i: nat, j: nat)
    requires i < a.Length && j < a.Length
    modifies a
    ensures a[..] == Swap(old(a[..]), i, j)
  {
    a[i], a[j] := a[j], a[i];
  }

  /** The loop of shuffleArray: i runs from n - 1 down to 1, swapping a[i]
      with a[j] for the pick j of that step. */
  method ShuffleInPlace<T>(a: array<T>, picks: seq<nat>)
    requires ValidPicks(picks, a.Length)
    modifies a
    ensures a[..] == Steps(old(a[..]), picks, |picks|)
  {
    ghost var original := a[..];
    if a.Length == 0 {
      return;
    }
    var i := a.Length - 1;
    ghost var k := 0;
    while i > 0
      invariant 0 <= i < a.Length && k == a.Length - 1 - i
      invariant a[..] == Steps(original, picks, k)
    {
      SwapInPlace(a, i, picks[a.Length - 1 - i]);
      i, k := i - 1, k + 1;
    }
  }

  /** shuffleArray: shuffles a fresh copy of its input. */
  method ShuffleArray<T>(input: seq<T>, picks: seq<nat>) returns (shuffled: array<T>)
    requires ValidPicks(picks, |input|)
    ensures fresh(shuffled)
    ensures shuffled[..] == FisherYates(input, picks)
    ensures multiset(shuffled[..]) == multiset(input)
  {
    shuffled := new T[|input|](k requires 0 <= k < |input| => input[k]);
    assert shuffled[..] == input;
    ShuffleInPlace(shuffled, picks);
  }
}
