/** Small helpers the sessions share: an optional value, subsequences of a
    list, and the rounded percentage the completion screens show. */
module Util {
  import opened Js

  datatype Option<T> = None | Some(value: T)

  /** `a` is `b` with some elements left out, the rest in their order. */
  predicate IsSubsequence<T(==)>(a: seq<T>, b: seq<T>)
    decreases |b|
  {
    if a == [] then true
    else if b == [] then false
    else (a[0] == b[0] && IsSubsequence(a[1..], b[1..])) || IsSubsequence(a, b[1..])
  }

  /** What a subsequence holds, the whole sequence holds. */
  lemma {:induction false} SubsequenceMembers<T>(a: seq<T>, b: seq<T>)
    requires IsSubsequence(a, b)
    ensures forall x :: x in a ==> x in b
    decreases |b|
  {
    if a != [] {
      if a[0] == b[0] && IsSubsequence(a[1..], b[1..]) {
        SubsequenceMembers(a[1..], b[1..]);
        assert forall x :: x in a ==> x == a[0] || x in a[1..];
      } else {
        SubsequenceMembers(a, b[1..]);
      }
    }
  }

  /** Math.round(part / whole * 100), the accuracy shown at the end of a session. */
  function RoundedPercent(part: int, whole: int): (r: int)
    requires whole > 0
    ensures var f := part as real / whole as real; r as real - 0.5 <= f * 100.0 < r as real + 0.5
    ensures 0 <= part <= whole ==> 0 <= r <= 100
    ensures part == whole ==> r == 100
    ensures part == 0 ==> r == 0
  {
    FractionBounds(part, whole);
    Round(part as real / whole as real * 100.0)
  }

  lemma FractionBounds(part: int, whole: int)
    requires whole > 0
    ensures 0 <= part <= whole ==> 0.0 <= part as real / whole as real <= 1.0
    ensures part == whole ==> part as real / whole as real == 1.0
  {
    var f := part as real / whole as real;
    assert f * whole as real == part as real;
    assert f < 0.0 ==> f * whole as real < 0.0;
    assert f > 1.0 ==> f * whole as real > 1.0 * whole as real;
  }
}
