// Weighted sums over sequences: the counters of a connection and its progress measure are both
// sums over the calls, notifications and requests it has ever seen.
module Sums {
  ghost function Sum<T>(s: seq<T>, weight: T -> nat): nat {
    if s == [] then 0 else Sum(s[..|s| - 1], weight) + weight(s[|s| - 1])
  }

  lemma {:induction false} SumAppend<T>(s: seq<T>, x: T, weight: T -> nat)
    ensures Sum(s + [x], weight) == Sum(s, weight) + weight(x)
  {
    assert (s + [x])[..|s|] == s;
  }

  lemma {:induction false} SumUpdate<T>(s: seq<T>, i: nat, x: T, weight: T -> nat)
    requires i < |s|
    ensures Sum(s[i := x], weight) + weight(s[i]) == Sum(s, weight) + weight(x)
  {
    var n := |s| - 1;
    if i == n {
      assert s[i := x][..n] == s[..n];
    } else {
      assert s[i := x][..n] == s[..n][i := x];
      SumUpdate(s[..n], i, x, weight);
    }
  }

  // A sum is at least each of its terms.
  lemma {:induction false} SumAtLeast<T>(s: seq<T>, i: nat, weight: T -> nat)
    requires i < |s|
    ensures Sum(s, weight) >= weight(s[i])
  {
    if i < |s| - 1 {
      SumAtLeast(s[..|s| - 1], i, weight);
    }
  }

  // Two sequences whose elements weigh the same have the same sum.
  lemma {:induction false} SumSame<T>(s: seq<T>, t: seq<T>, weight: T -> nat)
    requires |s| == |t|
    requires forall i :: 0 <= i < |s| ==> weight(s[i]) == weight(t[i])
    ensures Sum(s, weight) == Sum(t, weight)
  {
    if s != [] {
      SumSame(s[..|s| - 1], t[..|t| - 1], weight);
    }
  }

  lemma {:induction false} SumZero<T>(s: seq<T>, weight: T -> nat)
    requires forall i :: 0 <= i < |s| ==> weight(s[i]) == 0
    ensures Sum(s, weight) == 0
  {
    if s != [] {
      SumZero(s[..|s| - 1], weight);
    }
  }
}
