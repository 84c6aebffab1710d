/** Sums over sequences. */
module Sums {

  function Total<T>(s: seq<T>, w: T -> int): int {
    if s == [] then 0 else Total(s[..|s| - 1], w) + w(s[|s| - 1])
  }

  lemma TotalAppend<T>(s: seq<T>, x: T, w: T -> int)
    ensures Total(s + [x], w) == Total(s, w) + w(x)
  {
    assert (s + [x])[..|s|] == s;
  }

  lemma {:induction false} TotalUpdate<T>(s: seq<T>, i: nat, x: T, w: T -> int)
    requires i < |s|
    ensures Total(s[i := x], w) == Total(s, w) - w(s[i]) + w(x)
  {
    var n := |s| - 1;
    if i == n {
      assert s[i := x][..n] == s[..n];
    } else {
      assert s[i := x][..n] == s[..n][i := x];
      TotalUpdate(s[..n], i, x, w);
    }
  }

  /** A sum of numbers none of which is negative is at least any one, or any two, of them. */
  lemma {:induction false} TotalAtLeast<T>(s: seq<T>, i: nat, j: nat, w: T -> int)
    requires i <= j < |s|
    requires forall k :: 0 <= k < |s| ==> 0 <= w(s[k])
    ensures w(s[i]) + (if i < j then w(s[j]) else 0) <= Total(s, w)
  {
    var n := |s| - 1;
    if j < n {
      TotalAtLeast(s[..n], i, j, w);
    } else if i < j {
      TotalAtLeast(s[..n], i, i, w);
    } else {
      TotalNonNegative(s[..n], w);
    }
  }

  lemma {:induction false} TotalNonNegative<T>(s: seq<T>, w: T -> int)
    requires forall k :: 0 <= k < |s| ==> 0 <= w(s[k])
    ensures 0 <= Total(s, w)
  {
    if s != [] {
      TotalNonNegative(s[..|s| - 1], w);
    }
  }

  /** Two ways of weighing that differ by a third one, element by element. */
  lemma {:induction false} TotalSum<T>(s: seq<T>, a: T -> int, b: T -> int, c: T -> int)
    requires forall k :: 0 <= k < |s| ==> a(s[k]) == b(s[k]) + c(s[k])
    ensures Total(s, a) == Total(s, b) + Total(s, c)
  {
    if s != [] {
      TotalSum(s[..|s| - 1], a, b, c);
    }
  }

  lemma {:induction false} TotalMonotone<T>(s: seq<T>, a: T -> int, b: T -> int)
    requires forall k :: 0 <= k < |s| ==> a(s[k]) <= b(s[k])
    ensures Total(s, a) <= Total(s, b)
  {
    if s != [] {
      TotalMonotone(s[..|s| - 1], a, b);
    }
  }
}
