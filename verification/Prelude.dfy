// Shared vocabulary: optional values, results with errors, bytes, and sums over sequences.
module Prelude {
  datatype Option<+T> = None | Some(value: T)

  datatype Result<+T, +E> = Ok(value: T) | Err(error: E)

  type byte = b: int | 0 <= b < 256

  function Max(a: int, b: int): int {
    if a < b then b else a
  }

  /** The sum of f over the elements of s. */
  function Total<T>(s: seq<T>, f: T -> int): int {
    if s == [] then 0 else Total(s[..|s| - 1], f) + f(s[|s| - 1])
  }

  lemma {:induction false} TotalAppend<T>(s: seq<T>, t: seq<T>, f: T -> int)
    ensures Total(s + t, f) == Total(s, f) + Total(t, f)
  {
    if t == [] {
      assert s + t == s;
    } else {
      assert (s + t)[..|s + t| - 1] == s + t[..|t| - 1];
      TotalAppend(s, t[..|t| - 1], f);
    }
  }

  /** Replacing one element changes the sum by the difference of its two values. */
  lemma {:induction false} TotalUpdate<T>(s: seq<T>, i: nat, x: T, f: T -> int)
    requires i < |s|
    ensures Total(s[i := x], f) == Total(s, f) - f(s[i]) + f(x)
  {
    var n := |s| - 1;
    if i == n {
      assert s[i := x][..n] == s[..n];
    } else {
      assert s[i := x][..n] == s[..n][i := x];
      TotalUpdate(s[..n], i, x, f);
    }
  }

  /** Sums compare as their terms do. */
  lemma {:induction false} TotalPointwise<T>(s: seq<T>, t: seq<T>, f: T -> int, g: T -> int)
    requires |s| == |t| && forall k :: 0 <= k < |s| ==> f(s[k]) <= g(t[k])
    ensures Total(s, f) <= Total(t, g)
  {
    if s != [] {
      TotalPointwise(s[..|s| - 1], t[..|t| - 1], f, g);
    }
  }

  lemma TotalSame<T>(s: seq<T>, t: seq<T>, f: T -> int, g: T -> int)
    requires |s| == |t| && forall k :: 0 <= k < |s| ==> f(s[k]) == g(t[k])
    ensures Total(s, f) == Total(t, g)
  {}

  lemma {:induction false} TotalConstant<T>(s: seq<T>, f: T -> int, c: int)
    requires forall k :: 0 <= k < |s| ==> f(s[k]) == c
    ensures Total(s, f) == |s| * c
  {
    if s != [] {
      TotalConstant(s[..|s| - 1], f, c);
    }
  }

  /** Over non-negative terms each term is at most the sum. */
  lemma {:induction false} TotalAtLeast<T>(s: seq<T>, i: nat, f: T -> int)
    requires i < |s| && forall k :: 0 <= k < |s| ==> f(s[k]) >= 0
    ensures Total(s, f) >= f(s[i])
  {
    var n := |s| - 1;
    if i < n {
      TotalAtLeast(s[..n], i, f);
    } else {
      TotalNonNegative(s[..n], f);
    }
  }

  lemma {:induction false} TotalNonNegative<T>(s: seq<T>, f: T -> int)
    requires forall k :: 0 <= k < |s| ==> f(s[k]) >= 0
    ensures Total(s, f) >= 0
  {
    if s != [] {
      TotalNonNegative(s[..|s| - 1], f);
    }
  }
}
