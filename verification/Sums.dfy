/**
 Finite sums of a weight over a sequence; the counting tool of the protocol models.  A count of jobs,
 of files or of bytes is a `Total` with its own weight.  The lemmas say how a sum changes when an
 element is appended, taken out or replaced, how sums of two weights add up, and when one sum bounds
 another.
 */
module Sums {

  /** The sum of `w` over the elements of `s`. */
  function Total<T>(s: seq<T>, w: T -> nat): nat {
    if |s| == 0 then 0 else w(s[0]) + Total(s[1..], w)
  }

  /** `s` without its element at position `k`. */
  function Without<T>(s: seq<T>, k: nat): seq<T>
    requires k < |s|
  {
    s[..k] + s[k + 1..]
  }

  lemma {:induction false} TotalConcat<T>(a: seq<T>, b: seq<T>, w: T -> nat)
    ensures Total(a + b, w) == Total(a, w) + Total(b, w)
  {
    if |a| == 0 {
      assert a + b == b;
    } else {
      assert (a + b)[1..] == a[1..] + b;
      TotalConcat(a[1..], b, w);
    }
  }

  lemma TotalSplit<T>(s: seq<T>, k: nat, w: T -> nat)
    requires k < |s|
    ensures Total(s, w) == Total(s[..k], w) + w(s[k]) + Total(s[k + 1..], w)
  {
    assert s == s[..k] + ([s[k]] + s[k + 1..]);
    TotalConcat(s[..k], [s[k]] + s[k + 1..], w);
    TotalConcat([s[k]], s[k + 1..], w);
  }

  lemma TotalSingle<T>(s: seq<T>, w: T -> nat)
    requires |s| == 1
    ensures Total(s, w) == w(s[0])
  {
  }

  lemma TotalAppend<T>(s: seq<T>, x: T, w: T -> nat)
    ensures Total(s + [x], w) == Total(s, w) + w(x)
  {
    TotalConcat(s, [x], w);
  }

  lemma TotalWithout<T>(s: seq<T>, k: nat, w: T -> nat)
    requires k < |s|
    ensures Total(Without(s, k), w) + w(s[k]) == Total(s, w)
  {
    TotalSplit(s, k, w);
    TotalConcat(s[..k], s[k + 1..], w);
  }

  lemma TotalUpdate<T>(s: seq<T>, k: nat, x: T, w: T -> nat)
    requires k < |s|
    ensures Total(s[k := x], w) + w(s[k]) == Total(s, w) + w(x)
  {
    var t := s[k := x];
    TotalSplit(s, k, w);
    TotalSplit(t, k, w);
    assert t[..k] == s[..k] && t[k + 1..] == s[k + 1..];
  }

  /** A sum is positive exactly when some element weighs something. */
  lemma {:induction false} TotalPositive<T>(s: seq<T>, w: T -> nat)
    ensures Total(s, w) > 0 <==> exists k :: 0 <= k < |s| && w(s[k]) > 0
  {
    if |s| > 0 {
      TotalPositive(s[1..], w);
      if Total(s[1..], w) > 0 {
        var k :| 0 <= k < |s[1..]| && w(s[1..][k]) > 0;
        assert w(s[k + 1]) > 0;
      }
      if k :| 0 <= k < |s| && w(s[k]) > 0 && w(s[0]) == 0 {
        assert s[1..][k - 1] == s[k];
      }
    }
  }

  /** Every element's own weight is part of the sum. */
  lemma TotalAtLeast<T>(s: seq<T>, k: nat, w: T -> nat)
    requires k < |s|
    ensures Total(s, w) >= w(s[k])
  {
    TotalSplit(s, k, w);
  }

  /** Sums compare pointwise. */
  lemma {:induction false} TotalLeq<T>(s: seq<T>, u: T -> nat, w: T -> nat)
    requires forall x :: x in s ==> u(x) <= w(x)
    ensures Total(s, u) <= Total(s, w)
  {
    if |s| > 0 {
      assert forall x :: x in s[1..] ==> x in s;
      TotalLeq(s[1..], u, w);
    }
  }

  /** Sums add pointwise. */
  lemma {:induction false} TotalAdd<T>(s: seq<T>, u: T -> nat, v: T -> nat, w: T -> nat)
    requires forall x :: x in s ==> u(x) + v(x) == w(x)
    ensures Total(s, u) + Total(s, v) == Total(s, w)
  {
    if |s| > 0 {
      assert forall x :: x in s[1..] ==> x in s;
      TotalAdd(s[1..], u, v, w);
    }
  }
}
