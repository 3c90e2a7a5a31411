/** The bits of JavaScript number handling the app relies on: `Math.round`,
    rounding to one decimal, truthiness of an optional number, and sums and
    means over a list (as `reduce((sum, x) => sum + f(x), 0)` computes them). */
module JsNumber {
  import opened Options

  /** `Math.round(x)`: the nearest integer, halves rounded up (towards +infinity). */
  function Round(x: real): (r: int)
    ensures x - 0.5 < r as real <= x + 0.5
  {
    (x + 0.5).Floor
  }

  /** `Math.round(x * 10) / 10`: the nearest multiple of one tenth. */
  function RoundTenth(x: real): (r: real)
    ensures x - 0.05 < r <= x + 0.05
    ensures (r * 10.0).Floor as real == r * 10.0
  {
    var k := Round(x * 10.0);
    k as real / 10.0
  }

  /** `Math.round` is the only integer within half a unit (closed above). */
  lemma RoundUnique(x: real, k: int)
    requires x - 0.5 < k as real <= x + 0.5
    ensures Round(x) == k
  {
    var r := Round(x);
    assert x - 0.5 < r as real <= x + 0.5;
  }

  /** A weight is truthy in JavaScript when it is present and not 0 (NaN is not modelled). */
  predicate Truthy(w: Option<real>) {
    w.Some? && w.value != 0.0
  }

  function Abs(x: real): (r: real)
    ensures r >= 0.0 && (r == x || r == -x)
  {
    if x < 0.0 then -x else x
  }

  /** `s.reduce((sum, x) => sum + f(x), 0)`. */
  function Sum<T>(s: seq<T>, f: T -> real): real
  {
    if |s| == 0 then 0.0 else f(s[0]) + Sum(s[1..], f)
  }

  /** `Sum(...) / s.length`, only for a non-empty list. */
  function Mean<T>(s: seq<T>, f: T -> real): real
    requires |s| > 0
  {
    Sum(s, f) / |s| as real
  }

  lemma {:induction false} SumAppend<T>(a: seq<T>, b: seq<T>, f: T -> real)
    ensures Sum(a + b, f) == Sum(a, f) + Sum(b, f)
  {
    if |a| == 0 {
      assert a + b == b;
    } else {
      assert (a + b)[1..] == a[1..] + b;
      SumAppend(a[1..], b, f);
    }
  }

  /** A sum of values that each lie in [lo, hi] lies in [|s|*lo, |s|*hi]. */
  lemma {:induction false} SumBounds<T>(s: seq<T>, f: T -> real, lo: real, hi: real)
    requires forall i :: 0 <= i < |s| ==> lo <= f(s[i]) <= hi
    ensures |s| as real * lo <= Sum(s, f) <= |s| as real * hi
  {
    if |s| > 0 {
      assert forall i :: 0 <= i < |s[1..]| ==> s[1..][i] == s[i + 1];
      SumBounds(s[1..], f, lo, hi);
    }
  }

  /** The mean of values in [lo, hi] lies in [lo, hi]. */
  lemma MeanBounds<T>(s: seq<T>, f: T -> real, lo: real, hi: real)
    requires |s| > 0
    requires forall i :: 0 <= i < |s| ==> lo <= f(s[i]) <= hi
    ensures lo <= Mean(s, f) <= hi
  {
    SumBounds(s, f, lo, hi);
    var n := |s| as real;
    assert n * lo <= Sum(s, f) <= n * hi;
    assert Mean(s, f) == Sum(s, f) / n;
  }
}
