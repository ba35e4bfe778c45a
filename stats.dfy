/** The statistics the scanners compute over a metric series: Python's `sum`, `max` and
    `sum(s) / len(s)`, over exact reals. */
module Stats {

  /** `sum(s)`. */
  function Sum(s: seq<real>): real {
    if s == [] then 0.0 else Sum(s[..|s| - 1]) + s[|s| - 1]
  }

  /** `sum(s) / len(s)` for a non-empty series. */
  function Mean(s: seq<real>): real
    requires s != []
  {
    Sum(s) / |s| as real
  }

  /** `max(s)`: an element of `s` that no element exceeds. */
  function Max(s: seq<real>): (m: real)
    requires s != []
    ensures forall i :: 0 <= i < |s| ==> s[i] <= m
    ensures exists i :: 0 <= i < |s| && s[i] == m
  {
    if |s| == 1 then s[0]
    else
      var rest := Max(s[..|s| - 1]);
      if s[|s| - 1] > rest then s[|s| - 1] else rest
  }

  /** One step of the bound below: adding a sample at most `m` to a sum at most `n * m`
      gives a sum at most `(n + 1) * m`. */
  lemma BoundStep(n: real, m: real, sumInit: real, last: real)
    requires sumInit <= n * m && last <= m
    ensures sumInit + last <= (n + 1.0) * m
  {
  }

  /** Dividing `sum <= n * m` by a positive `n`. */
  lemma DivideBound(sum: real, n: real, m: real)
    requires n > 0.0 && sum <= n * m
    ensures sum / n <= m
  {
    var q := sum / n;
    assert q * n == sum;
    if q > m {
      assert n * q - n * m == n * (q - m);
    }
  }

  /** A series whose samples are all at most `m` sums to at most its length times `m`. */
  lemma {:induction false} SumAtMostLengthTimes(s: seq<real>, m: real)
    requires forall i :: 0 <= i < |s| ==> s[i] <= m
    ensures Sum(s) <= |s| as real * m
  {
    if s != [] {
      var init := s[..|s| - 1];
      SumAtMostLengthTimes(init, m);
      assert |s| as real == |init| as real + 1.0;
      BoundStep(|init| as real, m, Sum(init), s[|s| - 1]);
    }
  }

  /** The maximum of a series is at least its mean. */
  lemma MaxAtLeastMean(s: seq<real>)
    requires s != []
    ensures Mean(s) <= Max(s)
  {
    SumAtMostLengthTimes(s, Max(s));
    DivideBound(Sum(s), |s| as real, Max(s));
  }

  /** A series of non-negative samples has a non-negative sum. */
  lemma {:induction false} SumNonNegative(s: seq<real>)
    requires forall i :: 0 <= i < |s| ==> s[i] >= 0.0
    ensures Sum(s) >= 0.0
  {
    if s != [] {
      SumNonNegative(s[..|s| - 1]);
    }
  }
}
