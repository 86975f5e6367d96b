/** Numeric sequences and the result types shared by the four voice-activity detectors.
    Signals are sequences of mathematical reals standing for numpy float arrays. */
module Signal {

  /** The triple every detector returns: three times in seconds, or the "Input Low"
      marker in all three fields. */
  datatype Detection = Timing(startTime: real, endTime: real, interval: real) | InputLow

  /** What the energy detectors do: return a detection; raise IndexError because `upIdx[0]`
      was taken of an empty list; or raise ValueError because numpy or scipy refused an
      argument (an empty signal or kernel in `np.convolve`, too few frames for a cubic
      `interp1d`). */
  datatype Outcome = Returned(detection: Detection) | IndexError | ValueError

  function MinNat(a: nat, b: nat): nat { if a <= b then a else b }
  function MaxNat(a: nat, b: nat): nat { if a <= b then b else a }

  /** Element `i` of `s`, reading zero outside the sequence (the zero padding of a convolution). */
  function At(s: seq<real>, i: int): real {
    if 0 <= i < |s| then s[i] else 0.0
  }

  function Sum(s: seq<real>): real {
    if |s| == 0 then 0.0 else Sum(s[..|s| - 1]) + s[|s| - 1]
  }

  /** `np.mean` */
  function Mean(s: seq<real>): real
    requires |s| > 0
  {
    Sum(s) / |s| as real
  }

  /** The first index holding the largest element; `Max` returns its entry. */
  function ArgMax(s: seq<real>): (k: nat)
    requires |s| > 0
    ensures k < |s| && forall i :: 0 <= i < |s| ==> s[i] <= s[k]
  {
    if |s| == 1 then 0
    else
      var k' := ArgMax(s[..|s| - 1]);
      if s[|s| - 1] <= s[k'] then k' else |s| - 1
  }

  /** `np.max`: an element of the sequence that bounds all the others. */
  function Max(s: seq<real>): (m: real)
    requires |s| > 0
    ensures forall i :: 0 <= i < |s| ==> s[i] <= m
  {
    s[ArgMax(s)]
  }

  /** `wavs ** 2`: the instantaneous power, never negative. */
  function Squares(s: seq<real>): (p: seq<real>)
    ensures |p| == |s|
    ensures forall i :: 0 <= i < |s| ==> 0.0 <= p[i]
  {
    seq(|s|, i requires 0 <= i < |s| => s[i] * s[i])
  }

  /** Multiplying by a non-negative factor keeps an inequality; a positive one keeps it strict. */
  lemma MulMonotone(c: real, a: real, b: real)
    requires c >= 0.0 && a <= b
    ensures c * a <= c * b
    ensures c > 0.0 && a < b ==> c * a < c * b
  {
    assert c * b - c * a == c * (b - a);
  }

  /** `c * s` on a numpy array. */
  function Scale(c: real, s: seq<real>): (r: seq<real>)
    ensures |r| == |s|
  {
    seq(|s|, i requires 0 <= i < |s| => c * s[i])
  }

  /** Elementwise `a * b` of two arrays of one length. */
  function Product(a: seq<real>, b: seq<real>): (r: seq<real>)
    requires |a| == |b|
    ensures |r| == |a|
  {
    seq(|a|, i requires 0 <= i < |a| => a[i] * b[i])
  }

  /** The boolean array `s > t`. */
  function Above(s: seq<real>, t: real): seq<bool> {
    seq(|s|, i requires 0 <= i < |s| => s[i] > t)
  }

  /** The boolean array `s >= t`. */
  function AtLeast(s: seq<real>, t: real): seq<bool> {
    seq(|s|, i requires 0 <= i < |s| => s[i] >= t)
  }

  /** The indices of the true entries of `mask`, in increasing order: what both
      `[i for i, v in enumerate(mask) if v]` and the append loop over a 0/1 array build. */
  function Where(mask: seq<bool>): (r: seq<nat>)
    ensures forall k :: 0 <= k < |r| ==> r[k] < |mask| && mask[r[k]]
    ensures forall i :: 0 <= i < |mask| && mask[i] ==> i in r
    ensures forall k, l :: 0 <= k < l < |r| ==> r[k] < r[l]
  {
    if |mask| == 0 then []
    else Where(mask[..|mask| - 1]) + (if mask[|mask| - 1] then [|mask| - 1] else [])
  }

  /** The first entry of `Where(mask)` is the least true index and the last entry the greatest;
      no true index lies outside the two. */
  lemma WhereEnds(mask: seq<bool>)
    requires |Where(mask)| > 0
    ensures var r := Where(mask);
      && r[0] <= r[|r| - 1] < |mask| && mask[r[0]] && mask[r[|r| - 1]]
      && (forall i :: 0 <= i < r[0] ==> !mask[i])
      && (forall i :: r[|r| - 1] < i < |mask| ==> !mask[i])
  {
    var r := Where(mask);
    forall i | 0 <= i < |mask| && mask[i]
      ensures r[0] <= i <= r[|r| - 1]
    {
      var k :| 0 <= k < |r| && r[k] == i;
      assert r[0] <= r[k] <= r[|r| - 1];
    }
  }

  /** `Where` finds something exactly when some entry of the mask is true. */
  lemma WhereEmpty(mask: seq<bool>)
    ensures |Where(mask)| == 0 <==> forall i :: 0 <= i < |mask| ==> !mask[i]
  {
    if |Where(mask)| > 0 {
      var r := Where(mask);
      assert mask[r[0]];
    }
  }

  /** A sum of non-negative samples is non-negative, and positive only if some sample is. */
  lemma {:induction false} SumOfNonNegative(s: seq<real>)
    requires forall i :: 0 <= i < |s| ==> 0.0 <= s[i]
    ensures 0.0 <= Sum(s)
    ensures Sum(s) > 0.0 ==> exists i :: 0 <= i < |s| && s[i] > 0.0
  {
    if |s| > 0 {
      var front := s[..|s| - 1];
      SumOfNonNegative(front);
      if Sum(s) > 0.0 && s[|s| - 1] <= 0.0 {
        var i :| 0 <= i < |front| && front[i] > 0.0;
        assert s[i] > 0.0;
      }
    }
  }

  /** An element that bounds all the others is the maximum. */
  lemma MaxAt(s: seq<real>, k: nat)
    requires k < |s| && forall i :: 0 <= i < |s| ==> s[i] <= s[k]
    ensures Max(s) == s[k]
  {
    assert s[ArgMax(s)] <= s[k];
  }

  /** `np.max(c * s) == c * np.max(s)` for a non-negative factor. */
  lemma MaxScale(c: real, s: seq<real>)
    requires |s| > 0 && c >= 0.0
    ensures Max(Scale(c, s)) == c * Max(s)
  {
    var cs, k := Scale(c, s), ArgMax(s);
    forall i | 0 <= i < |cs|
      ensures cs[i] <= cs[k]
    {
      MulMonotone(c, s[i], s[k]);
    }
    MaxAt(cs, k);
  }

  /** Dividing by a positive number keeps the order. */
  lemma DivideMonotone(a: real, b: real, f: real)
    requires f > 0.0 && a <= b
    ensures a / f <= b / f
  {
    assert b / f - a / f == (b - a) / f;
  }

  /** The noise gate `10 * log10(mean) < minNoiseLevel`. A mean power of zero makes
      `log10` return minus infinity, which is below every level; the power of a signal is
      never negative, so the first disjunct only ever meets zero. */
  predicate Silent(meanPower: real, minNoiseLevel: real, log10: real -> real) {
    meanPower <= 0.0 || 10.0 * log10(meanPower) < minNoiseLevel
  }
}
