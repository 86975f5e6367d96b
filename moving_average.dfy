/** `simpleMovingAverage` (the same function in scripts/sma.py and scripts/mix.py):
    the power is convolved with a box kernel of `window` taps of weight `1/window`
    by `np.convolve(datas, unit, mode="same")`. The convolution is modelled as numpy
    defines it, and the lemmas show that every output entry is the mean of a window of
    `window` consecutive samples, zero padded at the edges. */
module MovingAverage {
  import opened Signal

  /** `np.ones(window) / window` */
  function Unit(window: nat): (u: seq<real>)
    requires window >= 1
    ensures |u| == window
  {
    seq(window, m => 1.0 / window as real)
  }

  /** The first `n` terms of entry `k` of the full convolution:
      the sum over `m < n` of `v[m] * a[k - m]`, with `a` zero outside its range. */
  function KernelSum(a: seq<real>, v: seq<real>, k: int, n: nat): real
    requires n <= |v|
  {
    if n == 0 then 0.0 else KernelSum(a, v, k, n - 1) + v[n - 1] * At(a, k - (n - 1))
  }

  /** Entry `k` of `np.convolve(a, v, mode="full")`. */
  function FullAt(a: seq<real>, v: seq<real>, k: int): real {
    KernelSum(a, v, k, |v|)
  }

  /** `np.convolve(a, v, mode="same")`: the stretch of the full convolution that is as long as
      the longer operand and starts `(shorter - 1) / 2` entries in. numpy swaps the operands when
      `v` is the longer one; convolution is symmetric, so only the length and offset change. */
  function ConvolveSame(a: seq<real>, v: seq<real>): (r: seq<real>)
    requires |a| > 0 && |v| > 0
    ensures |r| == MaxNat(|a|, |v|)
  {
    var offset := (MinNat(|a|, |v|) - 1) / 2;
    seq(MaxNat(|a|, |v|), k => FullAt(a, v, k + offset))
  }

  /** `simpleMovingAverage(datas, window)`. numpy rejects an empty array on either side, so
      the source needs at least one sample and a window of at least one. */
  function SimpleMovingAverage(datas: seq<real>, window: nat): (smas: seq<real>)
    requires |datas| > 0 && window >= 1
    ensures |smas| == MaxNat(|datas|, window)
  {
    ConvolveSame(datas, Unit(window))
  }

  /** The sum of `a[lo]`, ..., `a[lo + w - 1]`, reading zero outside `a`. */
  function WindowSum(a: seq<real>, lo: int, w: nat): real
    decreases w
  {
    if w == 0 then 0.0 else At(a, lo) + WindowSum(a, lo + 1, w - 1)
  }

  /** The first index of the window whose mean is entry `k` of the moving average of
      `n` samples. */
  function WindowStart(n: nat, window: nat, k: int): int
    requires window >= 1
  {
    k + (MinNat(n, window) - 1) / 2 - (window - 1)
  }

  /** With a box kernel the first `n` kernel terms of full-convolution entry `lo + n - 1`
      average the `n` samples starting at `lo` over the window. */
  lemma {:induction false} KernelSumOfUnit(a: seq<real>, window: nat, lo: int, n: nat)
    requires 1 <= window && n <= window
    ensures KernelSum(a, Unit(window), lo + n - 1, n) == WindowSum(a, lo, n) / window as real
    decreases n
  {
    var w := window as real;
    if n > 0 {
      KernelSumOfUnit(a, window, lo + 1, n - 1);
      var x, rest := At(a, lo), WindowSum(a, lo + 1, n - 1);
      assert Unit(window)[n - 1] == 1.0 / w;
      assert KernelSum(a, Unit(window), lo + n - 1, n) == rest / w + (1.0 / w) * x;
      assert (1.0 / w) * x == x / w;
      assert rest / w + x / w == (x + rest) / w;
    }
  }

  /** Entry `k` of the moving average is the mean of the `window` samples starting at
      `WindowStart`, zero padded. When the window is no longer than the signal the window is
      centred: it runs from `k - window / 2` to `k - window / 2 + window - 1`. */
  lemma SmaWindowMean(datas: seq<real>, window: nat, k: nat)
    requires |datas| > 0 && window >= 1 && k < MaxNat(|datas|, window)
    ensures SimpleMovingAverage(datas, window)[k]
         == WindowSum(datas, WindowStart(|datas|, window, k), window) / window as real
    ensures window <= |datas| ==> WindowStart(|datas|, window, k) == k - window / 2
  {
    var lo := WindowStart(|datas|, window, k);
    var u := Unit(window);
    var offset := (MinNat(|datas|, |u|) - 1) / 2;
    assert k + offset == lo + window - 1;
    assert ConvolveSame(datas, u)[k] == FullAt(datas, u, lo + window - 1);
    KernelSumOfUnit(datas, window, lo, window);
  }

  /** The reference definition of the moving average: entry `k` is the mean of the
      `window` samples starting at `WindowStart`, zero padded. */
  function MovingMeans(datas: seq<real>, window: nat): (r: seq<real>)
    requires window >= 1
    ensures |r| == MaxNat(|datas|, window)
  {
    seq(MaxNat(|datas|, window), k => WindowSum(datas, WindowStart(|datas|, window, k), window) / window as real)
  }

  /** The convolution with a box kernel is the sequence of window means. */
  lemma SmaIsMovingMeans(datas: seq<real>, window: nat)
    requires |datas| > 0 && window >= 1
    ensures SimpleMovingAverage(datas, window) == MovingMeans(datas, window)
  {
    var smas := SimpleMovingAverage(datas, window);
    forall k | 0 <= k < |smas|
      ensures smas[k] == MovingMeans(datas, window)[k]
    {
      SmaWindowMean(datas, window, k);
    }
  }

  /** Sums of samples in `[0, bound]` over `w` places lie in `[0, w * bound]`. */
  lemma {:induction false} WindowSumBounds(a: seq<real>, lo: int, w: nat, bound: real)
    requires 0.0 <= bound
    requires forall i :: 0 <= i < |a| ==> 0.0 <= a[i] <= bound
    ensures 0.0 <= WindowSum(a, lo, w) <= w as real * bound
    decreases w
  {
    if w > 0 {
      WindowSumBounds(a, lo + 1, w - 1, bound);
      assert (w - 1) as real * bound + bound == w as real * bound;
    }
  }

  /** A window sum of non-negative samples is at least each sample inside the window. */
  lemma {:induction false} WindowSumCovers(a: seq<real>, lo: int, w: nat, k: int)
    requires forall i :: 0 <= i < |a| ==> 0.0 <= a[i]
    requires lo <= k < lo + w && 0 <= k < |a|
    ensures a[k] <= WindowSum(a, lo, w)
    decreases w
  {
    WindowSumBounds(a, lo + 1, w - 1, Max(a));
    if k > lo {
      WindowSumCovers(a, lo + 1, w - 1, k);
    }
  }

  /** A window sum of non-positive samples is non-positive. */
  lemma {:induction false} WindowSumNonPositive(a: seq<real>, lo: int, w: nat)
    requires forall i :: 0 <= i < |a| ==> a[i] <= 0.0
    ensures WindowSum(a, lo, w) <= 0.0
    decreases w
  {
    if w > 0 {
      WindowSumNonPositive(a, lo + 1, w - 1);
    }
  }

  /** Window sums are linear in the samples. */
  lemma {:induction false} WindowSumScale(c: real, a: seq<real>, lo: int, w: nat)
    ensures WindowSum(Scale(c, a), lo, w) == c * WindowSum(a, lo, w)
    decreases w
  {
    if w > 0 {
      WindowSumScale(c, a, lo + 1, w - 1);
      assert At(Scale(c, a), lo) == c * At(a, lo);
    }
  }

  /** Dividing a sum bounded by `w * bound` by the window `w` bounds the mean by `bound`. */
  lemma DivideBounds(s: real, w: real, bound: real)
    requires w > 0.0 && 0.0 <= s <= w * bound
    ensures 0.0 <= s / w <= bound
  {
    assert s / w * w == s;
    if s / w > bound {
      MulMonotone(w, bound, s / w);
    }
  }

  /** The window means of samples in `[0, top]` lie in `[0, top]`. */
  lemma MovingMeansBounds(datas: seq<real>, window: nat, top: real)
    requires window >= 1 && 0.0 <= top
    requires forall i :: 0 <= i < |datas| ==> 0.0 <= datas[i] <= top
    ensures var means := MovingMeans(datas, window);
      forall k :: 0 <= k < |means| ==> 0.0 <= means[k] <= top
  {
    var means := MovingMeans(datas, window);
    forall k | 0 <= k < |means|
      ensures 0.0 <= means[k] <= top
    {
      var lo := WindowStart(|datas|, window, k);
      var sum, w := WindowSum(datas, lo, window), window as real;
      assert 0.0 <= sum <= w * top by { WindowSumBounds(datas, lo, window, top); }
      DivideBounds(sum, w, top);
    }
  }

  /** The moving average of a non-negative signal, such as a power, stays within
      `[0, max(datas)]`. */
  lemma SmaBounds(datas: seq<real>, window: nat)
    requires |datas| > 0 && window >= 1
    requires forall i :: 0 <= i < |datas| ==> 0.0 <= datas[i]
    ensures var smas := SimpleMovingAverage(datas, window);
      forall k :: 0 <= k < |smas| ==> 0.0 <= smas[k] <= Max(datas)
  {
    SmaIsMovingMeans(datas, window);
    var top := Max(datas);
    assert 0.0 <= datas[0] <= top;
    MovingMeansBounds(datas, window, top);
  }

  /** Each of the first `|datas|` entries of the moving average of a non-negative signal is at
      least the sample at the same index divided by the window. */
  lemma SmaCovers(datas: seq<real>, window: nat, k: nat)
    requires |datas| > 0 && window >= 1 && k < |datas|
    requires forall i :: 0 <= i < |datas| ==> 0.0 <= datas[i]
    ensures SimpleMovingAverage(datas, window)[k] >= datas[k] / window as real
  {
    SmaWindowMean(datas, window, k);
    var lo := WindowStart(|datas|, window, k);
    WindowSumCovers(datas, lo, window, k);
    DivideMonotone(datas[k], WindowSum(datas, lo, window), window as real);
  }

  /** The moving average of a non-positive signal is non-positive. */
  lemma SmaNonPositive(datas: seq<real>, window: nat)
    requires |datas| > 0 && window >= 1
    requires forall i :: 0 <= i < |datas| ==> datas[i] <= 0.0
    ensures var smas := SimpleMovingAverage(datas, window);
      forall k :: 0 <= k < |smas| ==> smas[k] <= 0.0
  {
    var smas := SimpleMovingAverage(datas, window);
    forall k | 0 <= k < |smas|
      ensures smas[k] <= 0.0
    {
      SmaWindowMean(datas, window, k);
      WindowSumNonPositive(datas, WindowStart(|datas|, window, k), window);
    }
  }

  lemma DivideScale(c: real, s: real, w: real)
    requires w != 0.0
    ensures (c * s) / w == c * (s / w)
  {
  }

  /** Window means are linear in the samples. */
  lemma MovingMeansScale(c: real, datas: seq<real>, window: nat)
    requires window >= 1
    ensures MovingMeans(Scale(c, datas), window) == Scale(c, MovingMeans(datas, window))
  {
    var means, scaledMeans := MovingMeans(datas, window), MovingMeans(Scale(c, datas), window);
    assert |scaledMeans| == |means|;
    forall k | 0 <= k < |means|
      ensures scaledMeans[k] == Scale(c, means)[k]
    {
      WindowMeanScale(c, datas, WindowStart(|datas|, window, k), window);
    }
  }

  lemma WindowMeanScale(c: real, datas: seq<real>, lo: int, window: nat)
    requires window >= 1
    ensures WindowSum(Scale(c, datas), lo, window) / window as real
         == c * (WindowSum(datas, lo, window) / window as real)
  {
    WindowSumScale(c, datas, lo, window);
    DivideScale(c, WindowSum(datas, lo, window), window as real);
  }

  /** Scaling the signal scales its moving average by the same factor. */
  lemma SmaScale(c: real, datas: seq<real>, window: nat)
    requires |datas| > 0 && window >= 1
    ensures SimpleMovingAverage(Scale(c, datas), window) == Scale(c, SimpleMovingAverage(datas, window))
  {
    SmaIsMovingMeans(datas, window);
    SmaIsMovingMeans(Scale(c, datas), window);
    MovingMeansScale(c, datas, window);
  }
}
