/** The cepstral feature matrix and the array operations the cepstral detectors share:
    `np.c_` of the coefficient blocks, column views, the in-place clip of a column, the
    clipped-power times absolute-delta product, and the relative-extremum indicators of
    `scipy.signal.argrelmin` / `argrelmax` with `order=1`. */
module Features {
  import opened Signal
  import opened Library

  /** Trajectory of coefficient `c`: the column `m[:, c]`. */
  function Column(m: seq<seq<real>>, c: nat): (col: seq<real>)
    requires forall t :: 0 <= t < |m| ==> c < |m[t]|
    ensures |col| == |m|
    ensures forall t :: 0 <= t < |m| ==> col[t] == m[t][c]
  {
    seq(|m|, t requires 0 <= t < |m| => m[t][c])
  }

  /** `python_speech_features.delta(m, 2)`: the regression is taken along time, one column at a
      time, so column `c` of the result is `delta` of column `c` of `m`. */
  function DeltaOf(m: seq<seq<real>>, width: nat, delta: RegressionFn): (d: seq<seq<real>>)
    requires Rows(m, width)
    ensures |d| == |m| && Rows(d, width)
    ensures forall t, c :: 0 <= t < |m| && 0 <= c < width ==> d[t][c] == delta(Column(m, c))[t]
  {
    seq(|m|, t requires 0 <= t < |m| => seq(width, c requires 0 <= c < width => delta(Column(m, c))[t]))
  }

  /** `np.c_[a, b]`: the rows of `a` and `b` side by side. */
  function Beside(a: seq<seq<real>>, b: seq<seq<real>>): (m: seq<seq<real>>)
    requires |a| == |b|
    ensures |m| == |a|
    ensures forall t :: 0 <= t < |a| ==> m[t] == a[t] + b[t]
  {
    seq(|a|, t requires 0 <= t < |a| => a[t] + b[t])
  }

  /** The columns of `np.c_[a, b]` are the columns of `a` followed by those of `b`. */
  lemma BesideColumns(a: seq<seq<real>>, wa: nat, b: seq<seq<real>>, wb: nat)
    requires |a| == |b| && Rows(a, wa) && Rows(b, wb)
    ensures Rows(Beside(a, b), wa + wb)
    ensures forall c :: 0 <= c < wa ==> Column(Beside(a, b), c) == Column(a, c)
    ensures forall c :: 0 <= c < wb ==> Column(Beside(a, b), wa + c) == Column(b, c)
  {
    var m := Beside(a, b);
    forall c | 0 <= c < wa
      ensures Column(m, c) == Column(a, c)
    {
      forall t | 0 <= t < |m|
        ensures Column(m, c)[t] == Column(a, c)[t]
      {
        assert m[t][c] == (a[t] + b[t])[c];
      }
    }
    forall c | 0 <= c < wb
      ensures Column(m, wa + c) == Column(b, c)
    {
      forall t | 0 <= t < |m|
        ensures Column(m, wa + c)[t] == Column(b, c)[t]
      {
        assert m[t][wa + c] == (a[t] + b[t])[wa + c];
      }
    }
  }

  /** The columns of `delta(m, 2)` are `delta` of the columns of `m`. */
  lemma DeltaColumns(m: seq<seq<real>>, width: nat, delta: RegressionFn)
    requires Rows(m, width)
    ensures forall c :: 0 <= c < width ==> Column(DeltaOf(m, width, delta), c) == delta(Column(m, c))
  {
    var d := DeltaOf(m, width, delta);
    forall c | 0 <= c < width
      ensures Column(d, c) == delta(Column(m, c))
    {
      assert |delta(Column(m, c))| == |m|;
    }
  }

  /** A numpy feature matrix built from its rows, `width` entries each. */
  method ToArray2(rows: seq<seq<real>>, width: nat) returns (a: array2<real>)
    requires Rows(rows, width)
    ensures fresh(a) && a.Length0 == |rows| && a.Length1 == width
    ensures forall t, c :: 0 <= t < |rows| && 0 <= c < width ==> a[t, c] == rows[t][c]
  {
    a := new real[|rows|, width]((t: nat, c: nat) => if t < |rows| && c < |rows[t]| then rows[t][c] else 0.0);
  }

  /** The view `a[:, c]` as it stands now. */
  function ColumnOf(a: array2<real>, c: nat): (col: seq<real>)
    requires c < a.Length1
    reads a
    ensures |col| == a.Length0
  {
    seq(a.Length0, t requires 0 <= t < a.Length0 reads a => a[t, c])
  }

  /** `max(x, 0)`: what `p[p < 0] = 0` leaves at each entry. */
  function Clip(x: real): (r: real)
    ensures r >= 0.0 && (r == x || r == 0.0)
    ensures x >= 0.0 ==> r == x
  {
    if x < 0.0 then 0.0 else x
  }

  function Abs(x: real): (r: real)
    ensures r >= 0.0 && (r == x || r == -x)
  {
    if x < 0.0 then -x else x
  }

  /** `p[p < 0] = 0` on the column view `a[:, c]`: the negative entries of that column become 0
      in the matrix itself, and every other entry is left as it was. */
  method ClipColumn(a: array2<real>, c: nat)
    requires c < a.Length1
    modifies a
    ensures forall t, k :: 0 <= t < a.Length0 && 0 <= k < a.Length1 ==>
      a[t, k] == if k == c then Clip(old(a[t, k])) else old(a[t, k])
  {
    var t := 0;
    while t < a.Length0
      invariant 0 <= t <= a.Length0
      invariant forall s, k :: 0 <= s < a.Length0 && 0 <= k < a.Length1 ==>
        a[s, k] == if k == c && s < t then Clip(old(a[s, k])) else old(a[s, k])
    {
      if a[t, c] < 0.0 {
        a[t, c] := 0.0;
      }
      t := t + 1;
    }
  }

  /** `p[p < 0] = 0` as a value: the column the in-place clip leaves behind. */
  function ClipAll(power: seq<real>): (r: seq<real>)
    ensures |r| == |power|
    ensures forall t :: 0 <= t < |power| ==> r[t] >= 0.0 && (r[t] == power[t] || r[t] == 0.0)
    ensures forall t :: 0 <= t < |power| && power[t] >= 0.0 ==> r[t] == power[t]
  {
    seq(|power|, t requires 0 <= t < |power| => Clip(power[t]))
  }

  /** `y = mfccPower * np.abs(deltaPower)`: the fluctuation of the cepstral power, frame by
      frame, before smoothing. */
  function Fluctuation(power: seq<real>, delta: seq<real>): (y: seq<real>)
    requires |power| == |delta|
    ensures |y| == |power|
  {
    seq(|power|, t requires 0 <= t < |power| => power[t] * Abs(delta[t]))
  }

  /** Once the power has been clipped, the product is never negative; it vanishes wherever the
      original power was not positive or the delta is zero, and is positive everywhere else. */
  lemma FluctuationSign(power: seq<real>, delta: seq<real>)
    requires |power| == |delta|
    ensures var y := Fluctuation(ClipAll(power), delta);
      forall t :: 0 <= t < |y| ==>
        && 0.0 <= y[t]
        && (power[t] <= 0.0 || delta[t] == 0.0 ==> y[t] == 0.0)
        && (power[t] > 0.0 && delta[t] != 0.0 ==> y[t] > 0.0)
  {
    var y := Fluctuation(ClipAll(power), delta);
    forall t | 0 <= t < |y|
      ensures 0.0 <= y[t]
      ensures power[t] <= 0.0 || delta[t] == 0.0 ==> y[t] == 0.0
      ensures power[t] > 0.0 && delta[t] != 0.0 ==> y[t] > 0.0
    {
      MulMonotone(Clip(power[t]), 0.0, Abs(delta[t]));
      if power[t] > 0.0 && delta[t] != 0.0 {
        MulMonotone(Abs(delta[t]), 0.0, Clip(power[t]));
        assert Clip(power[t]) * Abs(delta[t]) == Abs(delta[t]) * Clip(power[t]);
      }
    }
  }

  /** A 0/1 float array from a boolean mask, as `z = np.zeros(n); z[mask] = 1` builds it. */
  function Indicator(mask: seq<bool>): (z: seq<real>)
    ensures |z| == |mask|
    ensures forall i :: 0 <= i < |mask| ==> (z[i] == 1.0 <==> mask[i]) && (z[i] == 0.0 <==> !mask[i])
  {
    seq(|mask|, i requires 0 <= i < |mask| => if mask[i] then 1.0 else 0.0)
  }

  /** The boolean array `z == 1`. */
  function Ones(z: seq<real>): seq<bool> {
    seq(|z|, i requires 0 <= i < |z| => z[i] == 1.0)
  }

  /** Reading a 0/1 array back with `== 1` recovers the mask it was built from. */
  lemma OnesOfIndicator(mask: seq<bool>)
    ensures Ones(Indicator(mask)) == mask
  {
    assert |Ones(Indicator(mask))| == |mask|;
  }

  datatype Extremum = Minimum | Maximum

  /** The comparator of `argrelmin` (`np.less`) or `argrelmax` (`np.greater`). */
  predicate Beats(kind: Extremum, a: real, b: real) {
    match kind
    case Minimum => a < b
    case Maximum => a > b
  }

  /** Index `i` is a strict relative minimum (or maximum) of `y`: it has a neighbour on both
      sides, and it is below (above) both. */
  predicate IsRelativeExtremum(y: seq<real>, i: int, kind: Extremum) {
    0 < i < |y| - 1 && Beats(kind, y[i], y[i - 1]) && Beats(kind, y[i], y[i + 1])
  }

  /** The boolean array "index `i` is a strict relative extremum of `y`". */
  function Extrema(y: seq<real>, kind: Extremum): (mask: seq<bool>)
    ensures |mask| == |y|
  {
    seq(|y|, i requires 0 <= i < |y| => IsRelativeExtremum(y, i, kind))
  }

  /** `peek = np.zeros(len(y)); peek[argrel(y, order=1)] = 1`. scipy compares each sample
      with its neighbours at `i - 1` and `i + 1`, clipped into range (`mode='clip'`), so an
      endpoint is compared with itself and never qualifies. */
  method RelativeExtrema(y: seq<real>, kind: Extremum) returns (peek: array<real>)
    ensures fresh(peek)
    ensures peek[..] == Indicator(Extrema(y, kind))
  {
    peek := new real[|y|](i => 0.0);
    var i := 0;
    while i < |y|
      invariant 0 <= i <= |y|
      invariant forall j :: 0 <= j < |y| ==>
        peek[j] == if j < i && IsRelativeExtremum(y, j, kind) then 1.0 else 0.0
    {
      var minus := y[if i == 0 then 0 else i - 1];
      var plus := y[if i + 1 == |y| then i else i + 1];
      if Beats(kind, y[i], plus) && Beats(kind, y[i], minus) {
        peek[i] := 1.0;
      }
      i := i + 1;
    }
  }

  /** Endpoints and samples equal to a neighbour (plateaus) are never marked, and no index is
      both a relative minimum and a relative maximum. */
  lemma ExtremaExclusive(y: seq<real>, i: int)
    ensures i <= 0 || i >= |y| - 1 ==> !IsRelativeExtremum(y, i, Minimum) && !IsRelativeExtremum(y, i, Maximum)
    ensures 0 < i < |y| - 1 && (y[i] == y[i - 1] || y[i] == y[i + 1]) ==>
      !IsRelativeExtremum(y, i, Minimum) && !IsRelativeExtremum(y, i, Maximum)
    ensures !(IsRelativeExtremum(y, i, Minimum) && IsRelativeExtremum(y, i, Maximum))
  {
  }
}
