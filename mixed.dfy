/** The mixed detector of scripts/mix.py. The cepstral fluctuation curve (one value per 10 ms
    frame) is resampled by cubic interpolation to one value per audio sample and multiplied by
    the sample power; the product is smoothed by the moving average of scripts/sma.py and
    searched with the same relative threshold and the same loudness gate, which still reads
    the mean of the raw power. */
module Mixed {
  import opened Signal
  import opened Library
  import opened Features
  import opened MovingAverage
  import Cepstral
  import EnergySma

  /** `interp1d(..., kind="cubic")` fits a cubic spline and needs at least this many frames;
      with fewer it raises ValueError. */
  const CubicPoints: nat := 4

  /** `getVadFluctuation(mfccPowers, deltaPowers)`: the in-place clip of the power view and the
      smoothed product, without peak detection. */
  method VadFluctuation(features: array2<real>, powerCol: nat, deltaCol: nat, lib: Numerics) returns (y: seq<real>)
    requires powerCol < features.Length1 && deltaCol < features.Length1
    modifies features
    ensures forall t, c :: 0 <= t < features.Length0 && 0 <= c < features.Length1 ==>
      features[t, c] == if c == powerCol then Clip(old(features[t, c])) else old(features[t, c])
    ensures ColumnOf(features, powerCol) == ClipAll(old(ColumnOf(features, powerCol)))
    ensures deltaCol != powerCol ==> ColumnOf(features, deltaCol) == old(ColumnOf(features, deltaCol))
    ensures y == lib.gaussian(Fluctuation(ColumnOf(features, powerCol), ColumnOf(features, deltaCol)), Cepstral.VadFilterWidth)
  {
    ghost var power0, delta0 := ColumnOf(features, powerCol), ColumnOf(features, deltaCol);
    ClipColumn(features, powerCol);
    assert ColumnOf(features, powerCol) == ClipAll(power0);
    if deltaCol != powerCol {
      assert ColumnOf(features, deltaCol) == delta0;
    }
    y := lib.gaussian(Fluctuation(ColumnOf(features, powerCol), ColumnOf(features, deltaCol)), Cepstral.VadFilterWidth);
  }

  /** `fitted_curve(x_latents)`: the frame-rate fluctuation curve of the samples resampled to
      one value per sample. */
  function Curve(wavs: seq<real>, frameRate: nat, lib: Numerics): (curve: seq<real>)
    ensures |curve| == |wavs|
  {
    var mfccs := Cepstral.GetMfcc(wavs, frameRate, lib);
    lib.cubic(Cepstral.VadOf(mfccs, Cepstral.FeatureWidth, lib), |wavs|)
  }

  /** `vads = fitted_curves * powers`. */
  function Vads(wavs: seq<real>, frameRate: nat, lib: Numerics): (vads: seq<real>)
    ensures |vads| == |wavs|
  {
    Product(Curve(wavs, frameRate, lib), Squares(wavs))
  }

  /** `smas = simpleMovingAverage(datas=vads, window=smaWindowSize)`. */
  function Smas(wavs: seq<real>, frameRate: nat, windowSize: nat, lib: Numerics): (smas: seq<real>)
    requires |wavs| > 0 && windowSize >= 1
    ensures |smas| == MaxNat(|wavs|, windowSize)
  {
    SimpleMovingAverage(Vads(wavs, frameRate, lib), windowSize)
  }

  /** The power is never negative, so each mixed sample has the sign of the curve there. */
  lemma MixSign(curve: seq<real>, powers: seq<real>)
    requires |curve| == |powers| && forall i :: 0 <= i < |powers| ==> 0.0 <= powers[i]
    ensures var vads := Product(curve, powers);
      forall i :: 0 <= i < |vads| ==>
        && (curve[i] <= 0.0 ==> vads[i] <= 0.0)
        && (curve[i] >= 0.0 ==> vads[i] >= 0.0)
  {
    var vads := Product(curve, powers);
    forall i | 0 <= i < |vads|
      ensures curve[i] <= 0.0 ==> vads[i] <= 0.0
      ensures curve[i] >= 0.0 ==> vads[i] >= 0.0
    {
      if curve[i] <= 0.0 {
        MulMonotone(powers[i], curve[i], 0.0);
      } else {
        MulMonotone(powers[i], 0.0, curve[i]);
      }
      assert powers[i] * curve[i] == vads[i];
    }
  }

  /** The three ways `run` can raise ValueError before it decides: too few frames for the
      cubic fit, or an empty signal or kernel in `np.convolve`. An empty clip reaches the
      feature extractor first; the model assumes that call succeeds and reports the ValueError
      of `np.convolve`. */
  predicate Invalid(wavs: seq<real>, frameRate: nat, windowSize: int, lib: Numerics) {
    |lib.mfcc(wavs, frameRate)| < CubicPoints || |wavs| == 0 || windowSize < 1
  }

  /** What `run(fileName, figName, smaThresholdRate, smaWindowSize, minNoiseLevel)` returns for
      the normalised samples `wavs` at `frameRate`. */
  function Detect(wavs: seq<real>, frameRate: nat, thresholdRate: real, windowSize: int,
                  minNoiseLevel: real, lib: Numerics): (o: Outcome)
    requires frameRate > 0
    ensures o == ValueError <==> Invalid(wavs, frameRate, windowSize, lib)
    ensures o == Returned(InputLow) <==>
      !Invalid(wavs, frameRate, windowSize, lib) && Silent(Mean(Squares(wavs)), minNoiseLevel, lib.log10)
  {
    if Invalid(wavs, frameRate, windowSize, lib) then ValueError
    else
      EnergySma.Decide(Smas(wavs, frameRate, windowSize, lib), Squares(wavs), frameRate, thresholdRate, minNoiseLevel, lib.log10)
  }

  /** `run` on the samples of a 16-bit file: read and normalise, clip the power column of the
      feature matrix, fit and resample the curve, mix, smooth and decide, then draw the figure
      when a name is given. As in scripts/sma.py, `plt.plot(times, smas)` raises ValueError
      when the window is longer than the clip. */
  method Run(raw: seq<EnergySma.int16>, frameRate: nat, figName: string, thresholdRate: real, windowSize: int,
             minNoiseLevel: real, lib: Numerics) returns (o: Outcome)
    requires frameRate > 0
    ensures o == EnergySma.Plot(Detect(EnergySma.ReadWav(raw), frameRate, thresholdRate, windowSize, minNoiseLevel, lib),
                                figName, |raw|, windowSize)
  {
    var wavs := EnergySma.ReadWav(raw);
    var powers := Squares(wavs);
    var rows := Cepstral.GetMfcc(wavs, frameRate, lib);
    var mfccs := ToArray2(rows, Cepstral.FeatureWidth);
    assert ColumnOf(mfccs, 0) == Column(rows, 0);
    assert ColumnOf(mfccs, NumCep) == Column(rows, NumCep);
    var yObserved := VadFluctuation(mfccs, 0, NumCep, lib);
    if mfccs.Length0 < CubicPoints {
      return ValueError;
    }
    var fittedCurves := lib.cubic(yObserved, |powers|);
    var vads := Product(fittedCurves, powers);
    if |vads| == 0 || windowSize < 1 {
      return ValueError;
    }
    var smas := SimpleMovingAverage(vads, windowSize);
    o := EnergySma.Decide(smas, powers, frameRate, thresholdRate, minNoiseLevel, lib.log10);
    if figName != "" && o.Returned? && |smas| != |vads| {
      o := ValueError;
    }
  }

  /** With a positive peak in the smoothed mix and a rate below 1, a loud recording always yields
      times: the index of the peak passes the threshold, so `upIdx` is not empty. */
  lemma DetectFinds(wavs: seq<real>, frameRate: nat, thresholdRate: real, windowSize: int,
                    minNoiseLevel: real, lib: Numerics)
    requires frameRate > 0 && !Invalid(wavs, frameRate, windowSize, lib) && thresholdRate < 1.0
    requires !Silent(Mean(Squares(wavs)), minNoiseLevel, lib.log10)
    requires Max(Smas(wavs, frameRate, windowSize, lib)) > 0.0
    ensures Detect(wavs, frameRate, thresholdRate, windowSize, minNoiseLevel, lib).Returned?
    ensures Detect(wavs, frameRate, thresholdRate, windowSize, minNoiseLevel, lib).detection.Timing?
  {
    EnergySma.DecideFinds(Smas(wavs, frameRate, windowSize, lib), Squares(wavs), frameRate, thresholdRate, minNoiseLevel, lib.log10);
  }

  /** A loud recording whose resampled curve is nowhere positive makes `upIdx[0]` fail for any
      rate in `[0, 1]`: the mix, hence its moving average, is nowhere positive, and nothing
      lies strictly above `0 * rate`. */
  lemma DetectRaisesWhenCurveFlat(wavs: seq<real>, frameRate: nat, thresholdRate: real, windowSize: int,
                                  minNoiseLevel: real, lib: Numerics)
    requires frameRate > 0 && !Invalid(wavs, frameRate, windowSize, lib) && 0.0 <= thresholdRate <= 1.0
    requires !Silent(Mean(Squares(wavs)), minNoiseLevel, lib.log10)
    requires forall i :: 0 <= i < |wavs| ==> Curve(wavs, frameRate, lib)[i] <= 0.0
    ensures Detect(wavs, frameRate, thresholdRate, windowSize, minNoiseLevel, lib) == IndexError
  {
    var vads := Vads(wavs, frameRate, lib);
    MixSign(Curve(wavs, frameRate, lib), Squares(wavs));
    SmaNonPositive(vads, windowSize);
    var smas := SimpleMovingAverage(vads, windowSize);
    assert Max(smas) <= 0.0;
    EnergySma.DecideRaisesWhenFlat(smas, Squares(wavs), frameRate, thresholdRate, minNoiseLevel, lib.log10);
  }

  /** On a valid, loud-enough recording `run` decides exactly as scripts/sma.py does, on the
      moving average of the mix for the search and on the raw power for the gate; so
      `EnergySma.DecideTiming` gives its times: the first and last samples whose smoothed mix
      lies strictly above the threshold, over the audio frame rate. */
  lemma DetectDecides(wavs: seq<real>, frameRate: nat, thresholdRate: real, windowSize: int,
                      minNoiseLevel: real, lib: Numerics)
    requires frameRate > 0 && !Invalid(wavs, frameRate, windowSize, lib)
    ensures Detect(wavs, frameRate, thresholdRate, windowSize, minNoiseLevel, lib)
         == EnergySma.Decide(Smas(wavs, frameRate, windowSize, lib), Squares(wavs), frameRate,
                             thresholdRate, minNoiseLevel, lib.log10)
  {
  }
}
