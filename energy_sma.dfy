/** scripts/sma.py: voice activity from the smoothed power of the samples. The power
    `wavs ** 2` is smoothed by the moving average, the clip is judged silent when its mean
    power in decibels is below `minNoiseLevel`, and otherwise the first and last samples
    whose moving average lies strictly above `max * thresholdRate` give the start and end
    times. */
module EnergySma {
  import opened Signal
  import opened MovingAverage

  /** A sample as `np.frombuffer(data, dtype="int16")` reads it. */
  newtype int16 = x: int | -0x8000 <= x < 0x8000

  /** The defaults of `run` (scripts/mix.py uses the same three). */
  const DefaultThresholdRate: real := 0.1
  const DefaultWindowSize: int := 100
  const DefaultMinNoiseLevel: real := 1.0

  /** `float(2 ^ 15)`. In Python `^` is exclusive or, so the divisor is 13, not 32768. */
  function FullScale(): (d: real)
    ensures d == 13.0
  {
    ((2 as bv8) ^ (15 as bv8)) as int as real
  }

  /** The normalisation in `ReadWavFile`: every int16 sample divided by `float(2 ^ 15)`. */
  function ReadWav(raw: seq<int16>): (wavs: seq<real>)
    ensures |wavs| == |raw|
    ensures forall i :: 0 <= i < |raw| ==> wavs[i] == raw[i] as real / 13.0
  {
    var scale := FullScale();
    seq(|raw|, i requires 0 <= i < |raw| => raw[i] as real / scale)
  }

  /** `upIdx = [i for i, v in enumerate(smas > threshold) if v]` with
      `threshold = np.max(smas) * thresholdRate`. */
  function UpIdx(smas: seq<real>, thresholdRate: real): (up: seq<nat>)
    requires |smas| > 0
    ensures forall k :: 0 <= k < |up| ==> up[k] < |smas| && smas[up[k]] > Max(smas) * thresholdRate
    ensures forall i :: 0 <= i < |smas| && smas[i] > Max(smas) * thresholdRate ==> i in up
  {
    Where(Above(smas, Max(smas) * thresholdRate))
  }

  /** The decision of `run` once the moving average is known (shared word for word by
      scripts/mix.py). The gate reads the mean of `powers`; the search reads `smas`. */
  function Decide(smas: seq<real>, powers: seq<real>, frameRate: nat, thresholdRate: real,
                  minNoiseLevel: real, log10: real -> real): (o: Outcome)
    requires |smas| > 0 && |powers| > 0 && frameRate > 0
    ensures o != ValueError
    ensures o == Returned(InputLow) <==> Silent(Mean(powers), minNoiseLevel, log10)
    ensures o == IndexError <==>
      !Silent(Mean(powers), minNoiseLevel, log10)
      && forall i :: 0 <= i < |smas| ==> smas[i] <= Max(smas) * thresholdRate
  {
    if Silent(Mean(powers), minNoiseLevel, log10) then Returned(InputLow)
    else
      WhereEmpty(Above(smas, Max(smas) * thresholdRate));
      Report(UpIdx(smas, thresholdRate), frameRate)
  }

  /** `predStart, predEnd = upIdx[0], upIdx[-1]` and the times: the first and last index over
      the frame rate, or IndexError on an empty list. */
  function Report(up: seq<nat>, frameRate: nat): (o: Outcome)
    requires frameRate > 0
    ensures o == IndexError <==> |up| == 0
    ensures o.Returned? ==> o.detection.Timing?
  {
    if |up| == 0 then IndexError
    else
      var startTime := up[0] as real / frameRate as real;
      var endTime := up[|up| - 1] as real / frameRate as real;
      Returned(Timing(startTime, endTime, endTime - startTime))
  }

  /** `simpleMovingAverage(powers, windowSize)` and the decision. `np.convolve` raises
      ValueError when the signal or the kernel `np.ones(windowSize) / windowSize` is empty
      (or `np.ones` is given a negative size). */
  function Detect(wavs: seq<real>, frameRate: nat, thresholdRate: real, windowSize: int,
                  minNoiseLevel: real, log10: real -> real): (o: Outcome)
    requires frameRate > 0
    ensures o == ValueError <==> |wavs| == 0 || windowSize < 1
  {
    if |wavs| == 0 || windowSize < 1 then ValueError
    else
      var powers := Squares(wavs);
      var smas := SimpleMovingAverage(powers, windowSize);
      Decide(smas, powers, frameRate, thresholdRate, minNoiseLevel, log10)
  }

  /** The figure that `run` draws after the decision when `figName != ""`: `plt.plot(times, smas)`
      puts the smoothed values against one time per sample, and `np.convolve` returned
      `max(N, windowSize)` of them, so the two lengths differ, and matplotlib raises
      ValueError, exactly when the window is longer than the clip. It is drawn on the silent
      branch too; an exception raised by the decision comes first. */
  function Plot(o: Outcome, figName: string, samples: nat, windowSize: int): (r: Outcome)
    ensures figName == "" ==> r == o
    ensures r != o ==> o.Returned? && r == ValueError
    ensures r == ValueError <==> o == ValueError || (o.Returned? && figName != "" && windowSize > samples)
  {
    if o.Returned? && figName != "" && windowSize > samples then ValueError else o
  }

  /** `run(fileName, figName, thresholdRate, windowSize, minNoiseLevel)` on the samples of the
      file: the decision, then the figure when a name is given. */
  function Run(raw: seq<int16>, frameRate: nat, figName: string, thresholdRate: real,
               windowSize: int, minNoiseLevel: real, log10: real -> real): (o: Outcome)
    requires frameRate > 0
    ensures var d := Detect(ReadWav(raw), frameRate, thresholdRate, windowSize, minNoiseLevel, log10);
      && (o == ValueError <==>
            |raw| == 0 || windowSize < 1 || (figName != "" && windowSize > |raw| && d.Returned?))
      && (o != ValueError ==> o == d)
  {
    var d := Detect(ReadWav(raw), frameRate, thresholdRate, windowSize, minNoiseLevel, log10);
    Plot(d, figName, |raw|, windowSize)
  }

  /** With a figure name and a clip shorter than the window, `run` never returns: a quiet clip
      reaches the plot with "Input Low", and a loud one, with a rate below 1, reaches it with
      times (`DetectLoudFinds`); either way `plt.plot(times, smas)` raises ValueError. */
  lemma RunShortClipFails(raw: seq<int16>, frameRate: nat, figName: string, thresholdRate: real,
                          windowSize: int, minNoiseLevel: real, log10: real -> real)
    requires frameRate > 0 && figName != "" && 0 < |raw| < windowSize && thresholdRate < 1.0
    ensures Run(raw, frameRate, figName, thresholdRate, windowSize, minNoiseLevel, log10) == ValueError
  {
    var wavs := ReadWav(raw);
    if !Silent(Mean(Squares(wavs)), minNoiseLevel, log10) {
      DetectLoudFinds(wavs, frameRate, thresholdRate, windowSize, minNoiseLevel, log10);
    }
  }

  /** At the defaults of `run` (rate 0.1, window 100, gate 1 dB), a figure of a clip shorter
      than 100 samples raises ValueError. */
  lemma DefaultShortClipFails(raw: seq<int16>, frameRate: nat, figName: string, log10: real -> real)
    requires frameRate > 0 && figName != "" && 0 < |raw| < DefaultWindowSize
    ensures Run(raw, frameRate, figName, DefaultThresholdRate, DefaultWindowSize, DefaultMinNoiseLevel, log10) == ValueError
  {
    RunShortClipFails(raw, frameRate, figName, DefaultThresholdRate, DefaultWindowSize, DefaultMinNoiseLevel, log10);
  }

  /** At the defaults, a loud, non-empty clip at least as long as the window yields times, with
      or without a figure. */
  lemma DefaultLoudFinds(raw: seq<int16>, frameRate: nat, figName: string, log10: real -> real)
    requires frameRate > 0 && |raw| >= DefaultWindowSize
    requires !Silent(Mean(Squares(ReadWav(raw))), DefaultMinNoiseLevel, log10)
    ensures var o := Run(raw, frameRate, figName, DefaultThresholdRate, DefaultWindowSize, DefaultMinNoiseLevel, log10);
      o.Returned? && o.detection.Timing?
  {
    DetectLoudFinds(ReadWav(raw), frameRate, DefaultThresholdRate, DefaultWindowSize, DefaultMinNoiseLevel, log10);
  }

  /** On the loud branch a returned detection comes from `predStart` and `predEnd`, the first
      and last samples strictly above the threshold: nothing before `predStart` or after
      `predEnd` is above it, and the times are those indices over the frame rate, so
      `0 <= startTime <= endTime <= (len(smas) - 1) / frameRate`. */
  lemma DecideTiming(smas: seq<real>, powers: seq<real>, frameRate: nat, thresholdRate: real,
                     minNoiseLevel: real, log10: real -> real) returns (predStart: nat, predEnd: nat)
    requires |smas| > 0 && |powers| > 0 && frameRate > 0
    requires Decide(smas, powers, frameRate, thresholdRate, minNoiseLevel, log10).Returned?
    requires Decide(smas, powers, frameRate, thresholdRate, minNoiseLevel, log10).detection.Timing?
    ensures var threshold := Max(smas) * thresholdRate;
      && predStart <= predEnd < |smas|
      && smas[predStart] > threshold && smas[predEnd] > threshold
      && (forall i :: 0 <= i < predStart ==> smas[i] <= threshold)
      && (forall i :: predEnd < i < |smas| ==> smas[i] <= threshold)
    ensures var d := Decide(smas, powers, frameRate, thresholdRate, minNoiseLevel, log10).detection;
      var rate := frameRate as real;
      && d.startTime == predStart as real / rate
      && d.endTime == predEnd as real / rate
      && d.interval == d.endTime - d.startTime
      && 0.0 <= d.startTime <= d.endTime <= (|smas| - 1) as real / rate
  {
    var up := UpIdx(smas, thresholdRate);
    assert |up| > 0;
    predStart, predEnd := up[0], up[|up| - 1];
    UpIdxEnds(smas, thresholdRate);
    TimesOrdered(predStart, predEnd, |smas|, frameRate);
  }

  /** The first and last entries of a non-empty `upIdx` are the first and last samples above
      the threshold. */
  lemma UpIdxEnds(smas: seq<real>, thresholdRate: real)
    requires |smas| > 0 && |UpIdx(smas, thresholdRate)| > 0
    ensures var up, threshold := UpIdx(smas, thresholdRate), Max(smas) * thresholdRate;
      && up[0] <= up[|up| - 1] < |smas|
      && smas[up[0]] > threshold && smas[up[|up| - 1]] > threshold
      && (forall i :: 0 <= i < up[0] ==> smas[i] <= threshold)
      && (forall i :: up[|up| - 1] < i < |smas| ==> smas[i] <= threshold)
  {
    WhereEnds(Above(smas, Max(smas) * thresholdRate));
  }

  /** Indices `first <= last < n` over a positive rate give ordered times within
      `[0, (n - 1) / rate]`. */
  lemma TimesOrdered(first: nat, last: nat, n: nat, frameRate: nat)
    requires first <= last < n && frameRate > 0
    ensures var rate := frameRate as real;
      0.0 <= first as real / rate <= last as real / rate <= (n - 1) as real / rate
  {
    var rate := frameRate as real;
    DivideMonotone(0.0, first as real, rate);
    DivideMonotone(first as real, last as real, rate);
    DivideMonotone(last as real, (n - 1) as real, rate);
  }

  /** A positive peak times a rate below 1 is below the peak. */
  lemma ThresholdBelowPeak(top: real, thresholdRate: real)
    requires top > 0.0 && thresholdRate < 1.0
    ensures top * thresholdRate < top
  {
    assert top - top * thresholdRate == top * (1.0 - thresholdRate);
  }

  /** A non-positive peak times a rate in `[0, 1]`, or a non-negative peak times a rate of 1 or
      more, is at least the peak. */
  lemma ThresholdAbovePeak(top: real, thresholdRate: real)
    requires (top <= 0.0 && 0.0 <= thresholdRate <= 1.0) || (top >= 0.0 && thresholdRate >= 1.0)
    ensures top <= top * thresholdRate
  {
    assert top * thresholdRate - top == top * (thresholdRate - 1.0);
  }

  /** A threshold at or above the peak leaves `upIdx` empty. */
  lemma NothingAbove(smas: seq<real>, threshold: real)
    requires |smas| > 0 && Max(smas) <= threshold
    ensures |Where(Above(smas, threshold))| == 0
  {
    var mask := Above(smas, threshold);
    assert forall i :: 0 <= i < |mask| ==> !mask[i];
    WhereEmpty(mask);
  }

  /** A rate that puts the threshold at or above the peak leaves `upIdx` empty. */
  lemma UpIdxEmpty(smas: seq<real>, thresholdRate: real)
    requires |smas| > 0
    requires (Max(smas) <= 0.0 && 0.0 <= thresholdRate <= 1.0) || (Max(smas) >= 0.0 && thresholdRate >= 1.0)
    ensures |UpIdx(smas, thresholdRate)| == 0
  {
    ThresholdAbovePeak(Max(smas), thresholdRate);
    NothingAbove(smas, Max(smas) * thresholdRate);
  }

  /** On a loud clip whose moving average peaks above zero, a threshold rate below 1 lets the
      peak itself pass, so `upIdx` is not empty and no IndexError is raised. */
  lemma DecideFinds(smas: seq<real>, powers: seq<real>, frameRate: nat, thresholdRate: real,
                    minNoiseLevel: real, log10: real -> real)
    requires |smas| > 0 && |powers| > 0 && frameRate > 0
    requires !Silent(Mean(powers), minNoiseLevel, log10)
    requires Max(smas) > 0.0 && thresholdRate < 1.0
    ensures Decide(smas, powers, frameRate, thresholdRate, minNoiseLevel, log10).Returned?
    ensures Decide(smas, powers, frameRate, thresholdRate, minNoiseLevel, log10).detection.Timing?
  {
    var k := ArgMax(smas);
    ThresholdBelowPeak(Max(smas), thresholdRate);
    assert smas[k] > Max(smas) * thresholdRate;
  }

  /** On a loud clip whose moving average is nowhere positive, a threshold rate in `[0, 1]`
      puts the threshold at or above the peak: `upIdx` is empty and `upIdx[0]` raises. */
  lemma DecideRaisesWhenFlat(smas: seq<real>, powers: seq<real>, frameRate: nat, thresholdRate: real,
                             minNoiseLevel: real, log10: real -> real)
    requires |smas| > 0 && |powers| > 0 && frameRate > 0
    requires !Silent(Mean(powers), minNoiseLevel, log10)
    requires Max(smas) <= 0.0 && 0.0 <= thresholdRate <= 1.0
    ensures Decide(smas, powers, frameRate, thresholdRate, minNoiseLevel, log10) == IndexError
  {
    UpIdxEmpty(smas, thresholdRate);
  }

  /** A threshold rate of 1 or more puts the threshold at or above a non-negative peak, so every
      loud clip raises IndexError. */
  lemma DecideRaisesAtFullRate(smas: seq<real>, powers: seq<real>, frameRate: nat, thresholdRate: real,
                               minNoiseLevel: real, log10: real -> real)
    requires |smas| > 0 && |powers| > 0 && frameRate > 0
    requires !Silent(Mean(powers), minNoiseLevel, log10)
    requires Max(smas) >= 0.0 && thresholdRate >= 1.0
    ensures Decide(smas, powers, frameRate, thresholdRate, minNoiseLevel, log10) == IndexError
  {
    UpIdxEmpty(smas, thresholdRate);
  }

  /** A positive mean of a sequence means a positive sum. */
  lemma PositiveMean(s: seq<real>)
    requires |s| > 0 && Mean(s) > 0.0
    ensures Sum(s) > 0.0
  {
    var n := |s| as real;
    if Sum(s) <= 0.0 {
      DivideMonotone(Sum(s), 0.0, n);
    }
  }

  /** In scripts/sma.py every clip that passes the noise gate has a positive sample power, so
      its moving average peaks above zero; with a window of at least 1 and a threshold rate
      below 1 (the default is 0.1) `upIdx` is never empty, and the decision (`Detect`, which is
      `run` before the figure) returns times. */
  lemma DetectLoudFinds(wavs: seq<real>, frameRate: nat, thresholdRate: real, windowSize: int,
                        minNoiseLevel: real, log10: real -> real)
    requires |wavs| > 0 && windowSize >= 1 && frameRate > 0 && thresholdRate < 1.0
    requires !Silent(Mean(Squares(wavs)), minNoiseLevel, log10)
    ensures Detect(wavs, frameRate, thresholdRate, windowSize, minNoiseLevel, log10).Returned?
    ensures Detect(wavs, frameRate, thresholdRate, windowSize, minNoiseLevel, log10).detection.Timing?
  {
    var powers := Squares(wavs);
    var smas := SimpleMovingAverage(powers, windowSize);
    assert Mean(powers) > 0.0;
    PositiveMean(powers);
    SumOfNonNegative(powers);
    var i :| 0 <= i < |powers| && powers[i] > 0.0;
    SmaCovers(powers, windowSize, i);
    assert powers[i] / windowSize as real > 0.0;
    assert smas[i] <= Max(smas);
    DecideFinds(smas, powers, frameRate, thresholdRate, minNoiseLevel, log10);
  }

  /** The threshold is relative to the peak of the moving average: multiplying the moving
      average by a positive factor moves the threshold with it and leaves `upIdx` unchanged. */
  lemma UpIdxScale(c: real, smas: seq<real>, thresholdRate: real)
    requires |smas| > 0 && c > 0.0
    ensures UpIdx(Scale(c, smas), thresholdRate) == UpIdx(smas, thresholdRate)
  {
    var threshold := Max(smas) * thresholdRate;
    MaxScale(c, smas);
    assert Max(Scale(c, smas)) * thresholdRate == c * threshold;
    AboveScale(c, smas, threshold);
  }

  /** `c * s > c * t` selects the same entries as `s > t`, for a positive `c`. */
  lemma AboveScale(c: real, s: seq<real>, t: real)
    requires c > 0.0
    ensures Above(Scale(c, s), c * t) == Above(s, t)
  {
    forall i | 0 <= i < |s|
      ensures Above(Scale(c, s), c * t)[i] == Above(s, t)[i]
    {
      assert Scale(c, s)[i] == c * s[i];
      if s[i] <= t {
        MulMonotone(c, s[i], t);
      } else {
        MulMonotone(c, t, s[i]);
      }
    }
  }

  /** Two moving averages with the same `upIdx`, gated by powers with the same verdict, lead
      to the same outcome. */
  lemma DecideSameSearch(smasA: seq<real>, powersA: seq<real>, smasB: seq<real>, powersB: seq<real>,
                         frameRate: nat, thresholdRate: real, minNoiseLevel: real, log10: real -> real)
    requires |smasA| > 0 && |powersA| > 0 && |smasB| > 0 && |powersB| > 0 && frameRate > 0
    requires Silent(Mean(powersA), minNoiseLevel, log10) == Silent(Mean(powersB), minNoiseLevel, log10)
    requires UpIdx(smasA, thresholdRate) == UpIdx(smasB, thresholdRate)
    ensures Decide(smasA, powersA, frameRate, thresholdRate, minNoiseLevel, log10)
         == Decide(smasB, powersB, frameRate, thresholdRate, minNoiseLevel, log10)
  {
  }

  /** Multiplying the power by any positive factor scales the moving average and the
      threshold alike, so `predStart` and `predEnd` stay where they were; only the noise gate,
      an absolute decibel level, can tell the two apart. */
  lemma DecidePowerGain(c: real, powers: seq<real>, frameRate: nat, thresholdRate: real,
                        windowSize: nat, minNoiseLevel: real, log10: real -> real)
    requires c > 0.0 && |powers| > 0 && windowSize >= 1 && frameRate > 0
    requires Silent(Mean(Scale(c, powers)), minNoiseLevel, log10) == Silent(Mean(powers), minNoiseLevel, log10)
    ensures var louder := Scale(c, powers);
      Decide(SimpleMovingAverage(louder, windowSize), louder, frameRate, thresholdRate, minNoiseLevel, log10)
      == Decide(SimpleMovingAverage(powers, windowSize), powers, frameRate, thresholdRate, minNoiseLevel, log10)
  {
    var louder := Scale(c, powers);
    var smas := SimpleMovingAverage(powers, windowSize);
    SmaScale(c, powers, windowSize);
    UpIdxScale(c, smas, thresholdRate);
    DecideSameSearch(SimpleMovingAverage(louder, windowSize), louder, smas, powers,
                     frameRate, thresholdRate, minNoiseLevel, log10);
  }
}
