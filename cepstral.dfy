/** The cepstral detector of scripts/mfcc.py. The power trajectory (coefficient 0) is clipped at
    zero, multiplied by the magnitude of its regression delta (column 13) and smoothed; every
    frame whose smoothed fluctuation reaches the threshold is active, and the first and last
    active frames, over 100 frames per second, are the result. The per-frame operations here
    are shared word for word by script/analize.py. */
module Cepstral {
  import opened Signal
  import opened Library
  import opened Features

  /** `getVadFluctuation(..., filterWidth=10)`. */
  const VadFilterWidth: nat := 10
  /** `getMoraFlactuation(..., filterWidth=4)`. */
  const MoraFilterWidth: nat := 4
  /** One MFCC frame per 10 ms step (`winstep=0.01`). */
  const FramesPerSecond: real := 100.0
  /** `np.c_[mfcc, delta]`: the coefficients and their deltas. */
  const FeatureWidth: nat := 2 * NumCep

  /** `getMfcc`: the coefficients of every frame followed by their deltas. Column 0 is the log
      frame energy and column `NumCep` (13) is its delta. */
  function GetMfcc(sig: seq<real>, rate: nat, lib: Numerics): (m: seq<seq<real>>)
    ensures |m| == |lib.mfcc(sig, rate)| && Rows(m, FeatureWidth)
    ensures Column(m, 0) == Column(lib.mfcc(sig, rate), 0)
    ensures Column(m, NumCep) == lib.delta(Column(lib.mfcc(sig, rate), 0))
  {
    var cep := lib.mfcc(sig, rate);
    var delta := DeltaOf(cep, NumCep, lib.delta);
    BesideColumns(cep, NumCep, delta, NumCep);
    DeltaColumns(cep, NumCep, lib.delta);
    Beside(cep, delta)
  }

  /** The smoothed fluctuation `vad` of a feature matrix: power clipped at zero, times the
      magnitude of the power's delta, through the Gaussian filter. */
  function VadOf(m: seq<seq<real>>, width: nat, lib: Numerics): (vad: seq<real>)
    requires Rows(m, width) && NumCep < width
    ensures |vad| == |m|
  {
    lib.gaussian(Fluctuation(ClipAll(Column(m, 0)), Column(m, NumCep)), VadFilterWidth)
  }

  /** The smoothed mora curve: the delta column alone through the narrower filter. */
  function MoraOf(m: seq<seq<real>>, width: nat, lib: Numerics): (mora: seq<real>)
    requires Rows(m, width) && NumCep < width
    ensures |mora| == |m|
  {
    lib.gaussian(Column(m, NumCep), MoraFilterWidth)
  }

  /** The frames kept as mora positions: relative maxima of the mora curve where `vad` is
      strictly above the threshold. */
  function MoraMask(vad: seq<real>, maxPeek: seq<real>, threshold: real): (mask: seq<bool>)
    requires |maxPeek| == |vad|
    ensures |mask| == |vad|
  {
    seq(|vad|, i requires 0 <= i < |vad| => maxPeek[i] == 1.0 && vad[i] > threshold)
  }

  /** `getVadFluctuation(mfcc[:, powerCol], mfcc[:, deltaCol])`. The power argument is a view
      into the feature matrix, so `mfccPower[mfccPower < 0] = 0` clips that column of the matrix
      itself and nothing else; the delta is read after the clip (which matters only when both
      views are the same column) and `np.abs` makes a new array. */
  method VadFluctuation(features: array2<real>, powerCol: nat, deltaCol: nat, lib: Numerics)
      returns (y: seq<real>, minPeek: array<real>, maxPeek: array<real>)
    requires powerCol < features.Length1 && deltaCol < features.Length1
    modifies features
    ensures forall t, c :: 0 <= t < features.Length0 && 0 <= c < features.Length1 ==>
      features[t, c] == if c == powerCol then Clip(old(features[t, c])) else old(features[t, c])
    ensures ColumnOf(features, powerCol) == ClipAll(old(ColumnOf(features, powerCol)))
    ensures deltaCol != powerCol ==> ColumnOf(features, deltaCol) == old(ColumnOf(features, deltaCol))
    ensures y == lib.gaussian(Fluctuation(ColumnOf(features, powerCol), ColumnOf(features, deltaCol)), VadFilterWidth)
    ensures fresh(minPeek) && fresh(maxPeek)
    ensures minPeek[..] == Indicator(Extrema(y, Minimum))
    ensures maxPeek[..] == Indicator(Extrema(y, Maximum))
  {
    ghost var power0, delta0 := ColumnOf(features, powerCol), ColumnOf(features, deltaCol);
    ClipColumn(features, powerCol);
    assert ColumnOf(features, powerCol) == ClipAll(power0);
    if deltaCol != powerCol {
      assert ColumnOf(features, deltaCol) == delta0;
    }
    var power := ColumnOf(features, powerCol);
    var delta := ColumnOf(features, deltaCol);
    y := lib.gaussian(Fluctuation(power, delta), VadFilterWidth);
    minPeek := RelativeExtrema(y, Minimum);
    maxPeek := RelativeExtrema(y, Maximum);
  }

  /** `getMoraFlactuation(mfcc[:, powerCol], mfcc[:, deltaCol])`. The product `mfccPower *
      deltaPower` is computed and then overwritten: the curve is the smoothed delta alone, so
      the power column has no influence on it. Nothing is modified. */
  method MoraFluctuation(features: array2<real>, powerCol: nat, deltaCol: nat, lib: Numerics)
      returns (y: seq<real>, minPeek: array<real>, maxPeek: array<real>)
    requires powerCol < features.Length1 && deltaCol < features.Length1
    ensures y == lib.gaussian(ColumnOf(features, deltaCol), MoraFilterWidth)
    ensures fresh(minPeek) && fresh(maxPeek)
    ensures minPeek[..] == Indicator(Extrema(y, Minimum))
    ensures maxPeek[..] == Indicator(Extrema(y, Maximum))
  {
    var product := Product(ColumnOf(features, powerCol), ColumnOf(features, deltaCol));
    y := lib.gaussian(ColumnOf(features, deltaCol), MoraFilterWidth);
    minPeek := RelativeExtrema(y, Minimum);
    maxPeek := RelativeExtrema(y, Maximum);
  }

  /** `vadSection = np.zeros(dataLength); vadSection[vad >= vadThreshold] = 1`. */
  method SectionMask(vad: seq<real>, threshold: real) returns (section: array<real>)
    ensures fresh(section)
    ensures section[..] == Indicator(AtLeast(vad, threshold))
  {
    section := new real[|vad|](i => 0.0);
    var i := 0;
    while i < |vad|
      invariant 0 <= i <= |vad|
      invariant forall j :: 0 <= j < |vad| ==> section[j] == if j < i && vad[j] >= threshold then 1.0 else 0.0
    {
      if vad[i] >= threshold {
        section[i] := 1.0;
      }
      i := i + 1;
    }
  }

  /** `moraPositions[np.where(maxPeek == 1)] = 1` followed by `moraPositions[vad <= threshold] = 0`. */
  method MoraPositions(vad: seq<real>, maxPeek: array<real>, threshold: real) returns (positions: array<real>)
    requires maxPeek.Length == |vad|
    ensures fresh(positions)
    ensures positions[..] == Indicator(MoraMask(vad, maxPeek[..], threshold))
  {
    positions := new real[|vad|](i => 0.0);
    var i := 0;
    while i < |vad|
      invariant 0 <= i <= |vad|
      invariant forall j :: 0 <= j < |vad| ==> positions[j] == if j < i && maxPeek[j] == 1.0 then 1.0 else 0.0
    {
      if maxPeek[i] == 1.0 {
        positions[i] := 1.0;
      }
      i := i + 1;
    }
    i := 0;
    while i < |vad|
      invariant 0 <= i <= |vad|
      invariant forall j :: 0 <= j < |vad| ==>
        positions[j] == if maxPeek[j] == 1.0 && (i <= j || vad[j] > threshold) then 1.0 else 0.0
    {
      if vad[i] <= threshold {
        positions[i] := 0.0;
      }
      i := i + 1;
    }
  }

  /** The append loop `for i in range(len(vadSection)): if vadSection[i] == 1: calcIntervals.append(i)`. */
  method CalcIntervals(section: array<real>) returns (frames: seq<nat>)
    ensures frames == Where(Ones(section[..]))
  {
    frames := [];
    var i := 0;
    while i < section.Length
      invariant 0 <= i <= section.Length
      invariant frames == Where(Ones(section[..i]))
    {
      assert Ones(section[..i + 1])[..i] == Ones(section[..i]);
      if section[i] == 1.0 {
        frames := frames + [i];
      }
      i := i + 1;
    }
    assert section[..] == section[..section.Length];
  }

  /** The frame-level part of `run` on a feature matrix with `width` columns: the fluctuation,
      the mora curve and their peaks, the two masks and the active frames. The matrix is a fresh
      array here, so the clip of its power column is invisible to the caller. */
  method VoiceActivity(rows: seq<seq<real>>, width: nat, vadThreshold: real, lib: Numerics)
      returns (calcIntervals: seq<nat>, vadSection: seq<real>, moraPositions: seq<real>)
    requires Rows(rows, width) && NumCep < width
    ensures vadSection == Indicator(AtLeast(VadOf(rows, width, lib), vadThreshold))
    ensures moraPositions ==
      Indicator(MoraMask(VadOf(rows, width, lib), Indicator(Extrema(MoraOf(rows, width, lib), Maximum)), vadThreshold))
    ensures calcIntervals == Where(AtLeast(VadOf(rows, width, lib), vadThreshold))
  {
    var mfcc := ToArray2(rows, width);
    assert ColumnOf(mfcc, 0) == Column(rows, 0);
    assert ColumnOf(mfcc, NumCep) == Column(rows, NumCep);
    var vad, vadPeekMin, vadPeekMax := VadFluctuation(mfcc, 0, NumCep, lib);
    var mora, moraPeekMin, moraPeekMax := MoraFluctuation(mfcc, 0, NumCep, lib);
    var section := SectionMask(vad, vadThreshold);
    var positions := MoraPositions(vad, moraPeekMax, vadThreshold);
    calcIntervals := CalcIntervals(section);
    OnesOfIndicator(AtLeast(vad, vadThreshold));
    vadSection, moraPositions := section[..], positions[..];
  }

  /** The end of `run`: the first and last active frame over 100 frames per second, or the
      three "Input Low" sentinels when no frame is active. */
  function Report(frames: seq<nat>): (d: Detection)
    ensures d == InputLow <==> |frames| == 0
  {
    if |frames| > 0 then
      var startTime := frames[0] as real / FramesPerSecond;
      var endTime := frames[|frames| - 1] as real / FramesPerSecond;
      Timing(startTime, endTime, endTime - startTime)
    else InputLow
  }

  /** What `run` returns for a feature matrix with `width` columns and a threshold. */
  function Decide(m: seq<seq<real>>, width: nat, vadThreshold: real, lib: Numerics): Detection
    requires Rows(m, width) && NumCep < width
  {
    Report(Where(AtLeast(VadOf(m, width, lib), vadThreshold)))
  }

  /** What `run(fileName, figName, vadThreshold)` returns for a recording. */
  function Analysis(sig: seq<real>, rate: nat, vadThreshold: real, lib: Numerics): Detection {
    Decide(GetMfcc(sig, rate, lib), FeatureWidth, vadThreshold, lib)
  }

  /** `run(fileName, figName, vadThreshold)` on the decoded samples. The figure name only decides
      whether the arrays, all one entry per frame, are plotted; the drawing is taken to
      succeed, so the result does not depend on it. */
  method Run(sig: seq<real>, rate: nat, figName: string, vadThreshold: real, lib: Numerics)
      returns (result: Detection)
    ensures result == Analysis(sig, rate, vadThreshold, lib)
  {
    var calcIntervals, vadSection, moraPositions := VoiceActivity(GetMfcc(sig, rate, lib), FeatureWidth, vadThreshold, lib);
    result := Report(calcIntervals);
  }

  /** Every mora position lies inside the voice section: `vad > threshold` implies
      `vad >= threshold`. */
  lemma MoraWithinSection(vad: seq<real>, maxPeek: seq<real>, threshold: real)
    requires |maxPeek| == |vad|
    ensures forall i :: 0 <= i < |vad| && Indicator(MoraMask(vad, maxPeek, threshold))[i] == 1.0 ==>
      Indicator(AtLeast(vad, threshold))[i] == 1.0
  {
  }

  /** On any fluctuation curve, the sentinels come back exactly when no frame reaches the
      threshold. */
  lemma ReportInputLow(vad: seq<real>, vadThreshold: real)
    ensures Report(Where(AtLeast(vad, vadThreshold))) == InputLow <==>
      forall t :: 0 <= t < |vad| ==> vad[t] < vadThreshold
  {
    var mask := AtLeast(vad, vadThreshold);
    WhereEmpty(mask);
    if forall t :: 0 <= t < |vad| ==> vad[t] < vadThreshold {
      forall t | 0 <= t < |mask|
        ensures !mask[t]
      {
      }
    } else {
      var t :| 0 <= t < |vad| && vad[t] >= vadThreshold;
      assert mask[t];
    }
  }

  /** `run` reports "Input Low" exactly when no frame's fluctuation reaches the threshold. */
  lemma DecideInputLow(m: seq<seq<real>>, width: nat, vadThreshold: real, lib: Numerics)
    requires Rows(m, width) && NumCep < width
    ensures var vad := VadOf(m, width, lib);
      Decide(m, width, vadThreshold, lib) == InputLow <==> forall t :: 0 <= t < |vad| ==> vad[t] < vadThreshold
  {
    ReportInputLow(VadOf(m, width, lib), vadThreshold);
  }

  /** A first and a last active frame over the same rate: the start is the earlier time and the
      interval is their non-negative difference. */
  lemma FramesOrdered(first: nat, last: nat, n: nat)
    requires first <= last < n
    ensures 0.0 <= first as real / FramesPerSecond <= last as real / FramesPerSecond <= (n - 1) as real / FramesPerSecond
  {
  }

  /** When some frame is active, the start and end times are the first and last active frames
      over 100: no frame before `first` or after `last` is active, and `0 <= startTime <= endTime`. */
  lemma ReportTiming(vad: seq<real>, vadThreshold: real) returns (first: nat, last: nat)
    requires Report(Where(AtLeast(vad, vadThreshold))) != InputLow
    ensures && first <= last < |vad| && vad[first] >= vadThreshold && vad[last] >= vadThreshold
      && (forall t :: 0 <= t < first ==> vad[t] < vadThreshold)
      && (forall t :: last < t < |vad| ==> vad[t] < vadThreshold)
    ensures var d := Report(Where(AtLeast(vad, vadThreshold)));
      && d.startTime == first as real / FramesPerSecond && d.endTime == last as real / FramesPerSecond
      && 0.0 <= d.startTime <= d.endTime && d.interval == d.endTime - d.startTime
  {
    var mask := AtLeast(vad, vadThreshold);
    var frames := Where(mask);
    WhereEnds(mask);
    first, last := frames[0], frames[|frames| - 1];
    forall t | 0 <= t < |vad| && (t < first || last < t)
      ensures vad[t] < vadThreshold
    {
      assert !mask[t];
    }
    FramesOrdered(first, last, |vad|);
  }

  /** `run` on a feature matrix, when it does not report "Input Low": the times are the first
      and last frames whose fluctuation reaches the threshold, over 100. */
  lemma DecideTiming(m: seq<seq<real>>, width: nat, vadThreshold: real, lib: Numerics)
      returns (first: nat, last: nat)
    requires Rows(m, width) && NumCep < width
    requires Decide(m, width, vadThreshold, lib) != InputLow
    ensures var vad := VadOf(m, width, lib);
      && first <= last < |vad| && vad[first] >= vadThreshold && vad[last] >= vadThreshold
      && (forall t :: 0 <= t < first ==> vad[t] < vadThreshold)
      && (forall t :: last < t < |vad| ==> vad[t] < vadThreshold)
    ensures var d := Decide(m, width, vadThreshold, lib);
      && d.startTime == first as real / FramesPerSecond && d.endTime == last as real / FramesPerSecond
      && 0.0 <= d.startTime <= d.endTime && d.interval == d.endTime - d.startTime
  {
    first, last := ReportTiming(VadOf(m, width, lib), vadThreshold);
  }
}
