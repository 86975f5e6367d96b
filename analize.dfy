/** The older cepstral detector of script/analize.py. It builds a 39-column feature matrix
    (coefficients, deltas and delta-deltas), runs the same fluctuation, peak and mask steps as
    scripts/mfcc.py with the fixed threshold 2, and reports `(0.0, 0.0, 0.0)` instead of a
    sentinel when no frame is active. */
module Analize {
  import opened Signal
  import opened Library
  import opened Features
  import Cepstral

  /** `vadThreshold = 2`. */
  const VadThreshold: real := 2.0
  /** `np.c_[mfcc, delta, deltaDelta]`. */
  const FeatureWidth: nat := 3 * NumCep

  /** `getMfcc`: coefficients, their deltas and the deltas of the deltas. Column 0 is still the
      log frame energy, column 13 its delta and column 26 the delta of that. */
  function GetMfcc(sig: seq<real>, rate: nat, lib: Numerics): (m: seq<seq<real>>)
    ensures |m| == |lib.mfcc(sig, rate)| && Rows(m, FeatureWidth)
    ensures Column(m, 0) == Column(lib.mfcc(sig, rate), 0)
    ensures Column(m, NumCep) == lib.delta(Column(lib.mfcc(sig, rate), 0))
    ensures Column(m, 2 * NumCep) == lib.delta(lib.delta(Column(lib.mfcc(sig, rate), 0)))
  {
    var cep := lib.mfcc(sig, rate);
    var delta := DeltaOf(cep, NumCep, lib.delta);
    var deltaDelta := DeltaOf(delta, NumCep, lib.delta);
    var both := Beside(cep, delta);
    DeltaColumns(cep, NumCep, lib.delta);
    DeltaColumns(delta, NumCep, lib.delta);
    BesideColumns(cep, NumCep, delta, NumCep);
    BesideColumns(both, 2 * NumCep, deltaDelta, NumCep);
    Beside(both, deltaDelta)
  }

  /** The end of `run`: the times default to 0.0 and are overwritten by the first and last
      active frame over 100 when there is one. */
  function ReportOrZero(frames: seq<nat>): (d: Detection)
    ensures d.Timing?
    ensures |frames| == 0 ==> d == Timing(0.0, 0.0, 0.0)
    ensures |frames| > 0 ==> d == Cepstral.Report(frames)
  {
    if |frames| > 0 then
      var startTime := frames[0] as real / Cepstral.FramesPerSecond;
      var endTime := frames[|frames| - 1] as real / Cepstral.FramesPerSecond;
      Timing(startTime, endTime, endTime - startTime)
    else Timing(0.0, 0.0, 0.0)
  }

  /** What `run(fileName, figName)` returns for a recording. */
  function Analysis(sig: seq<real>, rate: nat, lib: Numerics): Detection {
    ReportOrZero(Where(AtLeast(Cepstral.VadOf(GetMfcc(sig, rate, lib), FeatureWidth, lib), VadThreshold)))
  }

  /** `run(fileName, figName)` on the decoded samples. The plot is always drawn here; its
      arrays all have one entry per frame, and the drawing is taken to succeed, so the result
      does not depend on the figure name. */
  method Run(sig: seq<real>, rate: nat, figName: string, lib: Numerics) returns (result: Detection)
    ensures result == Analysis(sig, rate, lib)
  {
    var calcIntervals, vadSection, moraPositions :=
      Cepstral.VoiceActivity(GetMfcc(sig, rate, lib), FeatureWidth, VadThreshold, lib);
    result := ReportOrZero(calcIntervals);
  }

  /** The extra delta-delta block changes nothing the detector reads: the fluctuation curve is
      the one scripts/mfcc.py computes from its 26-column matrix. */
  lemma SameFluctuation(sig: seq<real>, rate: nat, lib: Numerics)
    ensures Cepstral.VadOf(GetMfcc(sig, rate, lib), FeatureWidth, lib)
         == Cepstral.VadOf(Cepstral.GetMfcc(sig, rate, lib), Cepstral.FeatureWidth, lib)
  {
    var m, m2 := GetMfcc(sig, rate, lib), Cepstral.GetMfcc(sig, rate, lib);
    assert Column(m, 0) == Column(m2, 0);
    assert Column(m, NumCep) == Column(m2, NumCep);
  }

  /** script/analize.py agrees with scripts/mfcc.py run at threshold 2, except that the
      "Input Low" sentinels become three zeros. */
  lemma AgreesWithCepstral(sig: seq<real>, rate: nat, lib: Numerics)
    ensures var d := Cepstral.Analysis(sig, rate, VadThreshold, lib);
      Analysis(sig, rate, lib) == if d == InputLow then Timing(0.0, 0.0, 0.0) else d
  {
    SameFluctuation(sig, rate, lib);
  }

  /** The zero default cannot be told apart from a recording whose only active frame is the
      first one: both report `(0.0, 0.0, 0.0)`. */
  lemma ZeroResultAmbiguous()
    ensures ReportOrZero([]) == ReportOrZero([0]) == Timing(0.0, 0.0, 0.0)
  {
  }

  /** With no frame reaching the threshold the result is three zeros. */
  lemma AnalysisZero(sig: seq<real>, rate: nat, lib: Numerics)
    requires var vad := Cepstral.VadOf(GetMfcc(sig, rate, lib), FeatureWidth, lib);
      forall t :: 0 <= t < |vad| ==> vad[t] < VadThreshold
    ensures Analysis(sig, rate, lib) == Timing(0.0, 0.0, 0.0)
  {
    Cepstral.ReportInputLow(Cepstral.VadOf(GetMfcc(sig, rate, lib), FeatureWidth, lib), VadThreshold);
  }

  /** Otherwise the times are the first and last frames reaching the threshold over 100, with
      `0 <= startTime <= endTime`. */
  lemma AnalysisTiming(sig: seq<real>, rate: nat, lib: Numerics) returns (first: nat, last: nat)
    requires var vad := Cepstral.VadOf(GetMfcc(sig, rate, lib), FeatureWidth, lib);
      exists t :: 0 <= t < |vad| && vad[t] >= VadThreshold
    ensures var vad := Cepstral.VadOf(GetMfcc(sig, rate, lib), FeatureWidth, lib);
      && first <= last < |vad| && vad[first] >= VadThreshold && vad[last] >= VadThreshold
      && (forall t :: 0 <= t < first ==> vad[t] < VadThreshold)
      && (forall t :: last < t < |vad| ==> vad[t] < VadThreshold)
    ensures var d := Analysis(sig, rate, lib);
      && d.startTime == first as real / Cepstral.FramesPerSecond
      && d.endTime == last as real / Cepstral.FramesPerSecond
      && 0.0 <= d.startTime <= d.endTime && d.interval == d.endTime - d.startTime
  {
    var vad := Cepstral.VadOf(GetMfcc(sig, rate, lib), FeatureWidth, lib);
    Cepstral.ReportInputLow(vad, VadThreshold);
    first, last := Cepstral.ReportTiming(vad, VadThreshold);
  }
}
