/** The numeric library routines the detectors call. Their values are not modelled: each one
    is a function value whose type records only the shape of what it returns, so every
    property proved of a detector holds whatever the routine computes. */
module Library {

  /** The number of cepstral coefficients per frame (`numcep=13` in `python_speech_features.mfcc`). */
  const NumCep: nat := 13

  /** Every row of `m` holds `width` entries. */
  ghost predicate Rows(m: seq<seq<real>>, width: nat) {
    forall t :: 0 <= t < |m| ==> |m[t]| == width
  }

  /** `python_speech_features.mfcc(signal, samplerate)`: one row of `NumCep` coefficients per
      10 ms frame; coefficient 0 is replaced by the log frame energy. */
  type CepstrumFn = f: (seq<real>, nat) -> seq<seq<real>>
    | forall s: seq<real>, rate: nat :: Rows(f(s, rate), NumCep)
    witness (s: seq<real>, rate: nat) => []

  /** `python_speech_features.delta(feat, 2)` applied to the trajectory of one coefficient:
      a regression slope per frame, so the result is as long as the trajectory. */
  type RegressionFn = f: seq<real> -> seq<real>
    | forall s: seq<real> :: |f(s)| == |s|
    witness (s: seq<real>) => s

  /** `scipy.ndimage.gaussian_filter(signal, sigma)`: one output value per input value. */
  type SmoothingFn = f: (seq<real>, nat) -> seq<real>
    | forall s: seq<real>, sigma: nat :: |f(s, sigma)| == |s|
    witness (s: seq<real>, sigma: nat) => s

  /** `interp1d(arange(len(y)), y, kind="cubic")` evaluated at `n` evenly spaced points:
      a curve of exactly `n` values. */
  type ResamplingFn = f: (seq<real>, nat) -> seq<real>
    | forall y: seq<real>, n: nat :: |f(y, n)| == n
    witness (y: seq<real>, n: nat) => seq(n, i => 0.0)

  /** The routines one analysis uses; `log10` is `numpy.log10` on positive arguments. */
  datatype Numerics = Numerics(
    mfcc: CepstrumFn,
    delta: RegressionFn,
    gaussian: SmoothingFn,
    cubic: ResamplingFn,
    log10: real -> real)
}
