# Voice-activity decision core, modelled in Dafny

The system analyses one short recorded clip and reports when the speaker started and
stopped: a triple `(startTime, endTime, interval)` in seconds, or a "silent" marker in all
three fields. Four near-duplicate detectors exist, and each one is modelled separately with
its own comparisons, defaults and error paths:

- `scripts/sma.py` (module `EnergySma`, on `MovingAverage` and `Signal`):
  - samples are divided by `2 ^ 15` and squared into power, then smoothed by a centred moving
    average (`np.convolve(..., mode="same")`);
  - a dB gate on the mean power returns "Input Low" when the clip is too quiet;
  - otherwise the first and last samples strictly above `max(smas) * thresholdRate` are
    reported, divided by the audio frame rate.
- `scripts/mfcc.py` (module `Cepstral`, on `Features` and `Library`):
  - the cepstral power (column 0) is clipped at zero **in place** in the feature matrix;
  - it is multiplied by the magnitude of its regression delta (column 13) and Gaussian-smoothed;
  - frames where this fluctuation is `>=` an absolute threshold are active, and the first and
    last active frames over 100 frames per second are reported, or "Input Low" if none is
    active;
  - strict relative-extremum indicators and a mora-position mask are computed on the way.
- `scripts/mix.py` (module `Mixed`): the cepstral fluctuation is resampled to audio rate by a
  cubic fit and multiplied by the power. The result then goes through the moving average,
  gate and strict threshold of `sma.py`. The gate still reads the raw power.
- `script/analize.py` (module `Analize`):
  - an older copy of the cepstral detector with a 39-column feature matrix and a fixed
    threshold of 2;
  - it reports `(0.0, 0.0, 0.0)` instead of the sentinel when nothing is active;
  - its `getVadFluctuation` / `getMoraFlactuation` are word for word those of `mfcc.py`, so
    `Cepstral.VadFluctuation` and `Cepstral.MoraFluctuation` model both files.

How the model is built:

- Signals are sequences of mathematical reals.
- The numeric library routines are function values in `Library.Numerics`: `python_speech_features.mfcc`
  and `delta`, `scipy.ndimage.gaussian_filter`, cubic `interp1d` and `log10`. Their types
  record only the shape of what they return, so every property holds whatever they compute.
- A Python exception is a result value (`Signal.Outcome`): `IndexError` for `upIdx[0]` on an
  empty list; `ValueError` for numpy/scipy argument errors.
- The in-place parts are imperative Dafny, each proved against a specification function:
  - the feature matrix is an `array2<real>` whose power column `ClipColumn` clips;
  - the peak arrays are written index by index;
  - the masks are built by loops;
  - `calcIntervals` is an append loop.

Points about the code that are easy to misread (the model follows the code):

- `2 ^ 15` is XOR in Python, so the divisor is 13, not 32768 (`EnergySma.FullScale`).
- `sma.py` and `mix.py` threshold with strict `>`, while `mfcc.py` marks frames with `>=`.
- In `sma.py` and `mix.py` an empty search raises IndexError at `upIdx[0]`.
- `np.convolve(mode="same")` returns `max(len(datas), window)` values, so the output is as
  long as the input only when `window <= len(datas)`. When a figure is drawn,
  `plt.plot(times, smas)` then raises ValueError for a clip shorter than the window
  (`EnergySma.RunShortClipFails`).
- `script/analize.py` reports zeros when nothing is active. `Analize.ZeroResultAmbiguous`
  shows that this cannot be told apart from "only frame 0 is active".

## Model

| member | source | states |
|---|---|---|
| Signal.ArgMax | scripts/sma.py:44 | the index that `Max` reads to give `np.max(smas)`: an index of the sequence whose entry bounds every entry |
| Signal.Max | scripts/sma.py:44 | `np.max(smas)` is at least every entry |
| Signal.Squares | scripts/sma.py:40 | `wavs ** 2` has one entry per sample and no negative entry |
| Signal.Where | scripts/sma.py:58 | the index list holds exactly the true positions of the mask, strictly increasing |
| Signal.WhereEnds | scripts/sma.py:59 | `upIdx[0]` / `upIdx[-1]` are the least and greatest true positions, and nothing outside them is true |
| Signal.WhereEmpty | scripts/mix.py:96-97 | the index list is empty exactly when no entry of the mask is true |
| Signal.SumOfNonNegative | scripts/sma.py:48 | the total power is never negative, and it is positive only if some sample's power is |
| Signal.MaxScale | scripts/sma.py:44-45 | the peak of the power scaled by `c >= 0` is `c` times the peak |
| MovingAverage.SimpleMovingAverage | scripts/sma.py:28-33 | the centred convolution with `ones(window)/window` has `max(len(datas), window)` entries |
| MovingAverage.KernelSumOfUnit | scripts/sma.py:30-31 | convolving with the uniform kernel over `n` taps gives the window sum over `window` |
| MovingAverage.SmaWindowMean | scripts/sma.py:28-33 | entry `k` is the zero-padded sum of `window` consecutive samples over `window`; the window starts at `k - window/2` when `window <= len(datas)` |
| MovingAverage.SmaIsMovingMeans | scripts/sma.py:28-33 | the convolution equals an independent definition as a sequence of centred window means |
| MovingAverage.MovingMeansBounds | scripts/sma.py:40-42 | window means of samples in `[0, top]` lie in `[0, top]` |
| MovingAverage.SmaBounds | scripts/sma.py:40-42 | on non-negative power every smoothed entry lies in `[0, max(powers)]` |
| MovingAverage.SmaCovers | scripts/sma.py:40-42 | on non-negative power, smoothed entry `k` is at least `powers[k] / window` |
| MovingAverage.SmaNonPositive | scripts/mix.py:79-80 | a signal that is nowhere positive has a moving average that is nowhere positive |
| MovingAverage.MovingMeansScale | scripts/sma.py:28-33 | window means of `c * datas` are `c` times the window means |
| MovingAverage.SmaScale | scripts/sma.py:42 | the moving average of `c * datas` is `c` times the moving average |
| EnergySma.FullScale | scripts/sma.py:25 | the divisor `float(2 ^ 15)` is 13.0 (XOR, not a power) |
| EnergySma.ReadWav | scripts/sma.py:25 | one normalised sample per int16 sample, each the raw value over 13 |
| EnergySma.UpIdx | scripts/sma.py:58 | `upIdx` holds exactly the indices whose smoothed value is strictly above `max(smas) * thresholdRate` |
| EnergySma.Report | scripts/sma.py:59-63 | IndexError exactly when `upIdx` is empty; otherwise a timing triple |
| EnergySma.Decide | scripts/sma.py:44-63 | never ValueError; "Input Low" exactly when the dB gate on the mean power fires; IndexError exactly when the gate passes and no smoothed value is strictly above the threshold |
| EnergySma.Detect | scripts/sma.py:35-63 | ValueError exactly when there are no samples or the window is below 1 |
| EnergySma.Plot | scripts/sma.py:65-71 | with no figure name the outcome passes through; otherwise a returned result (times or "Input Low") becomes ValueError exactly when the window is longer than the clip, and an exception from the decision is kept |
| EnergySma.Run | scripts/sma.py:35-90 | ValueError exactly for no samples, a window below 1, or a figure of a clip shorter than the window that the decision returned on; any other outcome is that of `Detect` on the normalised samples |
| EnergySma.RunShortClipFails | scripts/sma.py:35-71 | with a figure name, a non-empty clip shorter than the window and a rate below 1, `run` always raises ValueError, loud or quiet |
| EnergySma.DefaultShortClipFails | scripts/sma.py:35 | at the defaults (rate 0.1, window 100, gate 1 dB) a figure of a clip of 1 to 99 samples raises ValueError |
| EnergySma.DefaultLoudFinds | scripts/sma.py:35-63 | at the defaults a loud clip of at least 100 samples yields times, with or without a figure |
| EnergySma.DecideTiming | scripts/sma.py:58-63 | a returned timing comes from the first and last indices strictly above the threshold, none outside them is above it, and `0 <= startTime <= endTime <= (len(smas) - 1) / frameRate`, `interval = endTime - startTime` |
| EnergySma.UpIdxEnds | scripts/sma.py:58-59 | `predStart <= predEnd`, both above the threshold, nothing above it before `predStart` or after `predEnd` |
| EnergySma.NothingAbove | scripts/sma.py:58 | no entry is strictly above a threshold at or over the peak |
| EnergySma.UpIdxEmpty | scripts/sma.py:44-58 | with a non-positive peak and a rate in `[0, 1]`, or a non-negative peak and a rate of at least 1, `upIdx` is empty |
| EnergySma.DecideFinds | scripts/sma.py:44-59 | a loud clip with a positive peak and rate below 1 always yields a timing, never IndexError |
| EnergySma.DecideRaisesWhenFlat | scripts/sma.py:44-59 | a loud clip whose smoothed power is nowhere positive raises IndexError for any rate in `[0, 1]` |
| EnergySma.DecideRaisesAtFullRate | scripts/sma.py:44-59 | a loud clip raises IndexError whenever the rate is at least 1 |
| EnergySma.DetectLoudFinds | scripts/sma.py:40-59 | the decision (`Detect`, `run` before the figure), with a window of at least 1 and a rate below 1, returns a timing for every non-empty clip that passes the gate |
| EnergySma.UpIdxScale | scripts/sma.py:44-58 | scaling the smoothed power by `c > 0` leaves `upIdx` unchanged |
| EnergySma.AboveScale | scripts/sma.py:58 | `c * s > c * t` marks the same samples as `s > t` for `c > 0` |
| EnergySma.DecideSameSearch | scripts/sma.py:50-63 | two inputs with the same gate verdict and the same `upIdx` get the same result |
| EnergySma.DecidePowerGain | scripts/sma.py:42-63 | scaling the power by any `c > 0` does not change the result, as long as the gate verdict does not change |
| Features.BesideColumns | scripts/mfcc.py:37 | the columns of `np.c_[a, b]` are those of `a`, then those of `b` |
| Features.DeltaColumns | scripts/mfcc.py:34 | each column of the delta block is the regression of the matching coefficient's trajectory |
| Features.Clip | scripts/mfcc.py:42 | the clipped value is non-negative, is the value or 0, and is the value when that is non-negative |
| Features.ClipAll | scripts/mfcc.py:42 | the same, entry by entry, on a whole column |
| Features.ClipColumn | scripts/mfcc.py:42 | `p[p < 0] = 0` on the view clips that column of the matrix itself and changes no other entry |
| Features.FluctuationSign | scripts/mfcc.py:42-44 | after the clip `power * abs(delta)` is never negative; it is 0 where the power was not positive or the delta is 0, and positive elsewhere |
| Features.Indicator | scripts/mfcc.py:85-86 | a zeroed array with 1 written at the mask holds 1 exactly at true positions and 0 elsewhere |
| Features.OnesOfIndicator | scripts/mfcc.py:158 | testing `== 1` on that array gives back the mask |
| Features.RelativeExtrema | scripts/mfcc.py:46-51 | `peek[i] == 1` exactly at strict relative minima (or maxima) with a neighbour on both sides, and 0 elsewhere |
| Features.ExtremaExclusive | scripts/mfcc.py:58-63 | endpoints and plateau samples are never marked, and no index is both a minimum and a maximum |
| Cepstral.GetMfcc | scripts/mfcc.py:31-38 | the feature matrix has 26 columns per frame; column 0 is the energy coefficient and column 13 its delta |
| Cepstral.VadOf | scripts/mfcc.py:41-45 | the smoothed fluctuation has one value per frame |
| Cepstral.MoraOf | scripts/mfcc.py:55-57 | the mora curve has one value per frame |
| Cepstral.MoraMask | scripts/mfcc.py:87-89 | the mora mask has one entry per frame |
| Cepstral.VadFluctuation | scripts/mfcc.py:41-52 | clips the caller's power column in place and leaves every other entry alone; the curve is the smoothed product of the clipped power and the absolute delta; both peak arrays are the strict-extremum indicators of the curve |
| Cepstral.MoraFluctuation | scripts/mfcc.py:55-64 | the curve is the smoothed delta alone, so the power column has no influence; the peak arrays are its extremum indicators |
| Cepstral.SectionMask | scripts/mfcc.py:85-86 | `vadSection[i] == 1` exactly when `vad[i] >= vadThreshold`, 0 elsewhere |
| Cepstral.MoraPositions | scripts/mfcc.py:87-89 | `moraPositions[i] == 1` exactly when `maxPeek[i] == 1` and `vad[i] > vadThreshold` |
| Cepstral.CalcIntervals | scripts/mfcc.py:155-159 | the append loop collects, in order, exactly the frames where the section array is 1 |
| Cepstral.VoiceActivity | scripts/mfcc.py:73-89 | on a fresh feature matrix, the masks and the active frames are those of the fluctuation curve of the original matrix |
| Cepstral.Report | scripts/mfcc.py:161-172 | "Input Low" exactly when no frame is active |
| Cepstral.Run | scripts/mfcc.py:67-172 | `run` returns the first/last-frame report of the curve at the threshold; the figure name plays no part |
| Cepstral.MoraWithinSection | scripts/mfcc.py:85-89 | every mora position lies inside the voice section |
| Cepstral.ReportInputLow | scripts/mfcc.py:155-170 | on any curve, "Input Low" exactly when no frame reaches the threshold |
| Cepstral.DecideInputLow | scripts/mfcc.py:84-170 | `run` reports "Input Low" exactly when no frame's fluctuation reaches the threshold |
| Cepstral.ReportTiming | scripts/mfcc.py:155-165 | a timing comes from the first and last active frames over 100, with no active frame outside them, and `0 <= startTime <= endTime` |
| Cepstral.DecideTiming | scripts/mfcc.py:84-165 | the same for `run`'s curve on a feature matrix |
| Analize.GetMfcc | script/analize.py:17-23 | 39 columns per frame; column 0 is still the energy, column 13 its delta, and column 26 the delta of that |
| Analize.ReportOrZero | script/analize.py:132-148 | always a timing; three zeros with no active frame, otherwise the same as the `mfcc.py` report |
| Analize.Run | script/analize.py:52-148 | `run` returns the zero-default report of the fluctuation curve at threshold 2, independent of the figure name |
| Analize.SameFluctuation | script/analize.py:58-64 | the extra delta-delta block leaves the fluctuation curve as `mfcc.py` computes it |
| Analize.AgreesWithCepstral | script/analize.py:52-148 | `analize.py` returns what `mfcc.py` returns at threshold 2, with "Input Low" replaced by three zeros |
| Analize.ZeroResultAmbiguous | script/analize.py:138-146 | "nothing active" and "only frame 0 active" give the same `(0.0, 0.0, 0.0)` |
| Analize.AnalysisZero | script/analize.py:138-140 | when no frame's fluctuation reaches 2 the result is `(0.0, 0.0, 0.0)` |
| Analize.AnalysisTiming | script/analize.py:132-148 | when some frame reaches 2, the times are the first and last such frames over 100, none outside them reaches 2, and `0 <= startTime <= endTime` |
| Mixed.VadFluctuation | scripts/mix.py:46-54 | clips the caller's power column in place, leaves every other entry alone, and returns the smoothed product |
| Mixed.Curve | scripts/mix.py:70-77 | the resampled curve has one value per audio sample |
| Mixed.Vads | scripts/mix.py:79 | `len(vads) == len(powers)` |
| Mixed.Smas | scripts/mix.py:80 | the moving average of the mix has `max(N, window)` entries |
| Mixed.MixSign | scripts/mix.py:79 | each mixed sample has the sign of the curve, because the power is never negative |
| Mixed.Detect | scripts/mix.py:56-101 | ValueError exactly with fewer than 4 frames, no samples or a window below 1 (for no samples, assuming the feature extractor call succeeds); "Input Low" exactly when valid and the gate on the raw power fires |
| Mixed.Run | scripts/mix.py:56-128 | the imperative `run`, including the in-place clip, returns `Detect` of the normalised samples passed through `EnergySma.Plot`: with a figure name, a returned result of a clip shorter than the window becomes ValueError |
| Mixed.DetectFinds | scripts/mix.py:82-97 | with a positive peak of the smoothed mix and rate below 1, a loud valid clip yields a timing |
| Mixed.DetectRaisesWhenCurveFlat | scripts/mix.py:79-97 | a loud valid clip whose resampled curve is nowhere positive raises IndexError for any rate in `[0, 1]` |
| Mixed.DetectDecides | scripts/mix.py:80-101 | on a valid clip the decision is `sma.py`'s decision on the mixed average with the gate on the raw power |

## Left out

- Reading audio files (`wave`, `scipy.io.wavfile`) is I/O. The model starts from the decoded
  int16 samples and the header's frame rate.
  - `ReadWavFile`'s `FileNotFoundError` branch returns 0 and is not modelled.
  - In `mfcc.py` / `analize.py` the samples are passed to the feature extractor as reals.
- EnergySma.Decide: requires `frameRate > 0`. A zero rate from a WAV header would raise
  ZeroDivisionError on the loud branch and in the figure's time axis; that path is not modelled.
- MFCC and delta extraction, the Gaussian filter, cubic interpolation and `log10` are
  abstract function values with shape-only guarantees.
  - Errors raised inside them are not modelled. The exception is cubic `interp1d`'s
    ValueError with fewer than four frames.
  - Their floating-point values are not modelled; all arithmetic is on reals.
- Mixed.DetectDecides: the timing of `mix.py` is not restated in its own terms. The lemma
  reduces it to `EnergySma.Decide`, whose timing properties `EnergySma.DecideTiming` proves.
- EnergySma.DecidePowerGain: stated on the power scaled by `c > 0`. Scaling the raw samples
  by `a` scales the power by `a * a`, which is that case with `c = a * a`. The gate verdict
  must be unchanged, because the dB gate is absolute.
- Drawing and saving figures with matplotlib, figure release and `gc.collect()` are left out,
  except for the length mismatch of `plt.plot(times, smas)` in `sma.py` and `mix.py`
  (`EnergySma.Plot`). The model assumes the other drawing calls succeed: the plots of
  `mfcc.py` and `analize.py` draw arrays of one frame count each, and writing the image file
  is I/O.
- The `__main__` blocks are left out:
  - `scripts/sma.py` passes a keyword argument that `run` does not take;
  - `scripts/mfcc.py` passes the threshold as a string and `%f`-formats a possible sentinel;
  - `script/analize.py` records from the microphone.
- The Qt presentation layer, test choreography and recording thread (`BAT.py`, `scripts/BAT.py`,
  `script/BAT.py`, `script/main.py`, `script/item.py`, `script/record.py`) and the spreadsheet
  wrappers (`scripts/excel.py`) are UI, concurrency and I/O. They are not part of this model.
