# UnityHawk emulator audio transport, in Dafny

This project models the audio path of UnityHawk's `Emulator` component. The emulator
runs in a separate process. Each visual frame, `UpdateAudio` pulls the interleaved
16-bit samples the emulator produced and appends them to a FIFO queue
(`_rawBuffer`). On each host audio callback, `OnAudioFilterRead` does the rest:

- it records how many stereo frames arrived since the last callback in a bounded
  history (`_samplesProvidedHistory`);
- it chooses how many stereo frames to consume, using a proportional correction
  toward `idealBufferSize` and a clamp to what the queue holds;
- on starvation it charges a skip counter (`_audioSkipCounter`);
- it dequeues those frames, stretches them by linear interpolation (`Resample`) to
  the length the host asked for, and writes them to the host's buffer;
- after more than five callbacks in a row with no new frames, it stops processing
  (`_consecutiveEmptyFrames`).

The project also models `DoSomething` from `RegisterMethodExample`, which replaces
the first UTF-16 code unit of a string with `'_'`.

Modules:

- `AudioFormat`: the `short` sample type, the stereo channel count, and the C#
  conversions `(int)` (truncates toward zero) and `(short)` (keeps the low 16 bits).
- `Resampler`: `Resample` as a method with nested loops over arrays. It is proved
  equal to the function `Resampled`. Lemmas give index bounds, convex weights,
  half-up rounding between the two source samples, endpoints, short-circuits and
  range preservation.
- `RateEstimator`: `Average` as a loop, proved equal to `Mean`. `Window` is the
  bounded history, and the lemmas show it keeps the last `movingAverageN` counts.
  The rate blend (`Mathf.Lerp`) is computed in exact reals, with a convergence lemma.
- `BufferController`: the excess correction, the starvation test, the clamp, and the
  empty-frame guard as functions, with lemmas.
- `EmulatorAudio`: the class `Emulator`. Its fields mirror `_rawBuffer` (a
  `seq<Short>`), `_samplesProvidedHistory`, `_audioSkipCounter`,
  `_samplesProvidedThisFrame`, `_consecutiveEmptyFrames` and the three tuning knobs.
  Its methods change these fields as the source does, and their postconditions give
  the new state in terms of the old state and the functions above.
- `RegisterMethodExample`: `DoSomething` on an array of C# `char`s, and its
  specification `Underscored`. A C# string is a sequence of UTF-16 code units, and
  the model keeps it so: a character outside the Basic Multilingual Plane is two
  units, and only the first of them is replaced.

Collaborators outside the audio path become parameters:

- `_sharedAudioBuffer.GetSamples()` is an `array?<Short>` argument; `null` means no
  samples were ready.
- `IsOpen()`, `Status == Running` and the `captureEmulatorAudio` switch are `bool`
  arguments.
- `Time.deltaTime` is a `real` argument.
- The float-valued demand `(int)(ratio * stereoSamplesNeeded)` is the `int`
  argument `demand`.

Notes on the code's behaviour:

- The demand and the excess correction are truncated toward zero by C# `(int)`
  casts, not floored (Emulator.Audio.cs lines 138 and 143).
  `CorrectionTruncatesTowardZero` shows a case where the two differ.
- `_samplesProvidedThisFrame` counts stereo frames (`samples.Length / 2`), not
  samples (line 86).
- A callback suppressed by the empty-frame guard returns before the history is
  touched (lines 109-116).
- `UpdateAudio` resets a negative skip counter to zero (lines 75-79).
- If the host buffer has an odd length, its last element is not written
  (lines 168-174).

## Model

| member | source | states |
|---|---|---|
| AudioFormat.TruncToInt | Packages/org.plunderludics.UnityHawk/Runtime/Emulator/Emulator.Audio.cs:143 | the C# `(int)` cast truncates toward zero: r <= x < r+1 for x >= 0, and r-1 < x <= r for x < 0 |
| AudioFormat.ToShort | Packages/org.plunderludics.UnityHawk/Runtime/Emulator/Emulator.Audio.cs:220 | the `(short)` cast gives a value congruent to its input modulo 2^16, and is the identity on the `short` range |
| Resampler.Position | Packages/org.plunderludics.UnityHawk/Runtime/Emulator/Emulator.Audio.cs:205 | definition: output frame o maps to source position o/(outputCount-1)*(inputCount-1), for outputCount >= 2 |
| Resampler.PositionBounds | Packages/org.plunderludics.UnityHawk/Runtime/Emulator/Emulator.Audio.cs:205 | for outputCount >= 2 the source position lies in [0, inputCount-1]; it is 0 for the first output frame and inputCount-1 for the last |
| Resampler.Index0 | Packages/org.plunderludics.UnityHawk/Runtime/Emulator/Emulator.Audio.cs:206 | `iInput0` is below inputCount and is the integer part of the position |
| Resampler.Weight0 | Packages/org.plunderludics.UnityHawk/Runtime/Emulator/Emulator.Audio.cs:208 | definition: the weight of frame `iInput0` is `iInput0`+1 minus the position |
| Resampler.Weight1 | Packages/org.plunderludics.UnityHawk/Runtime/Emulator/Emulator.Audio.cs:209 | definition: the weight of frame `iInput1` is the position minus `iInput0` |
| Resampler.Index1 | Packages/org.plunderludics.UnityHawk/Runtime/Emulator/Emulator.Audio.cs:207-212 | after the clamp, `iInput1` is below inputCount and is `iInput0+1` or `iInput0`; the clamp fires only when the second frame carries no weight |
| Resampler.WeightsConvex | Packages/org.plunderludics.UnityHawk/Runtime/Emulator/Emulator.Audio.cs:208-209 | the two blend weights lie in [0,1] and sum to 1 |
| Resampler.Blend | Packages/org.plunderludics.UnityHawk/Runtime/Emulator/Emulator.Audio.cs:216-218 | definition: channel ch of output frame o blends the samples of frames `iInput0` and `iInput1` by their weights |
| Resampler.Sample | Packages/org.plunderludics.UnityHawk/Runtime/Emulator/Emulator.Audio.cs:220 | definition: the blend rounded by `(short)((int)(value + 32768.5) - 32768)`, with both casts as in C# |
| Resampler.BlendBetween | Packages/org.plunderludics.UnityHawk/Runtime/Emulator/Emulator.Audio.cs:216-218 | a convex blend of two samples lies between them |
| Resampler.RoundBetween | Packages/org.plunderludics.UnityHawk/Runtime/Emulator/Emulator.Audio.cs:220 | `(short)((int)(v+32768.5)-32768)` equals floor(v+0.5) for v between two shorts, and stays between them, so the cast never wraps |
| Resampler.SampleBetweenSources | Packages/org.plunderludics.UnityHawk/Runtime/Emulator/Emulator.Audio.cs:214-221 | every interpolated output sample is its blend rounded half-up and lies between its two source samples |
| Resampler.ResampleEndpoints | Packages/org.plunderludics.UnityHawk/Runtime/Emulator/Emulator.Audio.cs:203-221 | the first output frame copies input frame 0; the last output frame copies input frame inputCount-1 |
| Resampler.ResampleShortCircuits | Packages/org.plunderludics.UnityHawk/Runtime/Emulator/Emulator.Audio.cs:190-201 | equal counts return the input unchanged; otherwise a zero count gives outputCount*2 zero samples |
| Resampler.Resampled | Packages/org.plunderludics.UnityHawk/Runtime/Emulator/Emulator.Audio.cs:188-225 | the result holds outputCount*2 samples whenever the input holds inputCount*2 samples or the counts differ |
| Resampler.Resample | Packages/org.plunderludics.UnityHawk/Runtime/Emulator/Emulator.Audio.cs:188-225 | the nested loops fill exactly the samples of `Resampled`; equal counts return the very input array |
| Resampler.ResampledWithinInputRange | Packages/org.plunderludics.UnityHawk/Runtime/Emulator/Emulator.Audio.cs:188-224 | if every input sample lies in [lo, hi] with lo <= 0 <= hi, so does every output sample |
| RateEstimator.Average | Packages/org.plunderludics.UnityHawk/Runtime/Emulator/Emulator.Audio.cs:227-233 | the accumulating loop returns the arithmetic mean of a non-empty list |
| RateEstimator.MeanBetween | Packages/org.plunderludics.UnityHawk/Runtime/Emulator/Emulator.Audio.cs:227-233 | the mean lies between any lower and upper bound of the counts |
| RateEstimator.MeanOfConstant | Packages/org.plunderludics.UnityHawk/Runtime/Emulator/Emulator.Audio.cs:227-233 | a history of identical counts k averages to k |
| RateEstimator.Window | Packages/org.plunderludics.UnityHawk/Runtime/Emulator/Emulator.Audio.cs:121-125 | the trimmed history holds min(length, movingAverageN) entries |
| RateEstimator.WindowStep | Packages/org.plunderludics.UnityHawk/Runtime/Emulator/Emulator.Audio.cs:121-125 | appending then trimming the trimmed history equals trimming the whole sequence |
| RateEstimator.HistoryIsLastCounts | Packages/org.plunderludics.UnityHawk/Runtime/Emulator/Emulator.Audio.cs:121-125 | after k processed callbacks from empty, the history is the last min(k, movingAverageN) counts in arrival order, newest last |
| RateEstimator.RateEstimate | Packages/org.plunderludics.UnityHawk/Runtime/Emulator/Emulator.Audio.cs:126-130 | definition: `Mathf.Lerp` from the nominal rate (stereoSamplesNeeded*44100/unitySampleRate) to the history mean, by the history's fill fraction |
| RateEstimator.Lerp | Packages/org.plunderludics.UnityHawk/Runtime/Emulator/Emulator.Audio.cs:126-130 | `Mathf.Lerp` lies between its endpoints, gives the first for t <= 0 and the second for t >= 1 |
| RateEstimator.EstimateConverges | Packages/org.plunderludics.UnityHawk/Runtime/Emulator/Emulator.Audio.cs:126-130 | once the history is full of one count k, the blended estimate is exactly k |
| RateEstimator.EstimateBetween | Packages/org.plunderludics.UnityHawk/Runtime/Emulator/Emulator.Audio.cs:126-130 | the estimate lies between the nominal rate and the measured mean |
| BufferController.Excess | Packages/org.plunderludics.UnityHawk/Runtime/Emulator/Emulator.Audio.cs:141 | definition: available frames minus demand minus idealBufferSize |
| BufferController.ExcessCorrection | Packages/org.plunderludics.UnityHawk/Runtime/Emulator/Emulator.Audio.cs:143 | definition: the excess times the gain, truncated toward zero |
| BufferController.Wanted | Packages/org.plunderludics.UnityHawk/Runtime/Emulator/Emulator.Audio.cs:138-145 | definition: the demand plus the excess correction, before the clamp |
| BufferController.Starved | Packages/org.plunderludics.UnityHawk/Runtime/Emulator/Emulator.Audio.cs:148 | definition: a callback is starved when it wants more frames than the queue holds |
| BufferController.StereoSamplesToConsume | Packages/org.plunderludics.UnityHawk/Runtime/Emulator/Emulator.Audio.cs:138-154 | the frames consumed lie in [0, available]; they equal the wanted count when that fits, all available frames on starvation, and 0 when the wanted count is negative |
| BufferController.CorrectionTowardTarget | Packages/org.plunderludics.UnityHawk/Runtime/Emulator/Emulator.Audio.cs:141-145 | with a gain in [0,1] the correction has the sign of the excess and at most its magnitude |
| BufferController.CorrectionTruncatesTowardZero | Packages/org.plunderludics.UnityHawk/Runtime/Emulator/Emulator.Audio.cs:143 | an excess of -150 at gain 0.01 corrects by -1, where flooring would give -2 |
| BufferController.NextEmptyCount | Packages/org.plunderludics.UnityHawk/Runtime/Emulator/Emulator.Audio.cs:109-116 | definition: an empty callback increments the counter; any other resets it to 0 |
| BufferController.Suppressed | Packages/org.plunderludics.UnityHawk/Runtime/Emulator/Emulator.Audio.cs:111 | definition: the callback returns early once the counter exceeds 5 |
| BufferController.EmptyCountIsTrailingRun | Packages/org.plunderludics.UnityHawk/Runtime/Emulator/Emulator.Audio.cs:109-116 | the empty-frame counter equals the length of the trailing run of empty callbacks |
| BufferController.SuppressedIffSixEmpty | Packages/org.plunderludics.UnityHawk/Runtime/Emulator/Emulator.Audio.cs:109-116 | a callback returns early exactly when it and the five before it were all empty |
| EmulatorAudio.CopyToOutput | Packages/org.plunderludics.UnityHawk/Runtime/Emulator/Emulator.Audio.cs:166-175 | each host-buffer slot covered by the resampled audio gets sample/32767; slots beyond it are untouched |
| EmulatorAudio.Emulator.constructor | Packages/org.plunderludics.UnityHawk/Runtime/Emulator/Emulator.Audio.cs:14-68 | the field defaults at lines 14, 29 and 34 (idealBufferSize 2205, movingAverageN 1024, excessConsumptionFactor 0.01) and the reset transport state that `InitAudio` leaves |
| EmulatorAudio.Emulator.ResetAudio | Packages/org.plunderludics.UnityHawk/Runtime/Emulator/Emulator.Audio.cs:55-63 | the queue and history are empty and the skip, empty-frame and per-frame counters are zero |
| EmulatorAudio.Emulator.Enqueue | Packages/org.plunderludics.UnityHawk/Runtime/Emulator/Emulator.Audio.cs:93 | the sample is appended at the back of the queue |
| EmulatorAudio.Emulator.TryDequeue | Packages/org.plunderludics.UnityHawk/Runtime/Emulator/Emulator.Audio.cs:160 | it succeeds iff the queue is non-empty, and then yields and removes the front sample; otherwise it yields 0 |
| EmulatorAudio.Emulator.CaptureBizhawkAudio | Packages/org.plunderludics.UnityHawk/Runtime/Emulator/Emulator.Audio.cs:82-95 | null changes nothing; otherwise the samples are appended in order and samples.Length/2 is added to the per-frame count |
| EmulatorAudio.Emulator.UpdateAudio | Packages/org.plunderludics.UnityHawk/Runtime/Emulator/Emulator.Audio.cs:69-81 | capture, then the skip counter becomes max(0, old + 0.5*deltaTime), so it is always >= 0 |
| EmulatorAudio.Emulator.RecordSamplesProvided | Packages/org.plunderludics.UnityHawk/Runtime/Emulator/Emulator.Audio.cs:121-125 | the history becomes the window of old history plus this callback's count; the count is reset to 0 |
| EmulatorAudio.Emulator.DequeueSamples | Packages/org.plunderludics.UnityHawk/Runtime/Emulator/Emulator.Audio.cs:156-162 | every `TryDequeue` succeeds; the array holds the first `count` queued samples and the queue keeps the rest |
| EmulatorAudio.Emulator.Active | Packages/org.plunderludics.UnityHawk/Runtime/Emulator/Emulator.Audio.cs:100-107 | definition: the callback proceeds only when capture is on, the shared buffer is open, the emulator runs and the host has 2 channels |
| EmulatorAudio.Emulator.OnAudioFilterRead | Packages/org.plunderludics.UnityHawk/Runtime/Emulator/Emulator.Audio.cs:99-185 | an inactive callback changes nothing; the guard counts empty callbacks and from the sixth returns untouched; otherwise the history is windowed, the skip counter drops by 1 iff starved, exactly the first 2n queued samples are removed with n in [0, available], and the host buffer receives their resampling to its length |
| RegisterMethodExample.Underscored | Assets/RegisterMethodExample.cs:15-19 | the result has the argument's length in UTF-16 code units, '_' at index 0, and the argument's code units at every other index |
| RegisterMethodExample.DoSomething | Assets/RegisterMethodExample.cs:15-19 | the array copy with element 0 overwritten yields `Underscored(arg)`, for a non-empty argument |
| RegisterMethodExample.UnderscoredIdempotent | Assets/RegisterMethodExample.cs:15-19 | applying the rewrite twice equals applying it once |
| RegisterMethodExample.UnderscoredSplitsSurrogatePair | Assets/RegisterMethodExample.cs:16-18 | a first character outside the Basic Multilingual Plane loses only its high surrogate, leaving a lone low surrogate |

## Left out

- Floating point. The source computes positions and weights in `double`, and the
  rate blend, the excess product and the `/32767f` conversion in `float`. The model
  uses exact reals, so rounding errors are not modelled.
- The rate blend is not wired into `OnAudioFilterRead` (lines 126-138). The callback
  takes the truncated demand as the `demand` argument, with no constraint.
  `RateEstimate` models the blend in reals but nothing connects it to `demand`.
  With `stereoSamplesNeeded == 0` the source divides by zero there.
- Resampler.Resample: requires that `outputCount == 1` implies `inputCount <= 1`.
  Otherwise the source computes 0/0, which is NaN, and the `(int)` cast of NaN is
  unspecified in C#.
- EmulatorAudio.Emulator.OnAudioFilterRead: requires that the host buffer does not
  hold exactly one stereo frame. This is stronger than the source needs: the source
  goes wrong only if it also consumes more than one frame.
- RateEstimator.Average: requires a non-empty list. The source returns NaN on an
  empty list, which happens only when `movingAverageN` is 0.
- 32-bit overflow of `_consecutiveEmptyFrames`, `_samplesProvidedThisFrame` and the
  excess arithmetic is not modelled. These stay far from 2^31 in practice.
- `movingAverageN` is typed `nat`. With a negative value the source's trim loop calls
  `RemoveAt(0)` on an empty list and throws.
- Concurrency is not modelled. This covers the thread-safety of `ConcurrentQueue`,
  the interleaving of the main thread and the audio thread, and reset as a barrier.
  The model runs one sequential producer step and one sequential consumer step.
- Logging (`Debug.Log*`) is not modelled, nor the `realtimeSinceStartup` check that
  gates the skip warning.
- The display-only fields `_avgSamplesProvided`, `rawBufferCount` and
  `resampleRatio` are not modelled.
- `_unitySampleRate` and `AudioSettings` feed only the float blend, so they are not
  modelled.
- `ExponentialMovingAverage` is never called.
- `Start` and `RegisterMethod` of `RegisterMethodExample` are not modelled, nor the
  Unity attributes.
- RegisterMethodExample.DoSomething: requires a non-empty argument. On an empty
  string the source's `charArr[0]` throws `IndexOutOfRangeException`
  (Assets/RegisterMethodExample.cs line 17). A null argument, which throws
  `NullReferenceException` at `ToCharArray`, is not modelled either.
- Packages/org.plunderludics.UnityHawk/Runtime/CoreFileProvider.cs is not part of
  this model. All of its lines are commented out, and it does firmware file lookup.
- Packages/org.plunderludics.UnityHawk/Runtime/SharedBuffers/SharedKeyInputBuffer.cs
  is not part of this model. It is cross-process shared-memory I/O.
