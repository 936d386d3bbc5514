/** The audio transport of the Emulator component: samples captured from the emulator
    process are queued, and on each host audio callback a controlled number of stereo
    frames is dequeued, resampled to the requested length and written out.

    The host and transport collaborators (`_sharedAudioBuffer.GetSamples()`,
    `IsOpen()`, `Status`, the `captureEmulatorAudio` switch, `Time.deltaTime`) are
    parameters. The float-valued rate blend that yields the pre-correction demand is
    the integer parameter `demand`; its real-valued counterpart is
    RateEstimator.RateEstimate. */
module EmulatorAudio {
  import opened AudioFormat
  import opened Resampler
  import opened RateEstimator
  import opened BufferController

  /** `_acceptableSkipsPerSecond`: the rate at which the skip counter recovers. */
  const AcceptableSkipsPerSecond: real := 0.5

  /** Copies the resampled audio into the host's buffer, converting each sample to
      a float in [-1, 1]. If the resampled audio runs out first, the rest of the
      host buffer is left as it was. */
  method CopyToOutput(resampled: array<Short>, outBuffer: array<real>)
    modifies outBuffer
    ensures forall i :: 0 <= i < outBuffer.Length && i < resampled.Length ==>
      outBuffer[i] == resampled[i] as real / 32767.0
    ensures forall i :: resampled.Length <= i < outBuffer.Length ==> outBuffer[i] == old(outBuffer[i])
  {
    var outI := 0;
    while outI < outBuffer.Length
      invariant 0 <= outI <= outBuffer.Length && outI <= resampled.Length
      invariant forall i :: 0 <= i < outI ==> outBuffer[i] == resampled[i] as real / 32767.0
      invariant forall i :: outI <= i < outBuffer.Length ==> outBuffer[i] == old(outBuffer[i])
    {
      if outI < resampled.Length {
        outBuffer[outI] := resampled[outI] as real / 32767.0;
      } else {
        // the source logs an error here and stops copying
        break;
      }
      outI := outI + 1;
    }
  }

  class Emulator {
    /** Target queue occupancy, in stereo frames (`idealBufferSize`). */
    var idealBufferSize: int
    /** Capacity of the rate history (`movingAverageN`). */
    var movingAverageN: nat
    /** Gain of the proportional correction (`excessConsumptionFactor`). */
    var excessConsumptionFactor: real

    /** `_rawBuffer`: interleaved samples waiting to be played, oldest first. */
    var rawBuffer: seq<Short>
    /** `_samplesProvidedHistory`: stereo frames provided per callback, newest last. */
    var samplesProvidedHistory: seq<nat>
    /** `_audioSkipCounter`: recovers over time, drops by one per starvation event. */
    var audioSkipCounter: real
    /** `_samplesProvidedThisFrame`: stereo frames captured since the last processed callback. */
    var samplesProvidedThisFrame: nat
    /** `_consecutiveEmptyFrames`: callbacks in a row that found no new frames. */
    var consecutiveEmptyFrames: nat

    /** The transport state right after a reset. */
    predicate IsReset()
      reads this
    {
      && rawBuffer == []
      && samplesProvidedHistory == []
      && audioSkipCounter == 0.0
      && consecutiveEmptyFrames == 0
      && samplesProvidedThisFrame == 0
    }

    /** The field initialisers and InitAudio: default knobs, reset state. */
    constructor ()
      ensures idealBufferSize == 2205 && movingAverageN == 1024 && excessConsumptionFactor == 0.01
      ensures IsReset()
    {
      idealBufferSize := TruncToInt(44100.0 * 0.05);
      movingAverageN := 1024;
      excessConsumptionFactor := 0.01;
      rawBuffer := [];
      samplesProvidedHistory := [];
      audioSkipCounter := 0.0;
      consecutiveEmptyFrames := 0;
      samplesProvidedThisFrame := 0;
    }

    /** `ResetAudio`: empties the queue and the history and zeroes every counter. */
    method ResetAudio()
      modifies this`rawBuffer, this`samplesProvidedHistory, this`audioSkipCounter,
               this`consecutiveEmptyFrames, this`samplesProvidedThisFrame
      ensures IsReset()
    {
      rawBuffer := [];
      samplesProvidedHistory := [];
      audioSkipCounter := 0.0;
      consecutiveEmptyFrames := 0;
      samplesProvidedThisFrame := 0;
    }

    /** `ConcurrentQueue.Enqueue`. */
    method Enqueue(x: Short)
      modifies this`rawBuffer
      ensures rawBuffer == old(rawBuffer) + [x]
    {
      rawBuffer := rawBuffer + [x];
    }

    /** `ConcurrentQueue.TryDequeue`: on an empty queue it fails and yields `default(short)`. */
    method TryDequeue() returns (ok: bool, x: Short)
      modifies this`rawBuffer
      ensures ok == (|old(rawBuffer)| > 0)
      ensures ok ==> x == old(rawBuffer)[0] && rawBuffer == old(rawBuffer)[1..]
      ensures !ok ==> x == 0 && rawBuffer == old(rawBuffer)
    {
      if |rawBuffer| == 0 {
        return false, 0;
      }
      x := rawBuffer[0];
      rawBuffer := rawBuffer[1..];
      ok := true;
    }

    /** `CaptureBizhawkAudio`: appends whatever the transport returned (`null`
        when nothing was ready) and counts its stereo frames. */
    method CaptureBizhawkAudio(samples: array?<Short>)
      modifies this`rawBuffer, this`samplesProvidedThisFrame
      ensures samples == null ==> rawBuffer == old(rawBuffer) && samplesProvidedThisFrame == old(samplesProvidedThisFrame)
      ensures samples != null ==> rawBuffer == old(rawBuffer) + samples[..]
      ensures samples != null ==>
        samplesProvidedThisFrame == old(samplesProvidedThisFrame) + samples.Length / ChannelCount
    {
      if samples == null {
        return;
      }
      samplesProvidedThisFrame := samplesProvidedThisFrame + samples.Length / ChannelCount;
      for i := 0 to samples.Length
        modifies this`rawBuffer
        invariant rawBuffer == old(rawBuffer) + samples[..i]
      {
        Enqueue(samples[i]);
      }
    }

    /** `UpdateAudio`, once per visual frame: capture, then let the skip counter
        recover by `AcceptableSkipsPerSecond * deltaTime`, resetting it to zero if it
        is still negative (where the source logs a warning). */
    method UpdateAudio(samples: array?<Short>, deltaTime: real)
      modifies this`rawBuffer, this`samplesProvidedThisFrame, this`audioSkipCounter
      ensures samples == null ==> rawBuffer == old(rawBuffer) && samplesProvidedThisFrame == old(samplesProvidedThisFrame)
      ensures samples != null ==> rawBuffer == old(rawBuffer) + samples[..]
      ensures samples != null ==>
        samplesProvidedThisFrame == old(samplesProvidedThisFrame) + samples.Length / ChannelCount
      ensures audioSkipCounter >= 0.0
      ensures var recovered := old(audioSkipCounter) + AcceptableSkipsPerSecond * deltaTime;
              audioSkipCounter == if recovered < 0.0 then 0.0 else recovered
    {
      CaptureBizhawkAudio(samples);
      audioSkipCounter := audioSkipCounter + AcceptableSkipsPerSecond * deltaTime;
      if audioSkipCounter < 0.0 {
        audioSkipCounter := 0.0;
      }
    }

    /** Appends this callback's count to the history, clears the count, and drops
        the oldest entries while the history is over capacity. */
    method RecordSamplesProvided()
      modifies this`samplesProvidedHistory, this`samplesProvidedThisFrame
      ensures samplesProvidedHistory == Window(old(samplesProvidedHistory) + [old(samplesProvidedThisFrame)], movingAverageN)
      ensures samplesProvidedThisFrame == 0
    {
      ghost var all := samplesProvidedHistory + [samplesProvidedThisFrame];
      samplesProvidedHistory := samplesProvidedHistory + [samplesProvidedThisFrame];
      samplesProvidedThisFrame := 0;
      while |samplesProvidedHistory| > movingAverageN
        modifies this`samplesProvidedHistory
        invariant |samplesProvidedHistory| <= |all|
        invariant samplesProvidedHistory == all[|all| - |samplesProvidedHistory|..]
        invariant |samplesProvidedHistory| >= |Window(all, movingAverageN)|
        decreases |samplesProvidedHistory|
      {
        samplesProvidedHistory := samplesProvidedHistory[1..];
      }
    }

    /** Pops `count` samples off the front of the queue into a new array; every
        `TryDequeue` succeeds because the queue holds at least `count` samples. */
    method DequeueSamples(count: nat) returns (rawSamples: array<Short>)
      requires count <= |rawBuffer|
      modifies this`rawBuffer
      ensures fresh(rawSamples)
      ensures rawSamples[..] == old(rawBuffer)[..count]
      ensures rawBuffer == old(rawBuffer)[count..]
    {
      rawSamples := new Short[count](_ => 0);
      for i := 0 to count
        modifies this`rawBuffer, rawSamples
        invariant rawBuffer == old(rawBuffer)[i..]
        invariant rawSamples[..i] == old(rawBuffer)[..i]
      {
        var ok, x := TryDequeue();
        assert ok;
        rawSamples[i] := x;
      }
    }

    /** Whether a callback with these collaborator states gets past the early returns
        (capture switched off, channel closed, emulator not running, wrong channel count). */
    static predicate Active(captureEmulatorAudio: bool, channelOpen: bool, running: bool, channels: int)
    {
      captureEmulatorAudio && channelOpen && running && channels == ChannelCount
    }

    /** `OnAudioFilterRead`: the host audio callback. */
    method OnAudioFilterRead(outBuffer: array<real>, channels: int, captureEmulatorAudio: bool,
                             channelOpen: bool, running: bool, demand: int)
      requires outBuffer.Length / ChannelCount != 1
      modifies this`rawBuffer, this`samplesProvidedHistory, this`audioSkipCounter,
               this`consecutiveEmptyFrames, this`samplesProvidedThisFrame, outBuffer
      // an inactive callback changes nothing
      ensures !Active(captureEmulatorAudio, channelOpen, running, channels) ==>
        && unchanged(this) && unchanged(outBuffer)
      // the empty-frame guard
      ensures Active(captureEmulatorAudio, channelOpen, running, channels) ==>
        consecutiveEmptyFrames == NextEmptyCount(old(consecutiveEmptyFrames), old(samplesProvidedThisFrame))
      ensures Active(captureEmulatorAudio, channelOpen, running, channels) && Suppressed(consecutiveEmptyFrames) ==>
        && rawBuffer == old(rawBuffer)
        && samplesProvidedHistory == old(samplesProvidedHistory)
        && samplesProvidedThisFrame == old(samplesProvidedThisFrame)
        && audioSkipCounter == old(audioSkipCounter)
        && unchanged(outBuffer)
      // a processed callback
      ensures Active(captureEmulatorAudio, channelOpen, running, channels) && !Suppressed(consecutiveEmptyFrames) ==>
        var available := |old(rawBuffer)| / ChannelCount;
        var n := StereoSamplesToConsume(available, demand, idealBufferSize, excessConsumptionFactor);
        var played := Resampled(old(rawBuffer)[..n * ChannelCount], n, outBuffer.Length / ChannelCount);
        && samplesProvidedHistory == Window(old(samplesProvidedHistory) + [old(samplesProvidedThisFrame)], movingAverageN)
        && samplesProvidedThisFrame == 0
        && audioSkipCounter == old(audioSkipCounter)
             - (if Starved(available, demand, idealBufferSize, excessConsumptionFactor) then 1.0 else 0.0)
        && rawBuffer == old(rawBuffer)[n * ChannelCount..]
        && |played| == outBuffer.Length / ChannelCount * ChannelCount
        && (forall i :: 0 <= i < |played| ==> outBuffer[i] == played[i] as real / 32767.0)
        && (forall i :: |played| <= i < outBuffer.Length ==> outBuffer[i] == old(outBuffer[i]))
    {
      if !captureEmulatorAudio { return; }
      if !channelOpen { return; }
      if !running { return; }
      if channels != ChannelCount {
        // the source logs an error about the channel count and returns
        return;
      }

      if samplesProvidedThisFrame == 0 {
        consecutiveEmptyFrames := consecutiveEmptyFrames + 1;
        if consecutiveEmptyFrames > MaxConsecutiveEmptyFrames {
          return;
        }
      } else {
        consecutiveEmptyFrames := 0;
      }

      var stereoSamplesNeeded := outBuffer.Length / ChannelCount;
      RecordSamplesProvided();

      var stereoSamplesToConsume := demand;
      var availableStereoSamples := |rawBuffer| / ChannelCount;
      var excessStereoSamples := availableStereoSamples - stereoSamplesToConsume - idealBufferSize;
      var extraStereoSamplesToConsume := TruncToInt(excessStereoSamples as real * excessConsumptionFactor);
      stereoSamplesToConsume := stereoSamplesToConsume + extraStereoSamplesToConsume;
      assert stereoSamplesToConsume == Wanted(availableStereoSamples, demand, idealBufferSize, excessConsumptionFactor);
      ghost var starved := Starved(availableStereoSamples, demand, idealBufferSize, excessConsumptionFactor);
      ghost var n := StereoSamplesToConsume(availableStereoSamples, demand, idealBufferSize, excessConsumptionFactor);
      if stereoSamplesToConsume > availableStereoSamples {
        // starved of emulator samples
        audioSkipCounter := audioSkipCounter - 1.0;
        stereoSamplesToConsume := availableStereoSamples;
      }
      stereoSamplesToConsume := if 0 > stereoSamplesToConsume then 0 else stereoSamplesToConsume;
      assert stereoSamplesToConsume == n;
      assert n * ChannelCount <= |rawBuffer|;

      var rawSamples := DequeueSamples(stereoSamplesToConsume * ChannelCount);
      var resampled := Resample(rawSamples, stereoSamplesToConsume, stereoSamplesNeeded);
      CopyToOutput(resampled, outBuffer);
    }
  }
}
