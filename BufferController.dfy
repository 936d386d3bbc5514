/** The buffer-level controller of OnAudioFilterRead: a proportional correction that
    pulls the queue toward `idealBufferSize`, the clamp to what the queue holds, and
    the guard that stops processing after a run of empty callbacks. */
module BufferController {
  import opened AudioFormat

  /** After more empty callbacks in a row than this, audio processing stops. */
  const MaxConsecutiveEmptyFrames: nat := 5

  /** `excessStereoSamples`: the occupancy left after the demand, above the target. */
  function Excess(available: int, demand: int, idealBufferSize: int): int
  {
    available - demand - idealBufferSize
  }

  /** `extraStereoSamplesToConsume`: `(int)(excessStereoSamples * excessConsumptionFactor)`. */
  function ExcessCorrection(excess: int, excessConsumptionFactor: real): int
  {
    TruncToInt(excess as real * excessConsumptionFactor)
  }

  /** The stereo frames wanted before the clamp: the demand plus the correction. */
  function Wanted(available: int, demand: int, idealBufferSize: int, excessConsumptionFactor: real): int
  {
    demand + ExcessCorrection(Excess(available, demand, idealBufferSize), excessConsumptionFactor)
  }

  /** A starvation event: the queue holds fewer stereo frames than wanted. */
  predicate Starved(available: int, demand: int, idealBufferSize: int, excessConsumptionFactor: real)
  {
    Wanted(available, demand, idealBufferSize, excessConsumptionFactor) > available
  }

  /** `stereoSamplesToConsume` after the clamp and `Math.Max(0, ...)`. */
  function StereoSamplesToConsume(available: nat, demand: int, idealBufferSize: int, excessConsumptionFactor: real): (n: nat)
    ensures n <= available
    ensures Starved(available, demand, idealBufferSize, excessConsumptionFactor) ==> n == available
    ensures 0 <= Wanted(available, demand, idealBufferSize, excessConsumptionFactor) <= available ==>
      n == Wanted(available, demand, idealBufferSize, excessConsumptionFactor)
    ensures Wanted(available, demand, idealBufferSize, excessConsumptionFactor) < 0 ==> n == 0
  {
    var wanted := Wanted(available, demand, idealBufferSize, excessConsumptionFactor);
    var clamped := if wanted > available then available else wanted;
    if 0 > clamped then 0 else clamped
  }

  /** The correction moves toward the target and never past it: with a gain in
      [0, 1] it has the sign of the excess and at most its magnitude. */
  lemma CorrectionTowardTarget(excess: int, excessConsumptionFactor: real)
    requires 0.0 <= excessConsumptionFactor <= 1.0
    ensures excess >= 0 ==> 0 <= ExcessCorrection(excess, excessConsumptionFactor) <= excess
    ensures excess <= 0 ==> excess <= ExcessCorrection(excess, excessConsumptionFactor) <= 0
  {
    TruncatedScaleBetween(excess, excessConsumptionFactor, excess as real * excessConsumptionFactor);
  }

  lemma TruncatedScaleBetween(n: int, f: real, x: real)
    requires 0.0 <= f <= 1.0 && x == n as real * f
    ensures n >= 0 ==> 0 <= TruncToInt(x) <= n
    ensures n <= 0 ==> n <= TruncToInt(x) <= 0
  {
    ScaledBetween(n as real, f, x);
    if n >= 0 {
      assert 0.0 <= x <= n as real;
    } else {
      assert n as real <= x <= 0.0;
    }
    TruncBetween(x, n);
  }

  /** The cast truncates toward zero: 150 frames below target at gain 0.01 corrects
      by -1 frame, where rounding down would give -2. */
  lemma CorrectionTruncatesTowardZero()
    ensures ExcessCorrection(Excess(0, 0, 150), 0.01) == -1
    ensures (-150.0 * 0.01).Floor == -2
  {
    assert (-150) as real * 0.01 == -1.5;
  }

  /** `_consecutiveEmptyFrames` after a callback that found `provided` new stereo frames. */
  function NextEmptyCount(count: nat, provided: int): nat
  {
    if provided == 0 then count + 1 else 0
  }

  /** The callback returns early once the empty run is longer than the threshold. */
  predicate Suppressed(count: nat)
  {
    count > MaxConsecutiveEmptyFrames
  }

  /** The empty-frame counter after one callback per element of `provided`,
      starting from the reset value 0. */
  function EmptyCountAfter(provided: seq<int>): nat
  {
    if provided == [] then 0
    else NextEmptyCount(EmptyCountAfter(provided[..|provided| - 1]), provided[|provided| - 1])
  }

  /** The counter is the length of the trailing run of empty callbacks: the last
      `c` callbacks were empty and the one before them (if any) was not. */
  lemma {:induction false} EmptyCountIsTrailingRun(provided: seq<int>)
    ensures EmptyCountAfter(provided) <= |provided|
    ensures forall i :: |provided| - EmptyCountAfter(provided) <= i < |provided| ==> provided[i] == 0
    ensures EmptyCountAfter(provided) < |provided| ==>
      provided[|provided| - 1 - EmptyCountAfter(provided)] != 0
  {
    if provided != [] {
      var init := provided[..|provided| - 1];
      EmptyCountIsTrailingRun(init);
      if provided[|provided| - 1] == 0 {
        assert forall i :: 0 <= i < |init| ==> init[i] == provided[i];
      }
    }
  }

  /** A callback is suppressed exactly when it and the five before it were all
      empty: from the sixth consecutive empty callback on. */
  lemma SuppressedIffSixEmpty(provided: seq<int>)
    ensures Suppressed(EmptyCountAfter(provided)) <==>
      |provided| > MaxConsecutiveEmptyFrames &&
      forall i :: |provided| - MaxConsecutiveEmptyFrames - 1 <= i < |provided| ==> provided[i] == 0
  {
    EmptyCountIsTrailingRun(provided);
    var c := EmptyCountAfter(provided);
    var n := |provided|;
    if n > MaxConsecutiveEmptyFrames &&
       forall i :: n - MaxConsecutiveEmptyFrames - 1 <= i < n ==> provided[i] == 0
    {
      if c <= MaxConsecutiveEmptyFrames {
        assert false;
      }
    }
  }
}
