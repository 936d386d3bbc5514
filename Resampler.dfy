/** Linear-interpolation resampler: stretches `inputCount` interleaved stereo frames
    to `outputCount` frames (Emulator.Resample). Positions and weights are exact
    reals here; the source computes them in double precision. */
module Resampler {
  import opened AudioFormat

  /** Fractional input frame read by output frame `o`: o / (outputCount - 1) * (inputCount - 1). */
  function Position(o: nat, inputCount: nat, outputCount: nat): real
    requires outputCount >= 2
  {
    (o as real / (outputCount - 1) as real) * (inputCount - 1) as real
  }

  /** The first output frame reads input frame 0, the last one reads the last input
      frame, and every frame in between reads inside the input. */
  lemma PositionBounds(o: nat, inputCount: nat, outputCount: nat)
    requires 1 <= inputCount && 2 <= outputCount && o < outputCount
    ensures 0.0 <= Position(o, inputCount, outputCount) <= (inputCount - 1) as real
    ensures o == 0 ==> Position(o, inputCount, outputCount) == 0.0
    ensures o == outputCount - 1 ==> Position(o, inputCount, outputCount) == (inputCount - 1) as real
  {
    var m := (outputCount - 1) as real;
    var q := o as real / m;
    var span := (inputCount - 1) as real;
    FractionBetween(o as real, m);
    assert q * span <= 1.0 * span by {
      assert (1.0 - q) * span >= 0.0;
    }
    if o == outputCount - 1 {
      assert o as real == m;
      assert q == 1.0;
    }
  }

  /** o / m lies in [0, 1] for 0 <= o <= m, and is 0 for o = 0. */
  lemma FractionBetween(o: real, m: real)
    requires 0.0 <= o <= m && m > 0.0
    ensures 0.0 <= o / m <= 1.0
    ensures o == 0.0 ==> o / m == 0.0
  {
    DivideNonNegative(o, m);
    DivideNonNegative(m - o, m);
    var inv := 1.0 / m;
    assert o / m == o * inv;
    assert (m - o) / m == (m - o) * inv;
    assert m * inv == 1.0;
  }

  /** `iInput0`: the integer part of the position, by the C# `(int)` cast. */
  function Index0(o: nat, inputCount: nat, outputCount: nat): (i: nat)
    requires 1 <= inputCount && 2 <= outputCount && o < outputCount
    ensures i < inputCount
    ensures i as real <= Position(o, inputCount, outputCount) < i as real + 1.0
  {
    PositionBounds(o, inputCount, outputCount);
    TruncToInt(Position(o, inputCount, outputCount))
  }

  /** Weight of frame `Index0`: `iInput1 - iInput`, taken before `iInput1` is clamped. */
  function Weight0(o: nat, inputCount: nat, outputCount: nat): real
    requires 1 <= inputCount && 2 <= outputCount && o < outputCount
  {
    (Index0(o, inputCount, outputCount) + 1) as real - Position(o, inputCount, outputCount)
  }

  /** Weight of frame `Index1`: `iInput - iInput0`. */
  function Weight1(o: nat, inputCount: nat, outputCount: nat): real
    requires 1 <= inputCount && 2 <= outputCount && o < outputCount
  {
    Position(o, inputCount, outputCount) - Index0(o, inputCount, outputCount) as real
  }

  /** `iInput1`: the next frame, clamped to the last input frame. The clamp only
      fires when the second frame carries no weight, so it never changes a value. */
  function Index1(o: nat, inputCount: nat, outputCount: nat): (i: nat)
    requires 1 <= inputCount && 2 <= outputCount && o < outputCount
    ensures i < inputCount
    ensures i == Index0(o, inputCount, outputCount) + 1 || i == Index0(o, inputCount, outputCount)
    ensures i == Index0(o, inputCount, outputCount) ==> Weight1(o, inputCount, outputCount) == 0.0
  {
    PositionBounds(o, inputCount, outputCount);
    var i1 := Index0(o, inputCount, outputCount) + 1;
    if i1 == inputCount then inputCount - 1 else i1
  }

  /** The interpolated (unrounded) value of channel `ch` of output frame `o`. */
  function Blend(input: seq<Short>, inputCount: nat, outputCount: nat, o: nat, ch: nat): real
    requires 1 <= inputCount && 2 <= outputCount && o < outputCount && ch < ChannelCount
    requires |input| >= inputCount * ChannelCount
  {
    var i0 := Index0(o, inputCount, outputCount);
    var i1 := Index1(o, inputCount, outputCount);
    input[i0 * ChannelCount + ch] as real * Weight0(o, inputCount, outputCount)
      + input[i1 * ChannelCount + ch] as real * Weight1(o, inputCount, outputCount)
  }

  /** The stored sample: `(short)((int)(value + 32768.5) - 32768)`. */
  function Sample(input: seq<Short>, inputCount: nat, outputCount: nat, o: nat, ch: nat): Short
    requires 1 <= inputCount && 2 <= outputCount && o < outputCount && ch < ChannelCount
    requires |input| >= inputCount * ChannelCount
  {
    ToShort(TruncToInt(Blend(input, inputCount, outputCount, o, ch) + 32768.5) - 32768)
  }

  /** What Resample returns for an input holding at least `inputCount` stereo frames. */
  function Resampled(input: seq<Short>, inputCount: nat, outputCount: nat): (r: seq<Short>)
    requires |input| >= inputCount * ChannelCount
    requires outputCount == 1 ==> inputCount <= 1
    ensures |input| == inputCount * ChannelCount ==> |r| == outputCount * ChannelCount
    ensures inputCount != outputCount ==> |r| == outputCount * ChannelCount
  {
    if inputCount == outputCount then input
    else if inputCount == 0 || outputCount == 0 then seq(outputCount * ChannelCount, _ => 0)
    else seq(outputCount * ChannelCount,
             k requires 0 <= k < outputCount * ChannelCount =>
               Sample(input, inputCount, outputCount, k / ChannelCount, k % ChannelCount))
  }

  /** The imperative resampler. Equal counts return the input array itself; otherwise
      a new array of `outputCount` frames is filled frame by frame, channel by channel. */
  method Resample(input: array<Short>, inputCount: nat, outputCount: nat) returns (output: array<Short>)
    requires input.Length >= inputCount * ChannelCount
    requires outputCount == 1 ==> inputCount <= 1
    ensures output[..] == Resampled(input[..], inputCount, outputCount)
    ensures inputCount == outputCount ==> output == input
  {
    assert inputCount * ChannelCount == 2 * inputCount;
    if inputCount == outputCount {
      return input;
    }
    // C# zero-initialises a new array
    output := new Short[outputCount * ChannelCount](_ => 0);
    if inputCount == 0 || outputCount == 0 {
      forall k | 0 <= k < output.Length {
        output[k] := 0;
      }
      return;
    }
    ghost var s := input[..];
    for iOutput := 0 to outputCount
      invariant forall k :: 0 <= k < iOutput * ChannelCount ==>
        output[k] == Sample(s, inputCount, outputCount, k / ChannelCount, k % ChannelCount)
    {
      var iInput := (iOutput as real / (outputCount - 1) as real) * (inputCount - 1) as real;
      var iInput0 := TruncToInt(iInput);
      var iInput1 := iInput0 + 1;
      var input0Weight := iInput1 as real - iInput;
      var input1Weight := iInput - iInput0 as real;
      assert iInput == Position(iOutput, inputCount, outputCount);
      assert iInput0 == Index0(iOutput, inputCount, outputCount);
      assert input0Weight == Weight0(iOutput, inputCount, outputCount);
      assert input1Weight == Weight1(iOutput, inputCount, outputCount);
      if iInput1 == inputCount {
        iInput1 := inputCount - 1;
      }
      assert iInput1 == Index1(iOutput, inputCount, outputCount);
      for iChannel := 0 to ChannelCount
        invariant forall k :: 0 <= k < iOutput * ChannelCount + iChannel ==>
          output[k] == Sample(s, inputCount, outputCount, k / ChannelCount, k % ChannelCount)
      {
        var value := input[iInput0 * ChannelCount + iChannel] as real * input0Weight
                     + input[iInput1 * ChannelCount + iChannel] as real * input1Weight;
        BlendAt(s, inputCount, outputCount, iOutput, iChannel, iInput0, iInput1, input0Weight, input1Weight, value);
        output[iOutput * ChannelCount + iChannel] := ToShort(TruncToInt(value + 32768.5) - 32768);
        assert (iOutput * ChannelCount + iChannel) / ChannelCount == iOutput;
        assert (iOutput * ChannelCount + iChannel) % ChannelCount == iChannel;
      }
    }
  }

  /** The sum the loop body of Resample computes is the blend of that frame and channel. */
  lemma BlendAt(s: seq<Short>, inputCount: nat, outputCount: nat, o: nat, ch: nat,
                i0: nat, i1: nat, w0: real, w1: real, value: real)
    requires 1 <= inputCount && 2 <= outputCount && o < outputCount && ch < ChannelCount
    requires |s| >= inputCount * ChannelCount
    requires i0 == Index0(o, inputCount, outputCount) && i1 == Index1(o, inputCount, outputCount)
    requires w0 == Weight0(o, inputCount, outputCount) && w1 == Weight1(o, inputCount, outputCount)
    requires value == s[i0 * ChannelCount + ch] as real * w0 + s[i1 * ChannelCount + ch] as real * w1
    ensures value == Blend(s, inputCount, outputCount, o, ch)
  {
  }

  /** A convex combination of two integers lies between them. */
  lemma BlendBetween(a: int, b: int, w0: real, w1: real, v: real)
    requires 0.0 <= w1 <= 1.0 && w0 == 1.0 - w1
    requires v == a as real * w0 + b as real * w1
    ensures a <= b ==> a as real <= v <= b as real
    ensures b <= a ==> b as real <= v <= a as real
  {
    var d := (b - a) as real;
    var p := d * w1;
    assert v == a as real + p;
    ScaledBetween(d, w1, p);
  }

  /** `(short)((int)(v + 32768.5) - 32768)` of a value between two samples rounds it
      half-up and stays between them: `v + 32768.5` is positive, so the cast is a floor. */
  lemma RoundBetween(a: Short, b: Short, v: real)
    requires a as real <= v <= b as real || b as real <= v <= a as real
    ensures var s := ToShort(TruncToInt(v + 32768.5) - 32768);
            s == (v + 0.5).Floor && (a <= s <= b || b <= s <= a)
  {
    assert ShortMin as real <= v <= ShortMax as real;
    var f := (v + 0.5).Floor;
    assert TruncToInt(v + 32768.5) == (v + 32768.5).Floor;
    assert (v + 32768.5).Floor - 32768 == f;
    assert f as real <= v + 0.5 < f as real + 1.0;
  }

  /** The weights are in [0, 1] and sum to 1. */
  lemma WeightsConvex(o: nat, inputCount: nat, outputCount: nat)
    requires 1 <= inputCount && 2 <= outputCount && o < outputCount
    ensures 0.0 <= Weight1(o, inputCount, outputCount) < 1.0
    ensures 0.0 < Weight0(o, inputCount, outputCount) <= 1.0
    ensures Weight0(o, inputCount, outputCount) + Weight1(o, inputCount, outputCount) == 1.0
  {
  }

  /** Each output sample is the interpolated value rounded half-up, and lies between
      its two source samples; so the `(short)` cast never wraps. */
  lemma SampleBetweenSources(input: seq<Short>, inputCount: nat, outputCount: nat, o: nat, ch: nat)
    requires 1 <= inputCount && 2 <= outputCount && o < outputCount && ch < ChannelCount
    requires |input| >= inputCount * ChannelCount
    ensures var a := input[Index0(o, inputCount, outputCount) * ChannelCount + ch];
            var b := input[Index1(o, inputCount, outputCount) * ChannelCount + ch];
            var s := Sample(input, inputCount, outputCount, o, ch);
            && s == (Blend(input, inputCount, outputCount, o, ch) + 0.5).Floor
            && (a <= s <= b || b <= s <= a)
  {
    var a := input[Index0(o, inputCount, outputCount) * ChannelCount + ch];
    var b := input[Index1(o, inputCount, outputCount) * ChannelCount + ch];
    var w0, w1 := Weight0(o, inputCount, outputCount), Weight1(o, inputCount, outputCount);
    WeightsConvex(o, inputCount, outputCount);
    BlendBetween(a, b, w0, w1, Blend(input, inputCount, outputCount, o, ch));
    RoundBetween(a, b, Blend(input, inputCount, outputCount, o, ch));
  }

  /** The first output frame copies input frame 0 and the last output frame copies
      input frame `inputCount - 1`. */
  lemma ResampleEndpoints(input: seq<Short>, inputCount: nat, outputCount: nat, ch: nat)
    requires 1 <= inputCount && 2 <= outputCount && ch < ChannelCount
    requires |input| >= inputCount * ChannelCount
    ensures Sample(input, inputCount, outputCount, 0, ch) == input[ch]
    ensures Sample(input, inputCount, outputCount, outputCount - 1, ch)
            == input[(inputCount - 1) * ChannelCount + ch]
  {
    PositionBounds(0, inputCount, outputCount);
    PositionBounds(outputCount - 1, inputCount, outputCount);
    SampleBetweenSources(input, inputCount, outputCount, 0, ch);
    SampleBetweenSources(input, inputCount, outputCount, outputCount - 1, ch);
  }

  /** Equal counts return the input unchanged; otherwise an empty side yields
      `outputCount` frames of silence. */
  lemma ResampleShortCircuits(input: seq<Short>, inputCount: nat, outputCount: nat)
    requires |input| >= inputCount * ChannelCount
    requires outputCount == 1 ==> inputCount <= 1
    ensures inputCount == outputCount ==> Resampled(input, inputCount, outputCount) == input
    ensures inputCount != outputCount && (inputCount == 0 || outputCount == 0) ==>
      var r := Resampled(input, inputCount, outputCount);
      |r| == outputCount * ChannelCount && forall k :: 0 <= k < |r| ==> r[k] == 0
  {
  }

  /** Range preservation: if every input sample lies in [lo, hi], so does every
      output sample. In particular the output never leaves the `short` range. */
  lemma ResampledWithinInputRange(input: seq<Short>, inputCount: nat, outputCount: nat, lo: int, hi: int)
    requires |input| == inputCount * ChannelCount
    requires outputCount == 1 ==> inputCount <= 1
    requires lo <= 0 <= hi
    requires forall k :: 0 <= k < |input| ==> lo <= input[k] <= hi
    ensures forall k :: 0 <= k < |Resampled(input, inputCount, outputCount)| ==>
      lo <= Resampled(input, inputCount, outputCount)[k] <= hi
  {
    var r := Resampled(input, inputCount, outputCount);
    if inputCount != outputCount && inputCount != 0 && outputCount != 0 {
      forall k | 0 <= k < |r| ensures lo <= r[k] <= hi {
        var o, ch := k / ChannelCount, k % ChannelCount;
        SampleBetweenSources(input, inputCount, outputCount, o, ch);
        var i0 := Index0(o, inputCount, outputCount);
        var i1 := Index1(o, inputCount, outputCount);
        assert i0 * ChannelCount + ch < |input|;
        assert i1 * ChannelCount + ch < |input|;
      }
    }
  }
}
