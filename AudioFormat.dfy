/** The sample format of the audio path and the C# numeric conversions it relies on. */
module AudioFormat {

  /** Samples are interleaved stereo: left, right, left, right, ... */
  const ChannelCount: nat := 2

  const ShortMin: int := -32768
  const ShortMax: int := 32767

  /** A C# `short`: one mono 16-bit PCM sample. */
  type Short = x: int | -32768 <= x <= 32767

  /** The C# `(int)` conversion of a floating-point value, which truncates toward zero
      (unlike Dafny's `Floor`, which rounds toward negative infinity). */
  function TruncToInt(x: real): (r: int)
    ensures 0.0 <= x ==> 0 <= r && r as real <= x < r as real + 1.0
    ensures x < 0.0 ==> r <= 0 && r as real - 1.0 < x <= r as real
  {
    if x >= 0.0 then x.Floor else -((-x).Floor)
  }

  /** The C# `(short)` conversion of an `int` (unchecked): keeps the low 16 bits,
      read as a two's-complement number. */
  function ToShort(x: int): (r: Short)
    ensures (x - r) % 65536 == 0
    ensures ShortMin <= x <= ShortMax ==> r == x
  {
    (x + 32768) % 65536 - 32768
  }

  /** Truncating a value that lies between zero and an integer `n` stays between them. */
  lemma TruncBetween(x: real, n: int)
    ensures 0.0 <= x <= n as real ==> 0 <= TruncToInt(x) <= n
    ensures n as real <= x <= 0.0 ==> n <= TruncToInt(x) <= 0
  {
  }

  /** Scaling by a factor in [0, 1] moves a value toward zero and never past it;
      `p` is the product `e * f`. */
  lemma ScaledBetween(e: real, f: real, p: real)
    requires 0.0 <= f <= 1.0 && p == e * f
    ensures 0.0 <= e ==> 0.0 <= p <= e
    ensures e <= 0.0 ==> e <= p <= 0.0
  {
    var rest := e * (1.0 - f);
    assert p + rest == e;
    if 0.0 <= e {
      MulNonNegative(e, f);
      MulNonNegative(e, 1.0 - f);
    } else {
      MulNonNegative(-e, f);
      assert (-e) * f == -p;
      MulNonNegative(-e, 1.0 - f);
      assert (-e) * (1.0 - f) == -rest;
    }
  }

  /** A non-negative value divided by a positive one is non-negative. */
  lemma DivideNonNegative(x: real, n: real)
    requires 0.0 <= x && 0.0 < n
    ensures 0.0 <= x / n
  {
    var inv := 1.0 / n;
    assert x / n == x * inv;
    PositiveReciprocal(n);
    MulNonNegative(x, inv);
  }

  lemma PositiveReciprocal(n: real)
    requires 0.0 < n
    ensures 0.0 < 1.0 / n
  {
  }

  lemma MulNonNegative(x: real, y: real)
    requires 0.0 <= x && 0.0 <= y
    ensures 0.0 <= x * y
  {
  }
}
