/** The method that RegisterMethodExample exposes to the emulator: it replaces the
    first character of its argument with an underscore. */
module RegisterMethodExample {

  /** A C# `char`: one UTF-16 code unit. A character outside the Basic Multilingual
      Plane takes two of them (a surrogate pair), and C# indexes strings by unit. */
  newtype CodeUnit = x: int | 0 <= x < 0x1_0000

  /** A C# `string`: a sequence of UTF-16 code units. */
  type Utf16String = seq<CodeUnit>

  /** The code unit of '_'. */
  const Underscore: CodeUnit := 0x5F

  /** The string DoSomething returns: `arg` with its first code unit replaced by '_'. */
  function Underscored(arg: Utf16String): (r: Utf16String)
    requires |arg| >= 1
    ensures |r| == |arg| && r[0] == Underscore
    ensures forall i :: 1 <= i < |arg| ==> r[i] == arg[i]
  {
    [Underscore] + arg[1..]
  }

  /** `DoSomething`: copies the string into a character array, overwrites element 0
      and builds a new string. An empty argument makes `charArr[0]` go out of range. */
  method DoSomething(arg: Utf16String) returns (r: Utf16String)
    requires |arg| >= 1
    ensures r == Underscored(arg)
  {
    var charArr := new CodeUnit[|arg|](i requires 0 <= i < |arg| => arg[i]);
    charArr[0] := Underscore;
    r := charArr[..];
  }

  /** Replacing the first code unit twice is the same as replacing it once. */
  lemma UnderscoredIdempotent(arg: Utf16String)
    requires |arg| >= 1
    ensures Underscored(Underscored(arg)) == Underscored(arg)
  {
  }

  /** A first character outside the Basic Multilingual Plane loses only its high
      surrogate: U+1F600 followed by "a" (units D83D DE00 0061) becomes "_", a lone
      low surrogate, then "a". */
  lemma UnderscoredSplitsSurrogatePair()
    ensures Underscored([0xD83D, 0xDE00, 0x61]) == [Underscore, 0xDE00, 0x61]
  {
  }
}
