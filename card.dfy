/**
 * The card's own helpers: the 32-bit string hash that seeds its texture offsets, the offsets and
 * scales derived from the seed, the capped balance-animation duration, and the clamped pointer
 * position the card keeps for its gradient.
 */
module Card {
  import opened Dom
  import opened JsNumber

  /** `minimumDurationSeconds + increment / 100`, capped at 5 seconds. */
  function CalculateAnimationDuration(increment: real): (seconds: real)
    ensures seconds <= 5.0
    ensures 0.5 + increment / 100.0 <= 5.0 ==> seconds == 0.5 + increment / 100.0
    ensures 0.5 + increment / 100.0 > 5.0 ==> seconds == 5.0
    ensures increment >= 0.0 ==> seconds >= 0.5
  {
    var uncapped := 0.5 + increment / 100.0;
    if uncapped <= 5.0 then uncapped else 5.0
  }

  /** `str.charCodeAt(i)`; every character is taken as one UTF-16 code unit. */
  function CharCode(c: char): nat {
    c as nat
  }

  /** One step of the hash as the source spells it: `hash = (hash << 5) - hash + code; hash |= 0`. */
  function HashStepAsWritten(hash: int, c: char): int {
    ToInt32(ShiftLeft(hash, 5) - hash + CharCode(c))
  }

  /** One step of the hash as a formula: 31 * hash + code, wrapped to a signed 32-bit value. */
  function HashStep(hash: int, c: char): (r: int)
    ensures IsInt32(r)
  {
    ToInt32(31 * hash + CharCode(c))
  }

  lemma Pow2Five()
    ensures Pow2(5) == 32
  {
    assert Pow2(1) == 2;
    assert Pow2(2) == 4;
    assert Pow2(3) == 8;
    assert Pow2(4) == 16;
  }

  /** The shift-and-subtract step is 31 * hash + code in 32-bit arithmetic. */
  lemma HashStepMatches(hash: int, c: char)
    requires IsInt32(hash)
    ensures HashStepAsWritten(hash, c) == HashStep(hash, c)
  {
    Pow2Five();
    var shifted := ShiftLeft(hash, 5);
    assert shifted == ToInt32(hash * 32);
    assert (shifted - hash * 32) % TwoTo32 == 0;
    ToInt32Congruent(shifted - hash + CharCode(c), 31 * hash + CharCode(c));
  }

  /** The signed 32-bit hash of `s`, folding HashStep from the left starting at 0. */
  function StringHash(s: string): (h: int)
    ensures IsInt32(h)
  {
    if s == [] then 0 else HashStep(StringHash(s[..|s| - 1]), s[|s| - 1])
  }

  /** `hashStringToSeed`: the absolute value of the 32-bit hash, so a seed in [0, 2^31]. */
  method HashStringToSeed(s: string) returns (seed: int)
    ensures seed == AbsInt(StringHash(s))
    ensures 0 <= seed <= TwoTo31
  {
    var hash := 0;
    var i := 0;
    while i < |s|
      invariant 0 <= i <= |s|
      invariant hash == StringHash(s[..i])
    {
      HashStepMatches(hash, s[i]);
      assert s[..i + 1][..i] == s[..i];
      hash := ToInt32(ShiftLeft(hash, 5) - hash + CharCode(s[i]));
      i := i + 1;
    }
    assert s[..i] == s;
    seed := AbsInt(hash);
  }

  /** A plain lower-case id whose hash is -2^31, so the seed 2^31 does occur. */
  lemma SeedCanBeTwoTo31()
    ensures StringHash("wvydzwwp") == -TwoTo31
  {
    var s := "wvydzwwp";
    assert s[..0] == [];
    assert StringHash(s[..1]) == 119 by { assert s[..1][..0] == s[..0]; }
    assert StringHash(s[..2]) == 3807 by { assert s[..2][..1] == s[..1]; }
    assert StringHash(s[..3]) == 118138 by { assert s[..3][..2] == s[..2]; }
    assert StringHash(s[..4]) == 3662378 by { assert s[..4][..3] == s[..3]; }
    assert StringHash(s[..5]) == 113533840 by { assert s[..5][..4] == s[..4]; }
    assert StringHash(s[..6]) == -775418137 by { assert s[..6][..5] == s[..5]; }
    assert StringHash(s[..7]) == 1731841648 by { assert s[..7][..6] == s[..6]; }
    assert StringHash(s) == HashStep(1731841648, 'p') by { assert s[..7] == s[..|s| - 1]; }
  }

  /** `(seed % 100) - 50`. */
  function FresnelOffsetX(seed: int): (offset: int)
    ensures seed >= 0 ==> -50 <= offset <= 49
  {
    Rem(seed, 100) - 50
  }

  /** `((seed >> 2) % 100) - 50`. */
  function FresnelOffsetY(seed: int): int {
    Rem(ShiftRight(seed, 2), 100) - 50
  }

  /** `1 + (seed % 30) / 100`. */
  function FresnelScale(seed: int): (scale: real)
    ensures seed >= 0 ==> 1.0 <= scale <= 1.29
  {
    1.0 + (Rem(seed, 30) as real) / 100.0
  }

  /** `((seed >> 3) % 100) - 50`. */
  function GlitterOffsetX(seed: int): int {
    Rem(ShiftRight(seed, 3), 100) - 50
  }

  /** `((seed >> 5) % 100) - 50`. */
  function GlitterOffsetY(seed: int): int {
    Rem(ShiftRight(seed, 5), 100) - 50
  }

  /** `1 + ((seed >> 7) % 30) / 100`. */
  function GlitterScale(seed: int): real {
    1.0 + (Rem(ShiftRight(seed, 7), 30) as real) / 100.0
  }

  /** Below 2^31 every shifted seed is non-negative, and the offsets and scales stay in their ranges. */
  lemma ShiftedOffsetsInRange(seed: int)
    requires 0 <= seed < TwoTo31
    ensures -50 <= FresnelOffsetY(seed) <= 49
    ensures -50 <= GlitterOffsetX(seed) <= 49
    ensures -50 <= GlitterOffsetY(seed) <= 49
    ensures 1.0 <= GlitterScale(seed) <= 1.29
  {
    assert ToInt32(seed) == seed;
  }

  /** At the seed 2^31, `seed >> 2` is negative and the Y offset falls outside [-50, 49]. */
  lemma OffsetYAtTwoTo31()
    ensures FresnelOffsetY(TwoTo31) == -62
  {
    assert ToInt32(TwoTo31) == -TwoTo31;
    assert Pow2(2) == 4 by { assert Pow2(1) == 2; }
    assert ShiftRight(TwoTo31, 2) == -536870912;
  }

  /** `Math.max(0, Math.min(v, extent))`. */
  function ClampToExtent(v: real, extent: real): (r: real)
    ensures r >= 0.0
    ensures extent >= 0.0 ==> r <= extent
    ensures 0.0 <= v <= extent ==> r == v
    ensures v < 0.0 ==> r == 0.0
    ensures extent >= 0.0 && v > extent ==> r == extent
  {
    Dom.Max(0.0, Dom.Min(v, extent))
  }

  /** The pointer position the card keeps for its gradient. */
  class CardPointer {
    var mouseX: real
    var mouseY: real

    constructor ()
      ensures mouseX == 0.0 && mouseY == 150.0
    {
      mouseX, mouseY := 0.0, 150.0;
    }

    /** The position relative to the card, clamped into [0, width] x [0, height]. */
    method HandleMouseMove(clientX: real, clientY: real, rect: Rect)
      modifies this
      ensures mouseX == ClampToExtent(clientX - rect.left, rect.width)
      ensures mouseY == ClampToExtent(clientY - rect.top, rect.height)
      ensures rect.width >= 0.0 && rect.height >= 0.0 ==> 0.0 <= mouseX <= rect.width && 0.0 <= mouseY <= rect.height
    {
      mouseX := clientX - rect.left;
      mouseY := clientY - rect.top;
      mouseX := Dom.Max(0.0, Dom.Min(mouseX, rect.width));
      mouseY := Dom.Max(0.0, Dom.Min(mouseY, rect.height));
    }
  }
}
