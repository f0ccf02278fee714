/**
 * `JumbleText`: a text that first shows its digits masked, then scrambles and reveals itself
 * left to right, one frame per interval, until it shows the target exactly. The random filler
 * character of each position is a parameter (an index into the fixed alphabet).
 */
module JumbleText {
  import opened Wrappers

  /** The alphabet the filler characters are drawn from. */
  const Chars: string := "0123456789abcdefghijklmnopqrstuvwxyzABCDEFGHIJKLMNOPQRSTUVWXYZ!@#$%^&*()_+-=[]{}|;:',.<>?/~`"

  /** What every digit of the target is replaced by before the first frame: the three characters the source literal holds. */
  const DigitMask: string := "\U{E2}\U{20AC}\U{A2}"

  const DefaultDurationMs: real := 800.0
  const DefaultIntervalMs: real := 30.0

  predicate IsDigit(c: char) {
    '0' <= c <= '9'
  }

  function CountDigits(s: string): nat {
    if s == [] then 0 else (if IsDigit(s[0]) then 1 else 0) + CountDigits(s[1..])
  }

  /** `target.replace(/\d/g, mask)`. */
  function MaskDigits(s: string): string {
    if s == [] then [] else (if IsDigit(s[0]) then DigitMask else [s[0]]) + MaskDigits(s[1..])
  }

  /** The masked text holds no digit, and each digit grew by the two extra characters of the mask. */
  lemma {:induction false} MaskDigitsHidesDigits(s: string)
    ensures forall i :: 0 <= i < |MaskDigits(s)| ==> !IsDigit(MaskDigits(s)[i])
    ensures |MaskDigits(s)| == |s| + 2 * CountDigits(s)
  {
    if s != [] {
      MaskDigitsHidesDigits(s[1..]);
      var head := if IsDigit(s[0]) then DigitMask else [s[0]];
      assert MaskDigits(s) == head + MaskDigits(s[1..]);
      forall i | 0 <= i < |MaskDigits(s)| ensures !IsDigit(MaskDigits(s)[i]) {
        if i >= |head| { assert MaskDigits(s)[i] == MaskDigits(s[1..])[i - |head|]; }
      }
    }
  }

  /** One character is masked on its own: a digit becomes the mask, anything else stays. */
  lemma MaskDigitsChar(c: char)
    ensures MaskDigits([c]) == if IsDigit(c) then DigitMask else [c]
  {
    assert [c][1..] == [];
  }

  /** Masking works character by character: it distributes over concatenation. */
  lemma {:induction false} MaskDigitsConcat(a: string, b: string)
    ensures MaskDigits(a + b) == MaskDigits(a) + MaskDigits(b)
  {
    if a == [] {
      assert a + b == b;
    } else {
      assert (a + b)[0] == a[0];
      assert (a + b)[1..] == a[1..] + b;
      MaskDigitsConcat(a[1..], b);
    }
  }

  /** A text without digits is shown unmasked. */
  lemma {:induction false} MaskDigitsKeepsDigitFree(s: string)
    requires forall i :: 0 <= i < |s| ==> !IsDigit(s[i])
    ensures MaskDigits(s) == s
  {
    if s != [] {
      assert forall i :: 0 <= i < |s[1..]| ==> !IsDigit(s[1..][i]) by {
        forall i | 0 <= i < |s[1..]| ensures !IsDigit(s[1..][i]) { assert s[1..][i] == s[i + 1]; }
      }
      MaskDigitsKeepsDigitFree(s[1..]);
    }
  }

  /** Masking is idempotent. */
  lemma MaskDigitsIdempotent(s: string)
    ensures MaskDigits(MaskDigits(s)) == MaskDigits(s)
  {
    MaskDigitsHidesDigits(s);
    MaskDigitsKeepsDigitFree(MaskDigits(s));
  }

  /** `Math.ceil(x)`. */
  function Ceil(x: real): (r: int)
    ensures (r - 1) as real < x <= r as real
  {
    -((-x).Floor)
  }

  /** `Math.ceil(duration / interval)`: the number of frames after the first. */
  function RevealSteps(duration: real, interval: real): (steps: int)
    requires interval > 0.0
    ensures (steps - 1) as real < duration / interval <= steps as real
  {
    Ceil(duration / interval)
  }

  /**
   * `Math.floor((frame / revealSteps) * target.length)`: positions below it show the target.
   * With no steps the quotient is NaN at frame 0 (no position qualifies, written here as 0) and
   * +Infinity after it (every position qualifies).
   */
  function Revealed(frame: nat, steps: int, len: nat): int {
    if steps != 0 then ((frame as real / steps as real) * len as real).Floor
    else if frame == 0 then 0
    else len
  }

  /** Frame 0 reveals nothing, frames up to the last reveal at most the whole text, and the last frame reveals all of it. */
  lemma RevealedProgress(frame: nat, steps: int, len: nat)
    requires steps > 0
    ensures frame == 0 ==> Revealed(frame, steps, len) == 0
    ensures frame <= steps ==> 0 <= Revealed(frame, steps, len) <= len
    ensures frame >= steps ==> Revealed(frame, steps, len) >= len
  {
    var q := frame as real / steps as real;
    QuotientVsOne(frame as real, steps as real);
    if frame <= steps {
      ScaleLe(q, 1.0, len as real);
    }
    if frame >= steps {
      ScaleLe(1.0, q, len as real);
    }
  }

  /** A quotient by a positive divisor is at most 1 for a dividend no greater than it, and at least 1 otherwise. */
  lemma QuotientVsOne(a: real, b: real)
    requires b > 0.0
    ensures a <= b ==> a / b <= 1.0
    ensures a >= b ==> a / b >= 1.0
  {
    var q := a / b;
    assert q * b == a;
    if q > 1.0 { ScaleLe(1.0, q, b); }
    if q < 1.0 { ScaleLe(q, 1.0, b); }
  }

  lemma ScaleLe(x: real, y: real, c: real)
    requires x <= y && c >= 0.0
    ensures x * c <= y * c
  {
  }

  /** Later frames reveal at least as much. */
  lemma RevealedMonotone(frame: nat, later: nat, steps: int, len: nat)
    requires steps > 0 && frame <= later
    ensures Revealed(frame, steps, len) <= Revealed(later, steps, len)
  {
    var a, b := frame as real / steps as real, later as real / steps as real;
    assert a <= b;
    assert a * len as real <= b * len as real;
  }

  /** What a frame promises: same length, spaces kept, revealed positions shown, the rest drawn from the alphabet. */
  ghost predicate IsFrame(target: string, revealed: int, next: string) {
    && |next| == |target|
    && (forall i :: 0 <= i < |target| && target[i] == ' ' ==> next[i] == ' ')
    && (forall i :: 0 <= i < |target| && target[i] != ' ' && i < revealed ==> next[i] == target[i])
    && (forall i :: 0 <= i < |target| && target[i] != ' ' && i >= revealed ==> next[i] in Chars)
  }

  predicate ValidPicks(picks: seq<nat>, target: string) {
    |picks| == |target| && forall k :: 0 <= k < |picks| ==> picks[k] < |Chars|
  }

  /** The loop of `jumble` that builds the next frame; `picks[i]` is the filler index drawn for position i. */
  method BuildFrame(target: string, revealed: int, picks: seq<nat>) returns (next: string)
    requires ValidPicks(picks, target)
    ensures IsFrame(target, revealed, next)
    ensures forall i :: 0 <= i < |target| && target[i] != ' ' && i >= revealed ==> next[i] == Chars[picks[i]]
  {
    next := "";
    var i := 0;
    while i < |target|
      invariant 0 <= i <= |target| && |next| == i
      invariant forall k :: 0 <= k < i && target[k] == ' ' ==> next[k] == ' '
      invariant forall k :: 0 <= k < i && target[k] != ' ' && k < revealed ==> next[k] == target[k]
      invariant forall k :: 0 <= k < i && target[k] != ' ' && k >= revealed ==> next[k] == Chars[picks[k]]
    {
      if target[i] == ' ' {
        next := next + " ";
      } else if i < revealed {
        next := next + [target[i]];
      } else {
        next := next + [Chars[picks[i]]];
      }
      i := i + 1;
    }
  }

  /** A frame that reveals the whole text is the text. */
  lemma FullFrameIsTarget(target: string, revealed: int, next: string)
    requires revealed >= |target| && IsFrame(target, revealed, next)
    ensures next == target
  {
    assert forall i :: 0 <= i < |target| ==> next[i] == target[i];
  }

  class Jumble {
    const target: string
    const steps: int
    var display: string
    var frame: nat
    /** Whether a call of `jumble` is due: the first from the effect, later ones from its timeout. */
    var scheduled: bool

    ghost predicate Valid()
      reads this
    {
      (scheduled <==> frame == 0 || frame <= steps) && (!scheduled ==> display == target)
    }

    /** Mounting: the display starts as the target with its digits masked, and the first frame is due. */
    constructor (target: string, duration: Option<real>, interval: Option<real>)
      requires interval.GetOr(DefaultIntervalMs) > 0.0
      ensures Valid()
      ensures this.target == target && display == MaskDigits(target) && frame == 0 && scheduled
      ensures steps == RevealSteps(duration.GetOr(DefaultDurationMs), interval.GetOr(DefaultIntervalMs))
    {
      this.target := target;
      steps := RevealSteps(duration.GetOr(DefaultDurationMs), interval.GetOr(DefaultIntervalMs));
      display := MaskDigits(target);
      frame := 0;
      scheduled := true;
    }

    /**
     * One call of `jumble`: build and show a frame, count it, and either schedule the next call
     * or, once the frame count exceeds the steps, show the target and stop.
     */
    method Tick(picks: seq<nat>)
      requires Valid() && scheduled && ValidPicks(picks, target)
      modifies this
      ensures Valid()
      ensures frame == old(frame) + 1
      ensures scheduled <==> frame <= steps
      ensures !scheduled ==> display == target
      ensures scheduled ==> IsFrame(target, Revealed(old(frame), steps, |target|), display)
    {
      var revealed := Revealed(frame, steps, |target|);
      var next := BuildFrame(target, revealed, picks);
      display := next;
      frame := frame + 1;
      if frame <= steps {
        scheduled := true;
      } else {
        display := target;
        scheduled := false;
      }
    }
  }

  /** Running the frames to the end takes max(steps, 0) + 1 calls and leaves the exact target on display. */
  method RunToEnd(j: Jumble, pick: (nat, nat) -> nat)
    requires j.Valid() && j.frame == 0 && j.scheduled
    requires forall f: nat, i: nat :: pick(f, i) < |Chars|
    modifies j
    ensures j.Valid() && !j.scheduled && j.display == j.target
    ensures j.frame == (if j.steps > 0 then j.steps else 0) + 1
  {
    var last := if j.steps > 0 then j.steps else 0;
    while j.scheduled
      invariant j.Valid() && j.frame <= last + 1
      invariant j.scheduled ==> j.frame <= last
      invariant !j.scheduled ==> j.frame == last + 1
      decreases last + 1 - j.frame
    {
      var f := j.frame;
      var picks := seq(|j.target|, i requires 0 <= i => pick(f, i));
      j.Tick(picks);
    }
  }
}
