/**
 * String operations the modelled code takes from JavaScript: `trim`, the whitespace class `\s`,
 * `toLowerCase`, `replace(/\s+/g, " ")` and `includes`. Strings are sequences of Unicode
 * characters; JavaScript's UTF-16 code units are not modelled.
 */
module Text {

  /** JavaScript's WhiteSpace and LineTerminator characters: what `trim` removes and `\s` matches. */
  predicate IsWhitespace(c: char) {
    var n := c as int;
    (9 <= n <= 13) || n == 0x20 || n == 0xA0 || n == 0x1680 || (0x2000 <= n <= 0x200A)
    || n == 0x2028 || n == 0x2029 || n == 0x202F || n == 0x205F || n == 0x3000 || n == 0xFEFF
  }

  /** The number of whitespace characters `s` starts with. */
  function LeadingWhitespace(s: string): (k: nat)
    ensures k <= |s|
    ensures forall i :: 0 <= i < k ==> IsWhitespace(s[i])
    ensures k < |s| ==> !IsWhitespace(s[k])
  {
    if s != [] && IsWhitespace(s[0]) then 1 + LeadingWhitespace(s[1..]) else 0
  }

  /** The length of `s` without the whitespace it ends with. */
  function ContentEnd(s: string): (k: nat)
    ensures k <= |s|
    ensures forall i :: k <= i < |s| ==> IsWhitespace(s[i])
    ensures k > 0 ==> !IsWhitespace(s[k - 1])
  {
    if s != [] && IsWhitespace(s[|s| - 1]) then ContentEnd(s[..|s| - 1]) else |s|
  }

  /** Leading whitespace removed. */
  function TrimStart(s: string): string {
    s[LeadingWhitespace(s)..]
  }

  /** Trailing whitespace removed. */
  function TrimEnd(s: string): string {
    s[..ContentEnd(s)]
  }

  /** `s.trim()`: `s` without its leading and trailing whitespace. */
  function Trim(s: string): (r: string)
    ensures |r| <= |s|
    ensures r == [] || (!IsWhitespace(r[0]) && !IsWhitespace(r[|r| - 1]))
    ensures LeadingWhitespace(s) + |r| <= |s| && r == s[LeadingWhitespace(s)..LeadingWhitespace(s) + |r|]
    ensures forall i :: 0 <= i < |s| && !(LeadingWhitespace(s) <= i < LeadingWhitespace(s) + |r|) ==> IsWhitespace(s[i])
  {
    var k := LeadingWhitespace(s);
    var t := TrimStart(s);
    var r := TrimEnd(t);
    assert r != [] ==> r[0] == t[0];
    assert r == s[k..k + |r|];
    forall i | k + |r| <= i < |s| ensures IsWhitespace(s[i]) {
      assert s[i] == t[i - k];
    }
    r
  }

  /** Trimming a trimmed string changes nothing. */
  lemma TrimIdempotent(s: string)
    ensures Trim(Trim(s)) == Trim(s)
  {
    var t := Trim(s);
    assert LeadingWhitespace(t) == 0;
    assert TrimStart(t) == t;
    assert ContentEnd(t) == |t|;
  }

  /** `toLowerCase` on one character; only the ASCII letters are mapped (full Unicode case mapping is not modelled). */
  function LowerChar(c: char): (r: char)
    ensures 'A' <= c <= 'Z' ==> r as int == c as int + 32
    ensures !('A' <= c <= 'Z') ==> r == c
  {
    if 'A' <= c <= 'Z' then (c as int + 32) as char else c
  }

  function ToLower(s: string): (r: string)
    ensures |r| == |s| && forall i :: 0 <= i < |s| ==> r[i] == LowerChar(s[i])
  {
    seq(|s|, i requires 0 <= i < |s| => LowerChar(s[i]))
  }

  /** The longest suffix of `s` that does not start with whitespace. */
  function DropWhitespace(s: string): (r: string)
    ensures r == [] || !IsWhitespace(r[0])
    ensures s != [] && IsWhitespace(s[0]) ==> |r| < |s|
  {
    TrimStart(s)
  }

  /** `s.replace(/\s+/g, " ")`: every maximal run of whitespace becomes a single space. */
  function CollapseWhitespace(s: string): (r: string)
    ensures r == [] <==> s == []
    ensures r != [] ==> (IsWhitespace(r[0]) <==> IsWhitespace(s[0]))
    decreases |s|
  {
    if s == [] then []
    else if IsWhitespace(s[0]) then
      var rest := DropWhitespace(s);
      [' '] + CollapseWhitespace(rest)
    else [s[0]] + CollapseWhitespace(s[1..])
  }

  /** The only whitespace left is single spaces. */
  ghost predicate Collapsed(s: string) {
    forall i :: 0 <= i < |s| && IsWhitespace(s[i]) ==> s[i] == ' ' && (i + 1 < |s| ==> !IsWhitespace(s[i + 1]))
  }

  lemma {:induction false} CollapseWhitespaceCollapses(s: string)
    ensures Collapsed(CollapseWhitespace(s))
    decreases |s|
  {
    if s == [] {
    } else if IsWhitespace(s[0]) {
      var rest := DropWhitespace(s);
      CollapseWhitespaceCollapses(rest);
      var r := CollapseWhitespace(s);
      assert r == [' '] + CollapseWhitespace(rest);
      forall i | 0 <= i < |r| && IsWhitespace(r[i])
        ensures r[i] == ' ' && (i + 1 < |r| ==> !IsWhitespace(r[i + 1]))
      {
        if i > 0 { assert r[i] == CollapseWhitespace(rest)[i - 1]; }
      }
    } else {
      CollapseWhitespaceCollapses(s[1..]);
      var r := CollapseWhitespace(s);
      assert r == [s[0]] + CollapseWhitespace(s[1..]);
      forall i | 0 <= i < |r| && IsWhitespace(r[i])
        ensures r[i] == ' ' && (i + 1 < |r| ==> !IsWhitespace(r[i + 1]))
      {
        assert r[i] == CollapseWhitespace(s[1..])[i - 1];
      }
    }
  }

  /** A string that is already collapsed is left as it is. */
  lemma {:induction false} CollapseWhitespaceFixes(s: string)
    requires Collapsed(s)
    ensures CollapseWhitespace(s) == s
    decreases |s|
  {
    if s == [] {
    } else if IsWhitespace(s[0]) {
      assert s[0] == ' ';
      assert DropWhitespace(s) == s[1..] by {
        assert |s| > 1 ==> !IsWhitespace(s[1]);
        assert LeadingWhitespace(s) == 1;
      }
      assert Collapsed(s[1..]) by {
        forall i | 0 <= i < |s[1..]| && IsWhitespace(s[1..][i])
          ensures s[1..][i] == ' ' && (i + 1 < |s[1..]| ==> !IsWhitespace(s[1..][i + 1]))
        {
          assert s[1..][i] == s[i + 1];
        }
      }
      CollapseWhitespaceFixes(s[1..]);
    } else {
      assert Collapsed(s[1..]) by {
        forall i | 0 <= i < |s[1..]| && IsWhitespace(s[1..][i])
          ensures s[1..][i] == ' ' && (i + 1 < |s[1..]| ==> !IsWhitespace(s[1..][i + 1]))
        {
          assert s[1..][i] == s[i + 1];
        }
      }
      CollapseWhitespaceFixes(s[1..]);
    }
  }

  /** Collapsing twice is collapsing once. */
  lemma CollapseWhitespaceIdempotent(s: string)
    ensures CollapseWhitespace(CollapseWhitespace(s)) == CollapseWhitespace(s)
  {
    CollapseWhitespaceCollapses(s);
    CollapseWhitespaceFixes(CollapseWhitespace(s));
  }

  /** `hay.includes(needle)`. */
  predicate Includes(hay: string, needle: string) {
    exists i | 0 <= i <= |hay| - |needle| :: OccursAt(hay, needle, i)
  }

  predicate OccursAt(hay: string, needle: string, i: int)
    requires 0 <= i <= |hay| - |needle|
  {
    hay[i..i + |needle|] == needle
  }
}
