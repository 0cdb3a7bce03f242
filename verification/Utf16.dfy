/** The length of JavaScript strings: a string of Unicode scalar values as UTF-16 code units. */
module Utf16 {

  /** A UTF-16 code unit; `length` counts these. */
  type CodeUnit = u: int | 0 <= u < 0x1_0000

  /** One unit below 0x10000, a surrogate pair from there on. */
  function UnitsOf(c: char): seq<CodeUnit> {
    var n := c as int;
    if n < 0x1_0000 then [n] else [0xD800 + (n - 0x1_0000) / 0x400, 0xDC00 + (n - 0x1_0000) % 0x400]
  }

  function CodeUnits(s: string): seq<CodeUnit> {
    if s == "" then [] else CodeUnits(s[..|s| - 1]) + UnitsOf(s[|s| - 1])
  }

  /** How many of the first `k` characters fit. */
  function Fitting(s: string, limit: nat, k: nat): (n: nat)
    requires k <= |s|
    ensures n <= k && |CodeUnits(s[..n])| <= limit
    ensures n < k ==> |CodeUnits(s[..n + 1])| > limit
  {
    if k == 0 || |CodeUnits(s[..k])| <= limit then k else Fitting(s, limit, k - 1)
  }

  /** `slice(0, limit)`: the longest prefix that fits. */
  function CutUnits(s: string, limit: nat): string {
    s[..Fitting(s, limit, |s|)]
  }

  /** The characters outside the basic plane. */
  function Astral(s: string): nat {
    if s == "" then 0 else (if s[0] as int >= 0x1_0000 then 1 else 0) + Astral(s[1..])
  }

  lemma {:induction false} AstralLast(s: string, c: char)
    ensures Astral(s + [c]) == Astral(s) + if c as int >= 0x1_0000 then 1 else 0
  {
    if s == "" {
      assert s + [c] == [c] && [c][1..] == "";
    } else {
      assert (s + [c])[1..] == s[1..] + [c];
      AstralLast(s[1..], c);
    }
  }

  /** `length` counts characters outside the basic plane twice. */
  lemma {:induction false} UnitsCounted(s: string)
    ensures |CodeUnits(s)| == |s| + Astral(s)
  {
    if s != "" {
      var front := s[..|s| - 1];
      UnitsCounted(front);
      AstralLast(front, s[|s| - 1]);
      assert s == front + [s[|s| - 1]];
    }
  }
}
