/** The text cleaning of packages/editor/src/projections.ts.  A global regular-expression
    replacement is a left-to-right scan over maximal runs. */
module PlainText {

  predicate IsBlank(c: char) { c == ' ' || c == '\t' }

  /** White space and line terminators, as `\s` and `trim` see them. */
  predicate IsSpace(c: char) {
    var n := c as int;
    9 <= n <= 13 || n == 0x20 || n == 0xa0 || n == 0x1680 || 0x2000 <= n <= 0x200a
    || n in {0x2028, 0x2029, 0x202f, 0x205f, 0x3000, 0xfeff}
  }

  /** The character classes of the regular expressions. */
  datatype Class = Blank | Newline | Space

  predicate Is(k: Class, c: char) {
    match k
    case Blank => IsBlank(c)
    case Newline => c == '\n'
    case Space => IsSpace(c)
  }

  /** Length of the longest prefix of one class. */
  function RunLength(s: string, k: Class): (n: nat)
    ensures n <= |s|
    ensures forall i | 0 <= i < n :: Is(k, s[i])
    ensures n < |s| ==> !Is(k, s[n])
  {
    if s == [] || !Is(k, s[0]) then 0 else 1 + RunLength(s[1..], k)
  }

  /** `replace(/[ \t]+\n/g, "\n")` */
  function DropTrailingBlanks(s: string): string
    decreases |s|
  {
    if s == [] then []
    else
      var n := RunLength(s, Blank);
      if n == 0 then [s[0]] + DropTrailingBlanks(s[1..])
      else if n < |s| && s[n] == '\n' then "\n" + DropTrailingBlanks(s[n + 1..])
      else s[..n] + DropTrailingBlanks(s[n..])
  }

  /** `replace(/\n{3,}/g, "\n\n")` */
  function CapNewlines(s: string): string
    decreases |s|
  {
    if s == [] then []
    else
      var n := RunLength(s, Newline);
      if n == 0 then [s[0]] + CapNewlines(s[1..])
      else (if n >= 3 then "\n\n" else s[..n]) + CapNewlines(s[n..])
  }

  /** `replace(/\s+/g, " ")` */
  function ReplaceSpaces(s: string): string
    decreases |s|
  {
    if s == [] then []
    else
      var n := RunLength(s, Space);
      if n == 0 then [s[0]] + ReplaceSpaces(s[1..]) else " " + ReplaceSpaces(s[n..])
  }

  function TrimStart(s: string): string {
    if s != [] && IsSpace(s[0]) then TrimStart(s[1..]) else s
  }

  function TrimEnd(s: string): string {
    if s != [] && IsSpace(s[|s| - 1]) then TrimEnd(s[..|s| - 1]) else s
  }

  function Trim(s: string): string { TrimEnd(TrimStart(s)) }

  function CleanPlainText(s: string): string { Trim(CapNewlines(DropTrailingBlanks(s))) }

  function Collapse(s: string): string { Trim(ReplaceSpaces(s)) }

  // ------------------------------------------------------------------ normal forms

  predicate NoBlankNewline(s: string) {
    forall i | 0 <= i < |s| - 1 :: !(IsBlank(s[i]) && s[i + 1] == '\n')
  }

  predicate TripleAt(s: string, i: int) {
    0 <= i < |s| - 2 && s[i] == '\n' && s[i + 1] == '\n' && s[i + 2] == '\n'
  }

  predicate NoTripleNewline(s: string) {
    forall i | 0 <= i < |s| :: !TripleAt(s, i)
  }

  predicate NoOuterSpace(s: string) {
    s != [] ==> !IsSpace(s[0]) && !IsSpace(s[|s| - 1])
  }

  predicate IsClean(s: string) {
    NoBlankNewline(s) && NoTripleNewline(s) && NoOuterSpace(s)
  }

  lemma {:induction false} DroppedHasNone(s: string)
    ensures NoBlankNewline(DropTrailingBlanks(s))
    ensures s != [] && s[0] != '\n' && !IsBlank(s[0]) ==>
        DropTrailingBlanks(s) != [] && DropTrailingBlanks(s)[0] == s[0]
    decreases |s|
  {
    if s != [] {
      var n := RunLength(s, Blank);
      if n == 0 {
        DroppedHasNone(s[1..]);
      } else if n < |s| && s[n] == '\n' {
        DroppedHasNone(s[n + 1..]);
      } else {
        DroppedHasNone(s[n..]);
      }
    }
  }

  lemma {:induction false} JoinHasNone(prefix: string, rest: string)
    requires NoTripleNewline(rest)
    requires (|prefix| == 1 && prefix[0] != '\n') || (|prefix| <= 2 && (rest != [] ==> rest[0] != '\n'))
    ensures NoTripleNewline(prefix + rest)
  {
    var s := prefix + rest;
    forall i | 0 <= i < |s| ensures !TripleAt(s, i) {
      assert i >= |prefix| ==> !TripleAt(rest, i - |prefix|);
    }
  }

  lemma {:induction false} CappedHasNone(s: string)
    ensures NoTripleNewline(CapNewlines(s))
    ensures NoBlankNewline(s) ==> NoBlankNewline(CapNewlines(s))
    ensures s != [] ==> CapNewlines(s) != [] && CapNewlines(s)[0] == s[0]
    decreases |s|
  {
    if s != [] {
      var n := RunLength(s, Newline);
      if n == 0 {
        CappedHasNone(s[1..]);
        JoinHasNone([s[0]], CapNewlines(s[1..]));
      } else {
        CappedHasNone(s[n..]);
        JoinHasNone(if n >= 3 then "\n\n" else s[..n], CapNewlines(s[n..]));
      }
      hide NoTripleNewline;
    }
  }

  /** Trimming takes a middle part whose ends are not space. */
  lemma {:induction false} TrimStartCuts(s: string) returns (k: nat)
    ensures k <= |s| && TrimStart(s) == s[k..] && forall i | 0 <= i < k :: IsSpace(s[i])
    ensures TrimStart(s) != [] ==> !IsSpace(TrimStart(s)[0])
  {
    if s != [] && IsSpace(s[0]) {
      k := TrimStartCuts(s[1..]);
      k := k + 1;
    } else {
      k := 0;
    }
  }

  lemma {:induction false} TrimEndCuts(s: string) returns (k: nat)
    ensures k <= |s| && TrimEnd(s) == s[..k] && forall i | k <= i < |s| :: IsSpace(s[i])
    ensures TrimEnd(s) != [] ==> !IsSpace(TrimEnd(s)[k - 1])
  {
    if s != [] && IsSpace(s[|s| - 1]) {
      k := TrimEndCuts(s[..|s| - 1]);
    } else {
      k := |s|;
    }
  }

  lemma {:induction false} TrimCuts(s: string) returns (a: nat, b: nat)
    ensures a <= b <= |s| && Trim(s) == s[a..b] && NoOuterSpace(Trim(s))
  {
    a := TrimStartCuts(s);
    b := TrimEndCuts(TrimStart(s));
    b := a + b;
  }

  lemma {:induction false} PartHasNoBlankNewline(s: string, a: nat, b: nat)
    requires a <= b <= |s| && NoBlankNewline(s)
    ensures NoBlankNewline(s[a..b])
  {
    var r := s[a..b];
    forall i | 0 <= i < |r| - 1 ensures !(IsBlank(r[i]) && r[i + 1] == '\n') {
      assert !(IsBlank(s[a + i]) && s[a + i + 1] == '\n');
    }
  }

  lemma {:induction false} PartHasNoTriple(s: string, a: nat, b: nat)
    requires a <= b <= |s| && NoTripleNewline(s)
    ensures NoTripleNewline(s[a..b])
  {
    var r := s[a..b];
    forall i | 0 <= i < |r| ensures !TripleAt(r, i) {
      assert !TripleAt(s, a + i);
    }
  }

  /** What the output of the cleaning looks like. */
  lemma {:induction false} CleanedIsClean(s: string)
    ensures IsClean(CleanPlainText(s))
  {
    var t := CapNewlines(DropTrailingBlanks(s));
    DroppedHasNone(s);
    CappedHasNone(DropTrailingBlanks(s));
    var a, b := TrimCuts(t);
    PartHasNoBlankNewline(t, a, b);
    PartHasNoTriple(t, a, b);
  }

  lemma {:induction false} DropNothing()
    ensures DropTrailingBlanks([]) == []
  {
  }

  lemma {:induction false} NoNewlineAfter(s: string, n: nat)
    requires NoBlankNewline(s) && n == RunLength(s, Blank)
    ensures 0 < n < |s| ==> s[n] != '\n'
  {
    hide RunLength;
    assert 0 < n < |s| ==> IsBlank(s[n - 1]) && s[n] == s[n - 1 + 1];
  }

  lemma {:induction false} DropKeepsClean(s: string)
    requires NoBlankNewline(s)
    ensures DropTrailingBlanks(s) == s
    decreases |s|
  {
    hide DropTrailingBlanks, RunLength, NoBlankNewline, IsBlank;
    if s == [] {
      DropNothing();
    } else {
      var n := RunLength(s, Blank);
      DropStep(s);
      NoNewlineAfter(s, n);
      var k := if n == 0 then 1 else n;
      PartHasNoBlankNewline(s, k, |s|);
      assert s[k..|s|] == s[k..];
      DropKeepsClean(s[k..]);
      assert s == s[..k] + s[k..];
    }
  }

  lemma {:induction false} CapKeepsClean(s: string)
    requires NoTripleNewline(s)
    ensures CapNewlines(s) == s
    decreases |s|
  {
    if s != [] {
      var n := RunLength(s, Newline);
      CapStep(s);
      assert !TripleAt(s, 0) && n < 3;
      hide CapNewlines, RunLength, NoTripleNewline, TripleAt;
      var k := if n == 0 then 1 else n;
      PartHasNoTriple(s, k, |s|);
      assert s[k..|s|] == s[k..];
      CapKeepsClean(s[k..]);
      assert s == s[..k] + s[k..];
    }
  }

  lemma {:induction false} CapStep(s: string)
    requires s != []
    ensures var n := RunLength(s, Newline);
      CapNewlines(s) ==
      if n == 0 then [s[0]] + CapNewlines(s[1..])
      else (if n >= 3 then "\n\n" else s[..n]) + CapNewlines(s[n..])
  {
    hide RunLength;
  }

  /** The cleaned texts are exactly the fixed points, so cleaning twice is cleaning once. */
  lemma {:induction false} CleanExactlyFixed(s: string)
    ensures IsClean(s) <==> CleanPlainText(s) == s
    ensures CleanPlainText(CleanPlainText(s)) == CleanPlainText(s)
  {
    CleanedIsClean(s);
    CleanIsFixed(CleanPlainText(s));
    if IsClean(s) {
      CleanIsFixed(s);
    }
  }

  lemma {:induction false} CleanIsFixed(s: string)
    requires IsClean(s)
    ensures CleanPlainText(s) == s
  {
    DropKeepsClean(s);
    CapKeepsClean(s);
  }

  // ------------------------------------------------------------------ the words of a text

  datatype Place = Before | Inside | Gap

  /** Reference form of whitespace collapsing, one character at a time: single spaces between words. */
  function Words(s: string, at: Place): string {
    if s == [] then []
    else if IsSpace(s[0]) then Words(s[1..], if at == Before then Before else Gap)
    else (if at == Gap then " " else []) + [s[0]] + Words(s[1..], Inside)
  }

  function AfterSpace(at: Place): Place { if at == Before then Before else Gap }

  /** The first `n` characters are white space. */
  predicate SpaceRun(s: string, n: nat) {
    n <= |s| && forall i | 0 <= i < n :: IsSpace(s[i])
  }

  lemma {:induction false} WordsSkip(s: string, n: nat, at: Place)
    requires SpaceRun(s, n)
    ensures Words(s, at) == Words(s[n..], if n == 0 then at else AfterSpace(at))
    decreases n
  {
    if n > 0 {
      WordsSkip(s[1..], n - 1, AfterSpace(at));
      assert s[1..][n - 1..] == s[n..];
    }
  }

  /** A replacement of one space run by another changes no word. */
  lemma {:induction false} WordsSwap(s: string, n: nat, run: string, rest: string, at: Place)
    requires 0 < n && SpaceRun(s, n) && run != [] && SpaceRun(run, |run|)
    requires Words(rest, AfterSpace(at)) == Words(s[n..], AfterSpace(at))
    ensures Words(run + rest, at) == Words(s, at)
  {
    assert SpaceRun(run + rest, |run|);
    hide IsSpace, SpaceRun;
    WordsSkip(s, n, at);
    WordsSkip(run + rest, |run|, at);
    assert (run + rest)[|run|..] == rest;
  }

  /** Replacing what follows the first character by a text of the same words. */
  lemma {:induction false} WordsAfterOne(s: string, rest: string, at: Place)
    requires s != []
    requires Words(rest, if IsSpace(s[0]) then AfterSpace(at) else Inside)
        == Words(s[1..], if IsSpace(s[0]) then AfterSpace(at) else Inside)
    ensures Words([s[0]] + rest, at) == Words(s, at)
  {
    assert ([s[0]] + rest)[1..] == rest;
  }

  lemma {:induction false} BlanksAreSpaces(s: string, n: nat)
    requires n <= |s| && forall i | 0 <= i < n :: IsBlank(s[i])
    ensures SpaceRun(s, n) && SpaceRun(s[..n], n) && SpaceRun("\n", 1)
    ensures n < |s| && s[n] == '\n' ==> SpaceRun(s, n + 1)
  {
  }

  lemma {:induction false} DropStep(s: string)
    requires s != []
    ensures var n := RunLength(s, Blank);
      DropTrailingBlanks(s) ==
      if n == 0 then [s[0]] + DropTrailingBlanks(s[1..])
      else if n < |s| && s[n] == '\n' then "\n" + DropTrailingBlanks(s[n + 1..])
      else s[..n] + DropTrailingBlanks(s[n..])
  {
    hide RunLength, IsBlank;
  }

  lemma {:induction false} DropKeepsWords(s: string, at: Place)
    ensures Words(DropTrailingBlanks(s), at) == Words(s, at)
    decreases |s|
  {
    if s == [] {
      return;
    }
    var n := RunLength(s, Blank);
    BlanksAreSpaces(s, n);
    DropStep(s);
    hide IsSpace, IsBlank, SpaceRun, RunLength, Words, DropTrailingBlanks;
    if n == 0 {
      DropKeepsWords(s[1..], if IsSpace(s[0]) then AfterSpace(at) else Inside);
      WordsAfterOne(s, DropTrailingBlanks(s[1..]), at);
    } else if n < |s| && s[n] == '\n' {
      DropKeepsWords(s[n + 1..], AfterSpace(at));
      WordsSwap(s, n + 1, "\n", DropTrailingBlanks(s[n + 1..]), at);
    } else {
      DropKeepsWords(s[n..], AfterSpace(at));
      WordsSwap(s, n, s[..n], DropTrailingBlanks(s[n..]), at);
    }
  }

  lemma {:induction false} CapKeepsWords(s: string, at: Place)
    ensures Words(CapNewlines(s), at) == Words(s, at)
    decreases |s|
  {
    if s != [] {
      var n := RunLength(s, Newline);
      CapStep(s);
      assert SpaceRun(s, n) && SpaceRun("\n\n", 2) && SpaceRun(s[..n], n);
      hide IsSpace, SpaceRun, RunLength, Words, CapNewlines;
      if n == 0 {
        CapKeepsWords(s[1..], if IsSpace(s[0]) then AfterSpace(at) else Inside);
        WordsAfterOne(s, CapNewlines(s[1..]), at);
      } else {
        CapKeepsWords(s[n..], AfterSpace(at));
        WordsSwap(s, n, if n >= 3 then "\n\n" else s[..n], CapNewlines(s[n..]), at);
      }
    }
  }

  lemma {:induction false} ReplaceKeepsWords(s: string, at: Place)
    ensures Words(ReplaceSpaces(s), at) == Words(s, at)
    decreases |s|
  {
    if s != [] {
      var n := RunLength(s, Space);
      if n == 0 {
        ReplaceKeepsWords(s[1..], Inside);
      } else {
        ReplaceKeepsWords(s[n..], AfterSpace(at));
        WordsSwap(s, n, " ", ReplaceSpaces(s[n..]), at);
      }
    }
  }

  lemma {:induction false} WordsIgnoreEnd(s: string, k: nat, at: Place)
    requires k <= |s| && forall i | k <= i < |s| :: IsSpace(s[i])
    ensures Words(s[..k], at) == Words(s, at)
    decreases |s|
  {
    if k == 0 {
      WordsSkip(s, |s|, at);
      assert s[|s|..] == [];
    } else {
      assert s[..k][1..] == s[1..][..k - 1];
      WordsIgnoreEnd(s[1..], k - 1, if IsSpace(s[0]) then AfterSpace(at) else Inside);
    }
  }

  lemma {:induction false} TrimKeepsWords(s: string)
    ensures Words(Trim(s), Before) == Words(s, Before)
  {
    var a := TrimStartCuts(s);
    WordsSkip(s, a, Before);
    var b := TrimEndCuts(TrimStart(s));
    WordsIgnoreEnd(TrimStart(s), b, Before);
  }

  predicate Spaced(s: string) {
    && (forall i | 0 <= i < |s| :: IsSpace(s[i]) ==> s[i] == ' ')
    && (forall i | 0 <= i < |s| - 1 :: !(IsSpace(s[i]) && IsSpace(s[i + 1])))
  }

  lemma {:induction false} ReplacedIsSpaced(s: string)
    ensures Spaced(ReplaceSpaces(s))
    ensures s != [] ==> ReplaceSpaces(s) != [] && (IsSpace(ReplaceSpaces(s)[0]) <==> IsSpace(s[0]))
    decreases |s|
  {
    if s != [] {
      var n := RunLength(s, Space);
      ReplacedIsSpaced(s[if n == 0 then 1 else n..]);
    }
  }

  lemma {:induction false} WordsFixed(s: string, at: Place)
    requires Spaced(s) && (s != [] ==> !IsSpace(s[|s| - 1]))
    requires at == Before && s != [] ==> !IsSpace(s[0])
    requires at == Gap ==> s != [] && !IsSpace(s[0])
    ensures Words(s, at) == (if at == Gap then " " else []) + s
    decreases |s|
  {
    hide IsSpace, Spaced, Words;
    WordsStep(s, at);
    if s != [] {
      var rest := s[1..];
      SpacedRest(s);
      assert rest != [] ==> rest[|rest| - 1] == s[|s| - 1];
      assert s == [s[0]] + rest;
      if IsSpace(s[0]) {
        WordsFixed(rest, Gap);
      } else {
        WordsFixed(rest, Inside);
      }
    }
  }

  lemma {:induction false} WordsStep(s: string, at: Place)
    ensures Words(s, at) ==
      if s == [] then []
      else if IsSpace(s[0]) then Words(s[1..], AfterSpace(at))
      else (if at == Gap then " " else []) + [s[0]] + Words(s[1..], Inside)
  {
  }

  lemma {:induction false} SpacedRest(s: string)
    requires Spaced(s) && s != []
    ensures Spaced(s[1..]) && (IsSpace(s[0]) ==> s[0] == ' ' && (|s| > 1 ==> !IsSpace(s[1])))
  {
    hide IsSpace;
    var rest := s[1..];
    assert forall i | 0 <= i < |rest| :: rest[i] == s[i + 1];
    forall i | 0 <= i < |rest| - 1 ensures !(IsSpace(rest[i]) && IsSpace(rest[i + 1])) {
      assert !(IsSpace(s[i + 1]) && IsSpace(s[i + 1 + 1]));
    }
    assert |s| > 1 ==> !(IsSpace(s[0]) && IsSpace(s[0 + 1]));
  }

  /** The two regular-expression steps of collapsing compute the reference form. */
  lemma {:induction false} CollapseIsWords(s: string)
    ensures Collapse(s) == Words(s, Before)
  {
    ReplaceKeepsWords(s, Before);
    TrimKeepsWords(ReplaceSpaces(s));
    CollapseIsSpaced(s);
    WordsFixed(Collapse(s), Before);
  }

  lemma {:induction false} CollapseIsSpaced(s: string)
    ensures Spaced(Collapse(s)) && NoOuterSpace(Collapse(s))
  {
    var t := ReplaceSpaces(s);
    ReplacedIsSpaced(s);
    var a, b := TrimCuts(t);
    var r := Trim(t);
    assert forall i | 0 <= i < |r| :: r[i] == t[a + i];
    forall i | 0 <= i < |r| - 1 ensures !(IsSpace(r[i]) && IsSpace(r[i + 1])) {
      assert !(IsSpace(t[a + i]) && IsSpace(t[a + i + 1]));
    }
  }

  function Visible(s: string): string {
    if s == [] then [] else (if IsSpace(s[0]) then [] else [s[0]]) + Visible(s[1..])
  }

  lemma {:induction false} VisibleOfWords(s: string, at: Place)
    ensures Visible(Words(s, at)) == Visible(s)
  {
    if s != [] {
      if IsSpace(s[0]) {
        VisibleOfWords(s[1..], AfterSpace(at));
      } else {
        VisibleOfWords(s[1..], Inside);
        var tail := Words(s[1..], Inside);
        assert ([s[0]] + tail)[1..] == tail;
        if at == Gap {
          assert (" " + [s[0]] + tail)[1..] == [s[0]] + tail;
        }
      }
    }
  }

  /** Cleaning keeps every visible character in order, and every word: collapsing a cleaned text
      gives what collapsing the original gives. */
  lemma {:induction false} CleanKeepsWords(s: string)
    ensures Collapse(CleanPlainText(s)) == Collapse(s)
    ensures Visible(CleanPlainText(s)) == Visible(s)
  {
    var dropped := DropTrailingBlanks(s);
    DropKeepsWords(s, Before);
    CapKeepsWords(dropped, Before);
    TrimKeepsWords(CapNewlines(dropped));
    CollapseIsWords(s);
    CollapseIsWords(CleanPlainText(s));
    VisibleOfWords(s, Before);
    VisibleOfWords(CleanPlainText(s), Before);
  }

  // ------------------------------------------------------------------ one character at a time

  /** Spaces and tabs, maybe none, and then a line end. */
  predicate RunsOut(s: string) {
    s != "" && (s[0] == '\n' || ((s[0] == ' ' || s[0] == '\t') && RunsOut(s[1..])))
  }

  /** The text without the spaces and tabs before line ends. */
  function WithoutTrailing(s: string): string {
    if s == "" then ""
    else (if (s[0] == ' ' || s[0] == '\t') && RunsOut(s) then "" else [s[0]]) + WithoutTrailing(s[1..])
  }

  /** The text without the line ends that follow two others. */
  function AtMostTwo(s: string, seen: nat): string {
    if s == "" then ""
    else if s[0] == '\n' then (if seen < 2 then "\n" else "") + AtMostTwo(s[1..], seen + 1)
    else [s[0]] + AtMostTwo(s[1..], 0)
  }

  lemma {:induction false} BlankRun(s: string, n: nat)
    requires n == RunLength(s, Blank) && n > 0
    ensures n < |s| && s[n] == '\n' ==> RunsOut(s) && WithoutTrailing(s) == "\n" + WithoutTrailing(s[n + 1..])
    ensures !(n < |s| && s[n] == '\n') ==> !RunsOut(s) && WithoutTrailing(s) == s[..n] + WithoutTrailing(s[n..])
  {
    assert RunLength(s[1..], Blank) == n - 1;
    if n > 1 {
      BlankRun(s[1..], n - 1);
      assert s[1..][n - 1..] == s[n..] && s[..n] == [s[0]] + s[1..][..n - 1];
      assert n < |s| ==> s[1..][n..] == s[n + 1..];
    } else {
      assert s[..1] == [s[0]];
      assert |s| > 1 ==> s[1..][1..] == s[2..];
    }
  }

  lemma {:induction false} DropsTrailing(s: string)
    ensures DropTrailingBlanks(s) == WithoutTrailing(s)
    decreases |s|
  {
    if s != "" {
      var n := RunLength(s, Blank);
      DropStep(s);
      if n == 0 {
        DropsTrailing(s[1..]);
      } else {
        BlankRun(s, n);
        hide WithoutTrailing, DropTrailingBlanks, RunLength;
        if n < |s| && s[n] == '\n' {
          DropsTrailing(s[n + 1..]);
        } else {
          DropsTrailing(s[n..]);
        }
      }
    }
  }

  function Kept(n: nat, seen: nat): string {
    if n == 0 then "" else (if seen < 2 then "\n" else "") + Kept(n - 1, seen + 1)
  }

  lemma {:induction false} KeptFromStart(n: nat)
    ensures Kept(n, 0) == if n == 0 then "" else if n == 1 then "\n" else "\n\n"
  {
    if n >= 2 {
      KeptNoMore(n - 2, 2);
    }
  }

  lemma {:induction false} KeptNoMore(n: nat, seen: nat)
    requires seen >= 2
    ensures Kept(n, seen) == ""
  {
    if n > 0 {
      KeptNoMore(n - 1, seen + 1);
    }
  }

  lemma {:induction false} LineEndRun(s: string, n: nat, seen: nat)
    requires n == RunLength(s, Newline)
    ensures AtMostTwo(s, seen) == Kept(n, seen) + AtMostTwo(s[n..], seen + n)
  {
    if n > 0 {
      assert RunLength(s[1..], Newline) == n - 1;
      LineEndRun(s[1..], n - 1, seen + 1);
      assert s[1..][n - 1..] == s[n..];
    }
    hide RunLength;
  }

  lemma {:induction false} SeenForgotten(s: string, seen: nat)
    requires s == "" || s[0] != '\n'
    ensures AtMostTwo(s, seen) == AtMostTwo(s, 0)
  {
  }

  lemma {:induction false} CapsLineEnds(s: string)
    ensures CapNewlines(s) == AtMostTwo(s, 0)
    decreases |s|
  {
    if s != "" {
      var n := RunLength(s, Newline);
      CapStep(s);
      if n == 0 {
        CapsLineEnds(s[1..]);
      } else {
        CapsLineEnds(s[n..]);
        LineEndRun(s, n, 0);
        SeenForgotten(s[n..], n);
        KeptFromStart(n);
        assert n < 3 ==> s[..n] == Kept(n, 0);
      }
      hide CapNewlines, RunLength;
    }
  }

  /** What a language calls white space: five controls, the space and its relatives. */
  const WHITE_SPACE := {
    9, 10, 11, 12, 13, 32, 160, 5760, 8192, 8193, 8194, 8195, 8196, 8197, 8198, 8199, 8200, 8201, 8202, 8232, 8233,
        8239,
    8287, 12288, 65279}

  /** A text as the cleaning leaves it: nothing but line ends before a line end, no three of them, and no white
      space at either end. */
  predicate Tidy(s: string) {
    && (forall i | 0 <= i < |s| - 1 && s[i + 1] == '\n' :: s[i] != ' ' && s[i] != '\t')
    && (forall i | 0 <= i < |s| - 2 && s[i + 1] == s[i + 2] == '\n' :: s[i] != '\n')
    && (s != "" ==> s[0] as int !in WHITE_SPACE && s[|s| - 1] as int !in WHITE_SPACE)
  }

  /** The cleaned text is tidy, and only what is tidy already stays as it is. */
  lemma {:induction false} TidyExactlyFixed(s: string)
    ensures Tidy(CleanPlainText(s))
    ensures Tidy(s) <==> CleanPlainText(s) == s
  {
    CleanedIsClean(s);
    CleanExactlyFixed(s);
    CleanIsTidy(s);
    CleanIsTidy(CleanPlainText(s));
    hide CleanPlainText, IsClean, Tidy;
  }

  lemma {:induction false} SpaceIsWhite(c: char)
    ensures IsSpace(c) <==> c as int in WHITE_SPACE
  {
  }

  lemma {:induction false} CleanIsTidy(s: string)
    ensures IsClean(s) <==> Tidy(s)
  {
    if s != "" {
      SpaceIsWhite(s[0]);
      SpaceIsWhite(s[|s| - 1]);
    }
    hide IsSpace, WHITE_SPACE;
    if Tidy(s) {
      forall i | 0 <= i < |s| ensures !TripleAt(s, i) {
        assert i < |s| - 2 && s[i + 1] == s[i + 2] == '\n' ==> s[i] != '\n';
      }
      forall i | 0 <= i < |s| - 1 ensures !(IsBlank(s[i]) && s[i + 1] == '\n') {
      }
    }
    if IsClean(s) {
      forall i | 0 <= i < |s| - 2 && s[i + 1] == s[i + 2] == '\n' ensures s[i] != '\n' {
        assert !TripleAt(s, i);
      }
      forall i | 0 <= i < |s| - 1 && s[i + 1] == '\n' ensures s[i] != ' ' && s[i] != '\t' {
        assert !IsBlank(s[i]);
      }
    }
  }
}
