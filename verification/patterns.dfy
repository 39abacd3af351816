/**
 * The two sub-patterns shared by the period and balance expressions:
 * a date `\w+ \d{1,2}, \d{4}` and an amount `\$[\d,]+\.\d{2}`.
 *
 * Each is deterministic at a given position: every greedy run stops at a
 * character outside its class, and the character that must follow the run
 * is outside the class too, so backtracking never finds a second match.
 * The matchers therefore return the single end position, and each has a
 * declarative reference (`IsDate`, `IsAmount`) with a lemma that the two agree.
 */
module Patterns {
  import opened Options
  import opened Chars

  /** `lit` occurs in `t` starting at position `i`. */
  predicate LiteralAt(t: string, i: nat, lit: string) {
    i + |lit| <= |t| && t[i..i + |lit|] == lit
  }

  lemma LiteralConcat(t: string, i: nat, a: string, b: string)
    ensures LiteralAt(t, i, a + b) <==> LiteralAt(t, i, a) && LiteralAt(t, i + |a|, b)
  {
    if LiteralAt(t, i, a + b) {
      assert t[i..i + |a|] == t[i..i + |a + b|][..|a|] == (a + b)[..|a|] == a;
      assert t[i + |a|..i + |a| + |b|] == t[i..i + |a + b|][|a|..] == (a + b)[|a|..] == b;
    }
    if LiteralAt(t, i, a) && LiteralAt(t, i + |a|, b) {
      assert t[i..i + |a + b|] == t[i..i + |a|] + t[i + |a|..i + |a| + |b|];
    }
  }

  lemma SliceSplit(t: string, i: nat, k: nat, j: nat)
    requires i <= k <= j <= |t|
    ensures t[i..j] == t[i..k] + t[k..j]
  {
  }

  /** End of the longest run of `cls` characters from `i`: what a greedy `\w+` or `[\d,]+` consumes. */
  function RunEnd(t: string, i: nat, cls: CharClass): (j: nat)
    requires i <= |t|
    ensures i <= j <= |t|
    ensures forall k :: i <= k < j ==> InClass(t[k], cls)
    ensures j < |t| ==> !InClass(t[j], cls)
    decreases |t| - i
  {
    if i < |t| && InClass(t[i], cls) then RunEnd(t, i + 1, cls) else i
  }

  /** A run is determined by where it starts: any stretch of `cls` that ends at a non-`cls` character is the greedy one. */
  lemma RunEndUnique(t: string, i: nat, cls: CharClass, j: nat)
    requires i <= j <= |t|
    requires forall k :: i <= k < j ==> InClass(t[k], cls)
    requires j < |t| ==> !InClass(t[j], cls)
    ensures RunEnd(t, i, cls) == j
  {
  }

  // ---------------------------------------------------------------- dates

  /** The pieces of `\w+ \d{1,2}, \d{4}`: a word, a one- or two-digit day, a four-digit year. */
  predicate DateParts(w: string, d: string, y: string) {
    IsWord(w) && 1 <= |d| <= 2 && AllDigits(d) && |y| == 4 && AllDigits(y)
  }

  function DateText(w: string, d: string, y: string): string {
    w + " " + d + ", " + y
  }

  /** `s` is, in full, a date as the statement pattern spells it (e.g. "January 31, 2024"). */
  ghost predicate IsDate(s: string) {
    exists w, d, y :: DateParts(w, d, y) && s == DateText(w, d, y)
  }

  /** Where a date starting at `i` ends, if one starts there. */
  function MatchDate(t: string, i: nat): (r: Option<nat>)
    requires i <= |t|
    ensures r.Some? ==> i < r.value <= |t|
  {
    var w := RunEnd(t, i, Word);
    if w == i || w >= |t| || t[w] != ' ' then None
    else
      var d := w + 1;
      if d >= |t| || !IsDigit(t[d]) then None
      else
        // `\d{1,2}` takes a second digit when there is one; it must then be followed by the comma
        var c := if d + 1 < |t| && IsDigit(t[d + 1]) then d + 2 else d + 1;
        if c + 6 <= |t| && t[c] == ',' && t[c + 1] == ' ' && AllDigits(t[c + 2..c + 6]) then Some(c + 6)
        else None
  }

  lemma MatchDateSound(t: string, i: nat)
    requires i <= |t|
    ensures MatchDate(t, i).Some? ==> IsDate(t[i..MatchDate(t, i).value])
  {
    if MatchDate(t, i).Some? {
      var j := MatchDate(t, i).value;
      var w := RunEnd(t, i, Word);
      var d := w + 1;
      var c := if d + 1 < |t| && IsDigit(t[d + 1]) then d + 2 else d + 1;
      assert j == c + 6;
      var ws, ds, ys := t[i..w], t[d..c], t[c + 2..j];
      assert IsWord(ws);
      assert DateParts(ws, ds, ys);
      assert t[w..d] == " " && t[c..c + 2] == ", ";
      SliceSplit(t, i, w, d);
      SliceSplit(t, i, d, c);
      SliceSplit(t, i, c, c + 2);
      SliceSplit(t, i, c + 2, j);
    }
  }

  /** The pieces of a matched date: the word up to the space, one or two day digits, `, ` and four year digits. */
  lemma MatchDateShape(t: string, i: nat, j: nat)
    requires i <= |t| && MatchDate(t, i) == Some(j)
    ensures var w := RunEnd(t, i, Word);
            && i < w && w + 7 <= j <= |t|
            && t[w] == ' '
            && 1 <= j - 6 - (w + 1) <= 2 && AllDigits(t[w + 1..j - 6])
            && t[j - 6] == ',' && t[j - 5] == ' '
            && AllDigits(t[j - 4..j])
  {
  }

  lemma MatchDateComplete(t: string, i: nat, s: string)
    requires IsDate(s) && LiteralAt(t, i, s)
    ensures MatchDate(t, i) == Some(i + |s|)
  {
    var w, d, y :| DateParts(w, d, y) && s == DateText(w, d, y);
    var e := i + |w|;
    forall k | i <= k < e
      ensures InClass(t[k], Word)
    {
      assert t[k] == s[k - i] == w[k - i];
    }
    assert t[e] == s[|w|] == ' ';
    RunEndUnique(t, i, Word, e);
    assert t[e + 1] == s[|w| + 1] == d[0];
    if |d| == 2 {
      assert t[e + 2] == s[|w| + 2] == d[1];
    } else {
      assert t[e + 2] == s[|w| + 2] == ',';
    }
    var c := e + 1 + |d|;
    assert t[c] == s[|w| + 1 + |d|] == ',';
    assert t[c + 1] == s[|w| + 2 + |d|] == ' ';
    assert t[c + 2..c + 6] == s[|w| + 3 + |d|..] == y;
  }

  // -------------------------------------------------------------- amounts

  /** `s` is, in full, `\$[\d,]+\.\d{2}` (e.g. "$1,234.56"). */
  predicate IsAmount(s: string) {
    && |s| >= 5
    && s[0] == '$'
    && AllIn(s[1..|s| - 3], DigitOrComma)
    && s[|s| - 3] == '.'
    && AllDigits(s[|s| - 2..])
  }

  /** Where an amount starting at `i` ends, if one starts there. */
  function MatchAmount(t: string, i: nat): (r: Option<nat>)
    requires i <= |t|
    ensures r.Some? ==> i < r.value <= |t|
  {
    if i < |t| && t[i] == '$' then
      var k := RunEnd(t, i + 1, DigitOrComma);
      if k > i + 1 && k + 3 <= |t| && t[k] == '.' && IsDigit(t[k + 1]) && IsDigit(t[k + 2]) then Some(k + 3)
      else None
    else None
  }

  lemma MatchAmountSound(t: string, i: nat)
    requires i <= |t|
    ensures MatchAmount(t, i).Some? ==> IsAmount(t[i..MatchAmount(t, i).value])
  {
    if MatchAmount(t, i).Some? {
      var j := MatchAmount(t, i).value;
      var s := t[i..j];
      assert s[1..|s| - 3] == t[i + 1..j - 3];
      assert s[|s| - 2..] == t[j - 2..j];
    }
  }

  lemma MatchAmountComplete(t: string, i: nat, s: string)
    requires IsAmount(s) && LiteralAt(t, i, s)
    ensures MatchAmount(t, i) == Some(i + |s|)
  {
    var k := i + |s| - 3;
    forall m | i + 1 <= m < k
      ensures InClass(t[m], DigitOrComma)
    {
      assert t[m] == s[m - i] == s[1..|s| - 3][m - i - 1];
    }
    assert t[k] == s[|s| - 3] == '.';
    RunEndUnique(t, i + 1, DigitOrComma, k);
    assert t[k + 1] == s[|s| - 2..][0];
    assert t[k + 2] == s[|s| - 2..][1];
  }
}
