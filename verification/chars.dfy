/**
 * Character classes used by the two statement patterns. Only ASCII is
 * modelled: `\d` is a decimal digit and `\w` a letter, a digit or `_`.
 */
module Chars {

  predicate IsDigit(c: char) {
    '0' <= c <= '9'
  }

  predicate IsWordChar(c: char) {
    'a' <= c <= 'z' || 'A' <= c <= 'Z' || IsDigit(c) || c == '_'
  }

  /** The classes a greedy run ranges over: `\w` and `[\d,]`. */
  datatype CharClass = Word | DigitOrComma

  predicate InClass(c: char, cls: CharClass) {
    match cls
    case Word => IsWordChar(c)
    case DigitOrComma => IsDigit(c) || c == ','
  }

  predicate AllIn(s: string, cls: CharClass) {
    forall k :: 0 <= k < |s| ==> InClass(s[k], cls)
  }

  predicate AllDigits(s: string) {
    forall k :: 0 <= k < |s| ==> IsDigit(s[k])
  }

  /** `\w+` in full. */
  predicate IsWord(s: string) {
    |s| > 0 && AllIn(s, Word)
  }

  function DigitValue(c: char): (v: nat)
    requires IsDigit(c)
    ensures v <= 9
  {
    (c as int - '0' as int) as nat
  }

  function DigitChar(v: nat): (c: char)
    requires v <= 9
    ensures IsDigit(c) && DigitValue(c) == v
  {
    ('0' as int + v) as char
  }

  /** The number a string of decimal digits denotes, most significant first; no digits denote 0. */
  function Num(ds: string): nat
    requires AllDigits(ds)
    decreases |ds|
  {
    if ds == [] then 0 else Num(ds[..|ds| - 1]) * 10 + DigitValue(ds[|ds| - 1])
  }

  /** Two digits denote ten times the first plus the second. */
  lemma NumTwoDigits(ds: string)
    requires AllDigits(ds) && |ds| == 2
    ensures Num(ds) == 10 * DigitValue(ds[0]) + DigitValue(ds[1])
  {
    var hi := ds[..1];
    assert hi[..0] == [] && hi[0] == ds[0];
    assert Num(hi) == DigitValue(ds[0]);
  }
}
