/**
 * Reading a matched date string ("March 3, 2024") as a calendar day, for the
 * chronological comparison the reconciliation evidently intends.
 */
module Calendar {
  import opened Options
  import opened Chars
  import opened Patterns

  const MonthNames: seq<string> := [
    "January", "February", "March", "April", "May", "June",
    "July", "August", "September", "October", "November", "December"
  ]

  /** 1 to 12 for an English month name, 0 for any other word. */
  function MonthNumber(w: string): (m: nat)
    ensures m <= 12
    ensures m > 0 ==> MonthNames[m - 1] == w
    ensures m == 0 ==> w !in MonthNames
  {
    MonthFrom(w, 0)
  }

  function MonthFrom(w: string, i: nat): (m: nat)
    requires i <= |MonthNames|
    ensures m == 0 || i < m <= |MonthNames|
    ensures m > 0 ==> MonthNames[m - 1] == w
    ensures m == 0 ==> forall k | i <= k < |MonthNames| :: MonthNames[k] != w
    decreases |MonthNames| - i
  {
    if i == |MonthNames| then 0
    else if MonthNames[i] == w then i + 1
    else MonthFrom(w, i + 1)
  }

  /** A calendar day: year, month 1-12 and day of month as printed. */
  datatype Day = Day(year: nat, month: nat, day: nat)

  /** The day a whole date string names, when the string is a date and its word a month name. */
  function DayOf(s: string): (r: Option<Day>)
    ensures r.Some? ==> 1 <= r.value.month <= 12 && r.value.day < 100
  {
    if MatchDate(s, 0) != Some(|s|) then None
    else
      var w := RunEnd(s, 0, Word);
      var m := MonthNumber(s[..w]);
      if m == 0 then None
      else
        DateFields(s);
        var dd, yy := s[w + 1..|s| - 6], s[|s| - 4..];
        Some(Day(Num(yy), m, Num(dd)))
  }

  /** The fields of a string that is one whole date: the word, then one or two day digits, then four year digits. */
  lemma DateFields(s: string)
    requires MatchDate(s, 0) == Some(|s|)
    ensures var w := RunEnd(s, 0, Word);
            && 0 < w && w + 8 <= |s|
            && AllDigits(s[w + 1..|s| - 6]) && AllDigits(s[|s| - 4..])
            && Num(s[w + 1..|s| - 6]) < 100
  {
    MatchDateShape(s, 0, |s|);
    assert s[|s| - 4..|s|] == s[|s| - 4..];
    DayDigitsBound(s[RunEnd(s, 0, Word) + 1..|s| - 6]);
  }

  /** One or two digits denote less than 100. */
  lemma DayDigitsBound(dd: string)
    requires AllDigits(dd) && |dd| <= 2
    ensures Num(dd) < 100
  {
    NumBound(dd);
    if |dd| == 1 {
      assert Pow10(1) == 10;
    } else if |dd| == 2 {
      assert Pow10(2) == 100;
    }
  }

  lemma DateTextPieces(w: string, d: string, y: string)
    requires |y| == 4
    ensures var s := DateText(w, d, y);
            && |s| == |w| + |d| + 7
            && s[..|w|] == w && s[|w|] == ' '
            && s[|w| + 1..|s| - 6] == d
            && s[|s| - 4..] == y
  {
  }

  /** A date built from its parts matches in full, with its word as the greedy run. */
  lemma DateTextMatches(w: string, d: string, y: string)
    requires DateParts(w, d, y)
    ensures var s := DateText(w, d, y);
            MatchDate(s, 0) == Some(|s|) && RunEnd(s, 0, Word) == |w|
  {
    var s := DateText(w, d, y);
    DateTextPieces(w, d, y);
    assert IsDate(s);
    assert s[0..|s|] == s;
    MatchDateComplete(s, 0, s);
    forall k | 0 <= k < |w|
      ensures InClass(s[k], Word)
    {
      assert s[k] == s[..|w|][k] == w[k];
    }
    RunEndUnique(s, 0, Word, |w|);
  }

  /** A date built from a month name, a day and a year reads back as that day. */
  lemma DayOfParts(w: string, d: string, y: string)
    requires DateParts(w, d, y) && MonthNumber(w) > 0
    ensures DayOf(DateText(w, d, y)) == Some(Day(Num(y), MonthNumber(w), Num(d)))
  {
    DateTextMatches(w, d, y);
    DateTextPieces(w, d, y);
  }

  /** `n` digits denote less than 10^n. */
  lemma {:induction false} NumBound(ds: string)
    requires AllDigits(ds) && |ds| <= 4
    ensures Num(ds) < Pow10(|ds|)
    decreases |ds|
  {
    if ds != [] {
      NumBound(ds[..|ds| - 1]);
    }
  }

  function Pow10(n: nat): nat {
    if n == 0 then 1 else 10 * Pow10(n - 1)
  }

  /** Days in chronological order. */
  predicate DayBefore(a: Day, b: Day) {
    a.year < b.year
    || (a.year == b.year && a.month < b.month)
    || (a.year == b.year && a.month == b.month && a.day < b.day)
  }

  /** A number with the same order as the day: `yyyymmdd`; 0 for a string that names no day. */
  function DateKey(s: string): (k: nat)
    ensures k == 0 <==> DayOf(s).None?
  {
    match DayOf(s)
    case None => 0
    case Some(x) => x.year * 10000 + x.month * 100 + x.day
  }

  /** Comparing keys compares the days they come from. */
  lemma DateKeyChronological(a: string, b: string)
    requires DayOf(a).Some? && DayOf(b).Some?
    ensures DateKey(a) < DateKey(b) <==> DayBefore(DayOf(a).value, DayOf(b).value)
    ensures DateKey(a) == DateKey(b) <==> DayOf(a) == DayOf(b)
  {
    var x, y := DayOf(a).value, DayOf(b).value;
    KeyOrder(x, y);
  }

  lemma KeyOrder(x: Day, y: Day)
    requires 1 <= x.month <= 12 && x.day < 100 && 1 <= y.month <= 12 && y.day < 100
    ensures x.year * 10000 + x.month * 100 + x.day < y.year * 10000 + y.month * 100 + y.day <==> DayBefore(x, y)
    ensures x.year * 10000 + x.month * 100 + x.day == y.year * 10000 + y.month * 100 + y.day <==> x == y
  {
    var lx, ly := x.month * 100 + x.day, y.month * 100 + y.day;
    assert lx < 10000 && ly < 10000;
    if x.year < y.year {
      assert x.year * 10000 + 10000 <= y.year * 10000;
    } else if y.year < x.year {
      assert y.year * 10000 + 10000 <= x.year * 10000;
    } else if x.month < y.month {
      assert x.month * 100 + 100 <= y.month * 100;
    } else if y.month < x.month {
      assert y.month * 100 + 100 <= x.month * 100;
    }
  }
}
