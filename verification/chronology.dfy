/**
 * The reconciliation picks the "earliest" start and "latest" end by
 * comparing the date strings as text. For dates spelled "Month D, YYYY"
 * that is alphabetical order of month names, not the calendar: the two
 * statements below report the period backwards. The same fold under the
 * chronological order picks the calendar-earliest start and latest end.
 */
module Chronology {
  import opened Options
  import opened Chars
  import opened Patterns
  import opened Calendar
  import opened Statement
  import opened DateOrder
  import opened Reconcile
  import opened Report

  const January: Extraction := Extracted("January 1, 2024", "January 31, 2024", 100000)
  const February: Extraction := Extracted("February 1, 2024", "February 29, 2024", 50000)

  /** The loop over two files is two steps from the initial summary. */
  lemma FoldTwo(ord: Order, a: Extraction, b: Extraction)
    ensures Fold(ord, [a, b]) == Step(ord, Step(ord, Initial, a), b)
  {
    assert [a, b][..1] == [a] && [a][..0] == [];
  }

  /** As written: January and February statements give "February 1, 2024 to January 31, 2024". */
  lemma TextualOrderReversesPeriod()
    ensures Fold(Textual, [January, February]) == Summary(150000, Some("February 1, 2024"), Some("January 31, 2024"))
    ensures PeriodCell(Fold(Textual, [January, February])) == "February 1, 2024 to January 31, 2024"
  {
    FoldTwo(Textual, January, February);
    var one := Step(Textual, Initial, January);
    assert one == Summary(100000, Some("January 1, 2024"), Some("January 31, 2024"));
    assert Before(Textual, "February 1, 2024", "January 1, 2024");
    assert !Before(Textual, "January 31, 2024", "February 29, 2024");
  }

  lemma Num2024()
    ensures Num("2024") == 2024 && Num("1") == 1 && Num("29") == 29 && Num("31") == 31
  {
    assert "2024"[..3] == "202" && "202"[..2] == "20" && "20"[..1] == "2" && "2"[..0] == "";
    assert "1"[..0] == "";
    assert "29"[..1] == "2" && "31"[..1] == "3" && "3"[..0] == "";
  }

  lemma JanuaryDays()
    ensures DayOf("January 1, 2024") == Some(Day(2024, 1, 1))
    ensures DayOf("January 31, 2024") == Some(Day(2024, 1, 31))
  {
    Num2024();
    assert MonthNumber("January") == 1;
    assert "January 1, 2024" == DateText("January", "1", "2024");
    assert "January 31, 2024" == DateText("January", "31", "2024");
    DayOfParts("January", "1", "2024");
    DayOfParts("January", "31", "2024");
  }

  lemma FebruaryDays()
    ensures DayOf("February 1, 2024") == Some(Day(2024, 2, 1))
    ensures DayOf("February 29, 2024") == Some(Day(2024, 2, 29))
  {
    Num2024();
    assert MonthNumber("February") == 2;
    assert "February 1, 2024" == DateText("February", "1", "2024");
    assert "February 29, 2024" == DateText("February", "29", "2024");
    DayOfParts("February", "1", "2024");
    DayOfParts("February", "29", "2024");
  }

  /** Corrected: the chronological order gives "January 1, 2024 to February 29, 2024" on the same input. */
  lemma ChronologicalOrderKeepsPeriod()
    ensures Fold(Chronological, [January, February]) == Summary(150000, Some("January 1, 2024"), Some("February 29, 2024"))
  {
    FoldTwo(Chronological, January, February);
    var one := Step(Chronological, Initial, January);
    assert one == Summary(100000, Some("January 1, 2024"), Some("January 31, 2024"));
    JanuaryDays();
    FebruaryDays();
    assert DateKey("January 1, 2024") == 20240101 && DateKey("February 1, 2024") == 20240201;
    assert DateKey("January 31, 2024") == 20240131 && DateKey("February 29, 2024") == 20240229;
    assert !Before(Chronological, "February 1, 2024", "January 1, 2024");
    assert Before(Chronological, "January 31, 2024", "February 29, 2024");
  }

  /** Corrected: the chosen start names no later day than any reported start, and the end no earlier day than any end. */
  lemma ChronologicalFoldSpansCalendar(xs: seq<Extraction>)
    requires forall s | s in Starts(xs) :: DayOf(s).Some?
    requires forall e | e in Ends(xs) :: DayOf(e).Some?
    ensures Fold(Chronological, xs).start.Some? ==>
              forall s | s in Starts(xs) :: !DayBefore(DayOf(s).value, DayOf(Fold(Chronological, xs).start.value).value)
    ensures Fold(Chronological, xs).end.Some? ==>
              forall e | e in Ends(xs) :: !DayBefore(DayOf(Fold(Chronological, xs).end.value).value, DayOf(e).value)
  {
    var sum := Fold(Chronological, xs);
    if sum.start.Some? {
      var m := sum.start.value;
      forall s | s in Starts(xs)
        ensures !DayBefore(DayOf(s).value, DayOf(m).value)
      {
        assert NotAfter(Chronological, m, s);
        DateKeyChronological(s, m);
      }
    }
    if sum.end.Some? {
      var m := sum.end.value;
      forall e | e in Ends(xs)
        ensures !DayBefore(DayOf(m).value, DayOf(e).value)
      {
        assert NotAfter(Chronological, e, m);
        DateKeyChronological(m, e);
      }
    }
  }
}
