/**
 * The two rows written to the result sheet, and what reading them back
 * with the statement patterns gives.
 */
module Report {
  import opened Options
  import opened Patterns
  import opened PeriodSearch
  import opened BalanceScan
  import opened Money
  import opened Statement
  import opened DateOrder
  import opened Reconcile

  /** `f"{d}"` for a date that may still be `None`. */
  function ShowDate(d: Option<string>): string {
    match d
    case None => "None"
    case Some(s) => s
  }

  /** The "Entire Period Analyzed" value: `f"{global_start_date} to {global_end_date}"`. */
  function PeriodCell(sum: Summary): (r: string)
    ensures sum.start.Some? && sum.end.Some? ==> "for " + r == PeriodText(Period(sum.start.value, sum.end.value))
  {
    ShowDate(sum.start) + " to " + ShowDate(sum.end)
  }

  /** The "Global Final Balance" value: `f"${total_balance:,.2f}"`. */
  function BalanceCell(sum: Summary): (r: string)
    ensures sum.total >= 0 ==> IsAmount(r) && AmountCents(r) == sum.total
  {
    if sum.total >= 0 then FormatRoundTrip(sum.total); FormatCents(sum.total)
    else FormatCents(sum.total)
  }

  /** The two rows written to the sheet, each a label and its value. */
  function Rows(sum: Summary): (r: seq<seq<string>>)
    ensures |r| == 2 && |r[0]| == 2 && |r[1]| == 2
    ensures r[0][0] == "Entire Period Analyzed" && r[1][0] == "Global Final Balance"
    ensures sum.total >= 0 ==> IsAmount(r[1][1]) && AmountCents(r[1][1]) == sum.total
  {
    [["Entire Period Analyzed", PeriodCell(sum)], ["Global Final Balance", BalanceCell(sum)]]
  }

  /** Prefixed with `for `, the period cell is found again by the period pattern, with the same two dates. */
  lemma PeriodCellReadsBack(sum: Summary, rest: string)
    requires sum.start.Some? && sum.end.Some?
    requires IsDate(sum.start.value) && IsDate(sum.end.value)
    ensures Search("for " + PeriodCell(sum) + rest) == Some(Period(sum.start.value, sum.end.value))
  {
    var p := Period(sum.start.value, sum.end.value);
    var t := "for " + PeriodCell(sum) + rest;
    assert t == PeriodText(p) + rest;
    assert t[0..|PeriodText(p)|] == PeriodText(p);
    assert PeriodAt(t, 0, p);
    SearchLeftmost(t, p);
  }

  /**
   * Written after `balance on <date> `, a non-negative balance cell is matched
   * by the balance pattern at that spot and converts back to the same total.
   */
  lemma BalanceCellReadsBack(sum: Summary, date: string, t: string, i: nat)
    requires sum.total >= 0 && IsDate(date)
    requires LiteralAt(t, i, "balance on " + date + " " + BalanceCell(sum))
    ensures i <= |t| && MatchLineAt(t, i).Some?
    ensures MatchLineAt(t, i).value.groups == BalanceLine(date, BalanceCell(sum))
    ensures IsAmount(BalanceCell(sum)) && AmountCents(BalanceCell(sum)) == sum.total
  {
    FormatRoundTrip(sum.total);
    var l := BalanceLine(date, BalanceCell(sum));
    assert LineText(l) == "balance on " + date + " " + BalanceCell(sum);
    MatchLineAtComplete(t, i, l);
  }

  /** The per-file results for statement texts given in processing order. */
  function ExtractAll(texts: seq<string>): (xs: seq<Extraction>)
    ensures |xs| == |texts|
    ensures forall k | 0 <= k < |xs| :: xs[k] == Extract(texts[k])
  {
    seq(|texts|, k requires 0 <= k < |texts| => Extract(texts[k]))
  }

  lemma {:induction false} TotalOfNonNegative(xs: seq<Extraction>)
    requires forall k | 0 <= k < |xs| :: xs[k].Extracted? ==> xs[k].balance >= 0
    ensures TotalOf(xs) >= 0
    decreases |xs|
  {
    if xs != [] {
      TotalOfNonNegative(xs[1..]);
    }
  }

  /** Every file that produced a balance has a non-negative one and two well-formed dates. */
  ghost predicate WellFormed(xs: seq<Extraction>) {
    forall k | 0 <= k < |xs| :: xs[k].Extracted? ==> xs[k].balance >= 0 && IsDate(xs[k].start) && IsDate(xs[k].end)
  }

  /** What the extraction produces is well formed. */
  lemma ExtractedFilesWellFormed(texts: seq<string>)
    ensures WellFormed(ExtractAll(texts))
  {
    var xs := ExtractAll(texts);
    forall k | 0 <= k < |xs| && xs[k].Extracted?
      ensures xs[k].balance >= 0 && IsDate(xs[k].start) && IsDate(xs[k].end)
    {
      var r := Extract(texts[k]);
      assert xs[k] == r;
    }
  }

  /** The summary's dates are dates some extracted file reported. */
  lemma FoldDatesFromFiles(ord: Order, xs: seq<Extraction>)
    requires WellFormed(xs)
    ensures Fold(ord, xs).start.Some? ==> IsDate(Fold(ord, xs).start.value)
    ensures Fold(ord, xs).end.Some? ==> IsDate(Fold(ord, xs).end.value)
    ensures Fold(ord, xs).start.Some? ==> Fold(ord, xs).start.value in Starts(xs)
    ensures Fold(ord, xs).end.Some? ==> Fold(ord, xs).end.value in Ends(xs)
  {
    var sum := Fold(ord, xs);
    if sum.start.Some? {
      assert sum.start.value in Starts(xs);
      var x :| x in xs && x.Extracted? && x.start == sum.start.value;
    }
    if sum.end.Some? {
      assert sum.end.value in Ends(xs);
      var y :| y in xs && y.Extracted? && y.end == sum.end.value;
    }
  }

  /** The reported total is never negative and the amount pattern reads it back exactly. */
  lemma ReportTotalReadsBack(ord: Order, xs: seq<Extraction>)
    requires WellFormed(xs)
    ensures Fold(ord, xs).total >= 0
    ensures IsAmount(BalanceCell(Fold(ord, xs)))
    ensures AmountCents(BalanceCell(Fold(ord, xs))) == Fold(ord, xs).total
  {
    TotalOfNonNegative(xs);
    FormatRoundTrip(Fold(ord, xs).total);
  }

  /** Once some file produced a balance, the reported period reads back as the same two dates. */
  lemma ReportPeriodReadsBack(ord: Order, xs: seq<Extraction>, rest: string)
    requires WellFormed(xs)
    ensures Fold(ord, xs).start.Some? ==> Fold(ord, xs).end.Some?
    ensures Fold(ord, xs).start.Some? ==>
              Search("for " + PeriodCell(Fold(ord, xs)) + rest) == Some(Period(Fold(ord, xs).start.value, Fold(ord, xs).end.value))
  {
    var sum := Fold(ord, xs);
    NoneWhenNothingExtracted(ord, xs);
    if sum.start.Some? {
      FoldDatesFromFiles(ord, xs);
      PeriodCellReadsBack(sum, rest);
    }
  }

  /** End to end: both cells of the report written for the statement texts `texts` read back as written. */
  lemma StatementsReportReadsBack(ord: Order, texts: seq<string>, rest: string)
    ensures var sum := Fold(ord, ExtractAll(texts));
            && sum.total >= 0
            && IsAmount(BalanceCell(sum))
            && AmountCents(BalanceCell(sum)) == sum.total
            && (sum.start.Some? <==> sum.end.Some?)
            && (sum.start.Some? && sum.end.Some? ==>
                  Search("for " + PeriodCell(sum) + rest) == Some(Period(sum.start.value, sum.end.value)))
  {
    var xs := ExtractAll(texts);
    NoneWhenNothingExtracted(ord, xs);
    ExtractedFilesWellFormed(texts);
    ReportTotalReadsBack(ord, xs);
    if Fold(ord, xs).start.Some? {
      ReportPeriodReadsBack(ord, xs, rest);
    }
  }
}
