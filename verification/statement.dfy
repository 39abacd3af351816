/**
 * The text half of `extract_balance_and_period`: find the statement period,
 * collect the balance lines, and keep the first one dated on the period's
 * last day.
 */
module Statement {
  import opened Options
  import opened Patterns
  import opened PeriodSearch
  import opened BalanceScan
  import opened Money

  /**
   * What one statement yields. The script returns a triple
   * `(start, end, balance)`; `NoBalanceLines` and `NoClosingBalance` are the
   * two distinct reasons it returns `(start, end, None)`.
   */
  datatype Extraction =
    | PeriodNotFound
    | NoBalanceLines(start: string, end: string)
    | NoClosingBalance(start: string, end: string)
    | Extracted(start: string, end: string, balance: int)

  /** The triple `(start, end, balance)` the script returns for an extraction. */
  function TripleOf(x: Extraction): (r: (Option<string>, Option<string>, Option<int>))
    ensures r.0.Some? <==> !x.PeriodNotFound?
    ensures r.1.Some? <==> r.0.Some?
    ensures r.2.Some? <==> x.Extracted?
    ensures r.0.Some? ==> r.0.value == x.start && r.1.value == x.end
    ensures r.2.Some? ==> r.2.value == x.balance
  {
    match x
    case PeriodNotFound => (None, None, None)
    case NoBalanceLines(s, e) => (Some(s), Some(e), None)
    case NoClosingBalance(s, e) => (Some(s), Some(e), None)
    case Extracted(s, e, b) => (Some(s), Some(e), Some(b))
  }

  /** Two extractions give the same triple exactly when they are equal or differ only in why no balance was found. */
  lemma TripleForgetsReason(x: Extraction, y: Extraction)
    ensures TripleOf(x) == TripleOf(y) <==>
              x == y
              || (x.NoBalanceLines? && y.NoClosingBalance? && x.start == y.start && x.end == y.end)
              || (x.NoClosingBalance? && y.NoBalanceLines? && x.start == y.start && x.end == y.end)
  {
  }

  /** The index of the first line dated `date` at or after `from`: the loop that `break`s on the first hit. */
  function FirstDatedFrom(lines: seq<BalanceLine>, date: string, from: nat): (r: Option<nat>)
    requires from <= |lines|
    ensures r.Some? ==> from <= r.value < |lines| && lines[r.value].date == date
    ensures forall k | from <= k < |lines| && (r.None? || k < r.value) :: lines[k].date != date
    decreases |lines| - from
  {
    if from == |lines| then None
    else if lines[from].date == date then Some(from)
    else FirstDatedFrom(lines, date, from + 1)
  }

  /** Statement text to extraction. */
  function Extract(text: string): (r: Extraction)
    ensures !r.PeriodNotFound? ==> IsDate(r.start) && IsDate(r.end)
    ensures r.Extracted? ==> r.balance >= 0
  {
    match Search(text)
    case None => PeriodNotFound
    case Some(p) =>
      var lines := FindAll(text);
      if |lines| == 0 then NoBalanceLines(p.start, p.end)
      else
        match FirstDatedFrom(lines, p.end, 0)
        case None => NoClosingBalance(p.start, p.end)
        case Some(k) =>
          FindAllSound(text, k);
          Extracted(p.start, p.end, AmountCents(lines[k].amount))
  }

  /** All three parts are missing exactly when the period pattern matches nowhere in the text. */
  lemma ExtractPeriodNotFound(text: string)
    ensures Extract(text).PeriodNotFound? <==> forall i: nat, p :: !PeriodAt(text, i, p)
    ensures Extract(text).PeriodNotFound? <==> TripleOf(Extract(text)) == (None, None, None)
  {
    assert Extract(text).PeriodNotFound? <==> Search(text).None?;
    SearchNone(text);
  }

  /** Otherwise start and end are the two dates matched at the leftmost position where the whole period pattern matches. */
  lemma ExtractPeriod(text: string)
    ensures !Extract(text).PeriodNotFound? ==> IsLeftmostPeriod(text, Period(Extract(text).start, Extract(text).end))
  {
    if Search(text).Some? {
      SearchLeftmost(text, Search(text).value);
    }
  }

  /** A period with no balance line anywhere in the text gives `(start, end, None)`. */
  lemma ExtractNoBalanceLines(text: string)
    ensures Extract(text).NoBalanceLines? <==>
              Search(text).Some? && forall i: nat, l :: !LineAt(text, i, l)
  {
    FindAllEmpty(text);
  }

  /** Balance lines exist but none is dated on the period's end: still `(start, end, None)`. */
  lemma ExtractNoClosingBalance(text: string)
    ensures Extract(text).NoClosingBalance? <==>
              && Search(text).Some?
              && |FindAll(text)| > 0
              && forall k | 0 <= k < |FindAll(text)| :: FindAll(text)[k].date != Search(text).value.end
  {
  }

  /**
   * A balance is returned exactly when some balance line is dated, character
   * for character, on the period's end; it is the amount of the first such
   * line in document order, and later ones, even with the same date, are ignored.
   */
  lemma ExtractClosingBalance(text: string)
    ensures Extract(text).Extracted? <==>
              Search(text).Some? && exists k :: 0 <= k < |FindAll(text)| && FindAll(text)[k].date == Search(text).value.end
    ensures Extract(text).Extracted? ==>
              exists k :: && 0 <= k < |FindAll(text)|
                          && FindAll(text)[k].date == Extract(text).end
                          && (forall j | 0 <= j < k :: FindAll(text)[j].date != Extract(text).end)
                          && IsAmount(FindAll(text)[k].amount)
                          && Extract(text).balance == AmountCents(FindAll(text)[k].amount)
  {
    var r := Extract(text);
    if r.Extracted? {
      var lines := FindAll(text);
      var k := FirstDatedFrom(lines, r.end, 0).value;
      FindAllSound(text, k);
      assert lines[k].date == r.end;
    }
  }
}
