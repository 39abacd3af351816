/**
 * The two orders on date strings: the textual order the reconciliation
 * actually uses (Python's `<` on `str`) and the chronological order it
 * evidently intends (calendar day first, text only to break ties).
 */
module DateOrder {
  import opened LexOrder
  import opened Calendar

  datatype Order = Textual | Chronological

  /** `a` comes strictly before `b` under order `o`. */
  predicate Before(o: Order, a: string, b: string) {
    match o
    case Textual => Less(a, b)
    case Chronological => DateKey(a) < DateKey(b) || (DateKey(a) == DateKey(b) && Less(a, b))
  }

  predicate NotAfter(o: Order, a: string, b: string) {
    a == b || Before(o, a, b)
  }

  lemma BeforeIrreflexive(o: Order, a: string)
    ensures !Before(o, a, a)
  {
    Irreflexive(a);
  }

  lemma BeforeTransitive(o: Order, a: string, b: string, c: string)
    requires Before(o, a, b) && Before(o, b, c)
    ensures Before(o, a, c)
  {
    if Less(a, b) && Less(b, c) {
      Transitive(a, b, c);
    }
  }

  lemma BeforeConnected(o: Order, a: string, b: string)
    ensures Before(o, a, b) || a == b || Before(o, b, a)
  {
    Connected(a, b);
  }

  lemma NotAfterAntisymmetric(o: Order, a: string, b: string)
    requires NotAfter(o, a, b) && NotAfter(o, b, a)
    ensures a == b
  {
    if a != b {
      BeforeTransitive(o, a, b, a);
      BeforeIrreflexive(o, a);
    }
  }

  /** Under the chronological order, of two strings naming different days the earlier day comes first. */
  lemma ChronologicalFollowsCalendar(a: string, b: string)
    requires DayOf(a).Some? && DayOf(b).Some?
    requires DayBefore(DayOf(a).value, DayOf(b).value)
    ensures Before(Chronological, a, b)
  {
    DateKeyChronological(a, b);
  }
}
