/**
 * The statement period: `re.search` of `for (DATE) to (DATE)` over the
 * extracted text, returning the two captured date strings.
 */
module PeriodSearch {
  import opened Options
  import opened Patterns

  /** The two captured groups, kept as the text the statement printed. */
  datatype Period = Period(start: string, end: string)

  function PeriodText(p: Period): string {
    "for " + p.start + " to " + p.end
  }

  /** Reference: the whole period pattern matches at `i` with groups `p`. */
  ghost predicate PeriodAt(t: string, i: nat, p: Period) {
    IsDate(p.start) && IsDate(p.end) && LiteralAt(t, i, PeriodText(p))
  }

  /** The period pattern tried at the single position `i`. */
  function MatchPeriodAt(t: string, i: nat): (r: Option<Period>)
    requires i <= |t|
    ensures r.Some? ==> IsDate(r.value.start) && IsDate(r.value.end)
  {
    if !LiteralAt(t, i, "for ") then None
    else
      match MatchDate(t, i + 4)
      case None => None
      case Some(a) =>
        if !LiteralAt(t, a, " to ") then None
        else
          match MatchDate(t, a + 4)
          case None => None
          case Some(b) =>
            MatchDateSound(t, i + 4);
            MatchDateSound(t, a + 4);
            Some(Period(t[i + 4..a], t[a + 4..b]))
  }

  /** A period occurs at `i` exactly when its four pieces occur one after another there. */
  lemma PeriodTextPieces(t: string, i: nat, p: Period)
    ensures LiteralAt(t, i, PeriodText(p)) <==>
              && LiteralAt(t, i, "for ")
              && LiteralAt(t, i + 4, p.start)
              && LiteralAt(t, i + 4 + |p.start|, " to ")
              && LiteralAt(t, i + 8 + |p.start|, p.end)
  {
    LiteralConcat(t, i, "for " + p.start + " to ", p.end);
    LiteralConcat(t, i, "for " + p.start, " to ");
    LiteralConcat(t, i, "for ", p.start);
  }

  /** Two dates laid out as a period are a match of the period pattern. */
  lemma PeriodFromPieces(t: string, i: nat, start: string, end: string)
    requires IsDate(start) && IsDate(end)
    requires LiteralAt(t, i, "for ") && LiteralAt(t, i + 4, start)
    requires LiteralAt(t, i + 4 + |start|, " to ") && LiteralAt(t, i + 8 + |start|, end)
    ensures PeriodAt(t, i, Period(start, end))
  {
    PeriodTextPieces(t, i, Period(start, end));
  }

  lemma MatchPeriodAtSound(t: string, i: nat)
    requires i <= |t|
    ensures MatchPeriodAt(t, i).Some? ==> PeriodAt(t, i, MatchPeriodAt(t, i).value)
  {
    if MatchPeriodAt(t, i).Some? {
      var a := MatchDate(t, i + 4).value;
      var b := MatchDate(t, a + 4).value;
      MatchDateSound(t, i + 4);
      MatchDateSound(t, a + 4);
      PeriodFromPieces(t, i, t[i + 4..a], t[a + 4..b]);
    }
  }

  /** The matcher succeeds, capturing `p`, when its literals and the two dates of `p` match one after another. */
  lemma MatchPeriodAtAccepts(t: string, i: nat, p: Period)
    requires LiteralAt(t, i, "for ") && LiteralAt(t, i + 4, p.start)
    requires MatchDate(t, i + 4) == Some(i + 4 + |p.start|)
    requires LiteralAt(t, i + 4 + |p.start|, " to ") && LiteralAt(t, i + 8 + |p.start|, p.end)
    requires MatchDate(t, i + 8 + |p.start|) == Some(i + 8 + |p.start| + |p.end|)
    ensures i <= |t| && MatchPeriodAt(t, i) == Some(p)
  {
    var a := i + 4 + |p.start|;
    assert t[i + 4..a] == p.start && t[a + 4..a + 4 + |p.end|] == p.end;
  }

  /** Two dates laid out as a period are found by the matcher. */
  lemma MatchPeriodPieces(t: string, i: nat, p: Period)
    requires IsDate(p.start) && IsDate(p.end)
    requires LiteralAt(t, i, "for ") && LiteralAt(t, i + 4, p.start)
    requires LiteralAt(t, i + 4 + |p.start|, " to ") && LiteralAt(t, i + 8 + |p.start|, p.end)
    ensures i <= |t| && MatchPeriodAt(t, i) == Some(p)
  {
    MatchDateComplete(t, i + 4, p.start);
    MatchDateComplete(t, i + 8 + |p.start|, p.end);
    MatchPeriodAtAccepts(t, i, p);
  }

  lemma MatchPeriodAtComplete(t: string, i: nat, p: Period)
    requires PeriodAt(t, i, p)
    ensures i <= |t| && MatchPeriodAt(t, i) == Some(p)
  {
    PeriodTextPieces(t, i, p);
    MatchPeriodPieces(t, i, p);
  }

  /** The matcher at a position finds exactly the groups the pattern admits there (and so at most one). */
  lemma MatchPeriodAtSpec(t: string, i: nat, p: Period)
    requires i <= |t|
    ensures MatchPeriodAt(t, i) == Some(p) <==> PeriodAt(t, i, p)
  {
    MatchPeriodAtSound(t, i);
    if PeriodAt(t, i, p) {
      MatchPeriodAtComplete(t, i, p);
    }
  }

  lemma MatchPeriodAtNone(t: string, i: nat)
    requires i <= |t|
    ensures MatchPeriodAt(t, i).None? <==> forall p :: !PeriodAt(t, i, p)
  {
    if MatchPeriodAt(t, i).Some? {
      MatchPeriodAtSpec(t, i, MatchPeriodAt(t, i).value);
    } else {
      forall p
        ensures !PeriodAt(t, i, p)
      {
        MatchPeriodAtSpec(t, i, p);
      }
    }
  }

  /** The leftmost position at or after `from` where the pattern matches, with its groups. */
  function LeftmostFrom(t: string, from: nat): (r: Option<(nat, Period)>)
    requires from <= |t|
    ensures r.Some? ==> from <= r.value.0 <= |t| && MatchPeriodAt(t, r.value.0) == Some(r.value.1)
    ensures forall i | from <= i <= |t| && (r.None? || i < r.value.0) :: MatchPeriodAt(t, i).None?
    decreases |t| - from
  {
    match MatchPeriodAt(t, from)
    case Some(p) => Some((from, p))
    case None => if from == |t| then None else LeftmostFrom(t, from + 1)
  }

  /** `re.search(period_pattern, text)`, keeping only the groups. */
  function Search(t: string): (r: Option<Period>)
    ensures r.Some? ==> IsDate(r.value.start) && IsDate(r.value.end)
  {
    match LeftmostFrom(t, 0)
    case None => None
    case Some(hit) =>
      MatchPeriodAtSound(t, hit.0);
      Some(hit.1)
  }

  /** Reference: `p` are the groups of the match at the leftmost position where the whole pattern matches. */
  ghost predicate IsLeftmostPeriod(t: string, p: Period) {
    exists i: nat :: PeriodAt(t, i, p) && forall j: nat, q :: j < i ==> !PeriodAt(t, j, q)
  }

  /** `Search` fails exactly when the pattern matches nowhere. */
  lemma SearchNone(t: string)
    ensures Search(t).None? <==> forall i: nat, p :: !PeriodAt(t, i, p)
  {
    match LeftmostFrom(t, 0)
    case None =>
      forall i: nat, p
        ensures !PeriodAt(t, i, p)
      {
        if i <= |t| {
          MatchPeriodAtNone(t, i);
        }
      }
    case Some(hit) =>
      MatchPeriodAtSpec(t, hit.0, hit.1);
  }

  /** `Search` returns the groups at the leftmost matching position, and nothing else. */
  lemma SearchLeftmost(t: string, p: Period)
    ensures Search(t) == Some(p) <==> IsLeftmostPeriod(t, p)
  {
    match LeftmostFrom(t, 0)
    case None =>
      SearchNone(t);
    case Some(hit) =>
      var i := hit.0;
      MatchPeriodAtSpec(t, i, hit.1);
      forall j: nat, q | j < i
        ensures !PeriodAt(t, j, q)
      {
        MatchPeriodAtNone(t, j);
      }
      if IsLeftmostPeriod(t, p) {
        var i' :| PeriodAt(t, i', p) && forall j: nat, q :: j < i' ==> !PeriodAt(t, j, q);
        assert i' == i;
        MatchPeriodAtSpec(t, i, p);
      }
  }
}
