/**
 * The balance lines: `re.findall` of `balance on (DATE) (AMOUNT)` over the
 * extracted text, returning every (date, amount) pair in document order.
 */
module BalanceScan {
  import opened Options
  import opened Patterns
  import opened Scan

  /** The two captured groups of one balance line; the amount keeps its `$` and commas. */
  datatype BalanceLine = BalanceLine(date: string, amount: string)

  function LineText(l: BalanceLine): string {
    "balance on " + l.date + " " + l.amount
  }

  /** Reference: the whole balance pattern matches at `i` with groups `l`. */
  ghost predicate LineAt(t: string, i: nat, l: BalanceLine) {
    IsDate(l.date) && IsAmount(l.amount) && LiteralAt(t, i, LineText(l))
  }

  /** The balance pattern tried at the single position `i`. */
  function MatchLineAt(t: string, i: nat): (r: Option<Hit<BalanceLine>>)
    requires i <= |t|
    ensures r.Some? ==> r.value.pos == i < r.value.end <= |t|
    ensures r.Some? ==> IsDate(r.value.groups.date) && IsAmount(r.value.groups.amount)
  {
    if !LiteralAt(t, i, "balance on ") then None
    else
      match MatchDate(t, i + 11)
      case None => None
      case Some(a) =>
        if !LiteralAt(t, a, " ") then None
        else
          match MatchAmount(t, a + 1)
          case None => None
          case Some(b) =>
            MatchDateSound(t, i + 11);
            MatchAmountSound(t, a + 1);
            Some(Hit(i, b, BalanceLine(t[i + 11..a], t[a + 1..b])))
  }

  /** A balance line occurs at `i` exactly when its four pieces occur one after another there. */
  lemma LineTextPieces(t: string, i: nat, l: BalanceLine)
    ensures LiteralAt(t, i, LineText(l)) <==>
              && LiteralAt(t, i, "balance on ")
              && LiteralAt(t, i + 11, l.date)
              && LiteralAt(t, i + 11 + |l.date|, " ")
              && LiteralAt(t, i + 12 + |l.date|, l.amount)
  {
    LiteralConcat(t, i, "balance on " + l.date + " ", l.amount);
    LiteralConcat(t, i, "balance on " + l.date, " ");
    LiteralConcat(t, i, "balance on ", l.date);
  }

  /** A date and an amount laid out as a balance line are an occurrence of one. */
  lemma LineFromPieces(t: string, i: nat, date: string, amount: string)
    requires IsDate(date) && IsAmount(amount)
    requires LiteralAt(t, i, "balance on ") && LiteralAt(t, i + 11, date)
    requires LiteralAt(t, i + 11 + |date|, " ") && LiteralAt(t, i + 12 + |date|, amount)
    ensures LineAt(t, i, BalanceLine(date, amount))
  {
    LineTextPieces(t, i, BalanceLine(date, amount));
  }

  lemma MatchLineAtSound(t: string, i: nat)
    requires i <= |t|
    ensures MatchLineAt(t, i).Some? ==>
              var h := MatchLineAt(t, i).value;
              LineAt(t, i, h.groups) && h.end == i + |LineText(h.groups)|
  {
    if MatchLineAt(t, i).Some? {
      var a := MatchDate(t, i + 11).value;
      var b := MatchAmount(t, a + 1).value;
      MatchDateSound(t, i + 11);
      MatchAmountSound(t, a + 1);
      LineFromPieces(t, i, t[i + 11..a], t[a + 1..b]);
    }
  }

  /** The matcher succeeds, capturing `l`, when its literals, the date and the amount of `l` match one after another. */
  lemma MatchLineAtAccepts(t: string, i: nat, l: BalanceLine)
    requires LiteralAt(t, i, "balance on ") && LiteralAt(t, i + 11, l.date)
    requires MatchDate(t, i + 11) == Some(i + 11 + |l.date|)
    requires LiteralAt(t, i + 11 + |l.date|, " ") && LiteralAt(t, i + 12 + |l.date|, l.amount)
    requires MatchAmount(t, i + 12 + |l.date|) == Some(i + 12 + |l.date| + |l.amount|)
    ensures i <= |t| && MatchLineAt(t, i) == Some(Hit(i, i + 12 + |l.date| + |l.amount|, l))
  {
    var a := i + 11 + |l.date|;
    assert t[i + 11..a] == l.date && t[a + 1..a + 1 + |l.amount|] == l.amount;
  }

  /** A date and an amount laid out as a balance line are found by the matcher. */
  lemma MatchLinePieces(t: string, i: nat, l: BalanceLine)
    requires IsDate(l.date) && IsAmount(l.amount)
    requires LiteralAt(t, i, "balance on ") && LiteralAt(t, i + 11, l.date)
    requires LiteralAt(t, i + 11 + |l.date|, " ") && LiteralAt(t, i + 12 + |l.date|, l.amount)
    ensures i <= |t| && MatchLineAt(t, i) == Some(Hit(i, i + 12 + |l.date| + |l.amount|, l))
  {
    MatchDateComplete(t, i + 11, l.date);
    MatchAmountComplete(t, i + 12 + |l.date|, l.amount);
    MatchLineAtAccepts(t, i, l);
  }

  lemma MatchLineAtComplete(t: string, i: nat, l: BalanceLine)
    requires LineAt(t, i, l)
    ensures i <= |t| && MatchLineAt(t, i) == Some(Hit(i, i + |LineText(l)|, l))
  {
    LineTextPieces(t, i, l);
    MatchLinePieces(t, i, l);
    assert |LineText(l)| == 12 + |l.date| + |l.amount|;
  }

  /** The matcher at a position fails exactly when the pattern matches nowhere there. */
  lemma MatchLineAtNone(t: string, i: nat)
    requires i <= |t|
    ensures MatchLineAt(t, i).None? <==> forall l :: !LineAt(t, i, l)
  {
    MatchLineAtSound(t, i);
    if MatchLineAt(t, i).None? {
      forall l
        ensures !LineAt(t, i, l)
      {
        if LineAt(t, i, l) {
          MatchLineAtComplete(t, i, l);
        }
      }
    }
  }

  /** The balance pattern as a matcher over the whole text. */
  function LineMatcher(t: string): (m: nat -> Option<Hit<BalanceLine>>)
    ensures IsMatcher(m, |t|)
    ensures forall i: nat | i <= |t| :: m(i) == MatchLineAt(t, i)
  {
    (i: nat) => if i <= |t| then MatchLineAt(t, i) else None
  }

  /** Every match of the balance pattern in the text, in document order. */
  function Hits(t: string): (hits: seq<Hit<BalanceLine>>)
    ensures forall k | 0 <= k < |hits| :: hits[k].pos <= |t| && MatchLineAt(t, hits[k].pos) == Some(hits[k])
  {
    FindAllFrom(LineMatcher(t), |t|, 0)
  }

  /** `re.findall(balance_pattern, text)`: the groups of every match, in document order. */
  function FindAll(t: string): (lines: seq<BalanceLine>)
    ensures |lines| == |Hits(t)|
    ensures forall k | 0 <= k < |lines| :: lines[k] == Hits(t)[k].groups
  {
    var hits := Hits(t);
    seq(|hits|, k requires 0 <= k < |hits| => hits[k].groups)
  }

  /** Every reported line is a genuine match of the pattern in the text. */
  lemma FindAllSound(t: string, k: nat)
    requires k < |FindAll(t)|
    ensures exists i: nat :: LineAt(t, i, FindAll(t)[k])
  {
    var h := Hits(t)[k];
    MatchLineAtSound(t, h.pos);
  }

  /** No balance line starts anywhere in `[lo, hi)`. */
  ghost predicate NoLineIn(t: string, lo: nat, hi: nat) {
    forall i: nat, l | lo <= i < hi :: !LineAt(t, i, l)
  }

  lemma NoMatchNoLine(t: string, lo: nat, hi: nat)
    requires NoMatchIn(LineMatcher(t), lo, hi)
    ensures NoLineIn(t, lo, hi)
  {
    forall i: nat, l | lo <= i < hi
      ensures !LineAt(t, i, l)
    {
      if i <= |t| {
        assert LineMatcher(t)(i).None?;
        MatchLineAtNone(t, i);
      }
    }
  }

  /** Every hit is an occurrence of a balance line, and ends where that line ends. */
  lemma HitsAreLines(t: string)
    ensures forall k | 0 <= k < |Hits(t)| ::
              LineAt(t, Hits(t)[k].pos, Hits(t)[k].groups) && Hits(t)[k].end == Hits(t)[k].pos + |LineText(Hits(t)[k].groups)|
  {
    var hits := Hits(t);
    forall k | 0 <= k < |hits|
      ensures LineAt(t, hits[k].pos, hits[k].groups) && hits[k].end == hits[k].pos + |LineText(hits[k].groups)|
    {
      MatchLineAtSound(t, hits[k].pos);
    }
  }

  /** No balance line starts before the first hit, between two hits, or after the last. */
  lemma HitsMissNothing(t: string)
    ensures var hits := Hits(t);
            && NoLineIn(t, 0, if |hits| == 0 then |t| + 1 else hits[0].pos)
            && (forall k | 0 <= k < |hits| - 1 :: NoLineIn(t, hits[k].end, hits[k + 1].pos))
            && (|hits| > 0 ==> NoLineIn(t, hits[|hits| - 1].end, |t| + 1))
  {
    var m, hits := LineMatcher(t), Hits(t);
    FindAllFromFirst(m, |t|, 0);
    NoMatchNoLine(t, 0, if |hits| == 0 then |t| + 1 else hits[0].pos);
    forall k | 0 <= k < |hits| - 1
      ensures NoLineIn(t, hits[k].end, hits[k + 1].pos)
    {
      FindAllFromBetween(m, |t|, 0, k);
      NoMatchNoLine(t, hits[k].end, hits[k + 1].pos);
    }
    if |hits| > 0 {
      FindAllFromLast(m, |t|, 0);
      NoMatchNoLine(t, hits[|hits| - 1].end, |t| + 1);
    }
  }

  /** `findall` comes back empty exactly when the pattern matches nowhere in the text. */
  lemma FindAllEmpty(t: string)
    ensures FindAll(t) == [] <==> forall i: nat, l :: !LineAt(t, i, l)
  {
    if FindAll(t) == [] {
      FindAllFromFirst(LineMatcher(t), |t|, 0);
      forall i: nat, l
        ensures !LineAt(t, i, l)
      {
        if i <= |t| {
          assert LineMatcher(t)(i).None?;
          MatchLineAtNone(t, i);
        }
      }
    } else {
      FindAllSound(t, 0);
    }
  }
}
