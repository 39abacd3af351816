/**
 * `re.findall` for a pattern given by its single-position matcher: try each
 * position of the text in turn and, after a match, resume at its end, so
 * matches never overlap. Nothing here depends on what the pattern is.
 */
module Scan {
  import opened Options

  /** One match: where it starts, where it ends, and its captured groups. */
  datatype Hit<G> = Hit(pos: nat, end: nat, groups: G)

  /** `m` tries a pattern at one position of a text of length `n`; a match is never empty and stays inside the text. */
  ghost predicate IsMatcher<G>(m: nat -> Option<Hit<G>>, n: nat) {
    forall i: nat :: m(i).Some? ==> m(i).value.pos == i < m(i).value.end <= n
  }

  /** No match starts in `[lo, hi)`. */
  ghost predicate NoMatchIn<G>(m: nat -> Option<Hit<G>>, lo: nat, hi: nat) {
    forall i: nat | lo <= i < hi :: m(i).None?
  }

  /** Every match from `from` on, in document order. */
  function FindAllFrom<G>(m: nat -> Option<Hit<G>>, n: nat, from: nat): (hits: seq<Hit<G>>)
    requires IsMatcher(m, n)
    requires from <= n
    ensures forall k | 0 <= k < |hits| :: from <= hits[k].pos && m(hits[k].pos) == Some(hits[k])
    ensures forall k | 0 <= k < |hits| - 1 :: hits[k].end <= hits[k + 1].pos
    decreases n - from
  {
    match m(from)
    case Some(h) => [h] + FindAllFrom(m, n, h.end)
    case None => if from == n then [] else FindAllFrom(m, n, from + 1)
  }

  /** No match starts before the first hit (anywhere at all when there is none). */
  lemma {:induction false} FindAllFromFirst<G>(m: nat -> Option<Hit<G>>, n: nat, from: nat)
    requires IsMatcher(m, n)
    requires from <= n
    ensures var hits := FindAllFrom(m, n, from);
            NoMatchIn(m, from, if |hits| == 0 then n + 1 else hits[0].pos)
    decreases n - from
  {
    var hits := FindAllFrom(m, n, from);
    if m(from).None? && from < n {
      assert hits == FindAllFrom(m, n, from + 1);
      FindAllFromFirst(m, n, from + 1);
    }
  }

  /** No match starts between the end of one hit and the start of the next. */
  lemma {:induction false} FindAllFromBetween<G>(m: nat -> Option<Hit<G>>, n: nat, from: nat, k: nat)
    requires IsMatcher(m, n)
    requires from <= n
    requires k + 1 < |FindAllFrom(m, n, from)|
    ensures var hits := FindAllFrom(m, n, from);
            NoMatchIn(m, hits[k].end, hits[k + 1].pos)
    decreases n - from
  {
    var hits := FindAllFrom(m, n, from);
    match m(from)
    case Some(h) =>
      var rest := FindAllFrom(m, n, h.end);
      assert hits == [h] + rest;
      assert hits[k + 1] == rest[k];
      if k == 0 {
        assert hits[0] == h;
        FindAllFromFirst(m, n, h.end);
      } else {
        assert hits[k] == rest[k - 1];
        FindAllFromBetween(m, n, h.end, k - 1);
      }
    case None =>
      assert from < n;
      assert hits == FindAllFrom(m, n, from + 1);
      FindAllFromBetween(m, n, from + 1, k);
  }

  /** No match starts after the end of the last hit. */
  lemma {:induction false} FindAllFromLast<G>(m: nat -> Option<Hit<G>>, n: nat, from: nat)
    requires IsMatcher(m, n)
    requires from <= n
    requires |FindAllFrom(m, n, from)| > 0
    ensures var hits := FindAllFrom(m, n, from);
            NoMatchIn(m, hits[|hits| - 1].end, n + 1)
    decreases n - from
  {
    var hits := FindAllFrom(m, n, from);
    match m(from)
    case Some(h) =>
      var rest := FindAllFrom(m, n, h.end);
      assert hits == [h] + rest;
      if |rest| == 0 {
        FindAllFromFirst(m, n, h.end);
        assert hits[|hits| - 1] == h;
      } else {
        FindAllFromLast(m, n, h.end);
        assert hits[|hits| - 1] == rest[|rest| - 1];
      }
    case None =>
      assert from < n;
      assert hits == FindAllFrom(m, n, from + 1);
      FindAllFromLast(m, n, from + 1);
  }
}
