/**
 * The aggregation loop: over the per-file extractions, in the order given,
 * add up the balances and keep the least start and greatest end dates of
 * the files that produced a balance. The script compares the date strings
 * as text (`Textual`); `Chronological` is the corrected comparison.
 */
module Reconcile {
  import opened Options
  import opened DateOrder
  import opened Statement

  /** `total_balance`, `global_start_date`, `global_end_date`, in cents and strings. */
  datatype Summary = Summary(total: int, start: Option<string>, end: Option<string>)

  const Initial: Summary := Summary(0, None, None)

  lemma ComparableTo(ord: Order, a: string, o: Option<string>)
    ensures o.Some? ==> Before(ord, a, o.value) || a == o.value || Before(ord, o.value, a)
  {
    if o.Some? {
      BeforeConnected(ord, a, o.value);
    }
  }

  /** One iteration of the loop body. */
  function Step(ord: Order, acc: Summary, x: Extraction): (r: Summary)
    ensures !x.Extracted? ==> r == acc
    ensures x.Extracted? ==> r.total == acc.total + x.balance
    ensures x.Extracted? ==>
              && r.start.Some? && NotAfter(ord, r.start.value, x.start)
              && (r.start.value == x.start || r.start == acc.start)
              && (acc.start.Some? ==> NotAfter(ord, r.start.value, acc.start.value))
    ensures x.Extracted? ==>
              && r.end.Some? && NotAfter(ord, x.end, r.end.value)
              && (r.end.value == x.end || r.end == acc.end)
              && (acc.end.Some? ==> NotAfter(ord, acc.end.value, r.end.value))
  {
    match x
    case Extracted(s, e, b) =>
      ComparableTo(ord, s, acc.start);
      ComparableTo(ord, e, acc.end);
      var start := if acc.start.None? || Before(ord, s, acc.start.value) then Some(s) else acc.start;
      var end := if acc.end.None? || Before(ord, acc.end.value, e) then Some(e) else acc.end;
      Summary(acc.total + b, start, end)
    case _ => acc
  }

  /** What one file adds to the total: its balance, or nothing when it has none. */
  function BalanceOf(x: Extraction): int {
    if x.Extracted? then x.balance else 0
  }

  /** The sum of the balances that are not `None`. */
  function TotalOf(xs: seq<Extraction>): (r: int)
    ensures (forall k | 0 <= k < |xs| :: !xs[k].Extracted?) ==> r == 0
    decreases |xs|
  {
    if xs == [] then 0 else BalanceOf(xs[0]) + TotalOf(xs[1..])
  }

  /** The start dates of the files that produced a balance. */
  function Starts(xs: seq<Extraction>): set<string> {
    set x | x in xs && x.Extracted? :: x.start
  }

  /** The end dates of the files that produced a balance. */
  function Ends(xs: seq<Extraction>): set<string> {
    set x | x in xs && x.Extracted? :: x.end
  }

  ghost predicate IsLeast(ord: Order, m: string, s: set<string>) {
    m in s && forall y | y in s :: NotAfter(ord, m, y)
  }

  ghost predicate IsGreatest(ord: Order, m: string, s: set<string>) {
    m in s && forall y | y in s :: NotAfter(ord, y, m)
  }

  lemma {:induction false} TotalOfConcat(a: seq<Extraction>, b: seq<Extraction>)
    ensures TotalOf(a + b) == TotalOf(a) + TotalOf(b)
    decreases |a|
  {
    if a == [] {
      assert a + b == b;
    } else {
      assert (a + b)[1..] == a[1..] + b;
      TotalOfConcat(a[1..], b);
    }
  }

  /**
   * The loop invariant: `acc` is what the loop holds after the files `xs`,
   * namely their summed balances and the least start and greatest end among
   * the files that produced one.
   */
  ghost predicate Summarizes(ord: Order, acc: Summary, xs: seq<Extraction>) {
    && acc.total == TotalOf(xs)
    && (acc.start.None? <==> Starts(xs) == {})
    && (acc.end.None? <==> Ends(xs) == {})
    && (acc.start.Some? ==> IsLeast(ord, acc.start.value, Starts(xs)))
    && (acc.end.Some? ==> IsGreatest(ord, acc.end.value, Ends(xs)))
  }

  /** Appending a file adds its dates, when it has a balance, and nothing else. */
  lemma DatesSnoc(init: seq<Extraction>, last: Extraction)
    ensures Starts(init + [last]) == Starts(init) + (if last.Extracted? then {last.start} else {})
    ensures Ends(init + [last]) == Ends(init) + (if last.Extracted? then {last.end} else {})
  {
    assert forall x :: x in init + [last] <==> x in init || x == last;
  }

  /** One more iteration keeps the invariant. */
  lemma StepKeepsSummary(ord: Order, acc: Summary, init: seq<Extraction>, last: Extraction)
    requires Summarizes(ord, acc, init)
    ensures Summarizes(ord, Step(ord, acc, last), init + [last])
  {
    var xs := init + [last];
    var r := Step(ord, acc, last);
    TotalOfConcat(init, [last]);
    DatesSnoc(init, last);
    if r.start.Some? {
      forall y | y in Starts(xs)
        ensures NotAfter(ord, r.start.value, y)
      {
        if y in Starts(init) && acc.start.Some? && r.start.value != acc.start.value && acc.start.value != y {
          BeforeTransitive(ord, r.start.value, acc.start.value, y);
        }
      }
    }
    if r.end.Some? {
      forall y | y in Ends(xs)
        ensures NotAfter(ord, y, r.end.value)
      {
        if y in Ends(init) && acc.end.Some? && r.end.value != acc.end.value && acc.end.value != y {
          BeforeTransitive(ord, y, acc.end.value, r.end.value);
        }
      }
    }
  }

  /** The loop, run over `xs` in order from the initial summary. */
  function Fold(ord: Order, xs: seq<Extraction>): (r: Summary)
    ensures Summarizes(ord, r, xs)
    decreases |xs|
  {
    if xs == [] then Initial
    else
      var init, last := xs[..|xs| - 1], xs[|xs| - 1];
      assert xs == init + [last];
      var acc := Fold(ord, init);
      StepKeepsSummary(ord, acc, init, last);
      Step(ord, acc, last)
  }

  /** Start and end are both `None` exactly when no file produced a balance. */
  lemma NoneWhenNothingExtracted(ord: Order, xs: seq<Extraction>)
    ensures Fold(ord, xs).start.None? <==> forall k | 0 <= k < |xs| :: !xs[k].Extracted?
    ensures Fold(ord, xs).start.None? <==> Fold(ord, xs).end.None?
  {
    if exists k :: 0 <= k < |xs| && xs[k].Extracted? {
      var k :| 0 <= k < |xs| && xs[k].Extracted?;
      assert xs[k].start in Starts(xs);
      assert xs[k].end in Ends(xs);
    } else {
      assert Starts(xs) == {};
      assert Ends(xs) == {};
    }
  }

  /** A least (greatest) element of a set is unique, so the summary depends only on the set of dates. */
  lemma LeastUnique(ord: Order, a: string, b: string, s: set<string>)
    requires IsLeast(ord, a, s) && IsLeast(ord, b, s)
    ensures a == b
  {
    NotAfterAntisymmetric(ord, a, b);
  }

  lemma GreatestUnique(ord: Order, a: string, b: string, s: set<string>)
    requires IsGreatest(ord, a, s) && IsGreatest(ord, b, s)
    ensures a == b
  {
    NotAfterAntisymmetric(ord, a, b);
  }

  /** Taking one file out of the list takes its balance out of the total. */
  lemma TotalOfRemove(ys: seq<Extraction>, k: nat)
    requires k < |ys|
    ensures TotalOf(ys) == BalanceOf(ys[k]) + TotalOf(ys[..k] + ys[k + 1..])
  {
    var a, b := ys[..k], ys[k + 1..];
    var c := [ys[k]] + b;
    assert c != [] && c[0] == ys[k] && c[1..] == b;
    assert TotalOf(c) == BalanceOf(ys[k]) + TotalOf(b);
    assert ys == a + c;
    TotalOfConcat(a, c);
    TotalOfConcat(a, b);
  }

  lemma MultisetRemove(ys: seq<Extraction>, k: nat)
    requires k < |ys|
    ensures multiset(ys[..k] + ys[k + 1..]) == multiset(ys) - multiset{ys[k]}
  {
    assert ys == ys[..k] + [ys[k]] + ys[k + 1..];
  }

  /** The total is the same whatever order the files come in. */
  lemma {:induction false} TotalOfPermutation(xs: seq<Extraction>, ys: seq<Extraction>)
    requires multiset(xs) == multiset(ys)
    ensures TotalOf(xs) == TotalOf(ys)
    decreases |xs|
  {
    if xs == [] {
      assert |multiset(ys)| == 0;
    } else {
      var x := xs[0];
      assert x in multiset(ys);
      var k :| 0 <= k < |ys| && ys[k] == x;
      MultisetRemove(ys, k);
      assert multiset(xs[1..]) == multiset(xs) - multiset{x} by {
        assert xs == [x] + xs[1..];
      }
      TotalOfPermutation(xs[1..], ys[..k] + ys[k + 1..]);
      TotalOfRemove(ys, k);
    }
  }

  /**
   * The result does not depend on the order the files are processed in: the
   * sort by file name only fixes an order, it does not change the summary.
   */
  lemma FoldPermutation(ord: Order, xs: seq<Extraction>, ys: seq<Extraction>)
    requires multiset(xs) == multiset(ys)
    ensures Fold(ord, xs) == Fold(ord, ys)
  {
    TotalOfPermutation(xs, ys);
    assert forall x :: x in xs <==> x in ys by {
      forall x
        ensures x in xs <==> x in ys
      {
        assert x in xs <==> x in multiset(xs);
      }
    }
    assert Starts(xs) == Starts(ys);
    assert Ends(xs) == Ends(ys);
    var a, b := Fold(ord, xs), Fold(ord, ys);
    if a.start.Some? {
      LeastUnique(ord, a.start.value, b.start.value, Starts(xs));
    }
    if a.end.Some? {
      GreatestUnique(ord, a.end.value, b.end.value, Ends(xs));
    }
  }

  /** Files without a balance can be dropped from the input without changing the summary. */
  lemma {:induction false} FoldIgnoresUnextracted(ord: Order, xs: seq<Extraction>, x: Extraction)
    requires !x.Extracted?
    ensures Fold(ord, xs + [x]) == Fold(ord, xs)
  {
    assert (xs + [x])[..|xs|] == xs;
  }
}
