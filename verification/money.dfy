/**
 * Amounts in integer cents: reading a matched `$1,234.56` back as a number
 * (`float(amount.replace("$", "").replace(",", ""))`) and rendering a total
 * the way `f"${total:,.2f}"` does.
 */
module Money {
  import opened Chars
  import opened Patterns

  // ------------------------------------------------------------ reading

  /** `s.replace(c, "")`: `s` with every `c` taken out, the rest kept in order. */
  function Remove(s: string, c: char): (r: string)
    ensures |r| <= |s|
    ensures forall k | 0 <= k < |r| :: r[k] != c
  {
    if s == [] then []
    else (if s[0] == c then [] else [s[0]]) + Remove(s[1..], c)
  }

  lemma {:induction false} RemoveConcat(a: string, b: string, c: char)
    ensures Remove(a + b, c) == Remove(a, c) + Remove(b, c)
    decreases |a|
  {
    if a != [] {
      assert (a + b)[1..] == a[1..] + b;
      RemoveConcat(a[1..], b, c);
    } else {
      assert a + b == b;
    }
  }

  /** Removal takes out every `c` and keeps every other character exactly as often as it occurs. */
  lemma {:induction false} RemoveMultiset(s: string, c: char)
    ensures multiset(Remove(s, c)) == multiset(s)[c := 0]
    decreases |s|
  {
    if s != [] {
      RemoveMultiset(s[1..], c);
      assert s == [s[0]] + s[1..];
    }
  }

  lemma {:induction false} RemoveAbsent(s: string, c: char)
    requires c !in s
    ensures Remove(s, c) == s
    decreases |s|
  {
    if s != [] {
      RemoveAbsent(s[1..], c);
    }
  }

  /** `D*.DD`: the only shape `float()` is given once `$` and `,` are stripped from a matched amount. */
  predicate IsTwoDecimal(x: string) {
    |x| >= 3 && x[|x| - 3] == '.' && AllDigits(x[..|x| - 3]) && AllDigits(x[|x| - 2..])
  }

  /** `float(x)` for such a numeral, exactly, in cents; an empty integer part reads as 0, as in `float(".50")`. */
  function DecimalCents(x: string): (r: nat)
    requires IsTwoDecimal(x)
    ensures r / 100 == Num(x[..|x| - 3]) && r % 100 == Num(x[|x| - 2..])
  {
    NumTwoDigits(x[|x| - 2..]);
    100 * Num(x[..|x| - 3]) + Num(x[|x| - 2..])
  }

  /** The two `replace` calls applied to the matched amount. */
  function Strip(a: string): (r: string)
    ensures |r| <= |a|
    ensures forall k | 0 <= k < |r| :: r[k] != ','
  {
    Remove(Remove(a, '$'), ',')
  }

  /** The digits and commas between `$` and `.`, and the `.DD` after them. */
  lemma AmountPieces(a: string)
    requires IsAmount(a)
    ensures a == "$" + a[1..|a| - 3] + a[|a| - 3..]
    ensures '$' !in a[1..|a| - 3] && '$' !in a[|a| - 3..] && ',' !in a[|a| - 3..]
  {
    var mid := a[1..|a| - 3];
    forall k | 0 <= k < |mid|
      ensures mid[k] != '$'
    {
      assert InClass(mid[k], DigitOrComma);
    }
  }

  /** Removing a character that occurs only in front drops just that first character. */
  lemma RemoveLeading(s: string, c: char)
    requires |s| > 0 && s[0] == c && c !in s[1..]
    ensures Remove(s, c) == s[1..]
  {
    RemoveAbsent(s[1..], c);
  }

  lemma RemoveDollar(a: string)
    requires IsAmount(a)
    ensures Remove(a, '$') == a[1..]
  {
    AmountPieces(a);
    assert a[1..] == a[1..|a| - 3] + a[|a| - 3..];
    RemoveLeading(a, '$');
  }

  /** Commas dropped from digits-and-commas leave digits only. */
  lemma {:induction false} RemoveCommasDigits(s: string)
    requires AllIn(s, DigitOrComma)
    ensures AllDigits(Remove(s, ','))
    decreases |s|
  {
    if s != [] {
      assert AllIn(s[1..], DigitOrComma);
      RemoveCommasDigits(s[1..]);
      assert InClass(s[0], DigitOrComma);
    }
  }

  /** The `$` goes with the first `replace`, the commas of the integer part with the second. */
  lemma StripPieces(a: string)
    requires IsAmount(a)
    ensures Strip(a) == Remove(a[1..|a| - 3], ',') + a[|a| - 3..]
  {
    var mid, tail := a[1..|a| - 3], a[|a| - 3..];
    AmountPieces(a);
    RemoveDollar(a);
    assert a[1..] == mid + tail;
    RemoveConcat(mid, tail, ',');
    RemoveAbsent(tail, ',');
  }

  /** Stripping a matched amount leaves the integer digits without their commas, then `.DD`. */
  lemma StripAmount(a: string)
    requires IsAmount(a)
    ensures Strip(a) == Remove(a[1..|a| - 3], ',') + a[|a| - 3..]
    ensures IsTwoDecimal(Strip(a))
  {
    var mid, tail := a[1..|a| - 3], a[|a| - 3..];
    StripPieces(a);
    var x := Strip(a);
    var m := Remove(mid, ',');
    RemoveCommasDigits(mid);
    assert x[..|x| - 3] == m;
    assert x[|x| - 2..] == tail[1..];
  }

  /**
   * The value of a matched amount in cents: the digits between `$` and `.`
   * with their commas dropped are the dollars, the two after `.` the cents.
   * No sign can be matched, so it is never negative.
   */
  function AmountCents(a: string): (r: int)
    requires IsAmount(a)
    ensures r >= 0
    ensures AllDigits(Remove(a[1..|a| - 3], ','))
    ensures r / 100 == Num(Remove(a[1..|a| - 3], ','))
    ensures r % 100 == Num(a[|a| - 2..])
  {
    StripAmount(a);
    RemoveCommasDigits(a[1..|a| - 3]);
    var x := Strip(a);
    assert x[|x| - 2..] == a[|a| - 2..];
    NumTwoDigits(x[|x| - 2..]);
    DecimalCents(x)
  }

  // ------------------------------------------------------------ writing

  /** The decimal digits of `n`, without leading zeros (`"0"` for zero). */
  function Digits(n: nat): (r: string)
    ensures |r| >= 1 && AllDigits(r)
    ensures Num(r) == n
    ensures r[0] == '0' ==> r == "0"
    decreases n
  {
    if n < 10 then [DigitChar(n)]
    else
      var p := Digits(n / 10);
      var r := p + [DigitChar(n % 10)];
      assert r[..|r| - 1] == p;
      r
  }

  /** The `,` option of Python's format mini-language: a comma before every third digit from the right. */
  function Group(ds: string): (r: string)
    requires AllDigits(ds)
    ensures AllIn(r, DigitOrComma)
    ensures |r| > 0 <==> |ds| > 0
    ensures forall k | 0 <= k < |r| :: r[k] == ',' <==> (|r| - k) % 4 == 0
    ensures |ds| > 0 ==> r[0] != ','
    decreases |ds|
  {
    if |ds| <= 3 then ds
    else
      var head := Group(ds[..|ds| - 3]);
      var r := head + "," + ds[|ds| - 3..];
      assert forall k | 0 <= k < |head| :: r[k] == head[k];
      assert forall k | |head| < k < |r| :: r[k] == ds[|ds| - 3..][k - |head| - 1];
      r
  }

  /** Taking the commas back out of a grouped numeral gives the digits that were grouped. */
  lemma {:induction false} UngroupGroup(ds: string)
    requires AllDigits(ds)
    ensures Remove(Group(ds), ',') == ds
    decreases |ds|
  {
    if |ds| <= 3 {
      RemoveAbsent(ds, ',');
    } else {
      var pre, last := ds[..|ds| - 3], ds[|ds| - 3..];
      var g := Group(pre);
      assert Group(ds) == g + "," + last;
      UngroupGroup(pre);
      RemoveConcat(g + ",", last, ',');
      RemoveConcat(g, ",", ',');
      RemoveAbsent(last, ',');
      assert Remove(",", ',') == [];
      assert pre + last == ds;
    }
  }

  /** Two digits, zero-padded: the `.2f` cents. */
  function Cents2(n: nat): (r: string)
    requires n < 100
    ensures |r| == 2 && AllDigits(r) && Num(r) == n
  {
    var r := [DigitChar(n / 10), DigitChar(n % 10)];
    NumTwoDigits(r);
    r
  }

  function Abs(c: int): nat {
    if c < 0 then -c else c
  }

  /** `f"${c / 100:,.2f}"` for a value of `c` cents; Python puts a minus sign after the `$`. */
  function FormatCents(c: int): (r: string)
    ensures |r| >= 5 && r[0] == '$' && r[|r| - 3] == '.'
    ensures r[1] == '-' <==> c < 0
  {
    "$" + (if c < 0 then "-" else "") + Group(Digits(Abs(c) / 100)) + "." + Cents2(Abs(c) % 100)
  }

  /** Where the dollars and the cents sit in `$<g>.<p>`. */
  lemma DollarPieces(g: string, p: string)
    requires |g| > 0 && |p| == 2
    ensures var s := "$" + g + "." + p;
            && |s| >= 5
            && s[0] == '$'
            && s[1..|s| - 3] == g
            && s[|s| - 3] == '.'
            && s[|s| - 2..] == p
  {
    var s := "$" + g + "." + p;
    assert s[1..|s| - 3] == g;
    assert s[|s| - 2..] == p;
  }

  /** The formatted text is `$`, the grouped dollars, `.`, and the two cents digits. */
  lemma FormatPieces(c: int)
    requires c >= 0
    ensures var s := FormatCents(c);
            && |s| >= 5
            && s[0] == '$'
            && s[1..|s| - 3] == Group(Digits(c / 100))
            && s[|s| - 3] == '.'
            && s[|s| - 2..] == Cents2(c % 100)
  {
    var g, p := Group(Digits(c / 100)), Cents2(c % 100);
    assert FormatCents(c) == "$" + g + "." + p;
    DollarPieces(g, p);
  }

  /** A non-negative total, once formatted, is accepted by the amount pattern and reads back as the same value. */
  lemma FormatRoundTrip(c: int)
    requires c >= 0
    ensures IsAmount(FormatCents(c))
    ensures AmountCents(FormatCents(c)) == c
  {
    var ds := Digits(c / 100);
    var s := FormatCents(c);
    FormatPieces(c);
    assert IsAmount(s);
    UngroupGroup(ds);
    var r := AmountCents(s);
    assert r / 100 == c / 100 && r % 100 == c % 100;
  }

  /** A negative value formats with a sign the amount pattern cannot match. */
  lemma FormatNegativeUnreadable(c: int)
    requires c < 0
    ensures !IsAmount(FormatCents(c))
  {
    var s := FormatCents(c);
    assert s[1] == '-';
    if |s| >= 5 {
      assert s[1..|s| - 3][0] == '-';
    }
  }

  /** Distinct values format differently, since each reads back as itself. */
  lemma FormatInjective(c: int, d: int)
    requires c >= 0 && d >= 0 && FormatCents(c) == FormatCents(d)
    ensures c == d
  {
    FormatRoundTrip(c);
    FormatRoundTrip(d);
  }
}
