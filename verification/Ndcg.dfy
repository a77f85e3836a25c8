/** Normalised discounted cumulative gain: how close a ranking comes to the best order. */
module Ndcg {
  import opened PyText

  /** Relevances by rank; the source has zeros and ones. */
  type Ranking = seq<nat>

  /** `relevance[:k]`. */
  function Cut(s: Ranking, k: int): (r: Ranking)
    ensures |r| <= |s| && r == s[..|r|]
  {
    if k >= 0 then s[..Min(k, |s|)] else s[..Max(0, |s| + k)]
  }

  function Gain(value: real, discount: real): real {
    value * discount
  }

  function Dcg(s: Ranking, discount: nat -> real): real {
    if s == [] then 0.0
    else
      var n := |s| - 1;
      Dcg(s[..n], discount) + Gain(s[n] as real, discount(n))
  }

  function Insert(x: nat, s: Ranking): (r: Ranking)
    ensures |r| == |s| + 1
  {
    if s == [] || x >= s[0] then [x] + s else [s[0]] + Insert(x, s[1..])
  }

  /** `sorted(relevance, reverse=True)`. */
  function SortDescending(s: Ranking): (r: Ranking)
    ensures |r| == |s|
  {
    if s == [] then [] else Insert(s[|s| - 1], SortDescending(s[..|s| - 1]))
  }

  function NdcgAt(relevance: Ranking, k: int, discount: nat -> real): real {
    var dcg := Dcg(Cut(relevance, k), discount);
    var idcg := Dcg(Cut(SortDescending(relevance), k), discount);
    if idcg != 0.0 then dcg / idcg else 0.0
  }

  /** The gain of a ranking adds up those of its ranks. */
  lemma DcgAddsUp(s: Ranking, x: nat, discount: nat -> real)
    ensures Dcg([], discount) == 0.0
    ensures Dcg(s + [x], discount) == Dcg(s, discount) + Gain(x as real, discount(|s|))
  {
    hide Gain;
    assert (s + [x])[..|s|] == s;
  }

  /** Each relevance is discounted at its rank. */
  lemma GainIsDiscounted(value: real, discount: real)
    ensures Gain(value, discount) == value * discount
    ensures Gain(0.0, discount) == 0.0 && Gain(1.0, discount) == discount
  {
  }

  /** A negative `k` leaves out that many at the end. */
  lemma CutLength(s: Ranking, k: int)
    ensures 0 <= k <= |s| ==> |Cut(s, k)| == k
    ensures k > |s| ==> Cut(s, k) == s
    ensures -|s| <= k < 0 ==> |Cut(s, k)| == |s| + k
    ensures k < -|s| ==> Cut(s, k) == []
  {
  }

  /** The metric compares the gain of the ranking with that of the same relevances in the best order. */
  lemma NdcgIsRatio(relevance: Ranking, best: Ranking, k: int, discount: nat -> real)
    requires Descending(best) && multiset(best) == multiset(relevance)
    ensures var gain, most := Dcg(Cut(relevance, k), discount), Dcg(Cut(best, k), discount);
      if most == 0.0 then NdcgAt(relevance, k, discount) == 0.0
      else NdcgAt(relevance, k, discount) * most == gain
  {
    hide Dcg;
    hide Cut;
    hide SortDescending;
    hide Descending;
    SortsDescending(relevance);
    DescendingOrderIsUnique(best, SortDescending(relevance));
    if Dcg(Cut(best, k), discount) != 0.0 { Quotient(Dcg(Cut(relevance, k), discount), Dcg(Cut(best, k), discount)); }
  }

  lemma Quotient(a: real, b: real)
    requires b != 0.0
    ensures a / b * b == a
  {
  }

  /** What `1 / log2(index + 2)` is: positive, and smaller further down. */
  ghost predicate Discounts(discount: nat -> real) {
    && (forall i: nat :: discount(i) > 0.0)
    && (forall i: nat, j: nat :: i < j ==> discount(i) >= discount(j))
  }

  ghost predicate StrictlyDiscounts(discount: nat -> real) {
    Discounts(discount) && forall i: nat, j: nat :: i < j ==> discount(i) > discount(j)
  }

  // ----- sorting -----

  predicate AtMost(s: Ranking, bound: nat) {
    forall i | 0 <= i < |s| :: s[i] <= bound
  }

  predicate Descending(s: Ranking) {
    s == [] || (AtMost(s[1..], s[0]) && Descending(s[1..]))
  }

  lemma {:induction false} InsertSorts(x: nat, s: Ranking)
    requires Descending(s)
    ensures Descending(Insert(x, s))
  {
    hide AtMost;
    if s != [] {
      var r := Insert(x, s);
      if x >= s[0] {
        HeadIsMost(s, x);
        assert r[1..] == s;
      } else {
        InsertSorts(x, s[1..]);
        InsertAtMost(x, s[1..], s[0]);
        assert r[1..] == Insert(x, s[1..]);
      }
    } else {
      NothingAtMost(x);
    }
  }

  lemma NothingAtMost(bound: nat)
    ensures AtMost([], bound)
  {
  }

  lemma HeadIsMost(s: Ranking, bound: nat)
    requires s != [] && Descending(s) && s[0] <= bound
    ensures AtMost(s, bound)
  {
    assert forall i :: 0 < i < |s| ==> s[i] == s[1..][i - 1];
  }

  lemma {:induction false} InsertAtMost(x: nat, s: Ranking, bound: nat)
    requires AtMost(s, bound) && x <= bound
    ensures AtMost(Insert(x, s), bound)
  {
    if s != [] { InsertAtMost(x, s[1..], bound); }
  }

  lemma {:induction false} InsertKeeps(x: nat, s: Ranking)
    ensures multiset(Insert(x, s)) == multiset(s) + multiset{x}
  {
    if s != [] {
      InsertKeeps(x, s[1..]);
      assert s == [s[0]] + s[1..];
    }
  }

  lemma {:induction false} SortsDescending(s: Ranking)
    ensures Descending(SortDescending(s)) && multiset(SortDescending(s)) == multiset(s)
  {
    if s != [] {
      SortsDescending(s[..|s| - 1]);
      InsertSorts(s[|s| - 1], SortDescending(s[..|s| - 1]));
      InsertKeeps(s[|s| - 1], SortDescending(s[..|s| - 1]));
      assert s == s[..|s| - 1] + [s[|s| - 1]];
    }
  }

  lemma MostOf(s: Ranking, x: nat)
    requires Descending(s) && x in multiset(s)
    ensures s != [] && x <= s[0]
  {
    HeadIsMost(s, s[0]);
  }

  lemma TailsAgree(s: Ranking, t: Ranking)
    requires s != [] && t != [] && s[0] == t[0] && multiset(s) == multiset(t)
    ensures multiset(s[1..]) == multiset(t[1..])
  {
    assert s == [s[0]] + s[1..] && t == [t[0]] + t[1..];
    assert multiset(s[1..]) == multiset(s) - multiset{s[0]};
    assert multiset(t[1..]) == multiset(t) - multiset{t[0]};
  }

  /** There is only one descending order, whatever way it is sorted. */
  lemma {:induction false} DescendingOrderIsUnique(s: Ranking, t: Ranking)
    requires Descending(s) && Descending(t) && multiset(s) == multiset(t)
    ensures s == t
  {
    hide AtMost;
    if s == [] {
      assert |multiset(t)| == |t|;
    } else {
      assert s[0] in multiset(s);
      MostOf(t, s[0]);
      assert t[0] in multiset(t);
      MostOf(s, t[0]);
      TailsAgree(s, t);
      DescendingOrderIsUnique(s[1..], t[1..]);
      assert s == [s[0]] + s[1..] && t == [t[0]] + t[1..];
    }
  }

  // ----- prefix sums -----

  function Sum(s: Ranking): nat {
    if s == [] then 0 else Sum(s[..|s| - 1]) + s[|s| - 1]
  }

  lemma {:induction false} SumConcat(a: Ranking, b: Ranking)
    ensures Sum(a + b) == Sum(a) + Sum(b)
  {
    if b == [] {
      assert a + b == a;
    } else {
      SumConcat(a, b[..|b| - 1]);
      assert (a + b)[..|a + b| - 1] == a + b[..|b| - 1];
    }
  }

  /** Inserting leaves every prefix worth at least what it was, and at least `x` more than the
      prefix one shorter. */
  lemma {:induction false} InsertRaisesPrefixes(x: nat, s: Ranking, i: nat)
    requires Descending(s) && i <= |s|
    ensures Sum(Insert(x, s)[..i]) >= Sum(s[..i])
    ensures Sum(Insert(x, s)[..i + 1]) >= Sum(s[..i]) + x
  {
    hide AtMost;
    hide Sum;
    if s == [] || x >= s[0] {
      PutFirst(x, s, i);
    } else {
      var rest := Insert(x, s[1..]);
      HeadsSum(s[0], rest, i);
      if i > 0 {
        InsertRaisesPrefixes(x, s[1..], i - 1);
        HeadsSum(s[0], rest, i - 1);
        assert s == [s[0]] + s[1..];
        HeadsSum(s[0], s[1..], i - 1);
      } else {
        assert rest[..0] == [] && s[..0] == [];
        NothingSums();
      }
    }
  }

  lemma NothingSums()
    ensures Sum([]) == 0
  {
  }

  lemma PutFirst(x: nat, s: Ranking, i: nat)
    requires Descending(s) && i <= |s| && (s != [] ==> s[0] <= x)
    ensures Sum(([x] + s)[..i]) >= Sum(s[..i])
    ensures Sum(([x] + s)[..i + 1]) == Sum(s[..i]) + x
  {
    hide AtMost;
    hide Sum;
    HeadsSum(x, s, i);
    if i > 0 {
      HeadIsMost(s, x);
      EachAtMost(s, x, i - 1);
      HeadsSum(x, s, i - 1);
      SumStep(s, i - 1);
    } else {
      assert ([x] + s)[..0] == s[..0];
    }
  }

  lemma SumStep(s: Ranking, i: nat)
    requires i < |s|
    ensures Sum(s[..i + 1]) == Sum(s[..i]) + s[i]
  {
    assert s[..i + 1][..i] == s[..i];
  }

  lemma EachAtMost(s: Ranking, bound: nat, i: nat)
    requires AtMost(s, bound) && i < |s|
    ensures s[i] <= bound
  {
  }

  lemma SumOfOne(x: nat)
    ensures Sum([x]) == x
  {
    assert [x][..0] == [];
  }

  lemma HeadsSum(x: nat, rest: Ranking, i: nat)
    requires i <= |rest|
    ensures Sum(([x] + rest)[..i + 1]) == x + Sum(rest[..i])
  {
    assert ([x] + rest)[..i + 1] == [x] + rest[..i];
    SumConcat([x], rest[..i]);
    SumOfOne(x);
  }

  /** No order puts more relevance into a prefix than the sorted one. */
  lemma {:induction false} SortedPrefixIsLargest(s: Ranking, i: nat)
    requires i <= |s|
    ensures Sum(s[..i]) <= Sum(SortDescending(s)[..i])
  {
    hide Sum;
    hide Insert;
    hide Descending;
    if i == 0 {
      assert s[..0] == SortDescending(s)[..0];
    } else {
      var n := |s| - 1;
      var init := s[..n];
      SortsDescending(init);
      if i <= n {
        SortedPrefixIsLargest(init, i);
        InsertRaisesPrefixes(s[n], SortDescending(init), i);
        assert init[..i] == s[..i];
      } else {
        SortedPrefixIsLargest(init, n);
        InsertRaisesPrefixes(s[n], SortDescending(init), n);
        SumStep(s, n);
        assert init[..n] == init;
      }
    }
  }

  // ----- summation by parts -----

  ghost predicate Dominates(b: Ranking, a: Ranking) {
    |a| == |b| && forall i | 0 <= i <= |a| :: Sum(a[..i]) <= Sum(b[..i])
  }

  function Lead(b: Ranking, a: Ranking): real {
    Sum(b) as real - Sum(a) as real
  }

  lemma DominatesPrefix(b: Ranking, a: Ranking, n: nat)
    requires Dominates(b, a) && n <= |a|
    ensures Dominates(b[..n], a[..n]) && Lead(b[..n], a[..n]) >= 0.0 && |a| == |b|
  {
    forall i | 0 <= i <= n ensures Sum(a[..n][..i]) <= Sum(b[..n][..i]) {
      assert a[..n][..i] == a[..i] && b[..n][..i] == b[..i];
    }
  }

  lemma GainsAdd(x: real, y: real, d: real)
    ensures Gain(x + y, d) == Gain(x, d) + Gain(y, d)
  {
  }

  lemma GainsCompare(x: real, high: real, low: real)
    requires x >= 0.0 && high >= low
    ensures Gain(x, high) >= Gain(x, low)
    ensures x > 0.0 && high > low ==> Gain(x, high) > Gain(x, low)
    ensures low > 0.0 ==> Gain(x, low) >= 0.0
    ensures low > 0.0 && x > 0.0 ==> Gain(x, low) > 0.0
  {
  }

  lemma Scaled(lead: real, more: real, high: real, low: real)
    requires lead >= 0.0 && high >= low
    ensures Gain(lead, high) + Gain(more, low) >= Gain(lead + more, low)
    ensures lead > 0.0 && high > low ==> Gain(lead, high) + Gain(more, low) > Gain(lead + more, low)
  {
    hide Gain;
    GainsCompare(lead, high, low);
    GainsAdd(lead, more, low);
  }

  /** What `b` has over `a` at the last rank. */
  function More(b: Ranking, a: Ranking): real
    requires |a| == |b| > 0
  {
    b[|b| - 1] as real - a[|a| - 1] as real
  }

  lemma OneRankMore(b: Ranking, a: Ranking, discount: nat -> real)
    requires |a| == |b| > 0
    ensures
      var n := |a| - 1;
      && Lead(b, a) == Lead(b[..n], a[..n]) + More(b, a)
      && Dcg(b, discount) - Dcg(a, discount)
         == Dcg(b[..n], discount) - Dcg(a[..n], discount) + Gain(More(b, a), discount(n))
  {
    hide Gain;
    var n := |a| - 1;
    GainsAdd(More(b, a), a[n] as real, discount(n));
  }

  lemma StartsEven(b: Ranking, a: Ranking, discount: nat -> real)
    ensures Lead(b[..0], a[..0]) == 0.0
    ensures Dcg(b[..0], discount) == Dcg(a[..0], discount) == 0.0
  {
  }

  /** The gain a dominating ranking has over another is at least its lead in relevance, discounted
      at the last rank. */
  lemma {:induction false} GainOfLead(b: Ranking, a: Ranking, discount: nat -> real)
    requires Discounts(discount) && Dominates(b, a) && a != []
    ensures Dcg(b, discount) - Dcg(a, discount) >= Gain(Lead(b, a), discount(|a| - 1))
  {
    hide Dominates;
    hide More;
    hide Gain;
    hide Dcg;
    hide Lead;
    var n := |a| - 1;
    DominatesPrefix(b, a, n);
    OneRankMore(b, a, discount);
    if n == 0 {
      StartsEven(b, a, discount);
    } else {
      GainOfLead(b[..n], a[..n], discount);
      Scaled(Lead(b[..n], a[..n]), More(b, a), discount(n - 1), discount(n));
    }
  }

  /** With a strict discount a lead anywhere before the end counts for more than that. */
  lemma {:induction false} EarlyLeadGainsMore(b: Ranking, a: Ranking, i: nat, discount: nat -> real)
    requires StrictlyDiscounts(discount) && Dominates(b, a) && i < |a|
    requires Lead(b[..i], a[..i]) > 0.0
    ensures Dcg(b, discount) - Dcg(a, discount) > Gain(Lead(b, a), discount(|a| - 1))
  {
    hide Dominates;
    hide More;
    hide Gain;
    hide Dcg;
    hide Lead;
    var n := |a| - 1;
    DominatesPrefix(b, a, n);
    OneRankMore(b, a, discount);
    StartsEven(b, a, discount);
    if i < n {
      assert a[..n][..i] == a[..i] && b[..n][..i] == b[..i];
      EarlyLeadGainsMore(b[..n], a[..n], i, discount);
    } else {
      GainOfLead(b[..n], a[..n], discount);
    }
    Scaled(Lead(b[..n], a[..n]), More(b, a), discount(n - 1), discount(n));
  }

  /** Different rankings differ in some prefix sum. */
  lemma {:induction false} SumsDiffer(b: Ranking, a: Ranking) returns (i: nat)
    requires |a| == |b| && a != b
    ensures i <= |a| && Sum(a[..i]) != Sum(b[..i])
  {
    var n := |a| - 1;
    assert a == a[..n] + [a[n]] && b == b[..n] + [b[n]];
    if Sum(a[..n]) != Sum(b[..n]) {
      i := n;
    } else if a[n] != b[n] {
      i := n + 1;
      assert a[..i] == a && b[..i] == b;
    } else {
      i := SumsDiffer(b[..n], a[..n]);
      assert a[..n][..i] == a[..i] && b[..n][..i] == b[..i];
    }
  }

  lemma DominatesWhole(b: Ranking, a: Ranking)
    requires Dominates(b, a)
    ensures |a| == |b| && Lead(b, a) >= 0.0
  {
    DominatesPrefix(b, a, |a|);
    assert a[..|a|] == a && b[..|a|] == b;
  }

  lemma DominatingGains(b: Ranking, a: Ranking, discount: nat -> real)
    requires Discounts(discount) && Dominates(b, a)
    ensures Dcg(b, discount) >= Dcg(a, discount)
  {
    hide Gain;
    hide Dcg;
    hide Lead;
    DominatesWhole(b, a);
    if a != [] {
      GainOfLead(b, a, discount);
      GainsCompare(Lead(b, a), discount(|a| - 1), discount(|a| - 1));
    } else {
      assert b == a;
    }
  }

  lemma DominatingGainsStrictly(b: Ranking, a: Ranking, discount: nat -> real)
    requires StrictlyDiscounts(discount) && Dominates(b, a) && a != b
    ensures Dcg(b, discount) > Dcg(a, discount)
  {
    hide Gain;
    hide Dcg;
    hide Dominates;
    DominatesWhole(b, a);
    var i := SumsDiffer(b, a);
    DominatesPrefix(b, a, i);
    LeadsBy(b, a, i);
    hide Sum;
    if i < |a| {
      EarlyLeadGainsMore(b, a, i, discount);
    } else {
      assert a[..|a|] == a && b[..|a|] == b;
      GainOfLead(b, a, discount);
    }
    GainsCompare(Lead(b, a), discount(|a| - 1), discount(|a| - 1));
  }

  lemma LeadsBy(b: Ranking, a: Ranking, i: nat)
    requires |a| == |b| && i <= |a| && Lead(b[..i], a[..i]) >= 0.0 && Sum(a[..i]) != Sum(b[..i])
    ensures Lead(b[..i], a[..i]) > 0.0 && |a| > 0
  {
  }

  lemma {:induction false} DcgIsNotNegative(s: Ranking, discount: nat -> real)
    requires Discounts(discount)
    ensures Dcg(s, discount) >= 0.0
  {
    if s != [] {
      var n := |s| - 1;
      DcgIsNotNegative(s[..n], discount);
      GainsCompare(s[n] as real, discount(n), discount(n));
    }
  }

  lemma IdealDominates(s: Ranking, k: int)
    ensures Dominates(Cut(SortDescending(s), k), Cut(s, k))
  {
    hide SortDescending;
    hide Sum;
    hide Descending;
    var t := SortDescending(s);
    var n := |Cut(s, k)|;
    forall i | 0 <= i <= n ensures Sum(Cut(s, k)[..i]) <= Sum(Cut(t, k)[..i]) {
      SortedPrefixIsLargest(s, i);
      assert s[..n][..i] == s[..i] && t[..n][..i] == t[..i];
    }
  }

  // ----- the metric -----

  /** The metric lies between zero and one. */
  lemma NdcgIsNormalised(s: Ranking, k: int, discount: nat -> real)
    requires Discounts(discount)
    ensures 0.0 <= NdcgAt(s, k, discount) <= 1.0
  {
    var a, b := Cut(s, k), Cut(SortDescending(s), k);
    IdealDominates(s, k);
    DominatingGains(b, a, discount);
    DcgIsNotNegative(a, discount);
    RatioInUnit(Dcg(a, discount), Dcg(b, discount));
  }

  lemma RatioInUnit(x: real, y: real)
    requires 0.0 <= x <= y
    ensures y != 0.0 ==> 0.0 <= x / y <= 1.0 && (x / y == 1.0 <==> x == y)
  {
  }

  /** It is one exactly when the ranks looked at hold what they hold in the best order. */
  lemma PerfectIffSorted(s: Ranking, k: int, discount: nat -> real)
    requires StrictlyDiscounts(discount)
    requires Dcg(Cut(SortDescending(s), k), discount) != 0.0
    ensures NdcgAt(s, k, discount) == 1.0 <==> Cut(s, k) == Cut(SortDescending(s), k)
  {
    var a, b := Cut(s, k), Cut(SortDescending(s), k);
    IdealDominates(s, k);
    DominatingGains(b, a, discount);
    DcgIsNotNegative(a, discount);
    RatioInUnit(Dcg(a, discount), Dcg(b, discount));
    if a != b { DominatingGainsStrictly(b, a, discount); }
  }
}
