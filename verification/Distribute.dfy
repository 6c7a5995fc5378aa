/** Splitting a total into rounded parts (`distribute_sum` and `distribute_weighted`, pkg/env/rand.go). A
    total or share is a real number of units, a unit being one of the last decimal place asked for; a part
    is an integer number of units. */
module Distribute {

  // ------------------------------------------------------------ sums and rounding

  function Sum(xs: seq<real>): (sum: real) {
    if xs == [] then 0.0 else Sum(xs[..|xs| - 1]) + xs[|xs| - 1]
  }

  function Total(units: seq<int>): (total: int) {
    if units == [] then 0 else Total(units[..|units| - 1]) + units[|units| - 1]
  }

  predicate IsInteger(x: real) { x.Floor as real == x }

  /** `math.Round`: half away from zero. */
  function Round(x: real): (r: int) {
    if x >= 0.0 then (x + 0.5).Floor else -((0.5 - x).Floor)
  }

  lemma RoundNear(x: real)
    ensures x - 0.5 <= Round(x) as real <= x + 0.5
    ensures x >= 0.0 ==> Round(x) >= 0
  {
    var y := if x >= 0.0 then x + 0.5 else 0.5 - x;
    assert y.Floor as real <= y < y.Floor as real + 1.0;
  }

  lemma RoundInteger(n: int)
    ensures Round(n as real) == n
  {
    RoundNear(n as real);
    var y := if n >= 0 then n as real + 0.5 else 0.5 - n as real;
    assert y.Floor as real <= y < y.Floor as real + 1.0;
  }

  /** The nearest number of units, and of two nearest ones the one further from zero. */
  lemma RoundNearest(x: real)
    ensures -0.5 <= Round(x) as real - x <= 0.5 && Round(-x) == -Round(x)
    ensures Round(x) as real - x == 0.5 ==> x >= 0.0
    ensures Round(x) as real - x == -0.5 ==> x <= 0.0
  {
  }

  function Rounded(shares: seq<real>): (units: seq<int>)
    ensures |units| == |shares|
  {
    seq(|shares|, k requires 0 <= k < |shares| => Round(shares[k]))
  }

  function Last<T>(xs: seq<T>): T
    requires xs != []
  {
    xs[|xs| - 1]
  }

  function Most<T>(xs: seq<T>): (most: seq<T>)
    requires xs != []
  {
    xs[..|xs| - 1]
  }

  /** Rounding n shares moves their sum by at most n/2 units. */
  lemma {:induction false} Drift(shares: seq<real>)
    ensures -(|shares| as real) / 2.0 <= Total(Rounded(shares)) as real - Sum(shares) <= |shares| as real / 2.0
  {
    if shares != [] {
      Drift(Most(shares));
      RoundNear(Last(shares));
      assert Most(Rounded(shares)) == Rounded(Most(shares));
    }
  }

  // ------------------------------------------------------------- what is promised

  /** The parts sum to the total if that is a whole number of units, and otherwise to within half a unit. */
  predicate Conserves(units: seq<int>, total: real) {
    && -0.5 <= Total(units) as real - total <= 0.5
    && (Total(units) as real == total <==> IsInteger(total))
  }

  /** All parts but the last are within half a unit of their shares, the last within n/2 units. */
  predicate Near(units: seq<int>, shares: seq<real>) {
    && |units| == |shares| > 0
    && (forall k :: 0 <= k < |units| - 1 ==> -0.5 <= units[k] as real - shares[k] <= 0.5)
    && -(|units| as real) / 2.0 <= Last(units) as real - Last(shares) <= |units| as real / 2.0
  }

  // --------------------------------------------------------------- distribute_sum

  predicate Ascending(xs: seq<real>) {
    forall j, k :: 0 <= j < k < |xs| ==> xs[j] <= xs[k]
  }

  predicate Breakpoints(breaks: seq<real>, total: real) {
    Ascending(breaks) && forall k :: 0 <= k < |breaks| ==> 0.0 <= breaks[k] < total
  }

  /** The distances between neighbouring breakpoints, from 0 to the total. */
  function Gaps(breaks: seq<real>, total: real): (gaps: seq<real>)
    ensures |gaps| == |breaks| + 1
  {
    seq(|breaks| + 1, k requires 0 <= k <= |breaks| =>
      (if k == |breaks| then total else breaks[k]) - (if k == 0 then 0.0 else breaks[k - 1]))
  }

  /** The gaps rounded, and the rounded residual added to the last of them, if there are several. */
  function SumParts(breaks: seq<real>, total: real): (units: seq<int>)
    ensures |units| == |breaks| + 1
  {
    if breaks == [] then [Round(total)] else
    var units := Rounded(Gaps(breaks, total));
    Most(units) + [Last(units) + Round(total - Total(units) as real)]
  }

  lemma {:induction false} GapsPrefix(breaks: seq<real>, total: real, k: nat)
    requires k <= |breaks|
    ensures Sum(Gaps(breaks, total)[..k]) == if k == 0 then 0.0 else breaks[k - 1]
  {
    if k > 0 {
      GapsPrefix(breaks, total, k - 1);
      assert Most(Gaps(breaks, total)[..k]) == Gaps(breaks, total)[..k - 1];
    }
  }

  lemma TotalSnoc(units: seq<int>, x: int)
    ensures Total(units + [x]) == Total(units) + x
  {
    assert Most(units + [x]) == units;
  }

  /** A sum that comes within half a unit of the total is the total just if that is a whole number. */
  lemma Settles(sum: int, total: real)
    ensures var s := sum + Round(total - sum as real);
      && -0.5 <= s as real - total <= 0.5
      && (s as real == total <==> IsInteger(total))
  {
    RoundNear(total - sum as real);
    if IsInteger(total) {
      RoundInteger(total.Floor - sum);
      assert total - sum as real == (total.Floor - sum) as real;
    }
  }

  lemma RoundedNear(shares: seq<real>)
    ensures forall k :: 0 <= k < |shares| ==> -0.5 <= Rounded(shares)[k] as real - shares[k] <= 0.5
    ensures forall k :: 0 <= k < |shares| && shares[k] >= 0.0 ==> Rounded(shares)[k] >= 0
  {
    forall k | 0 <= k < |shares|
      ensures -0.5 <= Rounded(shares)[k] as real - shares[k] <= 0.5
      ensures shares[k] >= 0.0 ==> Rounded(shares)[k] >= 0
    {
      RoundNear(shares[k]);
    }
  }

  /** What all parts but the last get wrong together, the last makes up for. */
  lemma LastNear(shares: seq<real>, last: int, total: real)
    requires shares != [] && Sum(shares) == total
    requires -0.5 <= Total(Most(Rounded(shares))) as real + last as real - total <= 0.5
    ensures -(|shares| as real) / 2.0 <= last as real - Last(shares) <= |shares| as real / 2.0
  {
    Drift(Most(shares));
    assert Rounded(Most(shares)) == Most(Rounded(shares));
  }

  lemma GapsSum(breaks: seq<real>, total: real)
    ensures Sum(Gaps(breaks, total)) == total
  {
    GapsPrefix(breaks, total, |breaks|);
    assert Most(Gaps(breaks, total)) == Gaps(breaks, total)[..|breaks|];
  }

  lemma SumPartsConserve(breaks: seq<real>, total: real)
    ensures Conserves(SumParts(breaks, total), total)
  {
    var units := SumParts(breaks, total);
    if breaks == [] {
      Settles(0, total);
      TotalSnoc([], Round(total));
      assert units == [] + [Round(total)];
    } else {
      var rounded := Rounded(Gaps(breaks, total));
      Settles(Total(rounded), total);
      assert Total(rounded) == Total(Most(rounded)) + Last(rounded);
      TotalSnoc(Most(rounded), Last(units));
    }
  }

  lemma SumPartsMost(breaks: seq<real>, total: real)
    ensures Most(SumParts(breaks, total)) == Most(Rounded(Gaps(breaks, total)))
  {
  }

  /** Where the breakpoints fall does not matter: the parts always conserve the total. */
  lemma SumPartsFair(breaks: seq<real>, total: real)
    requires Breakpoints(breaks, total) && total > 0.0
    ensures var units := SumParts(breaks, total);
      && Conserves(units, total)
      && Near(units, Gaps(breaks, total))
      && (forall k :: 0 <= k < |units| - 1 ==> units[k] >= 0)
      && Last(units) as real >= -(|units| as real) / 2.0
  {
    var shares, units := Gaps(breaks, total), SumParts(breaks, total);
    SumPartsConserve(breaks, total);
    SumPartsMost(breaks, total);
    GapsSum(breaks, total);
    RoundedNear(shares);
    TotalSnoc(Most(units), Last(units));
    assert units == Most(units) + [Last(units)];
    LastNear(shares, Last(units), total);
    assert forall k :: 0 <= k < |units| - 1 ==> units[k] == Most(units)[k] && shares[k] >= 0.0;
  }

  // --------------------------------------------------- which parts are positive

  /** What the parts before the last one come to. */
  function Spent(breaks: seq<real>, total: real): (units: int) {
    Total(Most(Rounded(Gaps(breaks, total))))
  }

  lemma LastIsRest(breaks: seq<real>, total: real)
    requires breaks != []
    ensures var t := Spent(breaks, total) + Round(Last(Gaps(breaks, total)));
      Last(SumParts(breaks, total)) == t + Round(total - t as real) - Spent(breaks, total)
  {
    var rounded := Rounded(Gaps(breaks, total));
    assert Total(rounded) == Total(Most(rounded)) + Last(rounded);
  }

  lemma RoundPositive(x: real)
    requires x >= 0.0
    ensures Round(x) == 0 <==> x < 0.5
    ensures Round(x) >= 0
  {
    assert (x + 0.5).Floor as real <= x + 0.5 < (x + 0.5).Floor as real + 1.0;
  }

  /** The last part is negative exactly if the others come to half a unit more than the total. */
  lemma LastNegative(breaks: seq<real>, total: real)
    requires Breakpoints(breaks, total) && total > 0.0
    ensures Last(SumParts(breaks, total)) < 0 <==> Spent(breaks, total) as real >= total + 0.5
  {
    var last := Last(Gaps(breaks, total));
    RoundPositive(last);
    if breaks == [] {
      assert Most(Rounded(Gaps(breaks, total))) == [];
    } else {
      LastIsRest(breaks, total);
      RoundNear(total - (Spent(breaks, total) + Round(last)) as real);
    }
  }

  /** The last of several parts is positive exactly if the others leave more than half a unit for it; if they
      leave just half a unit, it is if its own gap is smaller than that. */
  lemma LastPositive(breaks: seq<real>, total: real)
    requires Breakpoints(breaks, total) && total > 0.0 && breaks != []
    ensures Last(SumParts(breaks, total)) > 0 <==>
      || Spent(breaks, total) as real < total - 0.5
      || (Spent(breaks, total) as real == total - 0.5 && Last(Gaps(breaks, total)) < 0.5)
  {
    var last := Last(Gaps(breaks, total));
    RoundPositive(last);
    LastIsRest(breaks, total);
    RoundNear(total - (Spent(breaks, total) + Round(last)) as real);
  }

  /** Of the others none is negative, and just those of a gap below half a unit are zero. */
  lemma OthersZero(breaks: seq<real>, total: real, k: nat)
    requires Breakpoints(breaks, total) && k < |breaks|
    ensures SumParts(breaks, total)[k] >= 0
    ensures SumParts(breaks, total)[k] == 0 <==> Gaps(breaks, total)[k] < 0.5
  {
    SumPartsMost(breaks, total);
    assert SumParts(breaks, total)[k] == Most(SumParts(breaks, total))[k];
    RoundPositive(Gaps(breaks, total)[k]);
  }

  /** The least whole number not below x. */
  function Ceiling(x: real): (r: int)
    ensures x <= r as real < x + 1.0
  {
    -(-x).Floor
  }

  function Min(a: int, b: int): (least: int) { if a < b then a else b }

  /** The least sum of m numbers that come to r when rounded: each that is not rounded to zero saves half. */
  function Cheapest(m: int, r: int): (sum: real) { r as real - Min(m, r) as real / 2.0 }

  lemma {:induction false} RoundingCost(shares: seq<real>)
    requires forall k :: 0 <= k < |shares| ==> shares[k] >= 0.0
    ensures Total(Rounded(shares)) >= 0 && Sum(shares) >= Cheapest(|shares|, Total(Rounded(shares)))
  {
    if shares != [] {
      RoundingCost(Most(shares));
      RoundNear(Last(shares));
      assert Most(Rounded(shares)) == Rounded(Most(shares));
    }
  }

  lemma {:induction false} CheapestGrows(m: nat, r: nat, s: nat)
    requires r <= s
    ensures Cheapest(m, r) <= Cheapest(m, s)
  {
  }

  /** Whether n parts of the total can have a negative one among them. */
  predicate NegativeFits(n: int, total: real) { Cheapest(n - 1, Ceiling(total + 0.5)) < total }

  lemma SpentTooMuch(breaks: seq<real>, total: real)
    requires Breakpoints(breaks, total) && total > 0.0 && Spent(breaks, total) as real >= total + 0.5
    ensures NegativeFits(|breaks| + 1, total)
  {
    var most := Most(Gaps(breaks, total));
    assert Most(Rounded(Gaps(breaks, total))) == Rounded(most);
    RoundingCost(most);
    CheapestGrows(|breaks|, Ceiling(total + 0.5), Spent(breaks, total));
    GapsPrefix(breaks, total, |breaks|);
    assert most == Gaps(breaks, total)[..|breaks|];
  }

  /** Breakpoints that make the parts before the last one come to r as cheaply as possible: half a unit above
      a whole number first, then half a unit apart, then together. */
  function Wasteful(m: nat, r: nat): (breaks: seq<real>) {
    seq(m, k requires 0 <= k < m => (r - Min(m, r)) as real + 0.5 + Min(k, Min(m, r) - 1) as real / 2.0)
  }

  lemma WastefulGap(m: nat, r: nat, total: real, k: nat)
    requires k < m && r > 0
    ensures Round(Gaps(Wasteful(m, r), total)[k]) ==
      if k == 0 then r - Min(m, r) + 1 else if k < Min(m, r) then 1 else 0
  {
    var j := Min(m, r);
    var gap := Gaps(Wasteful(m, r), total)[k];
    assert gap == if k == 0 then (r - j) as real + 0.5 else if k < j then 0.5 else 0.0;
    RoundNear(gap);
    assert gap + 0.5 == (if k == 0 then r - j + 1 else if k < j then 1 else 0) as real + (if k < j then 0.0 else 0.5);
  }

  lemma {:induction false} WastefulTotal(m: nat, r: nat, total: real, k: nat)
    requires 0 < k <= m && r > 0
    ensures Total(Rounded(Gaps(Wasteful(m, r), total))[..k]) == r - Min(m, r) + Min(k, Min(m, r))
  {
    var units := Rounded(Gaps(Wasteful(m, r), total));
    WastefulGap(m, r, total, k - 1);
    assert units[..k] == units[..k - 1] + [units[k - 1]];
    TotalSnoc(units[..k - 1], units[k - 1]);
    if k > 1 {
      WastefulTotal(m, r, total, k - 1);
    } else {
      assert units[..0] == [];
    }
  }

  lemma WastefulSpends(n: nat, total: real)
    requires n > 0 && total > 0.0 && NegativeFits(n, total)
    ensures n > 1
    ensures var breaks := Wasteful(n - 1, Ceiling(total + 0.5));
      Breakpoints(breaks, total) && Spent(breaks, total) as real >= total + 0.5
  {
    var m, r := n - 1, Ceiling(total + 0.5);
    var breaks := Wasteful(m, r);
    assert m > 0;
    assert breaks[m - 1] == Cheapest(m, r);
    assert Ascending(breaks);
    WastefulTotal(m, r, total, m);
    assert Most(Rounded(Gaps(breaks, total))) == Rounded(Gaps(breaks, total))[..m];
  }

  predicate HasNegative(units: seq<int>) { exists k :: 0 <= k < |units| && units[k] < 0 }

  lemma NegativeIsLast(breaks: seq<real>, total: real)
    requires Breakpoints(breaks, total) && total > 0.0
    ensures HasNegative(SumParts(breaks, total)) <==> Last(SumParts(breaks, total)) < 0
  {
    var units := SumParts(breaks, total);
    if HasNegative(units) {
      var k :| 0 <= k < |units| && units[k] < 0;
      if k < |breaks| {
        OthersZero(breaks, total, k);
      }
    }
  }

  /** The parts, meant to be positive, can have a negative one among them, for some breakpoints, exactly if
      rounding the breakpoints up can cost less than the total and yield half a unit more than it. */
  lemma NegativeExactly(n: nat, total: real)
    requires n > 0 && total > 0.0
    ensures
      (exists breaks: seq<real> :: |breaks| == n - 1 && Breakpoints(breaks, total) && HasNegative(SumParts(breaks, total)))
      <==> NegativeFits(n, total)
  {
    forall breaks: seq<real> | |breaks| == n - 1 && Breakpoints(breaks, total) && HasNegative(SumParts(breaks, total))
      ensures NegativeFits(n, total)
    {
      NegativeIsLast(breaks, total);
      LastNegative(breaks, total);
      SpentTooMuch(breaks, total);
    }
    if NegativeFits(n, total) {
      var breaks := Wasteful(n - 1, Ceiling(total + 0.5));
      WastefulSpends(n, total);
      LastNegative(breaks, total);
      NegativeIsLast(breaks, total);
    }
  }

  /** More parts make it easier, so the greatest number of parts asked for decides; one or two parts are never
      negative, nor are three of a whole total, but four of it are. */
  lemma MorePartsMoreNegative(n: nat, k: nat, total: real)
    requires 0 < n <= k && total > 0.0
    ensures NegativeFits(n, total) ==> NegativeFits(k, total)
    ensures n <= 2 ==> !NegativeFits(n, total)
    ensures IsInteger(total) ==> !NegativeFits(3, total) && (total > 1.0 ==> NegativeFits(4, total))
  {
    var r := Ceiling(total + 0.5);
    assert r as real >= total + 0.5;
    if IsInteger(total) {
      assert r == total.Floor + 1;
    }
  }

  /** No number of parts above one makes all of them positive wherever the breakpoints fall. */
  lemma PositiveExactly(n: nat, total: real)
    requires n > 0 && total > 0.0
    ensures
      (forall breaks: seq<real>, k | |breaks| == n - 1 && Breakpoints(breaks, total) && 0 <= k < n ::
        SumParts(breaks, total)[k] > 0)
      <==> n == 1 && total >= 0.5
  {
    RoundPositive(total);
    if n > 1 {
      var breaks := seq(n - 1, k => 0.0);
      assert Breakpoints(breaks, total);
      OthersZero(breaks, total, 0);
      assert SumParts(breaks, total)[0] == 0;
    } else {
      assert Breakpoints([], total) && SumParts([], total)[0] == Round(total);
    }
  }

  /** What holds of the parts at every choice of their number and of the breakpoints. */
  lemma SumPartsPromise(breaks: seq<real>, total: real, maxN: int)
    requires Breakpoints(breaks, total) && total > 0.0 && |breaks| < maxN
    ensures var units := SumParts(breaks, total);
      Conserves(units, total) && Near(units, Gaps(breaks, total)) && (HasNegative(units) ==> NegativeFits(maxN, total))
  {
    SumPartsFair(breaks, total);
    if HasNegative(SumParts(breaks, total)) {
      NegativeExactly(|breaks| + 1, total);
      MorePartsMoreNegative(|breaks| + 1, maxN, total);
    }
  }

  datatype Result = Parts(units: seq<int>) | Invalid | NotANumber

  function Insert(x: real, xs: seq<real>): (ys: seq<real>) {
    if xs == [] || x <= xs[0] then [x] + xs else [xs[0]] + Insert(x, xs[1..])
  }

  /** `sort.Float64s`. */
  function Sorted(xs: seq<real>): (ys: seq<real>) {
    if xs == [] then [] else Insert(xs[0], Sorted(xs[1..]))
  }

  lemma {:induction false} InsertBreakpoint(x: real, xs: seq<real>, total: real)
    requires Breakpoints(xs, total) && 0.0 <= x < total
    ensures Breakpoints(Insert(x, xs), total) && |Insert(x, xs)| == |xs| + 1
    ensures Insert(x, xs)[0] == if xs == [] || x <= xs[0] then x else xs[0]
  {
    if xs != [] && x > xs[0] {
      var rest := Insert(x, xs[1..]);
      InsertBreakpoint(x, xs[1..], total);
      assert xs[0] <= rest[0];
      assert forall k :: 0 <= k < |rest| ==> rest[0] <= rest[k];
    }
  }

  lemma {:induction false} SortedBreakpoints(draws: seq<real>, total: real)
    requires forall k :: 0 <= k < |draws| ==> 0.0 <= draws[k] < total
    ensures |Sorted(draws)| == |draws| && Breakpoints(Sorted(draws), total)
  {
    if draws != [] {
      SortedBreakpoints(draws[1..], total);
      InsertBreakpoint(draws[0], Sorted(draws[1..]), total);
    }
  }

  lemma {:induction false} InsertAdds(x: real, xs: seq<real>)
    ensures multiset(Insert(x, xs)) == multiset{x} + multiset(xs)
  {
    if xs != [] && x > xs[0] {
      InsertAdds(x, xs[1..]);
      assert xs == [xs[0]] + xs[1..];
    }
  }

  /** Sorting keeps the numbers drawn. */
  lemma {:induction false} SortedKeeps(draws: seq<real>)
    ensures multiset(Sorted(draws)) == multiset(draws)
  {
    if draws != [] {
      SortedKeeps(draws[1..]);
      InsertAdds(draws[0], Sorted(draws[1..]));
      assert draws == [draws[0]] + draws[1..];
    }
  }

  /** `distributeSum`. */
  method DistributeSum(total: real, minN: int, maxN: int) returns (result: Result, ghost breaks: seq<real>)
    ensures result.Invalid? <==> minN < 1 || maxN < minN || total <= 0.0
    ensures !result.NotANumber?
    ensures result.Parts? ==>
      && minN <= |result.units| <= maxN
      && Breakpoints(breaks, total) && result.units == SumParts(breaks, total)
      && Conserves(result.units, total) && Near(result.units, Gaps(breaks, total))
    ensures result.Parts? && HasNegative(result.units) ==> NegativeFits(maxN, total)
  {
    breaks := [];
    if minN < 1 || maxN < minN || total <= 0.0 {
      return Invalid, breaks;
    }
    var n: nat :| minN <= n <= maxN;
    if n == 1 {
      SumPartsPromise([], total, maxN);
      return Parts([Round(total)]), [];
    }
    var draws: seq<real> := [];
    for i := 0 to n - 1
      invariant |draws| == i && forall k :: 0 <= k < i ==> 0.0 <= draws[k] < total
    {
      var u: real :| 0.0 <= u < 1.0;
      var draw := u * total;
      Below(u, total, draw);
      draws := draws + [draw];
    }
    var sorted := Sorted(draws);
    breaks := sorted;
    SortedBreakpoints(draws, total);
    var parts := CutAt(sorted, total);
    SumPartsPromise(sorted, total, maxN);
    result := Parts(parts);
  }

  lemma NextRounded(breaks: seq<real>, total: real, i: nat)
    requires i <= |breaks|
    ensures var gap := (if i == |breaks| then total else breaks[i]) - (if i == 0 then 0.0 else breaks[i - 1]);
      Rounded(Gaps(breaks, total))[..i + 1] == Rounded(Gaps(breaks, total))[..i] + [Round(gap)]
  {
  }

  lemma ReplaceLast(parts: seq<int>, x: int)
    requires parts != []
    ensures parts[|parts| - 1 := x] == Most(parts) + [x]
  {
  }

  /** The rest of `distributeSum`, for sorted breakpoints. */
  method CutAt(breaks: seq<real>, total: real) returns (parts: seq<int>)
    requires breaks != []
    ensures parts == SumParts(breaks, total)
  {
    parts := [];
    var prev := 0.0;
    for i := 0 to |breaks|
      invariant prev == (if i == 0 then 0.0 else breaks[i - 1])
      invariant parts == Rounded(Gaps(breaks, total))[..i]
    {
      NextRounded(breaks, total, i);
      parts := parts + [Round(breaks[i] - prev)];
      prev := breaks[i];
    }
    NextRounded(breaks, total, |breaks|);
    parts := parts + [Round(total - prev)];
    var sum := AddUp(parts);
    var residual := Round(total - sum as real);
    ReplaceLast(parts, Last(parts) + residual);
    parts := parts[|parts| - 1 := Last(parts) + residual];
  }

  lemma Below(u: real, total: real, draw: real)
    requires 0.0 <= u < 1.0 && total > 0.0 && draw == u * total
    ensures 0.0 <= draw < total
  {}

  method AddUp(units: seq<int>) returns (sum: int)
    ensures sum == Total(units)
  {
    sum := 0;
    for i := 0 to |units|
      invariant sum == Total(units[..i])
    {
      assert Most(units[..i + 1]) == units[..i];
      sum := sum + units[i];
    }
    assert units[..|units|] == units;
  }

  // ---------------------------------------------------------- distribute_weighted

  predicate NonNegative(xs: seq<real>) { forall k :: 0 <= k < |xs| ==> xs[k] >= 0.0 }

  predicate AllZero(xs: seq<real>) { forall k :: 0 <= k < |xs| ==> xs[k] == 0.0 }

  predicate ValidWeights(total: real, weights: seq<real>, noise: real) {
    weights != [] && total > 0.0 && 0.0 <= noise <= 1.0 && NonNegative(weights) && Sum(weights) != 0.0
  }

  function Blend(w: real, sum: real, uniform: real, noise: real): (b: real)
    requires sum != 0.0
  {
    (1.0 - noise) * (w / sum) + noise * uniform
  }

  function Share(x: real, sum: real, total: real): (share: real)
    requires sum != 0.0
  {
    x / sum * total
  }

  /** Each weight's proportion, blended with a random number. */
  function Blended(weights: seq<real>, uniforms: seq<real>, noise: real): (blended: seq<real>)
    requires |uniforms| == |weights| && Sum(weights) != 0.0
    ensures |blended| == |weights|
  {
    seq(|weights|, k requires 0 <= k < |weights| => Blend(weights[k], Sum(weights), uniforms[k], noise))
  }

  /** The total, split in proportion to `xs`. */
  function Scaled(xs: seq<real>, sum: real, total: real): (shares: seq<real>)
    requires sum != 0.0
    ensures |shares| == |xs|
  {
    seq(|xs|, k requires 0 <= k < |xs| => Share(xs[k], sum, total))
  }

  /** The shares rounded, and the last part what is then left of the total. */
  function WeightedParts(shares: seq<real>, total: real): (units: seq<int>)
    requires shares != []
    ensures |units| == |shares|
  {
    if |shares| == 1 then [Round(total)] else
    var units := Most(Rounded(shares));
    units + [Round(total - Total(units) as real)]
  }

  lemma Distributes(a: real, b: real, sum: real, total: real)
    requires sum != 0.0
    ensures Share(a + b, sum, total) == Share(a, sum, total) + Share(b, sum, total)
  {
    assert (a + b) / sum == a / sum + b / sum;
  }

  lemma {:induction false} ScaledSum(xs: seq<real>, sum: real, total: real)
    requires sum != 0.0
    ensures Sum(Scaled(xs, sum, total)) == Share(Sum(xs), sum, total)
  {
    if xs == [] {
      assert 0.0 / sum == 0.0;
    } else {
      ScaledSum(Most(xs), sum, total);
      assert Most(Scaled(xs, sum, total)) == Scaled(Most(xs), sum, total);
      Distributes(Sum(Most(xs)), Last(xs), sum, total);
    }
  }

  /** Whatever the shares, the parts conserve the total they are shares of. */
  lemma WeightedPartsFair(shares: seq<real>, total: real)
    requires shares != [] && Sum(shares) == total
    ensures Conserves(WeightedParts(shares, total), total) && Near(WeightedParts(shares, total), shares)
  {
    var units, most := WeightedParts(shares, total), Most(Rounded(shares));
    RoundedNear(shares);
    if |shares| == 1 {
      assert most == [] && units == [] + [Round(total)];
    }
    Settles(Total(most), total);
    TotalSnoc(most, Last(units));
    assert units == most + [Last(units)];
    LastNear(shares, Last(units), total);
  }

  lemma {:induction false} SumPositive(xs: seq<real>)
    requires NonNegative(xs)
    ensures Sum(xs) >= 0.0
    ensures Sum(xs) > 0.0 <==> exists k :: 0 <= k < |xs| && xs[k] > 0.0
  {
    if xs != [] {
      SumPositive(Most(xs));
      assert forall k :: 0 <= k < |xs| - 1 ==> Most(xs)[k] == xs[k];
      assert Last(xs) > 0.0 ==> exists k :: 0 <= k < |xs| && xs[k] > 0.0;
    }
  }

  lemma Product(a: real, b: real)
    requires a >= 0.0 && b >= 0.0
    ensures a * b >= 0.0 && (a * b > 0.0 <==> a > 0.0 && b > 0.0)
  {}

  lemma Quotient(a: real, b: real)
    requires a >= 0.0 && b > 0.0
    ensures a / b >= 0.0 && (a / b > 0.0 <==> a > 0.0)
  {}

  lemma BlendPositive(w: real, sum: real, noise: real, u: real)
    requires w >= 0.0 && sum > 0.0 && 0.0 <= noise <= 1.0 && u >= 0.0
    ensures var b := Blend(w, sum, u, noise);
      b >= 0.0 && (b > 0.0 <==> (w > 0.0 && noise < 1.0) || (u > 0.0 && noise > 0.0))
  {
    Quotient(w, sum);
    Product(1.0 - noise, w / sum);
    Product(noise, u);
  }

  /** There is nothing to divide by just if the noise is full and every random number drawn is zero. */
  lemma BlendedPositive(weights: seq<real>, uniforms: seq<real>, noise: real)
    requires weights != [] && |uniforms| == |weights| && 0.0 <= noise <= 1.0
    requires NonNegative(weights) && NonNegative(uniforms) && Sum(weights) != 0.0
    ensures Sum(Blended(weights, uniforms, noise)) >= 0.0
    ensures Sum(Blended(weights, uniforms, noise)) == 0.0 <==>
              noise == 1.0 && AllZero(uniforms)
  {
    var blended := Blended(weights, uniforms, noise);
    SumPositive(weights);
    forall k | 0 <= k < |weights|
      ensures blended[k] >= 0.0
      ensures blended[k] > 0.0 <==> (weights[k] > 0.0 && noise < 1.0) || (uniforms[k] > 0.0 && noise > 0.0)
    {
      BlendPositive(weights[k], Sum(weights), noise, uniforms[k]);
    }
    SumPositive(blended);
  }

  lemma BlendNoNoise(w: real, sum: real, u: real, total: real)
    requires sum != 0.0
    ensures Blend(w, sum, u, 0.0) == Share(w, sum, 1.0)
    ensures Share(Blend(w, sum, u, 0.0), 1.0, total) == Share(w, sum, total)
  {}

  lemma ShareOfAll(sum: real, total: real)
    requires sum != 0.0
    ensures Share(sum, sum, total) == total
  {
    assert sum / sum == 1.0;
  }

  /** Without noise the shares are in exact proportion to the weights. */
  lemma NoNoise(weights: seq<real>, uniforms: seq<real>, total: real)
    requires |uniforms| == |weights| && Sum(weights) != 0.0
    ensures Sum(Blended(weights, uniforms, 0.0)) == 1.0
    ensures Scaled(Blended(weights, uniforms, 0.0), 1.0, total) == Scaled(weights, Sum(weights), total)
  {
    var blended, sum := Blended(weights, uniforms, 0.0), Sum(weights);
    forall k | 0 <= k < |weights|
      ensures blended[k] == Share(weights[k], sum, 1.0)
      ensures Share(blended[k], 1.0, total) == Share(weights[k], sum, total)
    {
      BlendNoNoise(weights[k], sum, uniforms[k], total);
    }
    assert blended == Scaled(weights, sum, 1.0);
    ScaledSum(weights, sum, 1.0);
    ShareOfAll(sum, 1.0);
  }

  /** With full noise the random numbers alone decide. */
  lemma FullNoise(weights: seq<real>, uniforms: seq<real>)
    requires |uniforms| == |weights| && Sum(weights) != 0.0
    ensures Blended(weights, uniforms, 1.0) == uniforms
  {
  }

  lemma {:induction false} SumAdds(a: seq<real>, b: seq<real>, c: seq<real>)
    requires |a| == |b| == |c| && forall k | 0 <= k < |a| :: c[k] == a[k] + b[k]
    ensures Sum(c) == Sum(a) + Sum(b)
  {
    if c != [] {
      SumAdds(Most(a), Most(b), Most(c));
    }
  }

  lemma NoiseFree(w: real, sum: real, u: real, part: real, noise: real)
    requires sum != 0.0 && part == 1.0 - noise
    ensures Blend(w, sum, u, noise) == Share(w, sum, part) + Share(u, 1.0, noise)
  {
  }

  lemma ShareOfOne(x: real, total: real)
    ensures Share(x, 1.0, total) == x * total
  {
  }

  /** For every noise the proportions, which come to 1, and the random numbers count as it says. */
  lemma BlendedSum(weights: seq<real>, uniforms: seq<real>, noise: real)
    requires |uniforms| == |weights| && Sum(weights) != 0.0
    ensures Sum(Blended(weights, uniforms, noise)) == (1.0 - noise) + Sum(uniforms) * noise
  {
    var sum, part := Sum(weights), 1.0 - noise;
    var a, b, c := Scaled(weights, sum, part), Scaled(uniforms, 1.0, noise), Blended(weights, uniforms, noise);
    forall k | 0 <= k < |weights|
      ensures c[k] == a[k] + b[k]
    {
      NoiseFree(weights[k], sum, uniforms[k], part, noise);
    }
    SumAdds(a, b, c);
    ScaledSum(weights, sum, part);
    ScaledSum(uniforms, 1.0, noise);
    ShareOfAll(sum, part);
    ShareOfOne(Sum(uniforms), noise);
  }

  /** The parts that the random numbers drawn lead to are close to their shares. */
  lemma SharesFair(weights: seq<real>, uniforms: seq<real>, noise: real, total: real)
    requires |uniforms| == |weights| > 0 && Sum(weights) != 0.0
    requires Sum(Blended(weights, uniforms, noise)) != 0.0
    ensures var blended := Blended(weights, uniforms, noise);
      var shares := Scaled(blended, Sum(blended), total);
      && Conserves(WeightedParts(shares, total), total) && Near(WeightedParts(shares, total), shares)
      && (noise == 0.0 ==> shares == Scaled(weights, Sum(weights), total))
  {
    var blended := Blended(weights, uniforms, noise);
    var sum := Sum(blended);
    ScaledSum(blended, sum, total);
    ShareOfAll(sum, total);
    WeightedPartsFair(Scaled(blended, sum, total), total);
    if noise == 0.0 {
      NoNoise(weights, uniforms, total);
    }
  }

  /** `distributeWeighted`. */
  method DistributeWeighted(total: real, weights: seq<real>, noise: real)
    returns (result: Result, ghost uniforms: seq<real>)
    ensures result.Invalid? <==> !ValidWeights(total, weights, noise)
    ensures !result.Invalid? ==>
      |uniforms| == |weights| && forall k :: 0 <= k < |uniforms| ==> 0.0 <= uniforms[k] < 1.0
    ensures result.NotANumber? <==>
      ValidWeights(total, weights, noise) && noise == 1.0 && |weights| > 1 && AllZero(uniforms)
    ensures result.Parts? ==>
      && Conserves(result.units, total) && |result.units| == |weights|
      && (Sum(Blended(weights, uniforms, noise)) != 0.0 ==>
            Near(result.units, Scaled(Blended(weights, uniforms, noise), Sum(Blended(weights, uniforms, noise)), total)))
      && (noise == 0.0 ==> Near(result.units, Scaled(weights, Sum(weights), total)))
  {
    uniforms := [];
    if |weights| < 1 || total <= 0.0 || noise < 0.0 || noise > 1.0 {
      return Invalid, uniforms;
    }
    var sumW := 0.0;
    for i := 0 to |weights|
      invariant sumW == Sum(weights[..i])
      invariant forall k :: 0 <= k < i ==> weights[k] >= 0.0
    {
      if weights[i] < 0.0 {
        return Invalid, uniforms;
      }
      assert Most(weights[..i + 1]) == weights[..i];
      sumW := sumW + weights[i];
    }
    assert weights[..|weights|] == weights;
    if sumW == 0.0 {
      return Invalid, uniforms;
    }
    var drawn: seq<real> := [];
    for i := 0 to |weights|
      invariant |drawn| == i && forall k :: 0 <= k < i ==> 0.0 <= drawn[k] < 1.0
    {
      var uniform: real :| 0.0 <= uniform < 1.0;
      drawn := drawn + [uniform];
    }
    uniforms := drawn;
    var units;
    var defined;
    defined, units := SplitBlended(total, weights, drawn, noise);
    result := if defined then Parts(units) else NotANumber;
  }

  method BlendWeights(weights: seq<real>, drawn: seq<real>, noise: real)
    returns (blended: seq<real>, blendedSum: real)
    requires |drawn| == |weights| && Sum(weights) != 0.0
    ensures blended == Blended(weights, drawn, noise) && blendedSum == Sum(blended)
  {
    blended, blendedSum := [], 0.0;
    var sumW := Sum(weights);
    for i := 0 to |weights|
      invariant blended == Blended(weights, drawn, noise)[..i] && blendedSum == Sum(blended)
    {
      var b := Blend(weights[i], sumW, drawn[i], noise);
      assert Most(blended + [b]) == blended;
      blended := blended + [b];
      blendedSum := blendedSum + b;
    }
  }

  lemma NextShare(xs: seq<real>, sum: real, total: real, i: nat)
    requires sum != 0.0 && i < |xs|
    ensures var units := Rounded(Scaled(xs, sum, total));
      units[..i + 1] == units[..i] + [Round(Share(xs[i], sum, total))]
  {
  }

  lemma LastOfWeighted(xs: seq<real>, sum: real, total: real)
    requires sum != 0.0 && xs != []
    ensures var shares := Scaled(xs, sum, total);
      var units := Rounded(shares)[..|xs| - 1];
      |xs| > 1 ==> WeightedParts(shares, total) == units + [Round(total - Total(units) as real)]
    ensures |xs| == 1 ==> WeightedParts(Scaled(xs, sum, total), total) == [Round(total)]
  {
  }

  method RoundShares(blended: seq<real>, blendedSum: real, total: real) returns (units: seq<int>)
    requires blended != [] && blendedSum != 0.0
    ensures units == WeightedParts(Scaled(blended, blendedSum, total), total)
  {
    LastOfWeighted(blended, blendedSum, total);
    if |blended| == 1 {
      return [Round(total)];
    }
    ghost var shares := Scaled(blended, blendedSum, total);
    units := [];
    var runningSum := 0;
    for i := 0 to |blended| - 1
      invariant units == Rounded(shares)[..i] && runningSum == Total(units)
    {
      var unit := Round(Share(blended[i], blendedSum, total));
      NextShare(blended, blendedSum, total, i);
      TotalSnoc(units, unit);
      units := units + [unit];
      runningSum := runningSum + unit;
    }
    units := units + [Round(total - runningSum as real)];
  }

  /** The rest of `distributeWeighted`, for the random numbers drawn. A single part does not depend on
      them; of several, none is a number if the blended sum they are divided by is zero. */
  method SplitBlended(total: real, weights: seq<real>, drawn: seq<real>, noise: real)
    returns (defined: bool, units: seq<int>)
    requires ValidWeights(total, weights, noise) && |drawn| == |weights| && NonNegative(drawn)
    ensures defined <==> |weights| == 1 || noise < 1.0 || !AllZero(drawn)
    ensures defined ==> Conserves(units, total) && |units| == |weights|
    ensures var blended := Blended(weights, drawn, noise);
      defined && Sum(blended) != 0.0 ==> Near(units, Scaled(blended, Sum(blended), total))
    ensures defined && noise == 0.0 ==> Near(units, Scaled(weights, Sum(weights), total))
  {
    var blended, blendedSum := BlendWeights(weights, drawn, noise);
    BlendedPositive(weights, drawn, noise);
    if blendedSum != 0.0 {
      SharesFair(weights, drawn, noise, total);
      units := RoundShares(blended, blendedSum, total);
      return true, units;
    }
    defined := |weights| == 1;
    units := if defined then [Round(total)] else [];
    Settles(0, total);
    TotalSnoc([], Round(total));
    assert [] + [Round(total)] == [Round(total)];
  }
}
