/** Weighted choice, twice: by subtracting weights (pkg/env/set.go) and by comparing with cumulative weights
    (`pickWeighted`, pkg/env/env_worker.go). */
module Weighted {
  import opened Wrappers

  datatype Item<V> = Item(value: V, weight: int)

  function TotalOf<V>(items: seq<Item<V>>): (total: int) {
    if items == [] then 0 else TotalOf(items[..|items| - 1]) + items[|items| - 1].weight
  }

  ghost predicate NonNegative<V>(items: seq<Item<V>>) {
    forall k :: 0 <= k < |items| ==> items[k].weight >= 0
  }

  /** Item k owns the draws below the weight up to and including it that no item before it owns. Weights may
      be negative. */
  ghost predicate Owns<V>(items: seq<Item<V>>, k: nat, r: int)
    requires k < |items|
  {
    r < TotalOf(items[..k + 1]) && forall j: nat | j < k :: TotalUpTo(items, j) <= r
  }

  function TotalUpTo<V>(items: seq<Item<V>>, k: nat): (total: int)
    requires k < |items|
  {
    TotalOf(items[..k + 1])
  }

  // ----------------------------------------------------------- who owns a draw

  lemma {:induction false} PrefixGrows<V>(items: seq<Item<V>>, j: nat, k: nat)
    requires NonNegative(items) && j <= k <= |items|
    ensures TotalOf(items[..j]) <= TotalOf(items[..k])
  {
    if j < k {
      PrefixGrows(items, j, k - 1);
      PrefixStep(items, k - 1);
    }
  }

  lemma PrefixStep<V>(items: seq<Item<V>>, k: nat)
    requires k < |items|
    ensures TotalOf(items[..k + 1]) == TotalOf(items[..k]) + items[k].weight
  {
    assert items[..k + 1][..k] == items[..k];
  }

  lemma {:induction false} FirstBelow<V>(items: seq<Item<V>>, r: int, n: nat) returns (k: nat)
    requires 0 < n <= |items| && r < TotalOf(items[..n])
    ensures k < n && Owns(items, k, r)
  {
    if j: nat :| j < n - 1 && r < TotalUpTo(items, j) {
      k := FirstBelow(items, r, j + 1);
    } else {
      k := n - 1;
    }
  }

  /** Every draw the generator can return has one owner... */
  lemma Owner<V>(items: seq<Item<V>>, r: int) returns (k: nat)
    requires 0 <= r < TotalOf(items)
    ensures k < |items| && Owns(items, k, r)
  {
    assert items[..|items|] == items;
    k := FirstBelow(items, r, |items|);
  }

  /** ...and only one. */
  lemma OneOwner<V>(items: seq<Item<V>>, j: nat, k: nat, r: int)
    requires j < |items| && k < |items| && Owns(items, j, r) && Owns(items, k, r)
    ensures j == k
  {
    assert j < k ==> TotalUpTo(items, j) <= r;
    assert k < j ==> TotalUpTo(items, k) <= r;
  }

  /** If no weight is negative, an item owns the draws from the weight before it up to the weight with it. */
  lemma OwnsInterval<V>(items: seq<Item<V>>, k: nat, r: int)
    requires NonNegative(items) && k < |items| && 0 <= r
    ensures Owns(items, k, r) <==> TotalOf(items[..k]) <= r < TotalOf(items[..k + 1])
  {
    if k > 0 {
      assert TotalUpTo(items, k - 1) == TotalOf(items[..k]);
    }
    forall j: nat | j < k
      ensures TotalUpTo(items, j) <= TotalOf(items[..k])
    {
      PrefixGrows(items, j + 1, k);
    }
    assert items[..0] == [];
  }

  function Interval(lo: int, hi: int): (rs: set<int>)
    decreases hi - lo
  {
    if lo >= hi then {} else Interval(lo, hi - 1) + {hi - 1}
  }

  lemma {:induction false} IntervalSize(lo: int, hi: int)
    requires lo <= hi
    ensures |Interval(lo, hi)| == hi - lo
    ensures forall r :: r in Interval(lo, hi) <==> lo <= r < hi
    decreases hi - lo
  {
    if lo < hi {
      IntervalSize(lo, hi - 1);
    }
  }

  // -------------------------------------------------------------------- choose

  /** `makeWeightedItems`. */
  method MakeWeightedItems<V>(items: seq<Item<V>>) returns (totalWeight: int)
    ensures totalWeight == TotalOf(items)
  {
    totalWeight := 0;
    assert items[..0] == [];
    for i := 0 to |items|
      invariant totalWeight == TotalOf(items[..i])
    {
      PrefixStep(items, i);
      totalWeight := totalWeight + items[i].weight;
    }
    assert items[..|items|] == items;
  }

  /** `value` is that of the item that owns the draw. */
  ghost predicate Selected<V>(items: seq<Item<V>>, r: int, value: V) {
    exists k: nat :: k < |items| && Owns(items, k, r) && items[k].value == value
  }

  /** `choose`, on the number the generator returns; it finds the owner of that number, so it never gets
      past its loop. */
  method Choose<V>(items: seq<Item<V>>, totalWeight: int, draw: int) returns (value: Option<V>)
    requires totalWeight == TotalOf(items) && 0 <= draw < totalWeight
    ensures value.Some? && Selected(items, draw, value.value)
  {
    var r := draw + 1;
    assert items[..0] == [] && items[..|items|] == items;
    for i := 0 to |items|
      invariant r == draw + 1 - TotalOf(items[..i]) && r > 0
      invariant forall j: nat | j < i :: TotalUpTo(items, j) <= draw
    {
      PrefixStep(items, i);
      r := r - items[i].weight;
      if r <= 0 {
        assert Owns(items, i, draw);
        return Some(items[i].value);
      }
    }
    assert false;
  }

  // --------------------------------------------------------------- pickWeighted

  /** A run item: its name, and what it does. */
  datatype RunItem<V> = RunItem(name: string, value: V)

  /** The run items that are listed in the weights, in their order. */
  function Listed<V>(run: seq<RunItem<V>>, weights: map<string, int>): (items: seq<Item<RunItem<V>>>) {
    if run == [] then []
    else
      var last := |run| - 1;
      Listed(run[..last], weights)
      + (if run[last].name in weights then [Item(run[last], weights[run[last].name])] else [])
  }

  /** The places increase, and are those of the run items that have a weight. */
  predicate ListedPlaces<V>(run: seq<RunItem<V>>, weights: map<string, int>, places: seq<nat>) {
    && (forall k | 0 <= k < |places| :: places[k] < |run| && run[places[k]].name in weights)
    && (forall j, k | 0 <= j < k < |places| :: places[j] < places[k])
    && (forall i: nat | i < |run| && run[i].name in weights :: i in places)
  }

  lemma PlacesSnoc<V>(run: seq<RunItem<V>>, item: RunItem<V>, weights: map<string, int>, places: seq<nat>)
    requires ListedPlaces(run, weights, places)
    ensures ListedPlaces(run + [item], weights, places + if item.name in weights then [|run|] else [])
  {
  }

  /** The listed items are the run items that have a weight, in their order, each once and with its weight. */
  lemma {:induction false} ListedExact<V>(run: seq<RunItem<V>>, weights: map<string, int>) returns (places: seq<nat>)
    ensures ListedPlaces(run, weights, places) && |Listed(run, weights)| == |places|
    ensures forall k | 0 <= k < |places| ::
      Listed(run, weights)[k] == Item(run[places[k]], weights[run[places[k]].name])
  {
    if run == [] {
      places := [];
    } else {
      var last := |run| - 1;
      var before := ListedExact(run[..last], weights);
      PlacesSnoc(run[..last], run[last], weights, before);
      assert run[..last] + [run[last]] == run;
      places := before + if run[last].name in weights then [last] else [];
      assert forall k | 0 <= k < |before| :: run[..last][before[k]] == run[before[k]];
    }
  }

  lemma ListedStep<V>(run: seq<RunItem<V>>, weights: map<string, int>, i: nat)
    requires i < |run|
    ensures Listed(run[..i + 1], weights) ==
            if run[i].name in weights then Listed(run[..i], weights) + [Item(run[i], weights[run[i].name])]
            else Listed(run[..i], weights)
  {
    assert run[..i + 1][..i] == run[..i];
  }

  datatype Entry<V> = Entry(item: RunItem<V>, cumulative: int)

  /** The entries that `pickWeighted` collects, with cumulative weights. */
  ghost predicate Cumulative<V>(entries: seq<Entry<V>>, items: seq<Item<RunItem<V>>>) {
    && |entries| == |items|
    && forall k :: 0 <= k < |items| ==> entries[k] == Entry(items[k].value, TotalUpTo(items, k))
  }

  lemma CumulativeSnoc<V>(entries: seq<Entry<V>>, items: seq<Item<RunItem<V>>>, item: Item<RunItem<V>>)
    requires Cumulative(entries, items)
    ensures TotalOf(items + [item]) == TotalOf(items) + item.weight
    ensures Cumulative(entries + [Entry(item.value, TotalOf(items) + item.weight)], items + [item])
  {
    var more := items + [item];
    assert more[..|items|] == items && more[..|more|] == more;
    PrefixStep(more, |items|);
    forall k | 0 <= k < |items|
      ensures TotalUpTo(more, k) == TotalUpTo(items, k)
    {
      assert more[..k + 1] == items[..k + 1];
    }
  }

  method CollectEntries<V>(run: seq<RunItem<V>>, weights: map<string, int>)
    returns (entries: seq<Entry<V>>, total: int)
    ensures Cumulative(entries, Listed(run, weights)) && total == TotalOf(Listed(run, weights))
  {
    entries, total := [], 0;
    assert run[..0] == [];
    for i := 0 to |run|
      invariant Cumulative(entries, Listed(run[..i], weights)) && total == TotalOf(Listed(run[..i], weights))
    {
      ListedStep(run, weights, i);
      if run[i].name !in weights {
        continue;
      }
      CumulativeSnoc(entries, Listed(run[..i], weights), Item(run[i], weights[run[i].name]));
      total := total + weights[run[i].name];
      entries := entries + [Entry(run[i], total)];
    }
    assert run[..|run|] == run;
  }

  /** `pickWeighted`, on the number the generator returns if it is asked. It finds the owner of the number
      among the items listed, so the last entry is never the answer for want of another. */
  method PickWeighted<V>(run: seq<RunItem<V>>, weights: map<string, int>, draw: int)
    returns (item: Option<RunItem<V>>)
    requires TotalOf(Listed(run, weights)) != 0 ==> 0 <= draw < TotalOf(Listed(run, weights))
    ensures item.None? <==> TotalOf(Listed(run, weights)) == 0
    ensures item.Some? ==> Selected(Listed(run, weights), draw, item.value)
  {
    ghost var items := Listed(run, weights);
    var entries, total := CollectEntries(run, weights);
    assert items[..0] == [] && items[..|items|] == items;
    if total == 0 {
      return None;
    }
    assert TotalUpTo(items, |items| - 1) == total;
    for i := 0 to |entries|
      invariant forall j: nat | j < i :: TotalUpTo(items, j) <= draw
    {
      if draw < entries[i].cumulative {
        assert Owns(items, i, draw);
        return Some(entries[i].item);
      }
    }
    assert false;
  }

  // ---------------------------------------------------------------- exact odds

  /** Of the draws, each as likely as the other, exactly as many select an item as its weight says: none for
      a weight of zero. `selects` is any way to assign draws to owners, as both methods do. */
  lemma ExactOdds<V>(items: seq<Item<V>>, selects: int -> nat, k: nat)
    requires NonNegative(items) && k < |items|
    requires forall r :: 0 <= r < TotalOf(items) ==> selects(r) < |items| && Owns(items, selects(r), r)
    ensures |set r | 0 <= r < TotalOf(items) && selects(r) == k| == items[k].weight
  {
    var lo, hi := TotalOf(items[..k]), TotalOf(items[..k + 1]);
    assert items[..0] == [] && items[..|items|] == items;
    PrefixGrows(items, 0, k);
    PrefixGrows(items, k + 1, |items|);
    PrefixStep(items, k);
    var chosen := set r | 0 <= r < TotalOf(items) && selects(r) == k;
    forall r | 0 <= r < TotalOf(items)
      ensures r in chosen <==> lo <= r < hi
    {
      OwnsInterval(items, k, r);
      if Owns(items, k, r) {
        OneOwner(items, k, selects(r), r);
      }
    }
    IntervalSize(lo, hi);
    assert chosen == Interval(lo, hi);
  }

  /** The two algorithms agree: on the same weights and the same number from the generator, the subtracting
      one, which starts from that number plus one, and the cumulative one select the same item. */
  method BothAgree<V>(run: seq<RunItem<V>>, weights: map<string, int>, draw: int)
    returns (chosen: Option<RunItem<V>>, picked: Option<RunItem<V>>)
    requires 0 <= draw < TotalOf(Listed(run, weights))
    ensures chosen == picked && chosen.Some?
  {
    var items := Listed(run, weights);
    var totalWeight := MakeWeightedItems(items);
    chosen := Choose(items, totalWeight, draw);
    picked := PickWeighted(run, weights, draw);
    ghost var i: nat :| i < |items| && Owns(items, i, draw) && items[i].value == chosen.value;
    ghost var j: nat :| j < |items| && Owns(items, j, draw) && items[j].value == picked.value;
    OneOwner(items, i, j, draw);
  }
}
