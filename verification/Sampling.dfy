/** Sampling without replacement (pkg/env/ref.go): `ref_diff`, which keeps its place in an index that all
    datasets share, and the two ways in which `ref_n` picks n rows of a dataset. */
module Sampling {

  // ------------------------------------------------------ picking by positions

  ghost predicate Distinct(places: seq<nat>, n: nat) {
    && (forall k :: 0 <= k < |places| ==> places[k] < n)
    && (forall j, k :: 0 <= j < k < |places| ==> places[j] != places[k])
  }

  /** The rows at the given positions. */
  function Gather<Row>(rows: seq<Row>, places: seq<nat>): seq<Row>
    requires forall k :: 0 <= k < |places| ==> places[k] < |rows|
  {
    seq(|places|, k requires 0 <= k < |places| => rows[places[k]])
  }

  function Without(places: seq<nat>, k: nat): (others: seq<nat>)
    requires k < |places|
    ensures |others| == |places| - 1
  {
    places[..k] + places[k + 1..]
  }

  lemma WithoutDistinct(places: seq<nat>, n: nat, k: nat)
    requires Distinct(places, n + 1) && k < |places| && places[k] == n
    ensures Distinct(Without(places, k), n)
  {
    var others := Without(places, k);
    forall j | 0 <= j < |others|
      ensures others[j] == places[if j < k then j else j + 1] && others[j] < n
    {}
  }

  lemma WithoutGather<Row>(rows: seq<Row>, last: Row, places: seq<nat>, k: nat)
    requires Distinct(places, |rows| + 1) && k < |places| && places[k] == |rows|
    requires Distinct(Without(places, k), |rows|)
    ensures multiset(Gather(rows + [last], places)) == multiset(Gather(rows, Without(places, k))) + multiset{last}
  {
    var picked := Gather(rows, Without(places, k));
    assert Gather(rows + [last], places) == picked[..k] + [last] + picked[k..];
    assert picked == picked[..k] + picked[k..];
  }

  /** No position twice: what is picked is a sub-multiset of the rows. */
  lemma {:induction false} GatherSub<Row>(rows: seq<Row>, places: seq<nat>)
    requires Distinct(places, |rows|)
    ensures multiset(Gather(rows, places)) <= multiset(rows)
    decreases |rows|
  {
    if places != [] {
      assert places[0] < |rows|;
      var last := |rows| - 1;
      var fewer := rows[..last];
      assert rows == fewer + [rows[last]];
      if k: nat :| k < |places| && places[k] == last {
        WithoutDistinct(places, last, k);
        WithoutGather(fewer, rows[last], places, k);
        GatherSub(fewer, Without(places, k));
      } else {
        assert Distinct(places, last);
        GatherSub(fewer, places);
        assert Gather(fewer, places) == Gather(rows, places);
      }
    }
  }

  // ------------------------------------------------------------------ ref_diff

  /** A row together with the position it had at the last reset. */
  datatype Tagged<Row> = Tagged(place: nat, row: Row)

  function Tag<Row>(rows: seq<Row>): (tagged: seq<Tagged<Row>>)
  {
    seq(|rows|, k requires 0 <= k < |rows| => Tagged(k, rows[k]))
  }

  function Untag<Row>(tagged: seq<Tagged<Row>>): (rows: seq<Row>)
  {
    seq(|tagged|, k requires 0 <= k < |tagged| => tagged[k].row)
  }

  /** `tagged` is what the dataset holds now: the rows it had at the last reset, moved around. */
  ghost predicate Shuffled<Row>(now: seq<Row>, tagged: seq<Tagged<Row>>, was: seq<Row>) {
    now == Untag(tagged) && multiset(tagged) == multiset(Tag(was))
  }

  lemma TagShuffled<Row>(rows: seq<Row>)
    ensures Shuffled(rows, Tag(rows), rows)
  {}

  function Swap<T>(s: seq<T>, i: nat, j: nat): seq<T>
    requires i < |s| && j < |s|
  {
    s[i := s[j]][j := s[i]]
  }

  lemma SwapSame<T>(s: seq<T>, i: nat, j: nat)
    requires i < |s| && j < |s|
    ensures multiset(Swap(s, i, j)) == multiset(s)
  {}

  lemma SwapShuffled<Row>(now: seq<Row>, tagged: seq<Tagged<Row>>, was: seq<Row>, i: nat, j: nat)
    requires Shuffled(now, tagged, was) && i < |now| && j < |now|
    ensures Shuffled(Swap(now, i, j), Swap(tagged, i, j), was)
  {
    SwapSame(tagged, i, j);
  }

  /** A row handed out by `ref_diff`. */
  datatype Pick<Row> = Pick(name: string, tagged: Tagged<Row>)

  datatype Outcome<Row> = Missing | Panics | Picked(row: Row)

  /** Every pick lies at the position of its turn in the dataset it came from. */
  ghost predicate Recorded<Row>(picks: seq<Pick<Row>>, tagged: map<string, seq<Tagged<Row>>>) {
    forall k :: 0 <= k < |picks| ==>
      && picks[k].name in tagged
      && k < |tagged[picks[k].name]|
      && tagged[picks[k].name][k] == picks[k].tagged
  }

  lemma RecordedNext<Row>(
      picks: seq<Pick<Row>>, tagged: map<string, seq<Tagged<Row>>>, name: string, i: nat)
    requires Recorded(picks, tagged) && name in tagged && |picks| <= i < |tagged[name]|
    ensures var moved := Swap(tagged[name], i, |picks|);
      Recorded(picks + [Pick(name, moved[|picks|])], tagged[name := moved])
  {}

  /** What has been picked in one dataset. */
  function PicksOf<Row>(picks: seq<Pick<Row>>, name: string): (of: seq<Tagged<Row>>) {
    if picks == [] then []
    else
      var last := |picks| - 1;
      PicksOf(picks[..last], name) + (if picks[last].name == name then [picks[last].tagged] else [])
  }

  lemma PicksOfLast<Row>(picks: seq<Pick<Row>>, name: string)
    requires picks != []
    ensures var last := |picks| - 1;
      PicksOf(picks, name) == if picks[last].name == name then PicksOf(picks[..last], name) + [picks[last].tagged]
                              else PicksOf(picks[..last], name)
  {}

  /** No tagged row, and no row, more often in `a` than in `b`. */
  ghost predicate Within<Row>(a: seq<Tagged<Row>>, b: seq<Tagged<Row>>) {
    multiset(a) <= multiset(b) && multiset(Untag(a)) <= multiset(Untag(b))
  }

  lemma UntagSnoc<Row>(tagged: seq<Tagged<Row>>, x: Tagged<Row>)
    ensures multiset(Untag(tagged + [x])) == multiset(Untag(tagged)) + multiset{x.row}
  {
    assert Untag(tagged + [x]) == Untag(tagged) + [x.row];
  }

  lemma WithinSnoc<Row>(a: seq<Tagged<Row>>, b: seq<Tagged<Row>>, x: Tagged<Row>)
    requires Within(a, b)
    ensures Within(a, b + [x]) && Within(a + [x], b + [x])
  {
    UntagSnoc(a, x);
    UntagSnoc(b, x);
  }

  /** The part of `Recorded` about one dataset. */
  ghost predicate Follows<Row>(picks: seq<Pick<Row>>, rows: seq<Tagged<Row>>, name: string) {
    forall k :: 0 <= k < |picks| && picks[k].name == name ==> k < |rows| && rows[k] == picks[k].tagged
  }

  function Least(a: nat, b: nat): nat { if a <= b then a else b }

  lemma TakeSnoc<T>(s: seq<T>, k: nat)
    requires k < |s|
    ensures s[..k + 1] == s[..k] + [s[k]]
  {}

  lemma WithinNext<Row>(a: seq<Tagged<Row>>, b: seq<Tagged<Row>>, x: Tagged<Row>, more: bool,
                        a': seq<Tagged<Row>>, b': seq<Tagged<Row>>)
    requires Within(a, b) && b' == b + [x] && a' == if more then a + [x] else a
    ensures Within(a', b')
  {
    WithinSnoc(a, b, x);
  }

  lemma PicksStep<Row>(picks: seq<Pick<Row>>, rows: seq<Tagged<Row>>, name: string)
    requires picks != [] && Follows(picks, rows, name)
    requires Within(PicksOf(picks[..|picks| - 1], name), rows[..Least(|picks| - 1, |rows|)])
    ensures Within(PicksOf(picks, name), rows[..Least(|picks|, |rows|)])
  {
    var last := |picks| - 1;
    PicksOfLast(picks, name);
    if last < |rows| {
      TakeSnoc(rows, last);
      var earlier, more := PicksOf(picks[..last], name), picks[last].name == name;
      WithinNext(earlier, rows[..last], rows[last], more, PicksOf(picks, name), rows[..last + 1]);
    } else {
      assert picks[last].name != name;
    }
  }

  lemma {:induction false} PicksWithin<Row>(picks: seq<Pick<Row>>, rows: seq<Tagged<Row>>, name: string)
    requires Follows(picks, rows, name)
    ensures Within(PicksOf(picks, name), rows[..Least(|picks|, |rows|)])
  {
    if picks != [] {
      PicksWithin(picks[..|picks| - 1], rows, name);
      PicksStep(picks, rows, name);
    }
  }

  lemma TagOnce<Row>(rows: seq<Row>, x: Tagged<Row>)
    ensures multiset(Tag(rows))[x] <= 1
    ensures x in Tag(rows) <==> x.place < |rows| && rows[x.place] == x.row
  {
    var tagged := Tag(rows);
    assert x.place < |rows| && rows[x.place] == x.row ==> tagged[x.place] == x;
    if x in tagged {
      var k :| 0 <= k < |tagged| && tagged[k] == x;
      assert tagged == tagged[..k] + [tagged[k]] + tagged[k + 1..];
      assert x !in tagged[..k] && x !in tagged[k + 1..];
    }
  }

  /** The calls since the last reset: the datasets as they then were (`snapshot`), as they are now with the
      positions of then (`tagged`), and what has been handed out. */
  datatype History<Row> = History(
    snapshot: map<string, seq<Row>>, tagged: map<string, seq<Tagged<Row>>>, picks: seq<Pick<Row>>)

  ghost predicate Consistent<Row>(datasets: map<string, seq<Row>>, history: History<Row>) {
    match history
    case History(snapshot, tagged, picks) =>
      && snapshot.Keys == datasets.Keys == tagged.Keys
      && (forall name | name in datasets :: Shuffled(datasets[name], tagged[name], snapshot[name]))
      && Recorded(picks, tagged)
  }

  /** However the calls on the datasets interleave: what has been picked in one dataset since the reset are
      rows it then had, none of them twice, and so no row more often than the dataset holds it. */
  lemma NeverTwice<Row>(datasets: map<string, seq<Row>>, h: History<Row>, name: string)
    requires Consistent(datasets, h) && name in datasets
    ensures forall x :: multiset(PicksOf(h.picks, name))[x] <= 1
    ensures forall x :: x in PicksOf(h.picks, name) ==>
                          x.place < |h.snapshot[name]| && h.snapshot[name][x.place] == x.row
    ensures multiset(Untag(PicksOf(h.picks, name))) <= multiset(datasets[name])
  {
    var picked, rows, was := PicksOf(h.picks, name), h.tagged[name], h.snapshot[name];
    PicksWithin(h.picks, rows, name);
    PrefixWithin(rows, Least(|h.picks|, |rows|));
    forall x: Tagged<Row>
      ensures multiset(picked)[x] <= 1
    {
      TagOnce(was, x);
      assert multiset(picked)[x] <= multiset(rows)[x] == multiset(Tag(was))[x];
    }
    forall x | x in picked
      ensures x.place < |was| && was[x.place] == x.row
    {
      TagOnce(was, x);
      assert x in multiset(picked) && x in multiset(rows) && x in multiset(Tag(was));
    }
  }

  lemma PrefixWithin<Row>(tagged: seq<Tagged<Row>>, n: nat)
    requires n <= |tagged|
    ensures multiset(tagged[..n]) <= multiset(tagged)
    ensures multiset(Untag(tagged[..n])) <= multiset(Untag(tagged))
  {
    assert tagged == tagged[..n] + tagged[n..];
    assert Untag(tagged) == Untag(tagged[..n]) + Untag(tagged[n..]);
  }

  function Started<Row>(datasets: map<string, seq<Row>>): (history: History<Row>) {
    History(datasets, map name | name in datasets :: Tag(datasets[name]), [])
  }

  /** The history after the call on `name` that swaps row i to the front of what is left. */
  ghost function Drawn<Row>(datasets: map<string, seq<Row>>, h: History<Row>, name: string, i: nat): History<Row>
    requires Consistent(datasets, h) && name in datasets && |h.picks| <= i < |datasets[name]|
  {
    var moved := Swap(h.tagged[name], i, |h.picks|);
    History(h.snapshot, h.tagged[name := moved], h.picks + [Pick(name, moved[|h.picks|])])
  }

  /** One more row of dataset `name` has been handed out, and its rows have only changed places. */
  ghost predicate HandedOut<Row>(
    before: map<string, seq<Row>>, h: History<Row>, after: map<string, seq<Row>>, h': History<Row>,
    name: string, row: Row)
  {
    match h'
    case History(snapshot, _, picks) =>
      && name in before && name in after
      && after == before[name := after[name]] && multiset(after[name]) == multiset(before[name])
      && snapshot == h.snapshot
      && |picks| == |h.picks| + 1
      && picks == h.picks + [Pick(name, Tagged(picks[|h.picks|].tagged.place, row))]
  }

  lemma DrawnConsistent<Row>(datasets: map<string, seq<Row>>, h: History<Row>, name: string, i: nat)
    requires Consistent(datasets, h) && name in datasets && |h.picks| <= i < |datasets[name]|
    ensures Consistent(datasets[name := Swap(datasets[name], i, |h.picks|)], Drawn(datasets, h, name, i))
  {
    SwapShuffled(datasets[name], h.tagged[name], h.snapshot[name], i, |h.picks|);
    RecordedNext(h.picks, h.tagged, name, i);
  }

  lemma DrawnOne<Row>(datasets: map<string, seq<Row>>, h: History<Row>, name: string, i: nat)
    requires Consistent(datasets, h) && name in datasets && |h.picks| <= i < |datasets[name]|
    ensures var data := Swap(datasets[name], i, |h.picks|);
      HandedOut(datasets, h, datasets[name := data], Drawn(datasets, h, name, i), name, data[|h.picks|])
  {
    SwapSame(datasets[name], i, |h.picks|);
    SwapShuffled(datasets[name], h.tagged[name], h.snapshot[name], i, |h.picks|);
    var x := Swap(h.tagged[name], i, |h.picks|)[|h.picks|];
    assert x == Tagged(x.place, Swap(datasets[name], i, |h.picks|)[|h.picks|]);
  }

  lemma StartedConsistent<Row>(datasets: map<string, seq<Row>>)
    ensures Consistent(datasets, Started(datasets))
  {
    forall name | name in datasets
      ensures Shuffled(datasets[name], Tag(datasets[name]), datasets[name])
    {
      TagShuffled(datasets[name]);
    }
  }

  class Env<Row> {
    var datasets: map<string, seq<Row>>
    var uniqIndex: nat
    ghost var history: History<Row>

    ghost predicate Valid()
      reads this
    {
      Consistent(datasets, history) && uniqIndex == |history.picks|
    }

    constructor (datasets: map<string, seq<Row>>)
      ensures Valid() && this.datasets == datasets && history == Started(datasets)
    {
      this.datasets, uniqIndex, history := datasets, 0, Started(datasets);
      StartedConsistent(datasets);
    }

    /** `refDiff`. It panics exactly when the draws since the reset, from whichever datasets, are as many
        as this dataset has rows. */
    method RefDiff(name: string) returns (outcome: Outcome<Row>)
      requires Valid()
      modifies this
      ensures Valid()
      ensures outcome.Missing? <==> name !in old(datasets) || old(datasets)[name] == []
      ensures outcome.Panics? <==> name in old(datasets) && 0 < |old(datasets)[name]| <= old(|history.picks|)
      ensures !outcome.Picked? ==> history == old(history) && datasets == old(datasets)
      ensures outcome.Picked? ==> HandedOut(old(datasets), old(history), datasets, history, name, outcome.row)
    {
      if name !in datasets || datasets[name] == [] {
        return Missing;
      }
      if |datasets[name]| <= uniqIndex {
        return Panics;
      }
      var row := Draw(name);
      outcome := Picked(row);
    }

    /** Swaps a row that is left to the front of those left, and hands it out. */
    method Draw(name: string) returns (row: Row)
      requires Valid() && name in datasets && uniqIndex < |datasets[name]|
      modifies this
      ensures Valid() && HandedOut(old(datasets), old(history), datasets, history, name, row)
    {
      var data := datasets[name];
      var i: nat :| uniqIndex <= i < |data|;
      DrawnConsistent(datasets, history, name, i);
      DrawnOne(datasets, history, name, i);
      history := Drawn(datasets, history, name, i);
      data := Swap(data, i, uniqIndex);
      datasets := datasets[name := data];
      row := data[uniqIndex];
      uniqIndex := uniqIndex + 1;
    }

    /** `resetUniqIndex`, which the argument generation defers. */
    method ResetUniqIndex()
      requires Valid()
      modifies this`uniqIndex, this`history
      ensures Valid() && uniqIndex == 0 && history == Started(datasets)
    {
      uniqIndex, history := 0, Started(datasets);
      StartedConsistent(datasets);
    }
  }

  // --------------------------------------------------------------------- ref_n

  lemma SwapDistinct(places: seq<nat>, n: nat, i: nat, j: nat)
    requires Distinct(places, n) && i < |places| && j < |places|
    ensures Distinct(Swap(places, i, j), n)
  {}

  /** The rows at as many different positions. */
  ghost predicate Sample<Row>(data: seq<Row>, parts: seq<Row>) {
    exists picks :: Distinct(picks, |data|) && parts == Gather(data, picks)
  }

  /** `fisherYates` */
  method FisherYates<Row>(data: seq<Row>, n: nat) returns (parts: seq<Row>)
    requires n <= |data|
    ensures |parts| == n && Sample(data, parts)
  {
    var indices := new nat[|data|](k => k);
    parts := [];
    ghost var picks: seq<nat> := [];
    for i := 0 to n
      invariant Distinct(indices[..], |data|)
      invariant picks == indices[..i] && parts == Gather(data, picks)
    {
      var j: nat :| i <= j < |data|;
      ghost var before := indices[..];
      SwapDistinct(before, |data|, i, j);
      indices[i], indices[j] := indices[j], indices[i];
      assert indices[..] == Swap(before, i, j);
      assert indices[..i] == before[..i];
      parts := parts + [data[indices[i]]];
      picks := picks + [indices[i]];
      assert indices[..i + 1] == indices[..i] + [indices[i]];
    }
  }

  /** The draws with every repetition left out. */
  function FirstOnly(draws: seq<nat>): (kept: seq<nat>) {
    if draws == [] then []
    else
      var last := |draws| - 1;
      var kept := FirstOnly(draws[..last]);
      if draws[last] in draws[..last] then kept else kept + [draws[last]]
  }

  lemma {:induction false} FirstOnlyElements(draws: seq<nat>)
    ensures forall x: nat :: x in FirstOnly(draws) <==> x in draws
  {
    if draws != [] {
      var last := |draws| - 1;
      FirstOnlyElements(draws[..last]);
      assert draws == draws[..last] + [draws[last]];
    }
  }

  lemma {:induction false} FirstOnlyDistinct(draws: seq<nat>, n: nat)
    requires forall k :: 0 <= k < |draws| ==> draws[k] < n
    ensures Distinct(FirstOnly(draws), n)
  {
    if draws != [] {
      FirstOnlyDistinct(draws[..|draws| - 1], n);
      FirstOnlyElements(draws[..|draws| - 1]);
    }
  }

  function Elements(draws: seq<nat>): (xs: set<nat>) { set x | x in draws }

  lemma {:induction false} FirstOnlySize(draws: seq<nat>)
    ensures |FirstOnly(draws)| == |Elements(draws)|
  {
    if draws != [] {
      var last := |draws| - 1;
      FirstOnlySize(draws[..last]);
      assert draws == draws[..last] + [draws[last]];
      assert Elements(draws) == Elements(draws[..last]) + {draws[last]};
      assert draws[last] in draws[..last] ==> Elements(draws) == Elements(draws[..last]);
    }
  }

  lemma FewerElements(draws: seq<nat>, used: nat)
    requires used <= |draws|
    ensures |FirstOnly(draws[..used])| <= |Elements(draws)|
  {
    FirstOnlySize(draws[..used]);
    Subset(Elements(draws[..used]), Elements(draws));
  }

  /** The state of the sampling after `used` draws. */
  ghost predicate Sampled<Row>(data: seq<Row>, draws: seq<nat>, used: nat, seen: set<nat>, parts: seq<Row>)
    requires forall k :: 0 <= k < |draws| ==> draws[k] < |data|
  {
    && used <= |draws|
    && seen == Elements(draws[..used])
    && Distinct(FirstOnly(draws[..used]), |data|)
    && parts == Gather(data, FirstOnly(draws[..used]))
  }

  lemma SampledStep<Row>(data: seq<Row>, draws: seq<nat>, used: nat, seen: set<nat>, parts: seq<Row>)
    requires forall k :: 0 <= k < |draws| ==> draws[k] < |data|
    requires used < |draws| && Sampled(data, draws, used, seen, parts)
    ensures var idx := draws[used];
      if idx in seen then Sampled(data, draws, used + 1, seen, parts)
      else Sampled(data, draws, used + 1, seen + {idx}, parts + [data[idx]])
  {
    var idx, before, after := draws[used], draws[..used], draws[..used + 1];
    assert after == before + [idx] && after[..|after| - 1] == before;
    FirstOnlyDistinct(after, |data|);
    assert Elements(after) == Elements(before) + {idx};
    assert idx in before <==> idx in seen;
  }

  /** `rejection`, on the numbers the generator supplies: it returns the rows at the first n different
      numbers drawn, and is still drawing exactly if the supply holds fewer than n different ones. */
  method Rejection<Row>(data: seq<Row>, n: nat, draws: seq<nat>) returns (done: bool, parts: seq<Row>, used: nat)
    requires forall k :: 0 <= k < |draws| ==> draws[k] < |data|
    ensures used <= |draws| && (done <==> n <= |Elements(draws)|)
    ensures Distinct(FirstOnly(draws[..used]), |data|) && parts == Gather(data, FirstOnly(draws[..used]))
    ensures done ==> |parts| == n
  {
    parts, used := [], 0;
    var seen: set<nat> := {};
    for i := 0 to n
      invariant Sampled(data, draws, used, seen, parts) && |parts| == i
    {
      while used < |draws| && draws[used] in seen
        invariant Sampled(data, draws, used, seen, parts) && |parts| == i
      {
        SampledStep(data, draws, used, seen, parts);
        used := used + 1;
      }
      if used == |draws| {
        assert draws[..used] == draws;
        FirstOnlySize(draws);
        return false, parts, used;
      }
      SampledStep(data, draws, used, seen, parts);
      seen := seen + {draws[used]};
      parts := parts + [data[draws[used]]];
      used := used + 1;
    }
    done := true;
    FewerElements(draws, used);
  }

  lemma Subset<T>(a: set<T>, b: set<T>)
    requires a <= b
    ensures |a| <= |b|
  {
    assert b == a + (b - a);
  }

  const REJECTION_SAMPLING_FACTOR := 4

  /** `refN`, up to the joining of the parts: between lo and hi rows, or all there are, no row more often
      than the dataset holds it. Only a supply that repeats itself keeps it from being done. */
  method RefN<Row>(data: seq<Row>, lo: nat, hi: nat, draws: seq<nat>) returns (done: bool, parts: seq<Row>)
    requires lo <= hi && forall k :: 0 <= k < |draws| ==> draws[k] < |data|
    ensures multiset(parts) <= multiset(data)
    ensures done ==> (if lo <= |data| then lo else |data|) <= |parts| <= (if hi <= |data| then hi else |data|)
    ensures !done ==> |Elements(draws)| < hi && |Elements(draws)| * REJECTION_SAMPLING_FACTOR < |data|
  {
    if data == [] {
      return true, [];
    }
    var n: nat :| lo <= n <= hi;
    n := if n <= |data| then n else |data|;
    if n * REJECTION_SAMPLING_FACTOR < |data| {
      var used;
      done, parts, used := Rejection(data, n, draws);
      GatherSub(data, FirstOnly(draws[..used]));
    } else {
      parts := FisherYates(data, n);
      done := true;
      ghost var picks :| Distinct(picks, |data|) && parts == Gather(data, picks);
      GatherSub(data, picks);
    }
  }
}
