/** Folding the stream of results into statistics per query name (cmd/edg/stats.go). */
module Stats {

  /** `config.QueryResult`, without what is printed. */
  datatype Result = Result(name: string, failed: bool, latency: int, count: int, isTransaction: bool, rollback: bool)

  /** `queryStats`, without what is printed. */
  datatype QueryStats = QueryStats(
    count: int, errors: nat, commits: nat, rollbacks: nat,
    totalLatency: int, latencies: seq<int>, isTransaction: bool)

  const NoStats := QueryStats(0, 0, 0, 0, 0, [], false)

  /** What the consumer's select picks, one after the other. */
  datatype Input = WarmupOver | Tick | Got(result: Result)

  // ---------------------------------------------------------- what is counted

  /** All results received. */
  function Received(inputs: seq<Input>): seq<Result> {
    if inputs == [] then []
    else (match inputs[0] case Got(r) => [r] case _ => []) + Received(inputs[1..])
  }

  /** The results received when the warmup, if there is one, is over. */
  function Collected(inputs: seq<Input>, warmingUp: bool): seq<Result> {
    if !warmingUp then Received(inputs)
    else if inputs == [] then []
    else Collected(inputs[1..], !inputs[0].WarmupOver?)
  }

  /** The results of one name. */
  function Of(results: seq<Result>, name: string): seq<Result> {
    if results == [] then []
    else (if results[0].name == name then [results[0]] else []) + Of(results[1..], name)
  }

  function Count(results: seq<Result>, p: Result -> bool): nat {
    if results == [] then 0 else (if p(results[0]) then 1 else 0) + Count(results[1..], p)
  }

  function Latencies(results: seq<Result>): seq<int> {
    if results == [] then []
    else (if results[0].failed then [] else [results[0].latency]) + Latencies(results[1..])
  }

  function Sum(xs: seq<int>): int {
    if xs == [] then 0 else xs[0] + Sum(xs[1..])
  }

  function Counts(results: seq<Result>): int {
    if results == [] then 0
    else (if results[0].failed then 0 else results[0].count) + Counts(results[1..])
  }

  predicate Failed(r: Result) { r.failed }

  predicate Settled(r: Result) { r.isTransaction && !r.failed }

  predicate Committed(r: Result) { Settled(r) && !r.rollback }

  predicate RolledBack(r: Result) { Settled(r) && r.rollback }

  predicate Transactional(r: Result) { r.isTransaction }

  /** The statistics that the results of one name amount to. */
  function Summary(results: seq<Result>): QueryStats {
    QueryStats(
      Counts(results),
      Count(results, Failed),
      Count(results, Committed),
      Count(results, RolledBack),
      Sum(Latencies(results)),
      Latencies(results),
      Count(results, Transactional) > 0)
  }

  // ------------------------------------------------------------- concatenation

  lemma {:induction false} CountConcat(a: seq<Result>, b: seq<Result>, p: Result -> bool)
    ensures Count(a + b, p) == Count(a, p) + Count(b, p)
  {
    if a == [] {
      assert a + b == b;
    } else {
      assert (a + b)[1..] == a[1..] + b;
      CountConcat(a[1..], b, p);
    }
  }

  lemma {:induction false} LatenciesConcat(a: seq<Result>, b: seq<Result>)
    ensures Latencies(a + b) == Latencies(a) + Latencies(b) && Counts(a + b) == Counts(a) + Counts(b)
  {
    if a == [] {
      assert a + b == b;
    } else {
      assert (a + b)[1..] == a[1..] + b;
      LatenciesConcat(a[1..], b);
    }
  }

  lemma {:induction false} SumConcat(a: seq<int>, b: seq<int>)
    ensures Sum(a + b) == Sum(a) + Sum(b)
  {
    if a == [] {
      assert a + b == b;
    } else {
      assert (a + b)[1..] == a[1..] + b;
      SumConcat(a[1..], b);
    }
  }

  lemma OfCons(first: Result, rest: seq<Result>, name: string)
    ensures Of([first] + rest, name) == if first.name == name then [first] + Of(rest, name) else Of(rest, name)
  {
    assert ([first] + rest)[1..] == rest;
  }

  lemma {:induction false} OfSnoc(results: seq<Result>, r: Result, name: string)
    ensures Of(results + [r], name) == if r.name == name then Of(results, name) + [r] else Of(results, name)
  {
    if results == [] {
      assert [] + [r] == [r] + [];
      OfCons(r, [], name);
    } else {
      var first, rest := results[0], results[1..];
      OfSnoc(rest, r, name);
      assert results + [r] == [first] + (rest + [r]) && results == [first] + rest;
      OfCons(first, rest + [r], name);
      OfCons(first, rest, name);
    }
  }

  lemma {:induction false} OfNone(results: seq<Result>, name: string)
    ensures Of(results, name) == [] <==> name !in Names(results)
  {
    if results != [] {
      OfNone(results[1..], name);
      assert Names(results) == {results[0].name} + Names(results[1..]);
    }
  }

  function Names(results: seq<Result>): set<string> {
    set r | r in results :: r.name
  }

  // ------------------------------------------------------------------ the code

  /** The part of `printResults` that updates the statistics of one name. */
  method Update(s0: QueryStats, r: Result, ghost before: seq<Result>) returns (s: QueryStats)
    requires s0 == Summary(before)
    ensures s == Summary(before + [r])
  {
    s := s0.(isTransaction := s0.isTransaction || r.isTransaction);
    SummarySnoc(before, r);
    if r.failed {
      s := s.(errors := s.errors + 1);
      return;
    }
    s := s.(count := s.count + r.count, totalLatency := s.totalLatency + r.latency,
            latencies := s.latencies + [r.latency]);
    if !r.isTransaction {
      return;
    }
    if r.rollback {
      s := s.(rollbacks := s.rollbacks + 1);
    } else {
      s := s.(commits := s.commits + 1);
    }
  }

  lemma SummarySnoc(before: seq<Result>, r: Result)
    ensures var s, s' := Summary(before), Summary(before + [r]);
      && s'.count == s.count + (if r.failed then 0 else r.count)
      && s'.errors == s.errors + (if r.failed then 1 else 0)
      && s'.commits == s.commits + (if !r.failed && r.isTransaction && !r.rollback then 1 else 0)
      && s'.rollbacks == s.rollbacks + (if !r.failed && r.isTransaction && r.rollback then 1 else 0)
      && s'.latencies == s.latencies + (if r.failed then [] else [r.latency])
      && s'.totalLatency == s.totalLatency + (if r.failed then 0 else r.latency)
      && s'.isTransaction == (s.isTransaction || r.isTransaction)
  {
    CountConcat(before, [r], Failed);
    CountConcat(before, [r], Committed);
    CountConcat(before, [r], RolledBack);
    CountConcat(before, [r], Transactional);
    LatenciesConcat(before, [r]);
    SumConcat(Latencies(before), Latencies([r]));
    assert [r][1..] == [];
  }

  /** The statistics hold a summary for every name that occurs, and nothing else. */
  ghost predicate Tells(stats: map<string, QueryStats>, results: seq<Result>) {
    && stats.Keys == Names(results)
    && forall name | name in stats :: stats[name] == Summary(Of(results, name))
  }

  lemma NamesSnoc(results: seq<Result>, r: Result)
    ensures Names(results + [r]) == Names(results) + {r.name}
  {}

  lemma TellsSnoc(stats: map<string, QueryStats>, results: seq<Result>, r: Result, s: QueryStats)
    requires Tells(stats, results) && s == Summary(Of(results, r.name) + [r])
    ensures Tells(stats[r.name := s], results + [r])
  {
    NamesSnoc(results, r);
    var stats' := stats[r.name := s];
    forall name | name in stats'
      ensures stats'[name] == Summary(Of(results + [r], name))
    {
      OfSnoc(results, r, name);
    }
  }

  lemma SummaryOf(stats: map<string, QueryStats>, results: seq<Result>, name: string)
    requires Tells(stats, results)
    ensures (if name in stats then stats[name] else NoStats) == Summary(Of(results, name))
  {
    OfNone(results, name);
  }

  /** The part of `printResults` that handles one result. */
  method Record(before: map<string, QueryStats>, r: Result, ghost seen: seq<Result>)
    returns (stats: map<string, QueryStats>)
    requires Tells(before, seen)
    ensures Tells(stats, seen + [r])
  {
    SummaryOf(before, seen, r.name);
    var s := if r.name in before then before[r.name] else NoStats;
    s := Update(s, r, Of(seen, r.name));
    TellsSnoc(before, seen, r, s);
    stats := before[r.name := s];
  }

  /** `printResults`: `inputs` are what the select picks until the channel is closed and drained. */
  method PrintResults(inputs: seq<Input>, warmup: bool) returns (stats: map<string, QueryStats>)
    ensures Tells(stats, Collected(inputs, warmup))
  {
    stats := map[];
    var warmingUp := warmup;
    ghost var seen: seq<Result> := [];
    assert inputs[0..] == inputs;
    for i := 0 to |inputs|
      invariant Tells(stats, seen)
      invariant seen + Collected(inputs[i..], warmingUp) == Collected(inputs, warmup)
    {
      CollectedStep(inputs, i, warmingUp, seen);
      match inputs[i]
      case WarmupOver =>
        warmingUp := false;
      case Tick =>
      case Got(r) =>
        if warmingUp {
          continue;
        }
        stats := Record(stats, r, seen);
        seen := seen + [r];
    }
    assert inputs[|inputs|..] == [];
    assert seen == seen + Collected([], warmingUp);
  }

  lemma CollectedStep(inputs: seq<Input>, i: nat, warmingUp: bool, seen: seq<Result>)
    requires i < |inputs|
    ensures var rest, now := inputs[i + 1..], Collected(inputs[i..], warmingUp); match inputs[i]
      case WarmupOver => now == Collected(rest, false)
      case Tick => now == Collected(rest, warmingUp)
      case Got(r) => if warmingUp then now == Collected(rest, true)
                     else seen + now == (seen + [r]) + Collected(rest, false)
  {
    assert inputs[i..][0] == inputs[i] && inputs[i..][1..] == inputs[i + 1..];
    assert inputs[i].Got? ==>
      seen + ([inputs[i].result] + Received(inputs[i + 1..])) == (seen + [inputs[i].result]) + Received(inputs[i + 1..]);
  }

  // ------------------------------------------------------------- conservation

  /** Each result of a name is either an error or a latency; each transaction that is no error, a commit or a rollback. */
  lemma {:induction false} NothingLost(results: seq<Result>)
    ensures var s := Summary(results);
      && s.errors + |s.latencies| == |results|
      && s.commits + s.rollbacks == Count(results, Settled)
      && s.commits + s.rollbacks <= |s.latencies|
  {
    if results != [] {
      NothingLost(results[1..]);
    }
  }

  /** What is collected is a suffix of what is received; all of it without a warmup. */
  lemma {:induction false} CollectedSuffix(inputs: seq<Input>, warmup: bool)
    ensures |Collected(inputs, warmup)| <= |Received(inputs)|
    ensures Collected(inputs, warmup) == Received(inputs)[|Received(inputs)| - |Collected(inputs, warmup)|..]
    ensures !warmup ==> Collected(inputs, warmup) == Received(inputs)
  {
    if warmup && inputs != [] {
      CollectedSuffix(inputs[1..], !inputs[0].WarmupOver?);
    }
  }
}
