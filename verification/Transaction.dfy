/**
 Running a transaction with retries (pkg/env/env_worker.go): the database
 events and the results it leaves behind, for every behaviour of the database,
 the expressions and the context.
 */
module Transaction {

  // --------------------------------------------------------- the environment

  /** An element of a transaction: a query, or a `rollback_if` condition. */
  datatype Item = Query(name: string) | RollbackIf

  /**
   What happens at an item. A query may fail, before it is sent (its arguments
   cannot be generated) or after, or succeed and then have its wait cut short
   by the context; a condition may fail, or be true.
   */
  datatype ItemOutcome = Passes | Fails | FailsUnsent | PassesButCancelled | Holds
  {
    predicate IsFailure() { Fails? || FailsUnsent? }
  }

  /** One attempt, as the environment decides it. */
  datatype Attempt = Attempt(
    begins: bool,                  // BEGIN succeeds
    localsFail: bool,              // evaluating the locals fails
    outcome: nat -> ItemOutcome,   // what happens at each item
    commits: bool)                 // COMMIT succeeds

  /**
   The attempts; whether the context ends during the pause before an attempt;
   whether it is done after an attempt, and during the wait after a success.
   */
  datatype World = World(
    transactor: bool,              // the driver supports transactions
    attempt: nat -> Attempt,
    cut: nat -> bool,
    done: nat -> bool,
    waitCut: bool)

  // ------------------------------------------------------- what can be observed

  datatype Event = Begin(ok: bool) | Statement(item: nat) | Commit(ok: bool) | Rollback

  /** `QueryResult`, as far as it tells what happened. */
  datatype QueryResult = QueryResult(name: string, isTransaction: bool, failed: bool, rollback: bool)

  datatype TxState = Idle | Open | Broken

  /**
   The database seen as an automaton: a transaction is opened only when none
   is open, statements run only inside one, and each opened one is ended by
   exactly one commit, failed commit or rollback.
   */
  function Next(s: TxState, e: Event): TxState {
    match (s, e)
    case (Idle, Begin(ok)) => if ok then Open else Idle
    case (Open, Statement(_)) => Open
    case (Open, Commit(_)) => Idle
    case (Open, Rollback) => Idle
    case _ => Broken
  }

  function After(s: TxState, events: seq<Event>): TxState
    decreases |events|
  {
    if events == [] then s else After(Next(s, events[0]), events[1..])
  }

  lemma {:induction false} AfterConcat(s: TxState, a: seq<Event>, b: seq<Event>)
    ensures After(s, a + b) == After(After(s, a), b)
    decreases |a|
  {
    if a == [] {
      assert a + b == b;
    } else {
      assert (a + b)[1..] == a[1..] + b;
      AfterConcat(Next(s, a[0]), a[1..], b);
    }
  }

  function Count(events: seq<Event>, e: Event): nat {
    multiset(events)[e]
  }

  function Begins(events: seq<Event>): nat {
    Count(events, Begin(true)) + Count(events, Begin(false))
  }

  /** The results of whole transactions. */
  function Reports(results: seq<QueryResult>): seq<QueryResult> {
    if results == [] then []
    else (if results[0].isTransaction then [results[0]] else []) + Reports(results[1..])
  }

  lemma {:induction false} ReportsConcat(a: seq<QueryResult>, b: seq<QueryResult>)
    ensures Reports(a + b) == Reports(a) + Reports(b)
  {
    if a == [] {
      assert a + b == b;
    } else {
      assert (a + b)[1..] == a[1..] + b;
      ReportsConcat(a[1..], b);
    }
  }

  // ------------------------------------------------ how an attempt is to end

  datatype Ending = Committed | RolledBack | Failed

  /** The first item at or after `i` that ends the attempt; `|items|` if none does. */
  function Stop(items: seq<Item>, outcome: nat -> ItemOutcome, i: nat): (k: nat)
    requires i <= |items|
    ensures i <= k <= |items|
    decreases |items| - i
  {
    if i == |items| then i
    else if Ends(items[i], outcome(i)) then i
    else Stop(items, outcome, i + 1)
  }

  predicate Ends(item: Item, o: ItemOutcome) {
    match item
    case Query(_) => o.IsFailure() || o.PassesButCancelled?
    case RollbackIf => o.IsFailure() || o.Holds?
  }

  /** How an attempt ends: conditions that hold roll back, everything else that ends early is an error. */
  function EndingOf(items: seq<Item>, w: World, n: nat): Ending {
    var a := w.attempt(n);
    if !w.transactor || !a.begins || a.localsFail then Failed
    else
      var k := Stop(items, a.outcome, 0);
      if k < |items| then
        if items[k].RollbackIf? && a.outcome(k).Holds? then RolledBack else Failed
      else if a.commits then Committed
      else Failed
  }

  /** The attempt is the last one: it did not fail, the context is done, or no retry is left. */
  predicate IsLast(items: seq<Item>, w: World, retries: int, n: nat) {
    EndingOf(items, w, n) != Failed || w.done(n) || n >= retries
  }

  /** The number of the last attempt, counted from `n`. */
  function Last(items: seq<Item>, w: World, retries: nat, n: nat): (l: nat)
    requires n <= retries
    ensures n <= l <= retries && IsLast(items, w, retries, l)
    ensures forall k | n <= k < l :: !IsLast(items, w, retries, k)
    decreases retries - n
  {
    if IsLast(items, w, retries, n) then n else Last(items, w, retries, n + 1)
  }

  /** The statements among the events. */
  function Ran(events: seq<Event>): seq<nat> {
    if events == [] then []
    else (match events[0] case Statement(i) => [i] case _ => []) + Ran(events[1..])
  }

  lemma {:induction false} RanConcat(a: seq<Event>, b: seq<Event>)
    ensures Ran(a + b) == Ran(a) + Ran(b)
  {
    if a == [] {
      assert a + b == b;
    } else {
      assert (a + b)[1..] == a[1..] + b;
      RanConcat(a[1..], b);
    }
  }

  /** The queries that are sent when item `stop` ends the attempt: all before it, and it too when it is one. */
  function QueriesBefore(items: seq<Item>, outcome: nat -> ItemOutcome, stop: nat): seq<nat>
    requires stop <= |items|
  {
    Queries(items, outcome, Reached(items, stop))
  }

  /** The numbers of the queries sent among the first `n` items. */
  function Queries(items: seq<Item>, outcome: nat -> ItemOutcome, n: nat): seq<nat>
    requires n <= |items|
  {
    if n == 0 then []
    else
      Queries(items, outcome, n - 1)
      + (if items[n - 1].Query? && !outcome(n - 1).FailsUnsent? then [n - 1] else [])
  }

  /** How far an attempt gets that ends at item `stop`. */
  function Reached(items: seq<Item>, stop: nat): nat { if stop < |items| then stop + 1 else stop }

  /** The result of every query among the first `n` items. */
  function ResultsOf(items: seq<Item>, outcome: nat -> ItemOutcome, n: nat): seq<QueryResult>
    requires n <= |items|
  {
    if n == 0 then []
    else
      ResultsOf(items, outcome, n - 1)
      + (match items[n - 1]
         case Query(name) => [QueryResult(name, false, outcome(n - 1).IsFailure(), false)]
         case RollbackIf => [])
  }

  /** The results of the queries an attempt is to run. */
  function AttemptResults(items: seq<Item>, w: World, n: nat): seq<QueryResult> {
    var a := w.attempt(n);
    if w.transactor && a.begins && !a.localsFail then
      ResultsOf(items, a.outcome, Reached(items, Stop(items, a.outcome, 0)))
    else []
  }

  /** The results of the queries run by the attempts before number `n`. */
  function AllResults(items: seq<Item>, w: World, n: nat): seq<QueryResult> {
    if n == 0 then [] else AllResults(items, w, n - 1) + AttemptResults(items, w, n - 1)
  }

  lemma {:induction false} NoReports(items: seq<Item>, outcome: nat -> ItemOutcome, n: nat)
    requires n <= |items|
    ensures Reports(ResultsOf(items, outcome, n)) == []
  {
    if n > 0 {
      NoReports(items, outcome, n - 1);
      var before := ResultsOf(items, outcome, n - 1);
      if items[n - 1].Query? {
        SendPlain(before, QueryResult(items[n - 1].name, false, outcome(n - 1).IsFailure(), false));
      } else {
        assert before + [] == before;
      }
    }
  }

  /** None of them is the result of a whole transaction. */
  lemma {:induction false} NoneReported(items: seq<Item>, w: World, n: nat)
    ensures Reports(AllResults(items, w, n)) == []
  {
    if n > 0 {
      NoneReported(items, w, n - 1);
      var a := w.attempt(n - 1);
      NoReports(items, a.outcome, Reached(items, Stop(items, a.outcome, 0)));
      ReportsConcat(AllResults(items, w, n - 1), AttemptResults(items, w, n - 1));
    }
  }

  /** Only statements. */
  predicate AllStatements(events: seq<Event>) {
    forall i | 0 <= i < |events| :: events[i].Statement?
  }

  lemma {:induction false} StatementsStayOpen(runs: seq<Event>)
    requires AllStatements(runs)
    ensures After(Open, runs) == Open
    decreases |runs|
  {
    if runs != [] {
      StatementsStayOpen(runs[1..]);
    }
  }

  /** What an attempt leaves behind: complete transactions, and a commit, as its last event, iff it ends in one. */
  ghost predicate AttemptEvents(items: seq<Item>, w: World, n: nat, events: seq<Event>) {
    var ending := EndingOf(items, w, n);
    && After(Idle, events) == Idle
    && Begins(events) == (if w.transactor then 1 else 0)
    && Count(events, Commit(true)) == (if ending == Committed then 1 else 0)
    && (ending == Committed ==> events != [] && events[|events| - 1] == Commit(true))
    && (ending == RolledBack ==> events != [] && events[|events| - 1] == Rollback)
    && Ran(events) == ToRun(items, w, n)
  }

  /** The queries an attempt is to run. */
  function ToRun(items: seq<Item>, w: World, n: nat): seq<nat> {
    var a := w.attempt(n);
    if w.transactor && a.begins && !a.localsFail then QueriesBefore(items, a.outcome, Stop(items, a.outcome, 0)) else []
  }

  /** BEGIN, the statements, and one closing event. */
  lemma Bracketed(runs: seq<Event>, last: Event)
    requires AllStatements(runs) && (last.Commit? || last.Rollback?)
    ensures var events := [Begin(true)] + runs + [last];
      && After(Idle, events) == Idle && Begins(events) == 1
      && Count(events, Commit(true)) == (if last == Commit(true) then 1 else 0)
      && Ran(events) == Ran(runs)
  {
    var events := [Begin(true)] + runs + [last];
    StatementsStayOpen(runs);
    AfterConcat(Idle, [Begin(true)] + runs, [last]);
    AfterConcat(Idle, [Begin(true)], runs);
    assert After(Idle, [Begin(true)]) == Open by {
      assert [Begin(true)][1..] == [];
    }
    assert After(Open, [last]) == Idle by {
      assert [last][1..] == [];
    }
    forall e: Event | !e.Statement?
      ensures multiset(runs)[e] == 0
    {
      assert e !in runs;
    }
    RanConcat([Begin(true)] + runs, [last]);
    RanConcat([Begin(true)], runs);
    assert Ran([Begin(true)]) == [] && Ran([last]) == [] by {
      assert [Begin(true)][1..] == [] && [last][1..] == [];
    }
  }

  /** An attempt that opens no transaction. */
  lemma NotOpened(items: seq<Item>, w: World, n: nat)
    ensures !w.transactor ==> AttemptEvents(items, w, n, [])
    ensures w.transactor && !w.attempt(n).begins ==> AttemptEvents(items, w, n, [Begin(false)])
  {
    assert [Begin(false)][1..] == [];
  }

  /** An attempt that opens one. */
  lemma Opened(items: seq<Item>, w: World, n: nat, stmts: seq<Event>, last: Event)
    requires w.transactor && w.attempt(n).begins
    requires AllStatements(stmts) && Ran(stmts) == ToRun(items, w, n)
    requires last == match EndingOf(items, w, n)
      case Committed => Commit(true)
      case RolledBack => Rollback
      case Failed =>
        if w.attempt(n).localsFail || Stop(items, w.attempt(n).outcome, 0) < |items| then Rollback else Commit(false)
    ensures AttemptEvents(items, w, n, [Begin(true)] + stmts + [last])
  {
    Bracketed(stmts, last);
  }

  /** The result sent for a transaction that ended so. */
  function ReportOf(name: string, ending: Ending): QueryResult {
    QueryResult(name, true, ending == Failed, ending == RolledBack)
  }

  /** The events of the attempts before number `n`, which all failed. */
  ghost predicate PrefixEvents(items: seq<Item>, w: World, n: nat, runs: seq<Event>) {
    && After(Idle, runs) == Idle
    && Begins(runs) == (if w.transactor then n else 0)
    && Count(runs, Commit(true)) == 0
    && Ran(runs) == RanAll(items, w, n)
  }

  /** The queries run by the attempts before number `n`. */
  function RanAll(items: seq<Item>, w: World, n: nat): seq<nat> {
    if n == 0 then [] else RanAll(items, w, n - 1) + ToRun(items, w, n - 1)
  }

  /**
   What a run leaves behind. The database sees complete transactions only, one
   per attempt and no more attempts than retries allow; at most one of them
   commits, and that commit is the last event of all.
   */
  ghost predicate RunEvents(items: seq<Item>, w: World, retries: nat, runs: seq<Event>) {
    var last := Last(items, w, retries, 0);
    var ending := EndingOf(items, w, last);
    && After(Idle, runs) == Idle
    && last <= retries && Begins(runs) == (if w.transactor then last + 1 else 0)
    && Count(runs, Commit(true)) == (if ending == Committed then 1 else 0)
    && (ending == Committed ==> runs != [] && runs[|runs| - 1] == Commit(true))
    && (ending == RolledBack ==> runs != [] && runs[|runs| - 1] == Rollback)
    && Ran(runs) == RanAll(items, w, last + 1)
  }

  // ---------------------------------------------------- what the results tell

  /** The item does not end the attempt. */
  predicate GoesOn(item: Item, o: ItemOutcome) {
    if item == RollbackIf then o == Passes || o == PassesButCancelled else o == Passes || o == Holds
  }

  /** The items before number `k` are passed, and a condition that holds is reached there. */
  predicate HoldsAt(items: seq<Item>, a: Attempt, k: nat) {
    && k < |items| && items[k] == RollbackIf && a.outcome(k) == Holds
    && forall j | 0 <= j < k :: GoesOn(items[j], a.outcome(j))
  }

  /** Attempt `n` opens a transaction and reaches a condition that holds. */
  predicate ConditionHolds(items: seq<Item>, w: World, n: nat) {
    w.transactor && w.attempt(n).begins && !w.attempt(n).localsFail
    && exists k | 0 <= k < |items| :: HoldsAt(items, w.attempt(n), k)
  }

  lemma {:induction false} StopFirst(items: seq<Item>, outcome: nat -> ItemOutcome, i: nat)
    requires i <= |items|
    ensures var k := Stop(items, outcome, i);
      && (forall j | i <= j < k :: GoesOn(items[j], outcome(j)))
      && (k < |items| ==> !GoesOn(items[k], outcome(k)))
    decreases |items| - i
  {
    if i < |items| && !Ends(items[i], outcome(i)) {
      StopFirst(items, outcome, i + 1);
    }
  }

  /** An attempt is rolled back on purpose just if it reaches such a condition. */
  lemma RolledBackExact(items: seq<Item>, w: World, n: nat)
    ensures EndingOf(items, w, n) == RolledBack <==> ConditionHolds(items, w, n)
  {
    var a := w.attempt(n);
    var k := Stop(items, a.outcome, 0);
    StopFirst(items, a.outcome, 0);
    if EndingOf(items, w, n) == RolledBack {
      assert HoldsAt(items, a, k);
    }
    if ConditionHolds(items, w, n) {
      var j :| 0 <= j < |items| && HoldsAt(items, a, j);
      assert !GoesOn(items[j], a.outcome(j));
      assert j == k;
    }
  }

  /** Attempt `n` opens a transaction, passes all its items and commits. */
  predicate Commits(items: seq<Item>, w: World, n: nat) {
    && w.transactor && w.attempt(n).begins && !w.attempt(n).localsFail && w.attempt(n).commits
    && forall j | 0 <= j < |items| :: GoesOn(items[j], w.attempt(n).outcome(j))
  }

  lemma CommittedExact(items: seq<Item>, w: World, n: nat)
    ensures EndingOf(items, w, n) == Committed <==> Commits(items, w, n)
  {
    StopFirst(items, w.attempt(n).outcome, 0);
  }

  /** The numbers increase, and are below `n`. */
  predicate Ascending(s: seq<nat>, n: nat) {
    (forall p | 0 <= p < |s| :: s[p] < n) && forall p, q | 0 <= p < q < |s| :: s[p] < s[q]
  }

  /** The places of the queries among the first `n` items. */
  function QueryPlaces(items: seq<Item>, n: nat): (places: seq<nat>)
    requires n <= |items|
    ensures Ascending(places, n) && forall i: nat :: i in places <==> i < n && items[i].Query?
  {
    if n == 0 then [] else QueryPlaces(items, n - 1) + if items[n - 1].Query? then [n - 1] else []
  }

  /** A result of a query: its name, and whether it failed. */
  predicate ResultTells(r: QueryResult, item: Item, o: ItemOutcome) {
    item.Query? && r.name == item.name && !r.isTransaction && !r.rollback && (r.failed <==> o == Fails || o == FailsUnsent)
  }

  /** The queries run have one result each, in their order, which says whether they failed. */
  lemma {:induction false} ResultsTell(items: seq<Item>, outcome: nat -> ItemOutcome, n: nat)
    requires n <= |items|
    ensures var places, results := QueryPlaces(items, n), ResultsOf(items, outcome, n);
      && |results| == |places|
      && forall p | 0 <= p < |places| :: ResultTells(results[p], items[places[p]], outcome(places[p]))
  {
    if n > 0 {
      ResultsTell(items, outcome, n - 1);
    }
  }

  /** The queries sent are, in their order, those whose arguments can be generated. */
  lemma {:induction false} QueriesSent(items: seq<Item>, outcome: nat -> ItemOutcome, n: nat)
    requires n <= |items|
    ensures var sent := Queries(items, outcome, n);
      Ascending(sent, n) && forall i: nat :: i in sent <==> i < n && items[i].Query? && outcome(i) != FailsUnsent
  {
    if n > 0 {
      QueriesSent(items, outcome, n - 1);
    }
  }

  /**
   What the last result of a run tells: a success just if the last thing the
   database saw is a commit, a rollback just if the last attempt reached a
   condition that holds, and a failure otherwise.
   */
  ghost predicate Told(name: string, items: seq<Item>, w: World, last: nat, runs: seq<Event>, sent: seq<QueryResult>) {
    && sent != []
    && var report := sent[|sent| - 1];
       && report.name == name && report.isTransaction
       && (!report.failed && !report.rollback <==> runs != [] && runs[|runs| - 1] == Commit(true))
       && (report.rollback <==> ConditionHolds(items, w, last))
       && !(report.failed && report.rollback)
  }

  lemma RunTells(name: string, items: seq<Item>, w: World, retries: nat, runs: seq<Event>, before: seq<QueryResult>)
    requires RunEvents(items, w, retries, runs)
    ensures var last := Last(items, w, retries, 0);
      Told(name, items, w, last, runs, before + [ReportOf(name, EndingOf(items, w, last))])
  {
    var last := Last(items, w, retries, 0);
    RolledBackExact(items, w, last);
    if runs != [] && runs[|runs| - 1] == Commit(true) {
      assert Commit(true) in runs && Count(runs, Commit(true)) > 0;
    }
  }

  // ------------------------------------------------------------------ the code

  datatype Error = NoError | Err | ConditionalRollback

  function ErrorOf(ending: Ending): Error {
    match ending
    case Committed => NoError
    case RolledBack => ConditionalRollback
    case Failed => Err
  }

  /** The part of `Env` that transactions use. `events` is what the database sees. */
  class Env {
    const retries: int
    const noWait: bool
    var events: seq<Event>
    var results: seq<QueryResult>

    constructor (retries: int, noWait: bool)
      ensures this.retries == retries && this.noWait == noWait && events == [] && results == []
    {
      this.retries, this.noWait, events, results := retries, noWait, [], [];
    }

    /** `runTransactionQueries`; `runs` are the statements run, `sent` the results sent. */
    method RunTransactionQueries(items: seq<Item>, a: Attempt)
      returns (err: Error, ghost runs: seq<Event>, ghost sent: seq<QueryResult>)
      modifies this
      ensures events == old(events) + runs && AllStatements(runs)
      ensures Ran(runs) == QueriesBefore(items, a.outcome, Stop(items, a.outcome, 0))
      ensures results == old(results) + sent
      ensures sent == ResultsOf(items, a.outcome, Reached(items, Stop(items, a.outcome, 0)))
      ensures var k := Stop(items, a.outcome, 0);
        err == if k == |items| then NoError
               else if items[k].RollbackIf? && a.outcome(k).Holds? then ConditionalRollback else Err
    {
      runs, sent := [], [];
      for i := 0 to |items|
        invariant events == old(events) + runs && AllStatements(runs)
        invariant results == old(results) + sent && sent == ResultsOf(items, a.outcome, i)
        invariant Ran(runs) == Queries(items, a.outcome, i)
        invariant Stop(items, a.outcome, i) == Stop(items, a.outcome, 0)
      {
        var o := a.outcome(i);
        match items[i]
        case RollbackIf =>
          if o.IsFailure() {
            err := Err;
            return;
          }
          if o.Holds? {
            err := ConditionalRollback;
            return;
          }
        case Query(name) =>
          var result := QueryResult(name, false, o.IsFailure(), false);
          if !o.FailsUnsent? {
            RunOne(runs, i);
            events := events + [Statement(i)];
            runs := runs + [Statement(i)];
          }
          results := results + [result];
          sent := sent + [result];
          if o.IsFailure() || o.PassesButCancelled? {
            err := Err;
            return;
          }
      }
      err := NoError;
    }

    /** `tryTransaction` */
    method TryTransaction(items: seq<Item>, w: World, n: nat)
      returns (err: Error, ghost runs: seq<Event>, ghost sent: seq<QueryResult>)
      modifies this
      ensures events == old(events) + runs && AttemptEvents(items, w, n, runs)
      ensures results == old(results) + sent && sent == AttemptResults(items, w, n)
      ensures err == ErrorOf(EndingOf(items, w, n))
    {
      var a := w.attempt(n);
      runs, sent := [], [];
      NotOpened(items, w, n);
      if !w.transactor {
        err := Err;
        return;
      }
      events := events + [Begin(a.begins)];
      if !a.begins {
        runs := [Begin(false)];
        err := Err;
        return;
      }
      if a.localsFail {
        events := events + [Rollback];
        Opened(items, w, n, [], Rollback);
        Enclosed(old(events), [], Rollback);
        runs := [Begin(true)] + [] + [Rollback];
        err := Err;
        return;
      }
      ghost var stmts;
      err, stmts, sent := RunTransactionQueries(items, a);
      var last := Rollback;
      if err == NoError {
        last := Commit(a.commits);
        err := if a.commits then NoError else Err;
      }
      Opened(items, w, n, stmts, last);
      Enclosed(old(events), stmts, last);
      events := events + [last];
      runs := [Begin(true)] + stmts + [last];
    }

    /** The loop of `runTransaction`; `last` is the number of the last attempt made. */
    method MakeAttempts(items: seq<Item>, w: World)
      returns (lastErr: Error, ghost last: nat, ghost runs: seq<Event>, ghost sent: seq<QueryResult>)
      modifies this
      ensures events == old(events) + runs && results == old(results) + sent
      ensures retries >= 0 ==>
        Finished(items, w, retries, last, runs) && lastErr == ErrorOf(EndingOf(items, w, last))
      ensures retries >= 0 ==> sent == AllResults(items, w, last + 1)
      ensures retries < 0 ==> runs == [] && sent == [] && lastErr == NoError
    {
      var attempts := 1 + retries;
      runs, sent, last := [], [], 0;
      lastErr := NoError;
      for n := 0 to if attempts > 0 then attempts else 0
        invariant events == old(events) + runs && results == old(results) + sent
        invariant retries < 0 ==> runs == [] && sent == [] && lastErr == NoError
        invariant sent == AllResults(items, w, n)
        invariant n <= retries ==>
          PrefixEvents(items, w, n, runs) && Last(items, w, retries, n) == Last(items, w, retries, 0)
        invariant n > retries >= 0 ==>
          last == retries && Finished(items, w, retries, last, runs) && lastErr == ErrorOf(EndingOf(items, w, last))
      {
        if n > 0 {
          // `break` leaves the select, not the loop: a pause cut short goes on to the attempt
          var pauseCut := w.cut(n);
        }
        ghost var tried, plain;
        lastErr, tried, plain := TryTransaction(items, w, n);
        AttemptMade(items, w, retries, n, runs, tried);
        Regroup(old(events), runs, tried);
        Regroup(old(results), sent, plain);
        runs, sent, last := runs + tried, sent + plain, n;
        if lastErr == NoError || lastErr == ConditionalRollback || w.done(n) {
          return;
        }
      }
    }

    /** `runTransaction` */
    method RunTransaction(name: string, items: seq<Item>, wait: bool, w: World)
      returns (err: Error, ghost runs: seq<Event>, ghost sent: seq<QueryResult>)
      modifies this
      ensures events == old(events) + runs && results == old(results) + sent
      ensures retries >= 0 ==> RunEvents(items, w, retries, runs)
      ensures retries >= 0 ==>
        var last := Last(items, w, retries, 0);
        sent == AllResults(items, w, last + 1) + [ReportOf(name, EndingOf(items, w, last))]
      ensures retries >= 0 ==>
        err == (match EndingOf(items, w, Last(items, w, retries, 0))
                case Committed => if wait && !noWait && w.waitCut then Err else NoError
                case RolledBack => NoError
                case Failed => Err)
      ensures retries >= 0 ==> Told(name, items, w, Last(items, w, retries, 0), runs, sent)
      // without an attempt to make, success is reported
      ensures retries < 0 ==> runs == [] && sent == [QueryResult(name, true, false, false)] && err == NoError
    {
      ghost var last, plain;
      var lastErr;
      lastErr, last, runs, plain := MakeAttempts(items, w);
      if retries >= 0 && lastErr == NoError {
        sent := Report(QueryResult(name, true, false, false), plain);
        err := if wait && !noWait && w.waitCut then Err else NoError;
      } else if lastErr == ConditionalRollback {
        sent := Report(QueryResult(name, true, false, true), plain);
        err := NoError;
      } else {
        sent := Report(QueryResult(name, true, lastErr != NoError, false), plain);
        err := lastErr;
      }
      if retries >= 0 {
        RunTells(name, items, w, retries, runs, plain);
      }
    }

    /** `sendResult`; `before` are the results this run has sent. */
    method Report(r: QueryResult, ghost before: seq<QueryResult>) returns (ghost sent: seq<QueryResult>)
      modifies this`results
      ensures results == old(results) + [r]
      ensures sent == before + [r]
    {
      results := results + [r];
      sent := before + [r];
    }
  }

  /** Exactly one result of a whole transaction is sent, and it says how the last attempt ended. */
  lemma OneReport(name: string, items: seq<Item>, w: World, retries: nat)
    ensures var last := Last(items, w, retries, 0);
      var report := ReportOf(name, EndingOf(items, w, last));
      && Reports(AllResults(items, w, last + 1) + [report]) == [report]
      && (report.rollback <==> ConditionHolds(items, w, last))
      && (report.failed <==> !ConditionHolds(items, w, last) && !Commits(items, w, last))
  {
    var last := Last(items, w, retries, 0);
    NoneReported(items, w, last + 1);
    var report := ReportOf(name, EndingOf(items, w, last));
    RolledBackExact(items, w, last);
    CommittedExact(items, w, last);
    ReportsConcat(AllResults(items, w, last + 1), [report]);
    assert [report][1..] == [];
  }

  /** Attempt `n` is the last one, and the events are those of the whole run. */
  ghost predicate Finished(items: seq<Item>, w: World, retries: nat, n: nat, runs: seq<Event>) {
    n <= retries && Last(items, w, retries, 0) == n && RunEvents(items, w, retries, runs)
  }

  lemma CountsAdd(a: seq<Event>, b: seq<Event>)
    ensures Begins(a + b) == Begins(a) + Begins(b)
    ensures Count(a + b, Commit(true)) == Count(a, Commit(true)) + Count(b, Commit(true))
  {
  }

  lemma LastOfBoth(a: seq<Event>, b: seq<Event>)
    requires b != []
    ensures a + b != [] && (a + b)[|a + b| - 1] == b[|b| - 1]
  {
  }

  /** The history with one more attempt. */
  lemma OneMore(items: seq<Item>, w: World, n: nat, runs: seq<Event>, tried: seq<Event>)
    requires PrefixEvents(items, w, n, runs) && AttemptEvents(items, w, n, tried)
    ensures var all, ending := runs + tried, EndingOf(items, w, n);
      && After(Idle, all) == Idle
      && Begins(all) == (if w.transactor then n + 1 else 0)
      && Count(all, Commit(true)) == (if ending == Committed then 1 else 0)
      && (ending == Committed ==> all != [] && all[|all| - 1] == Commit(true))
      && (ending == RolledBack ==> all != [] && all[|all| - 1] == Rollback)
      && Ran(all) == RanAll(items, w, n + 1)
  {
    AfterConcat(Idle, runs, tried);
    RanConcat(runs, tried);
    CountsAdd(runs, tried);
    if tried != [] {
      LastOfBoth(runs, tried);
    }
  }

  /** After an attempt the run is finished, or the attempt failed and the next one is due. */
  lemma AttemptMade(items: seq<Item>, w: World, retries: nat, n: nat, runs: seq<Event>, tried: seq<Event>)
    requires n <= retries && Last(items, w, retries, n) == Last(items, w, retries, 0)
    requires PrefixEvents(items, w, n, runs) && AttemptEvents(items, w, n, tried)
    ensures IsLast(items, w, retries, n) ==> Finished(items, w, retries, n, runs + tried)
    ensures !IsLast(items, w, retries, n) ==>
      && n < retries && PrefixEvents(items, w, n + 1, runs + tried)
      && Last(items, w, retries, n + 1) == Last(items, w, retries, 0)
  {
    OneMore(items, w, n, runs, tried);
  }

  lemma Enclosed(before: seq<Event>, stmts: seq<Event>, last: Event)
    ensures before + [Begin(true)] + [last] == before + ([Begin(true)] + [] + [last])
    ensures before + [Begin(true)] + stmts + [last] == before + ([Begin(true)] + stmts + [last])
  {
  }

  lemma Regroup<T>(a: seq<T>, b: seq<T>, c: seq<T>)
    ensures (a + b) + c == a + (b + c)
  {
  }

  lemma SendPlain(sent: seq<QueryResult>, r: QueryResult)
    requires Reports(sent) == [] && !r.isTransaction
    ensures Reports(sent + [r]) == []
  {
    ReportsConcat(sent, [r]);
  }

  lemma RunOne(runs: seq<Event>, i: nat)
    ensures Ran(runs + [Statement(i)]) == Ran(runs) + [i]
  {
    RanConcat(runs, [Statement(i)]);
    assert [Statement(i)][1..] == [];
  }

  /** A context that ends during a pause is done after the attempt that follows. */
  ghost predicate Coherent(w: World) {
    forall n: nat | w.cut(n) :: w.done(n)
  }

  lemma {:induction false} LastIs(items: seq<Item>, w: World, retries: nat, n: nat, l: nat)
    requires n <= l <= retries && IsLast(items, w, retries, l)
    requires forall k | n <= k < l :: !IsLast(items, w, retries, k)
    ensures Last(items, w, retries, n) == l
    decreases l - n
  {
    if n < l {
      LastIs(items, w, retries, n + 1, l);
    }
  }

  /**
   A context that ends during the pause before attempt `n` does not keep that
   attempt from being made; it keeps any further one from being made.
   */
  lemma CutPauseTriesOnce(items: seq<Item>, w: World, retries: nat, n: nat)
    requires Coherent(w) && 0 < n <= retries && w.cut(n)
    requires forall k | 0 <= k < n :: !IsLast(items, w, retries, k)
    ensures Last(items, w, retries, 0) == n
  {
    LastIs(items, w, retries, 0, n);
  }

  /** A conditional rollback is never retried: every attempt before the last one failed. */
  lemma OnlyFailuresRetried(items: seq<Item>, w: World, retries: nat, k: nat)
    requires k < Last(items, w, retries, 0)
    ensures EndingOf(items, w, k) == Failed && !w.done(k)
  {
    assert !IsLast(items, w, retries, k);
  }
}
