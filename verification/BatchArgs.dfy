/**
 Generating the rows of a batch query in chunks (`generateBatchArgs` of
 pkg/env/env_args.go) against generating them one by one (`captureOutputBatch`
 of pkg/env/env_output.go). Evaluation is abstract: it may fail, read the
 arguments of the row computed so far, and change a hidden state.
 */
module BatchArgs {
  import opened Strings
  import opened Convert
  import opened Wrappers

  datatype EvalResult<S> = Done(v: Value, state: S) | Failed

  /**
   The compiled arguments: `run(i, args, s)` evaluates argument `i` after the
   arguments `args` of the same row; `clear` empties the cache of the row.
   */
  datatype Evaluator<!S> = Evaluator(n: nat, run: (nat, seq<Value>, S) -> EvalResult<S>, clear: S -> S)

  // ------------------------------------------------------- rows, one by one

  /** The arguments of a row from number `|args|` on, and the state after them. */
  function EvalFrom<S>(ev: Evaluator<S>, args: seq<Value>, s: S): Option<(seq<Value>, S)>
    decreases ev.n - |args|
  {
    if |args| >= ev.n then Some((args, s))
    else
      match ev.run(|args|, args, s)
      case Failed => None
      case Done(v, s') => EvalFrom(ev, args + [v], s')
  }

  function EvalRow<S>(ev: Evaluator<S>, s: S): Option<(seq<Value>, S)> {
    EvalFrom(ev, [], ev.clear(s))
  }

  /** The first `count` rows from state `s`, and the state after them. */
  function EvalRows<S>(ev: Evaluator<S>, s: S, count: nat): Option<(seq<seq<Value>>, S)> {
    if count == 0 then Some(([], s))
    else
      match EvalRows(ev, s, count - 1)
      case None => None
      case Some((rows, s')) =>
        match EvalRow(ev, s')
        case None => None
        case Some((row, s'')) => Some((rows + [row], s''))
  }

  lemma {:induction false} EvalFromLength<S>(ev: Evaluator<S>, args: seq<Value>, s: S)
    requires |args| <= ev.n
    ensures var r := EvalFrom(ev, args, s); r.Some? ==> |r.value.0| == ev.n
    decreases ev.n - |args|
  {
    if |args| < ev.n {
      var r := ev.run(|args|, args, s);
      if r.Done? {
        EvalFromLength(ev, args + [r.v], r.state);
      }
    }
  }

  /** All rows have all arguments, and fewer rows are a prefix of more rows. */
  lemma {:induction false} EvalRowsPrefix<S>(ev: Evaluator<S>, s: S, k: nat, count: nat)
    requires k <= count && EvalRows(ev, s, count).Some?
    ensures EvalRows(ev, s, k).Some?
    ensures var rows := EvalRows(ev, s, count).value.0;
      && |rows| == count && EvalRows(ev, s, k).value.0 == rows[..k]
      && forall i | 0 <= i < count :: |rows[i]| == ev.n
  {
    if count > 0 {
      var rows := EvalRows(ev, s, count - 1).value;
      EvalRowsPrefix(ev, s, if k < count then k else count - 1, count - 1);
      EvalFromLength(ev, [], ev.clear(rows.1));
      assert EvalRows(ev, s, count).value.0[..count - 1] == rows.0;
    }
  }

  lemma {:induction false} EvalRowsFail<S>(ev: Evaluator<S>, s: S, k: nat, count: nat)
    requires k <= count && EvalRows(ev, s, k).None?
    ensures EvalRows(ev, s, count).None?
  {
    if k < count {
      EvalRowsFail(ev, s, k, count - 1);
    }
  }

  /** One more row after the rows `before` and `got`, or none at all. */
  lemma NextRow<S>(ev: Evaluator<S>, s0: S, before: seq<seq<Value>>, got: seq<seq<Value>>, s: S, n: nat)
    requires EvalRows(ev, s0, |before| + |got|) == Some((before + got, s)) && |got| < n
    ensures EvalRow(ev, s).None? ==> EvalRows(ev, s0, |before| + n).None?
    ensures EvalRow(ev, s).Some? ==>
      var (row, s') := EvalRow(ev, s).value;
      EvalRows(ev, s0, |before| + |got| + 1) == Some((before + (got + [row]), s'))
  {
    match EvalRow(ev, s)
    case None => EvalRowsFail(ev, s0, |before| + |got| + 1, |before| + n);
    case Some((row, s')) => Regroup(before, got, row);
  }

  // ------------------------------------------------ what evaluating a row is

  /** The states that the evaluation of arguments `from` up to the last one passes through. */
  ghost predicate Passes<S>(ev: Evaluator<S>, row: seq<Value>, from: nat, states: seq<S>) {
    && from <= |row| == ev.n && |states| == ev.n - from + 1
    && forall i | from <= i < ev.n :: ev.run(i, row[..i], states[i - from]) == Done(row[i], states[i - from + 1])
  }

  lemma PassesStep<S>(ev: Evaluator<S>, row: seq<Value>, from: nat, s: S, states: seq<S>)
    requires Passes(ev, row, from + 1, states) && ev.run(from, row[..from], s) == Done(row[from], states[0])
    ensures Passes(ev, row, from, [s] + states)
  {
    var all := [s] + states;
    forall i | from <= i < ev.n
      ensures ev.run(i, row[..i], all[i - from]) == Done(row[i], all[i - from + 1])
    {
      if i > from {
        assert all[i - from] == states[i - (from + 1)] && all[i - from + 1] == states[i - (from + 1) + 1];
      }
    }
  }

  lemma {:induction false} EvalFromPasses<S>(ev: Evaluator<S>, args: seq<Value>, s: S) returns (states: seq<S>)
    requires |args| <= ev.n && EvalFrom(ev, args, s).Some?
    ensures var (row, s') := EvalFrom(ev, args, s).value;
      && |row| == ev.n && args == row[..|args|]
      && Passes(ev, row, |args|, states) && states[0] == s && states[|states| - 1] == s'
    decreases ev.n - |args|
  {
    var row := EvalFrom(ev, args, s).value.0;
    if |args| == ev.n {
      states := [s];
      assert args == row[..|args|];
    } else {
      var r := ev.run(|args|, args, s);
      states := EvalFromPasses(ev, args + [r.v], r.state);
      assert args == (args + [r.v])[..|args|] == row[..|args|];
      assert row[|args|] == row[..|args| + 1][|args|] == r.v;
      PassesStep(ev, row, |args|, s, states);
      states := [s] + states;
    }
  }

  lemma {:induction false} PassesEvalFrom<S>(ev: Evaluator<S>, row: seq<Value>, from: nat, states: seq<S>)
    requires Passes(ev, row, from, states)
    ensures EvalFrom(ev, row[..from], states[0]) == Some((row, states[|states| - 1]))
    decreases ev.n - from
  {
    if from == ev.n {
      assert row[..from] == row;
    } else {
      assert ev.run(from, row[..from], states[from - from]) == Done(row[from], states[from - from + 1]);
      assert row[..from] + [row[from]] == row[..from + 1];
      forall i | from + 1 <= i < ev.n
        ensures ev.run(i, row[..i], states[1..][i - (from + 1)]) == Done(row[i], states[1..][i - (from + 1) + 1])
      {
        assert states[1..][i - (from + 1)] == states[i - from] && states[1..][i - (from + 1) + 1] == states[i - from + 1];
      }
      PassesEvalFrom(ev, row, from + 1, states[1..]);
    }
  }

  /**
   Evaluating a row passes through states, the first being the given one with the
   cache of the row emptied, in each of which the next argument is evaluated with
   those before it in view.
   */
  lemma EvalRowExact<S(!new)>(ev: Evaluator<S>, s: S, row: seq<Value>, s': S)
    ensures EvalRow(ev, s) == Some((row, s')) <==>
      exists states | Passes(ev, row, 0, states) :: states[0] == ev.clear(s) && states[ev.n] == s'
  {
    if EvalRow(ev, s) == Some((row, s')) {
      var states := EvalFromPasses(ev, [], ev.clear(s));
      assert Passes(ev, row, 0, states);
    }
    if exists states | Passes(ev, row, 0, states) :: states[0] == ev.clear(s) && states[ev.n] == s' {
      var states :| Passes(ev, row, 0, states) && states[0] == ev.clear(s) && states[ev.n] == s';
      PassesEvalFrom(ev, row, 0, states);
    }
  }

  /** The rows follow each other through states, each row being evaluated in the one the row before left. */
  lemma {:induction false} EvalRowsExact<S>(ev: Evaluator<S>, s: S, count: nat) returns (states: seq<S>)
    requires EvalRows(ev, s, count).Some?
    ensures var (rows, s') := EvalRows(ev, s, count).value;
      && |rows| == count && |states| == count + 1 && states[0] == s && states[count] == s'
      && forall i | 0 <= i < count :: EvalRow(ev, states[i]) == Some((rows[i], states[i + 1]))
  {
    if count == 0 {
      states := [s];
    } else {
      var before := EvalRowsExact(ev, s, count - 1);
      states := before + [EvalRows(ev, s, count).value.1];
    }
  }

  // --------------------------------------------------------- captured columns

  /** A captured row: column names against the arguments computed; a later column wins over an equal earlier one. */
  function Capture(columns: seq<string>, args: seq<Value>): map<string, Value> {
    if columns == [] then map[]
    else
      var n := |columns| - 1;
      var m := Capture(columns[..n], args);
      if n < |args| then m[columns[n] := args[n]] else m
  }

  /** Column `i` is the last one of its name, among the first `n`. */
  predicate LastNamed(columns: seq<string>, n: nat, i: nat) {
    i < n <= |columns| && forall j | i < j < n :: columns[j] != columns[i]
  }

  /** How many columns have an argument. */
  function Paired(columns: seq<string>, args: seq<Value>): nat {
    if |columns| <= |args| then |columns| else |args|
  }

  /** A captured row has the columns that have an argument, each with that of the last column of its name. */
  lemma {:induction false} CaptureExact(columns: seq<string>, args: seq<Value>)
    ensures var m, n := Capture(columns, args), Paired(columns, args);
      && (forall i | 0 <= i < n :: columns[i] in m)
      && forall c | c in m :: exists i: nat | LastNamed(columns, n, i) :: columns[i] == c && m[c] == args[i]
  {
    if columns != [] {
      var k := |columns| - 1;
      CaptureExact(columns[..k], args);
      var m, n := Capture(columns, args), Paired(columns, args);
      var m', n' := Capture(columns[..k], args), Paired(columns[..k], args);
      forall c | c in m
        ensures exists i: nat | LastNamed(columns, n, i) :: columns[i] == c && m[c] == args[i]
      {
        if k < |args| && c == columns[k] {
          assert LastNamed(columns, n, k);
        } else {
          var i: nat :| LastNamed(columns[..k], n', i) && columns[..k][i] == c && m'[c] == args[i];
          assert forall j | 0 <= j < k :: columns[..k][j] == columns[j];
          assert LastNamed(columns, n, i);
        }
      }
      forall i | 0 <= i < n
        ensures columns[i] in m
      {
        if i < k {
          assert columns[..k][i] == columns[i];
        }
      }
    }
  }

  function CaptureAll(columns: seq<string>, rows: seq<seq<Value>>): (r: seq<map<string, Value>>)
    ensures |r| == |rows|
    ensures forall i | 0 <= i < |r| :: r[i] == Capture(columns, rows[i])
  {
    seq(|rows|, i requires 0 <= i < |rows| => Capture(columns, rows[i]))
  }

  // ---------------------------------------------------------------- chunks

  /** `batches`: how many chunks of `size` rows cover `count` rows. */
  function Chunks(count: nat, size: nat): nat
    requires size > 0
  {
    (count + size - 1) / size
  }

  /** `n`: the number of rows of chunk `b`. */
  function ChunkSize(count: nat, size: nat, b: nat): int {
    if count - b * size < size then count - b * size else size
  }

  /** The chunks are not empty, at most `size` long, and cover the rows exactly. */
  lemma ChunksCover(count: nat, size: nat, b: nat)
    requires size > 0 && b < Chunks(count, size)
    ensures 0 < ChunkSize(count, size, b) <= size
    ensures b * size + ChunkSize(count, size, b) <= count
    ensures b + 1 < Chunks(count, size) ==> b * size + ChunkSize(count, size, b) == (b + 1) * size
    ensures b + 1 == Chunks(count, size) ==> b * size + ChunkSize(count, size, b) == count
  {
    var c := Chunks(count, size);
    var x := count + size - 1;
    assert x == c * size + x % size && 0 <= x % size < size;
    assert (c - 1) * size == c * size - size;
    Mul(b, c - 1, size);
    assert (b + 1) * size == b * size + size;
    if b + 1 < c {
      Mul(b + 1, c - 1, size);
    }
  }

  lemma Mul(a: nat, b: nat, c: nat)
    requires a <= b
    ensures a * c <= b * c
  {
  }

  // ------------------------------------------------------------ the columns

  type Formatter = Value -> string

  /** The texts of argument `i` in the given rows. */
  function ColumnTexts(format: Formatter, rows: seq<seq<Value>>, i: nat): (texts: seq<string>)
    requires forall r | 0 <= r < |rows| :: i < |rows[r]|
    ensures |texts| == |rows|
    ensures forall r | 0 <= r < |rows| :: texts[r] == format(rows[r][i])
  {
    seq(|rows|, r requires 0 <= r < |rows| => format(rows[r][i]))
  }

  /** The column arguments of some rows: the texts of each argument, joined. */
  function ChunkArgs(formatters: seq<Formatter>, rows: seq<seq<Value>>): (args: seq<string>)
    requires forall r | 0 <= r < |rows| :: |rows[r]| == |formatters|
    ensures |args| == |formatters|
    ensures forall i | 0 <= i < |args| :: args[i] == Join(ColumnTexts(formatters[i], rows, i), SEP)
  {
    seq(|formatters|, i requires 0 <= i < |formatters| => Join(ColumnTexts(formatters[i], rows, i), SEP))
  }

  /** The texts of the rows got so far, for each argument. */
  ghost predicate Texts(formatters: seq<Formatter>, got: seq<seq<Value>>, perArg: seq<seq<string>>) {
    && |perArg| == |formatters|
    && (forall r | 0 <= r < |got| :: |got[r]| == |formatters|)
    && (forall i | 0 <= i < |formatters| :: perArg[i] == ColumnTexts(formatters[i], got, i))
  }

  function JoinTexts(perArg: seq<seq<string>>): (args: seq<string>)
    ensures |args| == |perArg|
    ensures forall i | 0 <= i < |args| :: args[i] == Join(perArg[i], SEP)
  {
    seq(|perArg|, i requires 0 <= i < |perArg| => Join(perArg[i], SEP))
  }

  lemma TextsSnoc(formatters: seq<Formatter>, got: seq<seq<Value>>, perArg: seq<seq<string>>, args: seq<Value>)
    requires Texts(formatters, got, perArg) && |args| == |formatters|
    ensures Texts(formatters, got + [args], AppendTexts(formatters, perArg, args))
  {
    var got' := got + [args];
    forall i | 0 <= i < |formatters|
      ensures perArg[i] + [formatters[i](args[i])] == ColumnTexts(formatters[i], got', i)
    {
    }
  }

  /** The captured rows, when rows are captured at all. */
  function Captured(columns: Option<seq<string>>, rows: seq<seq<Value>>): seq<map<string, Value>> {
    match columns
    case None => []
    case Some(c) => CaptureAll(c, rows)
  }

  lemma CapturedConcat(columns: Option<seq<string>>, a: seq<seq<Value>>, b: seq<seq<Value>>)
    ensures Captured(columns, a + b) == Captured(columns, a) + Captured(columns, b)
  {
  }

  /** One more row of texts. */
  function AppendTexts(formatters: seq<Formatter>, perArg: seq<seq<string>>, args: seq<Value>): seq<seq<string>>
    requires |formatters| == |perArg| == |args|
  {
    seq(|args|, i requires 0 <= i < |args| => perArg[i] + [formatters[i](args[i])])
  }

  /** Integer division as Go does it, towards zero. */
  function TruncDiv(a: int, b: int): int
    requires b > 0
  {
    if a >= 0 then a / b else -((-a) / b)
  }

  /** The part of `Env` that evaluation uses. */
  class Env<!S> {
    const ev: Evaluator<S>
    var state: S
    var computedArgs: seq<Value>
    var capturedRows: seq<map<string, Value>>

    constructor (ev: Evaluator<S>, state: S)
      ensures this.ev == ev && this.state == state
    {
      this.ev, this.state, computedArgs, capturedRows := ev, state, [], [];
    }

    /** Evaluates the arguments of one row. */
    method EvalArgs() returns (ok: bool)
      modifies this`state, this`computedArgs
      ensures ok <==> EvalRow(ev, old(state)).Some?
      ensures ok ==> EvalRow(ev, old(state)) == Some((computedArgs, state))
    {
      state := ev.clear(state);
      computedArgs := [];
      for i := 0 to ev.n
        invariant |computedArgs| == i
        invariant EvalFrom(ev, computedArgs, state) == EvalRow(ev, old(state))
      {
        var r := ev.run(i, computedArgs, state);
        if r.Failed? {
          return false;
        }
        state := r.state;
        computedArgs := computedArgs + [r.v];
      }
      ok := true;
    }

    /** The map of one captured row. */
    method CaptureRow(columns: seq<string>) returns (r: map<string, Value>)
      ensures r == Capture(columns, computedArgs)
    {
      r := map[];
      for ci := 0 to |columns|
        invariant r == Capture(columns[..ci], computedArgs)
      {
        assert columns[..ci + 1][..ci] == columns[..ci];
        if ci < |computedArgs| {
          r := r[columns[ci] := computedArgs[ci]];
        }
      }
      assert columns[..|columns|] == columns;
    }

    /** `captureOutputBatch`: the rows one by one. */
    method CaptureOutputBatch(count: nat, columns: seq<string>) returns (envRows: Option<seq<map<string, Value>>>)
      modifies this`state, this`computedArgs
      ensures envRows.Some? <==> EvalRows(ev, old(state), count).Some?
      ensures envRows.Some? ==>
        var (rows, state') := EvalRows(ev, old(state), count).value;
        envRows.value == CaptureAll(columns, rows) && state == state'
    {
      var captured := [];
      for row := 0 to count
        invariant EvalRows(ev, old(state), row).Some?
        invariant var (rows, state') := EvalRows(ev, old(state), row).value;
          |rows| == row && captured == CaptureAll(columns, rows) && state == state'
      {
        var ok := EvalArgs();
        if !ok {
          EvalRowsFail(ev, old(state), row + 1, count);
          return None;
        }
        var r := CaptureRow(columns);
        captured := captured + [r];
      }
      return Some(captured);
    }

    /** One row of a chunk: evaluate it, format its arguments, and capture it. */
    method GenerateRow(formatters: seq<Formatter>, columns: Option<seq<string>>, perArg0: seq<seq<string>>,
                       ghost got: seq<seq<Value>>) returns (ok: bool, perArg: seq<seq<string>>)
      requires |formatters| == ev.n && Texts(formatters, got, perArg0)
      modifies this`state, this`computedArgs, this`capturedRows
      ensures ok <==> EvalRow(ev, old(state)).Some?
      ensures ok ==>
        && EvalRow(ev, old(state)) == Some((computedArgs, state)) && |computedArgs| == ev.n
        && Texts(formatters, got + [computedArgs], perArg)
        && capturedRows == old(capturedRows) + Captured(columns, [computedArgs])
    {
      perArg := perArg0;
      EvalFromLength(ev, [], ev.clear(state));
      ok := EvalArgs();
      if ok {
        perArg := AppendTexts(formatters, perArg, computedArgs);
        TextsSnoc(formatters, got, perArg0, computedArgs);
        if columns.Some? {
          var r := CaptureRow(columns.value);
          capturedRows := capturedRows + [r];
        }
      }
    }

    /** One chunk of `n` rows, after the rows `before`, as joined columns. */
    method GenerateChunk(n: nat, formatters: seq<Formatter>, columns: Option<seq<string>>,
                         ghost s0: S, ghost before: seq<seq<Value>>)
      returns (args: Option<seq<string>>, ghost got: seq<seq<Value>>)
      requires |formatters| == ev.n
      requires EvalRows(ev, s0, |before|) == Some((before, state))
      modifies this`state, this`computedArgs, this`capturedRows
      ensures args.Some? <==> EvalRows(ev, s0, |before| + n).Some?
      ensures args.Some? ==>
        && |got| == n && EvalRows(ev, s0, |before| + n) == Some((before + got, state))
        && (forall r | 0 <= r < n :: |got[r]| == ev.n)
        && args.value == ChunkArgs(formatters, got)
        && capturedRows == old(capturedRows) + Captured(columns, got)
    {
      var perArg: seq<seq<string>> := seq(ev.n, _ => []);
      got := [];
      assert before + got == before;
      for row := 0 to n
        invariant |got| == row && Texts(formatters, got, perArg)
        invariant EvalRows(ev, s0, |before| + row) == Some((before + got, state))
        invariant capturedRows == old(capturedRows) + Captured(columns, got)
      {
        var ok;
        NextRow(ev, s0, before, got, state, n);
        ok, perArg := GenerateRow(formatters, columns, perArg, got);
        if !ok {
          return None, got;
        }
        CapturedConcat(columns, got, [computedArgs]);
        got := got + [computedArgs];
      }
      args := Some(JoinTexts(perArg));
    }

    /** `generateBatchArgs`, for values joined by the separator. */
    method GenerateBatchArgs(count: int, size0: int, formatters: seq<Formatter>, columns: Option<seq<string>>)
      returns (result: Option<seq<seq<string>>>)
      requires |formatters| == ev.n
      requires CountFits(count, size0)
      modifies this`state, this`computedArgs, this`capturedRows
      ensures result.Some? <==> EvalRows(ev, old(state), RowCount(count)).Some?
      ensures result.Some? ==>
        var (rows, state') := EvalRows(ev, old(state), RowCount(count)).value;
        && state == state'
        && |result.value| == Chunks(RowCount(count), EffectiveSize(count, size0))
        && Chunked(formatters, rows, RowCount(count), EffectiveSize(count, size0), result.value)
        && capturedRows == (if columns.None? then old(capturedRows) else []) + Captured(columns, rows)
    {
      var size := if size0 <= 0 then count else size0;
      var batches := TruncDiv(count + size - 1, size);
      BatchCount(count, size0);
      ghost var n, s0 := RowCount(count), state;
      if columns.Some? {
        capturedRows := [];
      }
      ghost var captured := capturedRows;
      ghost var rows: seq<seq<Value>> := [];
      var chunks: seq<seq<string>> := [];
      for b := 0 to batches
        invariant |chunks| == b && |rows| == RowsDone(n, size, b)
        invariant EvalRows(ev, s0, |rows|) == Some((rows, state))
        invariant Chunked(formatters, rows, n, size, chunks)
        invariant capturedRows == captured + Captured(columns, rows)
      {
        var k := RowsInChunk(count, size, b);
        var chunk;
        ghost var got;
        chunk, got := GenerateChunk(k, formatters, columns, s0, rows);
        if chunk.None? {
          EvalRowsFail(ev, s0, |rows| + k, n);
          return None;
        }
        ChunkedSnoc(formatters, rows, got, n, size, chunks, chunk.value);
        CapturedMore(captured, columns, rows, got);
        chunks := chunks + [chunk.value];
        rows := rows + got;
      }
      AllRowsDone(n, size);
      return Some(chunks);
    }
  }

  /** The number of rows of chunk `b`, as `generateBatchArgs` computes it. */
  method RowsInChunk(count: int, size: nat, b: nat) returns (n: nat)
    requires size > 0 && count > 0 && b < Chunks(count, size)
    ensures n == ChunkSize(count, size, b) > 0
    ensures RowsDone(count, size, b) == b * size
    ensures RowsDone(count, size, b + 1) == b * size + n <= count
  {
    ChunksCover(count, size, b);
    StartOfChunk(count, size, b);
    var remaining := count - b * size;
    n := size;
    if remaining < size {
      n := remaining;
    }
  }

  lemma CapturedMore(base: seq<map<string, Value>>, columns: Option<seq<string>>, a: seq<seq<Value>>, b: seq<seq<Value>>)
    ensures (base + Captured(columns, a)) + Captured(columns, b) == base + Captured(columns, a + b)
  {
    CapturedConcat(columns, a, b);
  }

  // ----------------------------------------------------- what the chunks hold

  /** The counts and sizes on which the source neither divides by zero nor makes a slice of negative length. */
  predicate CountFits(count: int, size: int) {
    count >= 1 || (size >= 1 && count + 2 * size > 1)
  }

  function RowCount(count: int): nat {
    if count < 0 then 0 else count
  }

  function EffectiveSize(count: int, size: int): (s: nat)
    requires CountFits(count, size)
    ensures s > 0
  {
    if size <= 0 then count else size
  }

  lemma BatchCount(count: int, size0: int)
    requires CountFits(count, size0)
    ensures var size := EffectiveSize(count, size0);
      TruncDiv(count + size - 1, size) == Chunks(RowCount(count), size)
    ensures count <= 0 ==> Chunks(RowCount(count), EffectiveSize(count, size0)) == 0
  {
    var size := EffectiveSize(count, size0);
    if count <= 0 {
      SmallDiv(size - 1, size);
      var x := count + size - 1;
      if x >= 0 {
        SmallDiv(x, size);
      } else {
        SmallDiv(-x, size);
      }
    }
  }

  /** Without a size all rows are one chunk. */
  lemma OneChunk(count: int, size: int)
    requires count >= 1 && size <= 0
    ensures Chunks(RowCount(count), EffectiveSize(count, size)) == 1
    ensures ChunkSize(RowCount(count), EffectiveSize(count, size), 0) == count
  {
    AllRowsDone(count, count);
    ChunksCover(count, count, 0);
  }

  lemma SmallDiv(x: nat, n: nat)
    requires x < n
    ensures x / n == 0
  {
  }

  /** The rows covered by the first `b` chunks. */
  function RowsDone(n: nat, size: nat, b: nat): (r: nat)
    requires size > 0 && b <= Chunks(n, size)
    ensures r <= n
  {
    if b == 0 then 0
    else
      ChunksCover(n, size, b - 1);
      (b - 1) * size + ChunkSize(n, size, b - 1)
  }

  lemma StartOfChunk(n: nat, size: nat, b: nat)
    requires size > 0 && b < Chunks(n, size)
    ensures RowsDone(n, size, b) == b * size
  {
    if b > 0 {
      ChunksCover(n, size, b - 1);
    }
  }

  lemma AllRowsDone(n: nat, size: nat)
    requires size > 0
    ensures RowsDone(n, size, Chunks(n, size)) == n
  {
    if Chunks(n, size) > 0 {
      ChunksCover(n, size, Chunks(n, size) - 1);
    } else {
      assert n == 0 by {
        var x := n + size - 1;
        assert x == (x / size) * size + x % size && x % size < size;
      }
    }
  }

  /** Chunk `b` holds the columns of rows `b * size` onward, of its size. */
  ghost predicate Chunked(formatters: seq<Formatter>, rows: seq<seq<Value>>, n: nat, size: nat,
                          chunks: seq<seq<string>>) {
    && (forall r | 0 <= r < |rows| :: |rows[r]| == |formatters|)
    && forall b | 0 <= b < |chunks| ::
         && 0 <= b * size <= b * size + ChunkSize(n, size, b) <= |rows|
         && chunks[b] == ChunkArgs(formatters, rows[b * size..b * size + ChunkSize(n, size, b)])
  }

  lemma ChunkedSnoc(formatters: seq<Formatter>, rows: seq<seq<Value>>, got: seq<seq<Value>>, n: nat, size: nat,
                    chunks: seq<seq<string>>, chunk: seq<string>)
    requires Chunked(formatters, rows, n, size, chunks)
    requires forall r | 0 <= r < |got| :: |got[r]| == |formatters|
    requires |rows| == |chunks| * size && |got| == ChunkSize(n, size, |chunks|)
    requires chunk == ChunkArgs(formatters, got)
    ensures Chunked(formatters, rows + got, n, size, chunks + [chunk])
  {
    var rows' := rows + got;
    forall b | 0 <= b < |chunks|
      ensures 0 <= b * size <= b * size + ChunkSize(n, size, b) <= |rows|
      ensures rows'[b * size..b * size + ChunkSize(n, size, b)] == rows[b * size..b * size + ChunkSize(n, size, b)]
    {
      assert chunks[b] == chunks[b];
    }
    assert rows'[|rows|..|rows'|] == got;
  }

  // ------------------------------------------ independence of the chunk size

  /** All parts of column `i`, split out of the chunks again. */
  function SplitColumn(chunks: seq<seq<string>>, i: nat): seq<string>
  {
    if chunks == [] then []
    else
      var last := chunks[|chunks| - 1];
      SplitColumn(chunks[..|chunks| - 1], i) + (if i < |last| then Split(last[i], SEP) else [])
  }

  /** A formatter that never writes the separator for these rows. */
  predicate SepFree(format: Formatter, rows: seq<seq<Value>>, i: nat)
    requires forall r | 0 <= r < |rows| :: i < |rows[r]|
  {
    forall r | 0 <= r < |rows| :: Lacks(format(rows[r][i]), SEP)
  }

  /**
   Whatever the chunk size, the chunks split into the formatted values of all
   rows, in order.
   */
  lemma {:induction false} ChunkSizeIrrelevant(formatters: seq<Formatter>, rows: seq<seq<Value>>, n: nat, size: nat,
                                               chunks: seq<seq<string>>, i: nat)
    requires size > 0 && |chunks| <= Chunks(n, size) && i < |formatters|
    requires |rows| == RowsDone(n, size, |chunks|)
    requires Chunked(formatters, rows, n, size, chunks) && SepFree(formatters[i], rows, i)
    ensures SplitColumn(chunks, i) == ColumnTexts(formatters[i], rows, i)
    decreases |chunks|
  {
    if chunks != [] {
      var b := |chunks| - 1;
      var start := b * size;
      LastChunk(formatters, rows, n, size, chunks, i);
      ChunkSizeIrrelevant(formatters, rows[..start], n, size, chunks[..b], i);
      ColumnTextsSplit(formatters[i], rows, start, i);
    }
  }

  lemma ColumnTextsSplit(format: Formatter, rows: seq<seq<Value>>, start: nat, i: nat)
    requires start <= |rows| && forall r | 0 <= r < |rows| :: i < |rows[r]|
    ensures ColumnTexts(format, rows[..start], i) + ColumnTexts(format, rows[start..], i) == ColumnTexts(format, rows, i)
  {
  }

  lemma Regroup<T>(a: seq<T>, b: seq<T>, x: T)
    ensures a + b + [x] == a + (b + [x])
  {
  }

  lemma ChunkBefore(rows: seq<seq<Value>>, n: nat, size: nat, b: nat, k: nat)
    requires size > 0 && k < b < Chunks(n, size) && b * size <= |rows| && |rows| <= n
    ensures 0 <= k * size <= k * size + ChunkSize(n, size, k) <= b * size
    ensures rows[..b * size][k * size..k * size + ChunkSize(n, size, k)]
         == rows[k * size..k * size + ChunkSize(n, size, k)]
  {
    ChunksCover(n, size, k);
    Mul(k + 1, b, size);
  }

  lemma ChunksBefore(formatters: seq<Formatter>, rows: seq<seq<Value>>, n: nat, size: nat, chunks: seq<seq<string>>, b: nat)
    requires size > 0 && b + 1 == |chunks| <= Chunks(n, size) && b * size <= |rows| <= n
    requires Chunked(formatters, rows, n, size, chunks)
    ensures Chunked(formatters, rows[..b * size], n, size, chunks[..b])
  {
    var start := b * size;
    forall k | 0 <= k < b
      ensures 0 <= k * size <= k * size + ChunkSize(n, size, k) <= start
      ensures rows[..start][k * size..k * size + ChunkSize(n, size, k)]
           == rows[k * size..k * size + ChunkSize(n, size, k)]
    {
      ChunkBefore(rows, n, size, b, k);
    }
  }

  lemma SplitChunkArg(formatters: seq<Formatter>, rows: seq<seq<Value>>, i: nat)
    requires rows != [] && (forall r | 0 <= r < |rows| :: |rows[r]| == |formatters|)
    requires i < |formatters| && SepFree(formatters[i], rows, i)
    ensures Split(ChunkArgs(formatters, rows)[i], SEP) == ColumnTexts(formatters[i], rows, i)
  {
    SplitJoin(ColumnTexts(formatters[i], rows, i), SEP);
  }

  lemma LastRows(formatters: seq<Formatter>, rows: seq<seq<Value>>, n: nat, size: nat, chunks: seq<seq<string>>, b: nat)
    requires size > 0 && b + 1 == |chunks| <= Chunks(n, size) && |rows| == RowsDone(n, size, b + 1)
    requires Chunked(formatters, rows, n, size, chunks)
    ensures b * size == RowsDone(n, size, b) < |rows| <= n
    ensures chunks[b] == ChunkArgs(formatters, rows[b * size..])
  {
    ChunksCover(n, size, b);
    StartOfChunk(n, size, b);
    assert rows[b * size..b * size + ChunkSize(n, size, b)] == rows[b * size..];
  }

  /** The last chunk, and the chunks before it. */
  lemma LastChunk(formatters: seq<Formatter>, rows: seq<seq<Value>>, n: nat, size: nat, chunks: seq<seq<string>>, i: nat)
    requires size > 0 && 0 < |chunks| <= Chunks(n, size) && i < |formatters|
    requires |rows| == RowsDone(n, size, |chunks|)
    requires Chunked(formatters, rows, n, size, chunks) && SepFree(formatters[i], rows, i)
    ensures var b, start := |chunks| - 1, (|chunks| - 1) * size;
      && start == RowsDone(n, size, b) <= |rows|
      && Chunked(formatters, rows[..start], n, size, chunks[..b])
      && i < |chunks[b]|
      && Split(chunks[b][i], SEP) == ColumnTexts(formatters[i], rows[start..], i)
  {
    var b := |chunks| - 1;
    LastRows(formatters, rows, n, size, chunks, b);
    ChunksBefore(formatters, rows, n, size, chunks, b);
    SplitChunkArg(formatters, rows[b * size..], i);
  }

  lemma WholeColumn(formatters: seq<Formatter>, rows: seq<seq<Value>>, count: nat, size: nat,
                    chunks: seq<seq<string>>, i: nat)
    requires size > 0 && |rows| == count && |chunks| == Chunks(count, size) && i < |formatters|
    requires Chunked(formatters, rows, count, size, chunks)
    requires forall row | row in rows && i < |row| :: Lacks(formatters[i](row[i]), SEP)
    ensures SplitColumn(chunks, i) == ColumnTexts(formatters[i], rows, i)
  {
    assert forall k | 0 <= k < |rows| :: rows[k] in rows;
    AllRowsDone(count, size);
    ChunkSizeIrrelevant(formatters, rows, count, size, chunks, i);
  }

  /**
   From the same state, two chunk sizes and the row-by-row capture all succeed
   or all fail, capture the same rows, and the columns split into the same
   values.
   */
  method SizesAgree<S>(ev: Evaluator<S>, s: S, count: nat, size1: int, size2: int,
                       formatters: seq<Formatter>, columns: seq<string>)
    returns (r1: Option<seq<seq<string>>>, r2: Option<seq<seq<string>>>,
             captured1: seq<map<string, Value>>, captured2: seq<map<string, Value>>,
             envRows: Option<seq<map<string, Value>>>)
    requires |formatters| == ev.n && count >= 1
    ensures r1.Some? == r2.Some? == envRows.Some? == EvalRows(ev, s, count).Some?
    ensures r1.Some? ==> captured1 == captured2 == envRows.value
    ensures r1.Some? ==> forall i | 0 <= i < ev.n ::
      (forall row | row in EvalRows(ev, s, count).value.0 && i < |row| :: Lacks(formatters[i](row[i]), SEP)) ==>
        SplitColumn(r1.value, i) == SplitColumn(r2.value, i) && |SplitColumn(r1.value, i)| == count
  {
    var env1 := new Env(ev, s);
    r1 := env1.GenerateBatchArgs(count, size1, formatters, Some(columns));
    captured1 := env1.capturedRows;
    var env2 := new Env(ev, s);
    r2 := env2.GenerateBatchArgs(count, size2, formatters, Some(columns));
    captured2 := env2.capturedRows;
    var env3 := new Env(ev, s);
    envRows := env3.CaptureOutputBatch(count, columns);
    if r1.Some? {
      EvalRowsPrefix(ev, s, count, count);
      ghost var rows := EvalRows(ev, s, count).value.0;
      forall i | 0 <= i < ev.n && forall row | row in rows && i < |row| :: Lacks(formatters[i](row[i]), SEP)
        ensures SplitColumn(r1.value, i) == SplitColumn(r2.value, i) == ColumnTexts(formatters[i], rows, i)
      {
        WholeColumn(formatters, rows, count, EffectiveSize(count, size1), r1.value, i);
        WholeColumn(formatters, rows, count, EffectiveSize(count, size2), r2.value, i);
      }
    }
  }
}
