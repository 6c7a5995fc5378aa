/**
 Argument generation (pkg/env/env_args.go): the Cartesian product of batch
 arguments by row index, against the nested-loop product.
 */
module Args {
  import opened Convert

  /** An evaluated argument: one value, or a batch of rows of values. */
  datatype Arg = Scalar(v: Value) | Batch(rows: seq<seq<Value>>)

  // --------------------------------------------------- the nested-loop product

  function Prefixed(row: seq<Value>, tails: seq<seq<Value>>): (r: seq<seq<Value>>)
    ensures |r| == |tails|
    ensures forall i | 0 <= i < |r| :: r[i] == row + tails[i]
  {
    seq(|tails|, i requires 0 <= i < |tails| => row + tails[i])
  }

  function Nested(rows: seq<seq<Value>>, tails: seq<seq<Value>>): seq<seq<Value>> {
    if rows == [] then [] else Prefixed(rows[0], tails) + Nested(rows[1..], tails)
  }

  /** All combinations of batch rows, the last batch varying fastest, scalars in their places. */
  function Product(args: seq<Arg>): seq<seq<Value>> {
    if args == [] then [[]]
    else
      match args[0]
      case Scalar(v) => Prefixed([v], Product(args[1..]))
      case Batch(rows) => Nested(rows, Product(args[1..]))
  }

  /** The row chooses one row of each batch, and has the scalars in their places. */
  predicate Chosen(row: seq<Value>, args: seq<Arg>) {
    if args == [] then row == []
    else
      match args[0]
      case Scalar(v) => row != [] && row[0] == v && Chosen(row[1..], args[1..])
      case Batch(rows) => exists r | r in rows :: r <= row && Chosen(row[|r|..], args[1..])
  }

  lemma {:induction false} NestedMembers(rows: seq<seq<Value>>, tails: seq<seq<Value>>, row: seq<Value>)
    ensures row in Nested(rows, tails) <==> exists r | r in rows :: r <= row && row[|r|..] in tails
  {
    if rows != [] {
      NestedMembers(rows[1..], tails, row);
      PrefixedMembers(rows[0], tails, row);
      assert forall r | r in rows :: r == rows[0] || r in rows[1..];
    }
  }

  lemma PrefixedMembers(head: seq<Value>, tails: seq<seq<Value>>, row: seq<Value>)
    ensures row in Prefixed(head, tails) <==> head <= row && row[|head|..] in tails
  {
    if row in Prefixed(head, tails) {
      var i :| 0 <= i < |tails| && row == Prefixed(head, tails)[i];
      assert row[|head|..] == tails[i];
    }
    if head <= row && row[|head|..] in tails {
      var i :| 0 <= i < |tails| && tails[i] == row[|head|..];
      assert row == head + tails[i] == Prefixed(head, tails)[i];
    }
  }

  /** The combinations are exactly such rows. */
  lemma {:induction false} ProductMembers(args: seq<Arg>, row: seq<Value>)
    ensures row in Product(args) <==> Chosen(row, args)
    decreases |args|
  {
    if args != [] {
      match args[0]
      case Scalar(v) =>
        PrefixedMembers([v], Product(args[1..]), row);
        if row != [] {
          ProductMembers(args[1..], row[1..]);
        }
      case Batch(rows) =>
        NestedMembers(rows, Product(args[1..]), row);
        forall r | r in rows && r <= row
          ensures row[|r|..] in Product(args[1..]) <==> Chosen(row[|r|..], args[1..])
        {
          ProductMembers(args[1..], row[|r|..]);
        }
    }
  }

  // ------------------------------------------------------ the row of an index

  /** The number of combinations. */
  function Total(args: seq<Arg>): nat {
    if args == [] then 1
    else
      match args[0]
      case Scalar(_) => Total(args[1..])
      case Batch(rows) => |rows| * Total(args[1..])
  }

  lemma {:induction false} NestedSize(rows: seq<seq<Value>>, tails: seq<seq<Value>>)
    ensures |Nested(rows, tails)| == |rows| * |tails|
  {
    if rows != [] {
      NestedSize(rows[1..], tails);
      assert |rows| * |tails| == |tails| + |rows[1..]| * |tails|;
    }
  }

  lemma {:induction false} NestedAt(rows: seq<seq<Value>>, tails: seq<seq<Value>>, idx: nat)
    requires idx < |rows| * |tails|
    ensures |tails| > 0 && idx / |tails| < |rows| && |Nested(rows, tails)| == |rows| * |tails|
    ensures Nested(rows, tails)[idx] == rows[idx / |tails|] + tails[idx % |tails|]
  {
    var n := |tails|;
    NestedSize(rows, tails);
    assert |rows| * n == n + |rows[1..]| * n;
    if n <= idx {
      NestedAt(rows[1..], tails, idx - n);
      Shift(idx - n, n);
      assert Nested(rows, tails)[idx] == Nested(rows[1..], tails)[idx - n];
    } else {
      SmallDiv(idx, n);
    }
  }

  lemma DivUnique(x: nat, n: nat, q: nat, r: nat)
    requires r < n && x == q * n + r
    ensures x / n == q && x % n == r
  {
    var q', r' := x / n, x % n;
    assert x == q' * n + r' && 0 <= r' < n;
    Quotients(n, q, q', r, r');
  }

  lemma Quotients(n: nat, q: nat, q': nat, r: nat, r': nat)
    requires r < n && r' < n && q * n + r == q' * n + r'
    ensures q == q'
  {
    assert (q + 1) * n == q * n + n && (q' + 1) * n == q' * n + n;
    if q < q' {
      MulMono(q + 1, q', n);
    } else if q' < q {
      MulMono(q' + 1, q, n);
    }
  }

  lemma MulMono(a: nat, b: nat, c: nat)
    requires a <= b
    ensures a * c <= b * c
  {
  }

  lemma Shift(x: nat, n: nat)
    requires n > 0
    ensures (x + n) / n == x / n + 1 && (x + n) % n == x % n
  {
    DivUnique(x + n, n, x / n + 1, x % n);
  }

  lemma SmallDiv(x: nat, n: nat)
    requires x < n
    ensures x / n == 0 && x % n == x
  {
  }

  lemma {:induction false} Multiples(x: nat, k: nat, n: nat)
    requires n > 0
    ensures (x + k * n) / n == x / n + k && (x + k * n) % n == x % n
    decreases k
  {
    if k > 0 {
      Multiples(x, k - 1, n);
      assert x + k * n == (x + (k - 1) * n) + n;
      Shift(x + (k - 1) * n, n);
    }
  }

  /** Every batch has a row: there are combinations. */
  lemma {:induction false} TotalPositive(args: seq<Arg>)
    ensures Total(args) > 0 <==> forall a | a in args && a.Batch? :: a.rows != []
  {
    if args != [] {
      TotalPositive(args[1..]);
      assert forall a | a in args :: a == args[0] || a in args[1..];
      if args[0].Batch? && args[0].rows != [] && Total(args[1..]) > 0 {
        assert |args[0].rows| * Total(args[1..]) >= 1 * Total(args[1..]) by {
          MulMono(1, |args[0].rows|, Total(args[1..]));
        }
      }
    }
  }

  /** The row of an index: each batch is read at its digit of the index. */
  function RowAt(args: seq<Arg>, idx: nat): seq<Value>
    requires Total(args) > 0
  {
    if args == [] then []
    else
      match args[0]
      case Scalar(v) => [v] + RowAt(args[1..], idx)
      case Batch(rows) =>
        TotalSplit(args);
        rows[(idx / Total(args[1..])) % |rows|] + RowAt(args[1..], idx)
  }

  lemma TotalSplit(args: seq<Arg>)
    requires args != [] && args[0].Batch? && Total(args) > 0
    ensures |args[0].rows| > 0 && Total(args[1..]) > 0
  {
  }

  /** The digits do not see multiples of the total. */
  lemma {:induction false} RowAtPeriod(args: seq<Arg>, idx: nat, k: nat)
    requires Total(args) > 0
    ensures RowAt(args, idx + k * Total(args)) == RowAt(args, idx)
    decreases args
  {
    if args != [] {
      match args[0]
      case Scalar(_) =>
        RowAtPeriod(args[1..], idx, k);
      case Batch(rows) =>
        TotalSplit(args);
        var n, t := |rows|, Total(args[1..]);
        Assoc(k, n, t);
        DigitPeriod(idx, k, n, t);
        RowAtPeriod(args[1..], idx, k * n);
    }
  }

  lemma DigitPeriod(idx: nat, k: nat, n: nat, t: nat)
    requires n > 0 && t > 0
    ensures ((idx + (k * n) * t) / t) % n == (idx / t) % n
  {
    Multiples(idx, k * n, t);
    Multiples(idx / t, k, n);
  }

  lemma DivMod(x: nat, n: nat) returns (q: nat, r: nat)
    requires n > 0
    ensures q == x / n && r == x % n && x == r + q * n
  {
    q, r := x / n, x % n;
  }

  lemma Assoc(a: nat, b: nat, c: nat)
    ensures a * (b * c) == (a * b) * c
  {
  }

  /** The row of an index in the product with a batch in front. */
  lemma BatchAt(rows: seq<seq<Value>>, rest: seq<Arg>, idx: nat, q: nat, r: nat)
    requires Total(rest) > 0 && idx == q * Total(rest) + r && r < Total(rest) && idx < |rows| * Total(rest)
    requires |Product(rest)| == Total(rest) && Product(rest)[r] == RowAt(rest, r)
    ensures |Nested(rows, Product(rest))| == |rows| * Total(rest) && q < |rows|
    ensures Nested(rows, Product(rest))[idx] == rows[q] + RowAt(rest, idx)
  {
    NestedAt(rows, Product(rest), idx);
    DivUnique(idx, Total(rest), q, r);
    RowAtPeriod(rest, r, q);
  }

  /** Reading the rows by index gives the nested-loop product. */
  lemma {:induction false} ProductAt(args: seq<Arg>, idx: nat)
    ensures |Product(args)| == Total(args)
    ensures idx < Total(args) ==> Product(args)[idx] == RowAt(args, idx)
    decreases args
  {
    if args != [] {
      match args[0]
      case Scalar(_) =>
        ProductAt(args[1..], idx);
      case Batch(rows) =>
        var rest := args[1..];
        ProductAt(rest, 0);
        NestedSize(rows, Product(rest));
        if idx < Total(args) {
          TotalSplit(args);
          var q, r := DivMod(idx, Total(rest));
          ProductAt(rest, r);
          BatchAt(rows, rest, idx, q, r);
          SmallDiv(q, |rows|);
        }
    }
  }

  // ------------------------------------------------------------------ the code

  /** A batch argument and its position. */
  datatype BatchArg = BatchArg(pos: nat, rows: seq<seq<Value>>)

  /** The batch arguments of `args`, which start at position `pos`. */
  function BatchesOf(args: seq<Arg>, pos: nat): seq<BatchArg> {
    if args == [] then []
    else
      (match args[0] case Scalar(_) => [] case Batch(rows) => [BatchArg(pos, rows)])
      + BatchesOf(args[1..], pos + 1)
  }

  function Lengths(batches: seq<BatchArg>): nat {
    if batches == [] then 1 else |batches[0].rows| * Lengths(batches[1..])
  }

  lemma {:induction false} BatchTotal(args: seq<Arg>, pos: nat)
    ensures Lengths(BatchesOf(args, pos)) == Total(args)
  {
    if args != [] {
      BatchTotal(args[1..], pos + 1);
      if args[0].Batch? {
        assert BatchesOf(args, pos)[1..] == BatchesOf(args[1..], pos + 1);
      } else {
        assert BatchesOf(args, pos) == BatchesOf(args[1..], pos + 1);
      }
    }
  }

  lemma {:induction false} BatchPositions(args: seq<Arg>, pos: nat)
    ensures forall b | b in BatchesOf(args, pos) :: pos <= b.pos
  {
    if args != [] {
      BatchPositions(args[1..], pos + 1);
    }
  }

  lemma {:induction false} BatchesSnoc(args: seq<Arg>, i: nat, pos: nat)
    requires i < |args|
    ensures BatchesOf(args[..i + 1], pos) == BatchesOf(args[..i], pos) +
      (match args[i] case Scalar(_) => [] case Batch(rows) => [BatchArg(pos + i, rows)])
  {
    if i == 0 {
      assert args[..1][1..] == [];
    } else {
      assert args[..i + 1][1..] == args[1..][..i] && args[..i][1..] == args[1..][..i - 1];
      BatchesSnoc(args[1..], i - 1, pos + 1);
    }
  }

  /** A product of lengths, computed by the loops over `batches`. */
  method ProductOfLengths(batches: seq<BatchArg>) returns (total: nat)
    ensures total == Lengths(batches)
  {
    total := 1;
    assert batches[0..] == batches;
    for k := 0 to |batches|
      invariant total * Lengths(batches[k..]) == Lengths(batches)
    {
      assert batches[k..][0] == batches[k] && batches[k..][1..] == batches[k + 1..];
      Assoc(total, |batches[k].rows|, Lengths(batches[k + 1..]));
      total := total * |batches[k].rows|;
    }
  }

  /** What is left of the loop over the arguments at argument i and batch bi. */
  predicate Reached(args: seq<Arg>, batches: seq<BatchArg>, i: nat, bi: nat) {
    && i <= |args| && bi <= |batches|
    && batches[bi..] == BatchesOf(args[i..], i)
    && Total(args[i..]) > 0
  }

  /** The next batch is this argument exactly if this argument is a batch; its stride is the number of
      combinations of the arguments after it. */
  lemma ReachedNext(args: seq<Arg>, batches: seq<BatchArg>, i: nat, bi: nat)
    requires i < |args| && Reached(args, batches, i, bi)
    ensures args[i].Batch? <==> bi < |batches| && batches[bi].pos == i
    ensures args[i].Scalar? ==> Reached(args, batches, i + 1, bi)
    ensures args[i].Batch? ==>
      && Reached(args, batches, i + 1, bi + 1)
      && batches[bi].rows == args[i].rows != []
      && Lengths(batches[bi + 1..]) == Total(args[i + 1..])
  {
    var rest := args[i + 1..];
    assert args[i..][0] == args[i] && args[i..][1..] == rest;
    BatchPositions(rest, i + 1);
    BatchTotal(rest, i + 1);
    if args[i].Batch? {
      TotalSplit(args[i..]);
      assert batches[bi..][0] == batches[bi] && batches[bi..][1..] == batches[bi + 1..];
    } else {
      assert batches[bi..] == BatchesOf(rest, i + 1);
      assert bi < |batches| ==> batches[bi..][0] == batches[bi] && batches[bi] in BatchesOf(rest, i + 1);
    }
  }

  lemma RowAtNext(args: seq<Arg>, i: nat, idx: nat, row: seq<Value>)
    requires i < |args| && Total(args[i..]) > 0
    ensures Total(args[i + 1..]) > 0 && (args[i].Batch? ==> args[i].rows != [])
    ensures var now := match args[i]
        case Scalar(v) => [v]
        case Batch(rows) => rows[(idx / Total(args[i + 1..])) % |rows|];
      row + RowAt(args[i..], idx) == (row + now) + RowAt(args[i + 1..], idx)
  {
    assert args[i..][0] == args[i] && args[i..][1..] == args[i + 1..];
    if args[i].Batch? {
      TotalSplit(args[i..]);
    }
    var now := match args[i]
      case Scalar(v) => [v]
      case Batch(rows) => rows[(idx / Total(args[i + 1..])) % |rows|];
    assert RowAt(args[i..], idx) == now + RowAt(args[i + 1..], idx);
    assert row + (now + RowAt(args[i + 1..], idx)) == (row + now) + RowAt(args[i + 1..], idx);
  }

  /** The row of index `idx`: the loop over the arguments, with `bi` counting the batches met. */
  method BuildRow(args: seq<Arg>, batches: seq<BatchArg>, idx: nat) returns (row: seq<Value>)
    requires batches == BatchesOf(args, 0) && Total(args) > 0
    ensures row == RowAt(args, idx)
  {
    row := [];
    var bi := 0;
    assert args[0..] == args && batches[0..] == batches;
    for i := 0 to |args|
      invariant Reached(args, batches, i, bi)
      invariant row + RowAt(args[i..], idx) == RowAt(args, idx)
    {
      ReachedNext(args, batches, i, bi);
      RowAtNext(args, i, idx, row);
      if bi < |batches| && batches[bi].pos == i {
        var part := BatchRow(batches, bi, idx);
        row := row + part;
        bi := bi + 1;
      } else {
        row := row + [args[i].v];
      }
    }
    assert args[|args|..] == [] && row + [] == row;
  }

  /** The row of a batch that an index reads. */
  method BatchRow(batches: seq<BatchArg>, bi: nat, idx: nat) returns (part: seq<Value>)
    requires bi < |batches| && batches[bi].rows != [] && Lengths(batches[bi + 1..]) > 0
    ensures part == batches[bi].rows[(idx / Lengths(batches[bi + 1..])) % |batches[bi].rows|]
  {
    var stride := ProductOfLengths(batches[bi + 1..]);
    var batchRowIdx := (idx / stride) % |batches[bi].rows|;
    part := batches[bi].rows[batchRowIdx];
  }

  lemma ProductRows(args: seq<Arg>)
    ensures |Product(args)| == Total(args)
    ensures forall idx: nat :: idx < Total(args) ==> Product(args)[idx] == RowAt(args, idx)
  {
    ProductAt(args, 0);
    forall idx: nat | idx < Total(args)
      ensures Product(args)[idx] == RowAt(args, idx)
    {
      ProductAt(args, idx);
    }
  }

  /**
   The part of `GenerateArgs` that follows the evaluation of the arguments: the
   argument sets, and whether a batch was expanded.
   */
  method ExpandArgs(args: seq<Arg>) returns (result: seq<seq<Value>>, expanded: bool)
    ensures result == Product(args)
    ensures expanded <==> exists a | a in args :: a.Batch?
  {
    var batches: seq<BatchArg> := [];
    for i := 0 to |args|
      invariant batches == BatchesOf(args[..i], 0)
    {
      BatchesSnoc(args, i, 0);
      if args[i].Batch? {
        batches := batches + [BatchArg(i, args[i].rows)];
      }
    }
    assert args[..|args|] == args;
    SomeBatch(args, 0);
    BatchTotal(args, 0);
    ProductRows(args);
    if |batches| == 0 {
      var row := BuildRow(args, batches, 0);
      return [row], false;
    }
    var totalRows := ProductOfLengths(batches);
    result := [];
    for idx := 0 to totalRows
      invariant |result| == idx
      invariant result == Product(args)[..idx]
    {
      var row := BuildRow(args, batches, idx);
      result := result + [row];
    }
    expanded := true;
  }

  lemma {:induction false} SomeBatch(args: seq<Arg>, pos: nat)
    ensures BatchesOf(args, pos) != [] <==> exists a | a in args :: a.Batch?
  {
    if args != [] {
      SomeBatch(args[1..], pos + 1);
      assert forall a | a in args :: a == args[0] || a in args[1..];
      assert forall a | a in args[1..] :: a in args;
    }
  }
}
