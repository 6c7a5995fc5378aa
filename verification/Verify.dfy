/** `verifyTable` of cmd/edg/sync.go: the merge of the two cursors computes the difference of the tables. */
module Verify {
  import opened Sync
  import opened Mismatches
  import opened Wrappers

  function KeyOrder(parse: Parser): Order {
    (a, b) => CompareKeys(parse, a, b)
  }

  function ColumnDiffs(src: seq<string>, tgt: seq<string>, cols: seq<string>): (Row, Row) -> nat {
    (s, t) => RowDiffs(src, tgt, cols, s, t)
  }

  /** The rows a cursor gets to see: none when it asks for pages of no rows. */
  function Seen(t: TableData, orderBy: string, batchSize: nat): seq<Rec> {
    if batchSize == 0 then [] else Recs(t, orderBy)
  }

  function SeenRows(t: TableData, batchSize: nat): seq<Row> {
    if batchSize == 0 then [] else t.rows
  }

  function Hand(row: Option<Row>): seq<Row> {
    match row
    case None => []
    case Some(r) => [r]
  }

  /** The row in hand, if any, and the rows still to come are `rows` from `i` on. */
  ghost predicate At(c: RowCursor, row: Option<Row>, rows: seq<Row>, i: nat)
    reads c
  {
    && c.Valid() && c.columns == c.db.columns
    && i <= |rows| && rows[i..] == Hand(row) + c.Remaining()
    && (row.None? ==> i == |rows|)
    && (row.Some? ==> i < |rows| && row.value == rows[i])
  }

  /** Going on to the next row. */
  method Step(c: RowCursor, ghost row0: Option<Row>, ghost rows: seq<Row>, ghost i: nat) returns (row: Option<Row>)
    requires At(c, row0, rows, i) && row0.Some?
    modifies c
    ensures At(c, row, rows, i + 1)
  {
    row := c.Next();
    assert rows[i..][1..] == rows[i + 1..];
    assert row.Some? ==> rows[i + 1..][0] == row.value;
  }

  /** Reading the first row. */
  method First(c: RowCursor, ghost rows: seq<Row>) returns (row: Option<Row>)
    requires c.Valid() && c.Remaining() == rows
    modifies c
    ensures At(c, row, rows, 0)
  {
    row := c.Next();
    assert rows[0..] == rows;
  }

  /** `keyValue` */
  method KeyValue(c: RowCursor, row: Row) returns (key: string)
    requires c.Valid() && c.columns == c.db.columns && |row| == |c.columns|
    ensures key == KeyOf(c.db.columns, c.orderBy, row)
  {
    key := CellText(row[Lookup(c.colIdx, c.orderBy)]);
  }

  /** The loop over the compared columns. */
  method CompareColumns(src: RowCursor, tgt: RowCursor, cols: seq<string>, s: Row, t: Row) returns (n: nat)
    requires src.Valid() && src.columns == src.db.columns && |s| == |src.columns|
    requires tgt.Valid() && tgt.columns == tgt.db.columns && |t| == |tgt.columns|
    ensures n == RowDiffs(src.db.columns, tgt.db.columns, cols, s, t)
  {
    n := 0;
    assert cols[0..] == cols;
    for i := 0 to |cols|
      invariant n + RowDiffs(src.db.columns, tgt.db.columns, cols[i..], s, t)
             == RowDiffs(src.db.columns, tgt.db.columns, cols, s, t)
    {
      assert cols[i..][0] == cols[i] && cols[i..][1..] == cols[i + 1..];
      var sv := s[Lookup(src.colIdx, cols[i])];
      var tv := t[Lookup(tgt.colIdx, cols[i])];
      if sv != tv {
        n := n + 1;
      }
    }
  }

  /** What the comparison needs: orderable keys, in order and without repetition in each table. */
  ghost predicate Comparable(parse: Parser, source: TableData, target: TableData, orderBy: string) {
    var a, b := Recs(source, orderBy), Recs(target, orderBy);
    && source.Valid() && target.Valid()
    && Orderable(parse, Keys(a) + Keys(b))
    && Increasing(KeyOrder(parse), a) && Increasing(KeyOrder(parse), b)
  }

  lemma ComparableSorted(parse: Parser, source: TableData, target: TableData, orderBy: string)
    requires Comparable(parse, source, target, orderBy)
    ensures var cmp, keys := KeyOrder(parse), Keys(Recs(source, orderBy)) + Keys(Recs(target, orderBy));
      Linear(cmp, keys) && Sorted(cmp, source, orderBy) && Sorted(cmp, target, orderBy)
  {
    CompareKeysLinear(parse, Keys(Recs(source, orderBy)) + Keys(Recs(target, orderBy)));
  }

  lemma SuffixFacts(cmp: Order, a: seq<Rec>, i: nat)
    requires Increasing(cmp, a) && i <= |a|
    ensures Increasing(cmp, a[i..]) && Keys(a[i..]) <= Keys(a)
    ensures i < |a| ==> a[i..][0] == a[i] && a[i..][1..] == a[i + 1..]
  {
  }

  /** The difference still to be found when `i` and `j` rows are done, as a function of the two cursors. */
  type Rest = (nat, nat) -> nat

  /** How the rest shrinks when the rows `i` and `j` are at hand. */
  predicate ShrinksAt(rest: Rest, cmp: Order, diff: (Row, Row) -> nat, a: seq<Rec>, b: seq<Rec>, i: nat, j: nat) {
    i <= |a| && j <= |b| ==>
      && (i < |a| && (j < |b| ==> cmp(a[i].0, b[j].0) < 0) ==> rest(i, j) == 1 + rest(i + 1, j))
      && (j < |b| && (i < |a| ==> cmp(a[i].0, b[j].0) > 0) ==> rest(i, j) == 1 + rest(i, j + 1))
      && (i < |a| && j < |b| && cmp(a[i].0, b[j].0) == 0 ==> rest(i, j) == diff(a[i].1, b[j].1) + rest(i + 1, j + 1))
      && (i == |a| && j == |b| ==> rest(i, j) == 0)
  }

  ghost predicate Shrinks(rest: Rest, cmp: Order, diff: (Row, Row) -> nat, a: seq<Rec>, b: seq<Rec>) {
    forall i: nat, j: nat {:trigger ShrinksAt(rest, cmp, diff, a, b, i, j)} :: ShrinksAt(rest, cmp, diff, a, b, i, j)
  }

  function RestOf(cmp: Order, diff: (Row, Row) -> nat, a: seq<Rec>, b: seq<Rec>): Rest {
    (i: nat, j: nat) => if i <= |a| && j <= |b| then Difference(cmp, diff, a[i..], b[j..]) else 0
  }

  /** The difference shrinks as the merge proceeds. */
  lemma DifferenceShrinks(cmp: Order, diff: (Row, Row) -> nat, a: seq<Rec>, b: seq<Rec>)
    requires Linear(cmp, Keys(a) + Keys(b)) && Increasing(cmp, a) && Increasing(cmp, b)
    ensures Shrinks(RestOf(cmp, diff, a, b), cmp, diff, a, b)
    ensures RestOf(cmp, diff, a, b)(0, 0) == Difference(cmp, diff, a, b)
  {
    forall i: nat, j: nat
      ensures ShrinksAt(RestOf(cmp, diff, a, b), cmp, diff, a, b, i, j)
    {
      if i <= |a| && j <= |b| {
        ShrinkStep(cmp, diff, a, b, i, j);
      }
    }
    assert a[0..] == a && b[0..] == b;
  }

  lemma ShrinkStep(cmp: Order, diff: (Row, Row) -> nat, a: seq<Rec>, b: seq<Rec>, i: nat, j: nat)
    requires Linear(cmp, Keys(a) + Keys(b)) && Increasing(cmp, a) && Increasing(cmp, b)
    requires i <= |a| && j <= |b|
    ensures ShrinksAt(RestOf(cmp, diff, a, b), cmp, diff, a, b, i, j)
  {
    var keys := Keys(a) + Keys(b);
    SuffixFacts(cmp, a, i);
    SuffixFacts(cmp, b, j);
    if i < |a| && (j < |b| ==> cmp(a[i].0, b[j].0) < 0) {
      SourceFirst(cmp, diff, keys, a[i..], b[j..]);
    }
    if j < |b| && (i < |a| ==> cmp(a[i].0, b[j].0) > 0) {
      TargetFirst(cmp, diff, keys, a[i..], b[j..]);
    }
    if i < |a| && j < |b| && cmp(a[i].0, b[j].0) == 0 {
      EqualHeads(cmp, diff, keys, a[i..], b[j..]);
    }
  }

  /** `recs` are `rows` with their keys. */
  ghost predicate Keyed(recs: seq<Rec>, rows: seq<Row>, columns: seq<string>, orderBy: string) {
    && |recs| == |rows|
    && forall i | 0 <= i < |recs| ::
         recs[i].1 == rows[i] && recs[i].0 == KeyOf(columns, orderBy, rows[i]) && |rows[i]| == |columns|
  }

  /** The comparison of the two rows at hand, and the mismatches it finds at once. */
  method CompareHeads(parse: Parser, src: RowCursor, tgt: RowCursor, cols: seq<string>,
                      ghost a: seq<Rec>, ghost b: seq<Rec>, ghost i: nat, ghost j: nat, ghost rest: Rest,
                      s: Row, t: Row)
    returns (c: int, n: nat)
    requires src.Valid() && src.columns == src.db.columns && |s| == |src.columns|
    requires tgt.Valid() && tgt.columns == tgt.db.columns && |t| == |tgt.columns|
    requires i < |a| && a[i] == (KeyOf(src.db.columns, src.orderBy, s), s)
    requires j < |b| && b[j] == (KeyOf(tgt.db.columns, tgt.orderBy, t), t)
    requires ShrinksAt(rest, KeyOrder(parse), ColumnDiffs(src.db.columns, tgt.db.columns, cols), a, b, i, j)
    ensures rest(i, j) == n + if c == 0 then rest(i + 1, j + 1) else if c < 0 then rest(i + 1, j) else rest(i, j + 1)
  {
    var srcKey := KeyValue(src, s);
    var tgtKey := KeyValue(tgt, t);
    c := CompareKeys(parse, srcKey, tgtKey);
    n := 1;
    if c == 0 {
      n := CompareColumns(src, tgt, cols, s, t);
    }
  }

  /** One round of the main loop. */
  method MergeRound(parse: Parser, src: RowCursor, tgt: RowCursor, cols: seq<string>,
                    ghost a: seq<Rec>, ghost b: seq<Rec>, ghost aRows: seq<Row>, ghost bRows: seq<Row>,
                    ghost i: nat, ghost j: nat, ghost rest: Rest,
                    srcRow0: Option<Row>, tgtRow0: Option<Row>)
    returns (srcRow: Option<Row>, tgtRow: Option<Row>, n: nat, ghost i': nat, ghost j': nat)
    requires src != tgt && src.orderBy == tgt.orderBy
    requires At(src, srcRow0, aRows, i) && At(tgt, tgtRow0, bRows, j) && srcRow0.Some? && tgtRow0.Some?
    requires Keyed(a, aRows, src.db.columns, src.orderBy) && Keyed(b, bRows, tgt.db.columns, src.orderBy)
    requires ShrinksAt(rest, KeyOrder(parse), ColumnDiffs(src.db.columns, tgt.db.columns, cols), a, b, i, j)
    modifies src, tgt
    ensures At(src, srcRow, aRows, i') && At(tgt, tgtRow, bRows, j')
    ensures i <= i' <= |a| && j <= j' <= |b| && i + j < i' + j'
    ensures rest(i, j) == n + rest(i', j')
  {
    srcRow, tgtRow, i', j' := srcRow0, tgtRow0, i, j;
    var c;
    c, n := CompareHeads(parse, src, tgt, cols, a, b, i, j, rest, srcRow.value, tgtRow.value);
    if c <= 0 {
      srcRow := Step(src, srcRow, aRows, i);
      i' := i + 1;
    }
    if c >= 0 {
      tgtRow := Step(tgt, tgtRow, bRows, j);
      j' := j + 1;
    }
  }

  /** A cursor and its first row. */
  method Open(db: TableData, orderBy: string, batchSize: nat, cmp: Order) returns (c: RowCursor, row: Option<Row>)
    requires Sorted(cmp, db, orderBy)
    ensures fresh(c) && c.db == db && c.orderBy == orderBy
    ensures At(c, row, SeenRows(db, batchSize), 0)
  {
    c := new RowCursor(db, orderBy, batchSize, cmp);
    row := First(c, SeenRows(db, batchSize));
  }

  lemma TakeRow(all: seq<Row>, i: nat)
    requires i < |all|
    ensures all[..i + 1] == all[..i] + [all[i]]
  {
  }

  /** Reading a cursor to its end, from its first row. */
  method ReadOn(c: RowCursor, row0: Option<Row>, ghost all: seq<Row>) returns (rows: seq<Row>)
    requires At(c, row0, all, 0)
    modifies c
    ensures rows == all
  {
    rows := [];
    var row := row0;
    ghost var i := 0;
    while row.Some?
      invariant At(c, row, all, i) && rows == all[..i]
      decreases |all| - i
    {
      TakeRow(all, i);
      rows := rows + [row.value];
      row := Step(c, row, all, i);
      i := i + 1;
    }
    assert i == |all|;
  }

  /** Reading a cursor to its end gives the ordered table, every row once: paging refines a full scan. */
  method ReadAll(db: TableData, orderBy: string, batchSize: nat, cmp: Order) returns (rows: seq<Row>)
    requires Sorted(cmp, db, orderBy)
    ensures rows == SeenRows(db, batchSize)
  {
    var c, row := Open(db, orderBy, batchSize, cmp);
    rows := ReadOn(c, row, SeenRows(db, batchSize));
  }

  /** The loops over what is left of one table when the other one is done: every row is a mismatch. */
  method Drain(c: RowCursor, row0: Option<Row>, ghost rows: seq<Row>, ghost i0: nat) returns (n: nat)
    requires At(c, row0, rows, i0)
    modifies c
    ensures n == |rows| - i0
  {
    n := 0;
    var row := row0;
    ghost var i := i0;
    while row.Some?
      invariant At(c, row, rows, i) && n == i - i0
      decreases |rows| - i
    {
      n := n + 1;
      row := Step(c, row, rows, i);
      i := i + 1;
    }
    assert i == |rows|;
  }

  /** When one table is done, the rest is the other one. */
  lemma {:induction false} RestOfOne(rest: Rest, cmp: Order, diff: (Row, Row) -> nat, a: seq<Rec>, b: seq<Rec>,
                                     i: nat, j: nat)
    requires Shrinks(rest, cmp, diff, a, b) && i <= |a| && j <= |b| && (i == |a| || j == |b|)
    ensures rest(i, j) == |a| - i + |b| - j
    decreases |a| - i + |b| - j
  {
    assert ShrinksAt(rest, cmp, diff, a, b, i, j);
    if i < |a| {
      RestOfOne(rest, cmp, diff, a, b, i + 1, j);
    } else if j < |b| {
      RestOfOne(rest, cmp, diff, a, b, i, j + 1);
    }
  }

  /** The difference that `verifyTable` is to report. */
  ghost function TableDifference(parse: Parser, source: TableData, target: TableData, orderBy: string,
                                 ignore: set<string>, batchSize: nat): nat {
    var cols := CompareCols(source.columns, target.columns, ignore);
    Difference(KeyOrder(parse), ColumnDiffs(source.columns, target.columns, cols),
               Seen(source, orderBy, batchSize), Seen(target, orderBy, batchSize))
  }

  /** What the loops need to know about the two tables. */
  lemma Setting(parse: Parser, source: TableData, target: TableData, orderBy: string, batchSize: nat, cols: seq<string>)
    requires Comparable(parse, source, target, orderBy)
    ensures var cmp, a, b := KeyOrder(parse), Seen(source, orderBy, batchSize), Seen(target, orderBy, batchSize);
      var diff := ColumnDiffs(source.columns, target.columns, cols);
      && Shrinks(RestOf(cmp, diff, a, b), cmp, diff, a, b)
      && RestOf(cmp, diff, a, b)(0, 0) == Difference(cmp, diff, a, b)
      && Keyed(a, SeenRows(source, batchSize), source.columns, orderBy)
      && Keyed(b, SeenRows(target, batchSize), target.columns, orderBy)
  {
    var cmp, a, b := KeyOrder(parse), Seen(source, orderBy, batchSize), Seen(target, orderBy, batchSize);
    SeenLinear(parse, source, target, orderBy, batchSize);
    DifferenceShrinks(cmp, ColumnDiffs(source.columns, target.columns, cols), a, b);
    SeenKeyed(source, orderBy, batchSize);
    SeenKeyed(target, orderBy, batchSize);
  }

  lemma SeenLinear(parse: Parser, source: TableData, target: TableData, orderBy: string, batchSize: nat)
    requires Comparable(parse, source, target, orderBy)
    ensures var cmp, a, b := KeyOrder(parse), Seen(source, orderBy, batchSize), Seen(target, orderBy, batchSize);
      Linear(cmp, Keys(a) + Keys(b)) && Increasing(cmp, a) && Increasing(cmp, b)
    ensures source.Valid() && target.Valid()
  {
    if batchSize == 0 {
      assert Keys([]) == {};
    } else {
      ComparableSorted(parse, source, target, orderBy);
    }
  }

  lemma SeenKeyed(t: TableData, orderBy: string, batchSize: nat)
    requires t.Valid()
    ensures Keyed(Seen(t, orderBy, batchSize), SeenRows(t, batchSize), t.columns, orderBy)
  {
  }

  /** The mismatches there are between the rows seen: rows without a partner, and cells in which partners differ. */
  ghost predicate Counted(parse: Parser, source: TableData, target: TableData, orderBy: string,
                          ignore: set<string>, batchSize: nat, mismatches: nat) {
    var cmp, a, b := KeyOrder(parse), Seen(source, orderBy, batchSize), Seen(target, orderBy, batchSize);
    mismatches == |Lonely(cmp, a, b, |a|)| + |Lonely(cmp, b, a, |b|)|
                  + |TableCells(cmp, source.columns, target.columns, ignore, a, b, |a|)|
  }

  /** The difference of two tables counts them. */
  lemma DifferenceCounted(parse: Parser, source: TableData, target: TableData, orderBy: string,
                          ignore: set<string>, batchSize: nat)
    ensures Counted(parse, source, target, orderBy, ignore, batchSize,
                    TableDifference(parse, source, target, orderBy, ignore, batchSize))
  {
    var diff := ColumnDiffs(source.columns, target.columns, CompareCols(source.columns, target.columns, ignore));
    forall s, t
      ensures diff(s, t) == |RowCells(source.columns, target.columns, ignore, s, t, |source.columns|)|
    {
      RowDiffsCount(source.columns, target.columns, ignore, s, t);
    }
    DifferenceCounts(KeyOrder(parse), diff, source.columns, target.columns, ignore,
                     Seen(source, orderBy, batchSize), Seen(target, orderBy, batchSize));
  }

  /**
   `verifyTable` without its messages: the number of mismatches is the
   difference of the two tables, that is, how many rows on both sides are without
   a partner and in how many cells partners differ. (With a batch size of 0 no row
   is ever fetched, and every two tables pass.)
   */
  method VerifyTable(parse: Parser, source: TableData, target: TableData, orderBy: string,
                     ignore: set<string>, batchSize: nat) returns (mismatches: nat)
    requires Comparable(parse, source, target, orderBy)
    ensures mismatches == TableDifference(parse, source, target, orderBy, ignore, batchSize)
    ensures Counted(parse, source, target, orderBy, ignore, batchSize, mismatches)
  {
    DifferenceCounted(parse, source, target, orderBy, ignore, batchSize);
    ComparableSorted(parse, source, target, orderBy);
    var src, srcRow := Open(source, orderBy, batchSize, KeyOrder(parse));
    var tgt, tgtRow := Open(target, orderBy, batchSize, KeyOrder(parse));
    var cols := BuildCompareCols(src.columns, tgt.columns, ignore);
    ghost var cmp, diff := KeyOrder(parse), ColumnDiffs(source.columns, target.columns, cols);
    ghost var a, b := Seen(source, orderBy, batchSize), Seen(target, orderBy, batchSize);
    Setting(parse, source, target, orderBy, batchSize, cols);
    mismatches := Merge(parse, src, tgt, cols, a, b, SeenRows(source, batchSize), SeenRows(target, batchSize),
                        RestOf(cmp, diff, a, b), srcRow, tgtRow);
  }

  /** The loops over what is left, one table being done. */
  method DrainBoth(src: RowCursor, tgt: RowCursor, srcRow: Option<Row>, tgtRow: Option<Row>,
                   ghost aRows: seq<Row>, ghost bRows: seq<Row>, ghost i: nat, ghost j: nat)
    returns (n: nat)
    requires src != tgt && At(src, srcRow, aRows, i) && At(tgt, tgtRow, bRows, j)
    modifies src, tgt
    ensures n == |aRows| - i + |bRows| - j
  {
    var missing := Drain(src, srcRow, aRows, i);
    var extra := Drain(tgt, tgtRow, bRows, j);
    n := missing + extra;
  }

  /** The loops of `verifyTable`. */
  method Merge(parse: Parser, src: RowCursor, tgt: RowCursor, cols: seq<string>,
               ghost a: seq<Rec>, ghost b: seq<Rec>, ghost aRows: seq<Row>, ghost bRows: seq<Row>,
               ghost rest: Rest, srcRow0: Option<Row>, tgtRow0: Option<Row>)
    returns (mismatches: nat)
    requires src != tgt && src.orderBy == tgt.orderBy
    requires At(src, srcRow0, aRows, 0) && At(tgt, tgtRow0, bRows, 0)
    requires Keyed(a, aRows, src.db.columns, src.orderBy) && Keyed(b, bRows, tgt.db.columns, src.orderBy)
    requires Shrinks(rest, KeyOrder(parse), ColumnDiffs(src.db.columns, tgt.db.columns, cols), a, b)
    modifies src, tgt
    ensures mismatches == rest(0, 0)
  {
    ghost var cmp, diff := KeyOrder(parse), ColumnDiffs(src.db.columns, tgt.db.columns, cols);
    var srcRow, tgtRow := srcRow0, tgtRow0;
    ghost var i, j := 0, 0;
    mismatches := 0;
    while srcRow.Some? && tgtRow.Some?
      invariant i <= |a| && j <= |b|
      invariant At(src, srcRow, aRows, i) && At(tgt, tgtRow, bRows, j)
      invariant mismatches + rest(i, j) == rest(0, 0)
      decreases |a| - i + |b| - j
    {
      assert ShrinksAt(rest, cmp, diff, a, b, i, j);
      var n;
      srcRow, tgtRow, n, i, j := MergeRound(parse, src, tgt, cols, a, b, aRows, bRows, i, j, rest, srcRow, tgtRow);
      mismatches := mismatches + n;
    }
    RestOfOne(rest, cmp, diff, a, b, i, j);
    var left := DrainBoth(src, tgt, srcRow, tgtRow, aRows, bRows, i, j);
    mismatches := mismatches + left;
  }

  // ------------------------------------------------------------ passing means

  /** The rows agree in every column that both tables have and that is not ignored. */
  predicate SameColumns(src: seq<string>, tgt: seq<string>, ignore: set<string>, s: Row, t: Row) {
    forall c | c in src && c in tgt && c !in ignore :: CellAt(s, ColIndex(src, c)) == CellAt(t, ColIndex(tgt, c))
  }

  lemma {:induction false} CompareColsExact(src: seq<string>, tgt: seq<string>, ignore: set<string>)
    ensures forall c :: c in CompareCols(src, tgt, ignore) <==> c in src && c in tgt && c !in ignore
  {
    if src != [] {
      CompareColsExact(src[1..], tgt, ignore);
      assert forall c :: c in src <==> c == src[0] || c in src[1..];
    }
  }

  lemma {:induction false} NoRowDiffs(src: seq<string>, tgt: seq<string>, cols: seq<string>, s: Row, t: Row)
    ensures RowDiffs(src, tgt, cols, s, t) == 0 <==>
      forall c | c in cols :: CellAt(s, ColIndex(src, c)) == CellAt(t, ColIndex(tgt, c))
  {
    if cols != [] {
      NoRowDiffs(src, tgt, cols[1..], s, t);
      assert cols[0] in cols && forall c | c in cols :: c == cols[0] || c in cols[1..];
      assert forall c | c in cols[1..] :: c in cols;
    }
  }

  /** Every row of each table has a partner in the other one, and partners agree. */
  predicate TablesAgree(parse: Parser, source: TableData, target: TableData, orderBy: string, ignore: set<string>) {
    var cmp, a, b := KeyOrder(parse), Recs(source, orderBy), Recs(target, orderBy);
    && AllMatch(cmp, a, b)
    && AllMatch(cmp, b, a)
    && (forall i, j | 0 <= i < |a| && 0 <= j < |b| && cmp(a[i].0, b[j].0) == 0 ::
          SameColumns(source.columns, target.columns, ignore, a[i].1, b[j].1))
  }

  /** Two rows have no difference iff they agree in all columns that count. */
  lemma DiffsExact(src: seq<string>, tgt: seq<string>, ignore: set<string>, s: Row, t: Row)
    ensures ColumnDiffs(src, tgt, CompareCols(src, tgt, ignore))(s, t) == 0 <==> SameColumns(src, tgt, ignore, s, t)
  {
    CompareColsExact(src, tgt, ignore);
    NoRowDiffs(src, tgt, CompareCols(src, tgt, ignore), s, t);
  }

  lemma AgreeExact(parse: Parser, source: TableData, target: TableData, orderBy: string, ignore: set<string>,
                   diff: (Row, Row) -> nat)
    requires diff == ColumnDiffs(source.columns, target.columns, CompareCols(source.columns, target.columns, ignore))
    ensures Agree(KeyOrder(parse), diff, Recs(source, orderBy), Recs(target, orderBy)) <==>
            TablesAgree(parse, source, target, orderBy, ignore)
  {
    var a, b := Recs(source, orderBy), Recs(target, orderBy);
    forall i, j | 0 <= i < |a| && 0 <= j < |b|
      ensures diff(a[i].1, b[j].1) == 0 <==> SameColumns(source.columns, target.columns, ignore, a[i].1, b[j].1)
    {
      DiffsExact(source.columns, target.columns, ignore, a[i].1, b[j].1);
    }
  }

  /** Verification finds no mismatch iff the tables agree, whatever the orders of their columns. */
  lemma PassedIff(parse: Parser, source: TableData, target: TableData, orderBy: string, ignore: set<string>,
                  batchSize: nat)
    requires batchSize > 0
    ensures TableDifference(parse, source, target, orderBy, ignore, batchSize) == 0 <==>
            TablesAgree(parse, source, target, orderBy, ignore)
  {
    var diff := ColumnDiffs(source.columns, target.columns, CompareCols(source.columns, target.columns, ignore));
    NoDifference(KeyOrder(parse), diff, Recs(source, orderBy), Recs(target, orderBy));
    AgreeExact(parse, source, target, orderBy, ignore, diff);
  }

  /** Pages of no rows: every two tables pass. */
  lemma EmptyPagesPass(parse: Parser, source: TableData, target: TableData, orderBy: string, ignore: set<string>)
    ensures TableDifference(parse, source, target, orderBy, ignore, 0) == 0
  {
  }
}
