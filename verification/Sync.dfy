/**
 Comparing a source and a target table row by row (cmd/edg/sync.go): a merge
 of two keyset-paginated cursors, against the difference of two tables.
 */
module Sync {
  import opened Wrappers

  // -------------------------------------------------------------- key order

  /** `strings.Compare` */
  function CompareText(a: string, b: string): int {
    if a == "" then (if b == "" then 0 else -1)
    else if b == "" then 1
    else if a[0] < b[0] then -1
    else if a[0] > b[0] then 1
    else CompareText(a[1..], b[1..])
  }

  /** `strconv.ParseFloat` on texts that do not denote NaN. */
  type Parser = string -> Option<real>

  /** `compareKeys` */
  function CompareKeys(parse: Parser, a: string, b: string): int {
    match (parse(a), parse(b))
    case (Some(x), Some(y)) => if x < y then -1 else if x > y then 1 else 0
    case _ => CompareText(a, b)
  }

  /** `a` comes before `b` in the dictionary: it is a proper prefix, or smaller at the first difference. */
  predicate TextBefore(a: string, b: string) {
    exists i | 0 <= i <= |a| && i <= |b| :: FirstDifference(a, b, i) && (i == |a| || a[i] < b[i])
  }

  predicate FirstDifference(a: string, b: string, i: nat) {
    i <= |a| && i < |b| && a[..i] == b[..i]
  }

  lemma SameHead(a: string, b: string, i: nat)
    requires 0 < i <= |a| && i <= |b| && a[..i] == b[..i]
    ensures a[0] == b[0]
  {
    assert a[..i][0] == a[0] && b[..i][0] == b[0];
  }

  lemma {:induction false} CompareTextExact(a: string, b: string)
    ensures CompareText(a, b) < 0 <==> TextBefore(a, b)
    decreases |a|
  {
    if a == "" {
      assert b != "" ==> FirstDifference(a, b, 0);
    } else if b != "" {
      forall i | 0 < i && FirstDifference(a, b, i)
        ensures a[0] == b[0]
      {
        SameHead(a, b, i);
      }
      if a[0] == b[0] {
        CompareTextExact(a[1..], b[1..]);
        if TextBefore(a[1..], b[1..]) {
          var i :| 0 <= i <= |a[1..]| && i <= |b[1..]| && FirstDifference(a[1..], b[1..], i) && (i == |a[1..]| || a[1..][i] < b[1..][i]);
          assert a[..i + 1] == [a[0]] + a[1..][..i] && b[..i + 1] == [b[0]] + b[1..][..i];
          assert FirstDifference(a, b, i + 1);
        }
        if TextBefore(a, b) {
          var i :| 0 <= i <= |a| && i <= |b| && FirstDifference(a, b, i) && (i == |a| || a[i] < b[i]);
          assert i > 0;
          assert a[1..][..i - 1] == a[..i][1..] && b[1..][..i - 1] == b[..i][1..];
          assert FirstDifference(a[1..], b[1..], i - 1);
        }
      } else {
        assert FirstDifference(a, b, 0);
      }
    }
  }

  /** Two numbers compare as numbers, and all other keys as texts. */
  lemma CompareKeysExact(parse: Parser, a: string, b: string)
    ensures parse(a).Some? && parse(b).Some? ==>
      && (CompareKeys(parse, a, b) < 0 <==> parse(a).value < parse(b).value)
      && (CompareKeys(parse, a, b) == 0 <==> parse(a).value == parse(b).value)
    ensures parse(a).None? || parse(b).None? ==>
      (CompareKeys(parse, a, b) < 0 <==> TextBefore(a, b)) && (CompareKeys(parse, a, b) == 0 <==> a == b)
  {
    CompareTextExact(a, b);
    CompareTextLaws(a, b);
  }

  /** `t` is no number and stands, as a text, behind the greater number and before the smaller one. */
  predicate Straddled(parse: Parser, x: string, y: string, t: string) {
    && parse(x).Some? && parse(y).Some? && parse(t).None?
    && parse(x).value <= parse(y).value
    && CompareText(y, t) < 0 && CompareText(t, x) < 0
  }

  /** No key stands between two numbers the wrong way round; so it is if all keys are numbers, or none is. */
  predicate Orderable(parse: Parser, keys: set<string>) {
    forall x, y, t | x in keys && y in keys && t in keys :: !Straddled(parse, x, y, t)
  }

  type Order = (string, string) -> int

  /** `cmp` sorts `keys` linearly, up to keys it calls equal. */
  predicate Linear(cmp: Order, keys: set<string>) {
    && (forall a, b | a in keys && b in keys :: cmp(a, b) < 0 <==> cmp(b, a) > 0)
    && (forall a | a in keys :: cmp(a, a) == 0)
    && (forall a, b, c | a in keys && b in keys && c in keys :: cmp(a, b) <= 0 && cmp(b, c) <= 0 ==> cmp(a, c) <= 0)
  }

  lemma {:induction false} CompareTextLaws(a: string, b: string)
    ensures CompareText(a, b) == -CompareText(b, a)
    ensures CompareText(a, b) == 0 <==> a == b
    decreases |a|
  {
    if a != "" && b != "" {
      CompareTextLaws(a[1..], b[1..]);
      if a[0] == b[0] {
        assert a == [a[0]] + a[1..] && b == [b[0]] + b[1..];
      }
    }
  }

  lemma {:induction false} CompareTextTransitive(a: string, b: string, c: string)
    requires CompareText(a, b) <= 0 && CompareText(b, c) <= 0
    ensures CompareText(a, c) <= 0
    decreases |a|
  {
    if a != "" && b != "" && c != "" && a[0] == b[0] == c[0] {
      CompareTextTransitive(a[1..], b[1..], c[1..]);
    }
  }

  /** A circle has two numbers in it and a key between them the wrong way round. */
  lemma CompareKeysTransitive(parse: Parser, a: string, b: string, c: string)
    requires CompareKeys(parse, a, b) <= 0 && CompareKeys(parse, b, c) <= 0
    ensures
      || CompareKeys(parse, a, c) <= 0
      || Straddled(parse, a, b, c) || Straddled(parse, b, c, a) || Straddled(parse, c, a, b)
  {
    CompareTextLaws(a, b);
    CompareTextLaws(b, c);
    CompareTextLaws(a, c);
    if CompareText(a, b) <= 0 && CompareText(b, c) <= 0 {
      CompareTextTransitive(a, b, c);
    }
  }

  lemma CompareKeysLaws(parse: Parser, a: string, b: string)
    ensures CompareKeys(parse, a, b) == -CompareKeys(parse, b, a) && CompareKeys(parse, a, a) == 0
  {
    CompareTextLaws(a, b);
    CompareTextLaws(a, a);
  }

  /** `compareKeys` is a linear order exactly on orderable keys. */
  lemma CompareKeysLinear(parse: Parser, keys: set<string>)
    ensures Linear((a, b) => CompareKeys(parse, a, b), keys) <==> Orderable(parse, keys)
  {
    var cmp: Order := (a, b) => CompareKeys(parse, a, b);
    forall a, b
      ensures cmp(a, b) == -cmp(b, a) && cmp(a, a) == 0
    {
      CompareKeysLaws(parse, a, b);
    }
    forall x, y, t | Straddled(parse, x, y, t)
      ensures cmp(x, y) <= 0 && cmp(y, t) <= 0 && cmp(x, t) > 0
    {
      CompareTextLaws(t, x);
    }
    forall a, b, c | a in keys && b in keys && c in keys && cmp(a, b) <= 0 && cmp(b, c) <= 0 && Orderable(parse, keys)
      ensures cmp(a, c) <= 0
    {
      CompareKeysTransitive(parse, a, b, c);
    }
  }

  /** Numbers and other texts mixed need not be ordered: 9 < 10 < 1a < 9. */
  lemma MixedKeysCycle(parse: Parser)
    requires parse("9") == Some(9.0) && parse("10") == Some(10.0) && parse("1a") == None
    ensures CompareKeys(parse, "9", "10") < 0
    ensures CompareKeys(parse, "10", "1a") < 0
    ensures CompareKeys(parse, "1a", "9") < 0
    ensures !Linear((a, b) => CompareKeys(parse, a, b), {"9", "10", "1a"})
  {
    assert CompareText("10", "1a") == CompareText("10"[1..], "1a"[1..]);
    assert "10"[1..] == "0" && "1a"[1..] == "a";
    assert Straddled(parse, "9", "10", "1a");
    CompareKeysLinear(parse, {"9", "10", "1a"});
  }

  // ------------------------------------- the difference of two lists of rows

  /** A column value, `sql.NullString`. */
  datatype Cell = Null | Text(text: string)

  type Row = seq<Cell>

  /** A row with its key. */
  type Rec = (string, Row)

  function Keys(recs: seq<Rec>): set<string> {
    set r | r in recs :: r.0
  }

  predicate Increasing(cmp: Order, recs: seq<Rec>) {
    forall i, j | 0 <= i < j < |recs| :: cmp(recs[i].0, recs[j].0) < 0
  }

  predicate HasMatch(cmp: Order, key: string, recs: seq<Rec>) {
    exists i | 0 <= i < |recs| :: cmp(key, recs[i].0) == 0
  }

  /** How many rows of `a` have a key that `b` does not have. */
  function Missing(cmp: Order, a: seq<Rec>, b: seq<Rec>): nat {
    if a == [] then 0
    else (if HasMatch(cmp, a[0].0, b) then 0 else 1) + Missing(cmp, a[1..], b)
  }

  /** The differences between a row and the rows of `b` with its key. */
  function MatchDiffs(cmp: Order, diff: (Row, Row) -> nat, r: Rec, b: seq<Rec>): nat {
    if b == [] then 0
    else (if cmp(r.0, b[0].0) == 0 then diff(r.1, b[0].1) else 0) + MatchDiffs(cmp, diff, r, b[1..])
  }

  /** The differences summed over all pairs of rows with the same key. */
  function CommonDiffs(cmp: Order, diff: (Row, Row) -> nat, a: seq<Rec>, b: seq<Rec>): nat {
    if a == [] then 0 else MatchDiffs(cmp, diff, a[0], b) + CommonDiffs(cmp, diff, a[1..], b)
  }

  /**
   The difference of two tables: keys only in the source, keys only in the
   target, and differing columns summed over the common keys.
   */
  function Difference(cmp: Order, diff: (Row, Row) -> nat, a: seq<Rec>, b: seq<Rec>): nat {
    Missing(cmp, a, b) + Missing(cmp, b, a) + CommonDiffs(cmp, diff, a, b)
  }

  // ------------------------------------------------- the difference by merging

  predicate Unmatched(cmp: Order, key: string, recs: seq<Rec>) {
    forall i | 0 <= i < |recs| :: cmp(key, recs[i].0) != 0 && cmp(recs[i].0, key) != 0
  }

  lemma {:induction false} UnmatchedDiffs(cmp: Order, diff: (Row, Row) -> nat, r: Rec, b: seq<Rec>)
    requires Unmatched(cmp, r.0, b)
    ensures MatchDiffs(cmp, diff, r, b) == 0 && !HasMatch(cmp, r.0, b)
  {
    if b != [] {
      assert Unmatched(cmp, r.0, b[1..]);
      UnmatchedDiffs(cmp, diff, r, b[1..]);
    }
  }

  /** A row that nothing in `a` matches can be taken off `b`. */
  lemma {:induction false} DropUnmatched(cmp: Order, diff: (Row, Row) -> nat, a: seq<Rec>, b: seq<Rec>)
    requires b != [] && Unmatched(cmp, b[0].0, a)
    ensures Missing(cmp, a, b) == Missing(cmp, a, b[1..])
    ensures CommonDiffs(cmp, diff, a, b) == CommonDiffs(cmp, diff, a, b[1..])
  {
    if a != [] {
      assert Unmatched(cmp, b[0].0, a[1..]);
      DropUnmatched(cmp, diff, a[1..], b);
      var key := a[0].0;
      assert HasMatch(cmp, key, b) <==> HasMatch(cmp, key, b[1..]) by {
        assert forall i | 0 <= i < |b[1..]| :: b[1..][i] == b[i + 1];
        if HasMatch(cmp, key, b) {
          var i :| 0 <= i < |b| && cmp(key, b[i].0) == 0;
          assert b[1..][i - 1] == b[i];
        }
      }
    }
  }

  lemma StrictlyBefore(cmp: Order, keys: set<string>, x: string, y: string, z: string)
    requires Linear(cmp, keys) && x in keys && y in keys && z in keys
    requires cmp(x, y) <= 0 && cmp(y, z) <= 0 && (cmp(x, y) < 0 || cmp(y, z) < 0)
    ensures cmp(x, z) < 0 && cmp(z, x) > 0
  {
    assert cmp(x, z) <= 0;
    assert cmp(z, x) <= 0 && cmp(x, y) <= 0 ==> cmp(z, y) <= 0;
    assert cmp(y, z) <= 0 && cmp(z, x) <= 0 ==> cmp(y, x) <= 0;
  }

  /** Keys that are not after the first of an increasing list match none of the others. */
  lemma BeforeAll(cmp: Order, keys: set<string>, key: string, recs: seq<Rec>)
    requires Linear(cmp, keys) && key in keys && Keys(recs) <= keys && Increasing(cmp, recs)
    requires recs != [] && cmp(key, recs[0].0) <= 0
    ensures Unmatched(cmp, key, recs[1..])
    ensures cmp(key, recs[0].0) < 0 ==> Unmatched(cmp, key, recs)
  {
    assert recs[0] in recs;
    forall i | 0 < i < |recs|
      ensures cmp(key, recs[i].0) != 0 && cmp(recs[i].0, key) != 0
    {
      assert recs[i] in recs;
      StrictlyBefore(cmp, keys, key, recs[0].0, recs[i].0);
    }
    assert forall i | 0 <= i < |recs[1..]| :: recs[1..][i] == recs[i + 1];
    if cmp(key, recs[0].0) < 0 {
      assert cmp(recs[0].0, key) > 0;
    }
  }

  /** A smaller head of the source is a row the target does not have. */
  lemma SourceFirst(cmp: Order, diff: (Row, Row) -> nat, keys: set<string>, a: seq<Rec>, b: seq<Rec>)
    requires Linear(cmp, keys) && Keys(a) <= keys && Keys(b) <= keys
    requires Increasing(cmp, b) && a != []
    requires b != [] ==> cmp(a[0].0, b[0].0) < 0
    ensures Difference(cmp, diff, a, b) == 1 + Difference(cmp, diff, a[1..], b)
  {
    assert a[0] in a;
    if b != [] {
      BeforeAll(cmp, keys, a[0].0, b);
    }
    UnmatchedDiffs(cmp, diff, a[0], b);
    DropUnmatched(cmp, diff, b, a);
  }

  /** A smaller head of the target is a row the source does not have. */
  lemma TargetFirst(cmp: Order, diff: (Row, Row) -> nat, keys: set<string>, a: seq<Rec>, b: seq<Rec>)
    requires Linear(cmp, keys) && Keys(a) <= keys && Keys(b) <= keys
    requires Increasing(cmp, a) && b != []
    requires a != [] ==> cmp(a[0].0, b[0].0) > 0
    ensures Difference(cmp, diff, a, b) == 1 + Difference(cmp, diff, a, b[1..])
  {
    assert b[0] in b;
    if a != [] {
      assert a[0] in a;
      BeforeAll(cmp, keys, b[0].0, a);
    }
    UnmatchedDiffs(cmp, diff, b[0], a);
    DropUnmatched(cmp, diff, a, b);
  }

  /** Equal heads differ in their columns only, and match nothing else. */
  lemma EqualHeads(cmp: Order, diff: (Row, Row) -> nat, keys: set<string>, a: seq<Rec>, b: seq<Rec>)
    requires Linear(cmp, keys) && Keys(a) <= keys && Keys(b) <= keys
    requires Increasing(cmp, a) && Increasing(cmp, b) && a != [] && b != []
    requires cmp(a[0].0, b[0].0) == 0
    ensures Difference(cmp, diff, a, b) == diff(a[0].1, b[0].1) + Difference(cmp, diff, a[1..], b[1..])
  {
    assert a[0] in a && b[0] in b;
    assert cmp(b[0].0, a[0].0) == 0;
    BeforeAll(cmp, keys, a[0].0, b);
    BeforeAll(cmp, keys, b[0].0, a);
    UnmatchedDiffs(cmp, diff, a[0], b[1..]);
    DropUnmatched(cmp, diff, a[1..], b);
    DropUnmatched(cmp, diff, b[1..], a);
    assert HasMatch(cmp, a[0].0, b) && HasMatch(cmp, b[0].0, a);
  }

  // -------------------------------------------------------- when there is none

  predicate AllMatch(cmp: Order, a: seq<Rec>, b: seq<Rec>) {
    forall i | 0 <= i < |a| :: HasMatch(cmp, a[i].0, b)
  }

  /** Every row of each table has a row with the same key and the same compared columns in the other. */
  predicate Agree(cmp: Order, diff: (Row, Row) -> nat, a: seq<Rec>, b: seq<Rec>) {
    && AllMatch(cmp, a, b)
    && AllMatch(cmp, b, a)
    && (forall i, j | 0 <= i < |a| && 0 <= j < |b| && cmp(a[i].0, b[j].0) == 0 :: diff(a[i].1, b[j].1) == 0)
  }

  lemma {:induction false} NoMissing(cmp: Order, a: seq<Rec>, b: seq<Rec>)
    ensures Missing(cmp, a, b) == 0 <==> AllMatch(cmp, a, b)
  {
    if a != [] {
      NoMissing(cmp, a[1..], b);
      assert forall i | 0 < i < |a| :: a[i] == a[1..][i - 1];
    }
  }

  lemma {:induction false} NoMatchDiffs(cmp: Order, diff: (Row, Row) -> nat, r: Rec, b: seq<Rec>)
    ensures MatchDiffs(cmp, diff, r, b) == 0 <==>
      forall j | 0 <= j < |b| && cmp(r.0, b[j].0) == 0 :: diff(r.1, b[j].1) == 0
  {
    if b != [] {
      NoMatchDiffs(cmp, diff, r, b[1..]);
      assert forall j | 0 < j < |b| :: b[j] == b[1..][j - 1];
    }
  }

  lemma {:induction false} NoCommonDiffs(cmp: Order, diff: (Row, Row) -> nat, a: seq<Rec>, b: seq<Rec>)
    ensures CommonDiffs(cmp, diff, a, b) == 0 <==>
      forall i, j | 0 <= i < |a| && 0 <= j < |b| && cmp(a[i].0, b[j].0) == 0 :: diff(a[i].1, b[j].1) == 0
  {
    if a != [] {
      NoCommonDiffs(cmp, diff, a[1..], b);
      NoMatchDiffs(cmp, diff, a[0], b);
      assert forall i | 0 < i < |a| :: a[i] == a[1..][i - 1];
    }
  }

  /** There is no difference iff the tables agree. */
  lemma NoDifference(cmp: Order, diff: (Row, Row) -> nat, a: seq<Rec>, b: seq<Rec>)
    ensures Difference(cmp, diff, a, b) == 0 <==> Agree(cmp, diff, a, b)
  {
    NoMissing(cmp, a, b);
    NoMissing(cmp, b, a);
    NoCommonDiffs(cmp, diff, a, b);
  }

  // ------------------------------------------------------- tables and columns

  /** A table as the database gives it: its columns, and its rows in the order of the key. */
  datatype TableData = TableData(columns: seq<string>, rows: seq<Row>)
  {
    predicate Valid() {
      columns != [] && forall i | 0 <= i < |rows| :: |rows[i]| == |columns|
    }
  }

  /** Where a column is: its last occurrence, and 0 (a missing map key) when there is none. */
  function ColIndex(columns: seq<string>, col: string): (i: nat)
    ensures columns != [] ==> i < |columns|
    ensures if col in columns then columns[i] == col && forall k | i < k < |columns| :: columns[k] != col else i == 0
  {
    if columns == [] then 0
    else if columns[|columns| - 1] == col then |columns| - 1
    else ColIndex(columns[..|columns| - 1], col)
  }

  /** Go's map read of `colIdx`. */
  function Lookup(colIdx: map<string, nat>, col: string): nat {
    if col in colIdx then colIdx[col] else 0
  }

  function CellAt(row: Row, i: nat): Cell {
    if i < |row| then row[i] else Null
  }

  /** `NullString.String` */
  function CellText(c: Cell): string {
    match c
    case Null => ""
    case Text(t) => t
  }

  /** `keyValue` */
  function KeyOf(columns: seq<string>, orderBy: string, row: Row): string {
    CellText(CellAt(row, ColIndex(columns, orderBy)))
  }

  /** A key that is NULL counts as the empty text, so the two have the same key. */
  lemma NullKey(columns: seq<string>, orderBy: string, row: Row)
    requires columns != [] && |row| == |columns| && row[ColIndex(columns, orderBy)] == Null
    ensures KeyOf(columns, orderBy, row) == ""
    ensures KeyOf(columns, orderBy, row[ColIndex(columns, orderBy) := Text("")]) == ""
  {
  }

  /** The rows of a table with their keys. */
  function Recs(t: TableData, orderBy: string): (recs: seq<Rec>)
    ensures |recs| == |t.rows|
    ensures forall i | 0 <= i < |recs| :: recs[i] == (KeyOf(t.columns, orderBy, t.rows[i]), t.rows[i])
  {
    seq(|t.rows|, i requires 0 <= i < |t.rows| => (KeyOf(t.columns, orderBy, t.rows[i]), t.rows[i]))
  }

  /** The source columns that are compared: not ignored, and columns of the target too. */
  function CompareCols(src: seq<string>, tgt: seq<string>, ignore: set<string>): seq<string> {
    if src == [] then []
    else (if src[0] in ignore || src[0] !in tgt then [] else [src[0]]) + CompareCols(src[1..], tgt, ignore)
  }

  /** The compared columns in which two rows differ. */
  function RowDiffs(src: seq<string>, tgt: seq<string>, cols: seq<string>, s: Row, t: Row): nat {
    if cols == [] then 0
    else
      (if CellAt(s, ColIndex(src, cols[0])) != CellAt(t, ColIndex(tgt, cols[0])) then 1 else 0)
      + RowDiffs(src, tgt, cols[1..], s, t)
  }

  // -------------------------------------------------------- the paged cursor

  /** The answer to a page query: the first `limit` rows with a key after `last`. */
  function Page(cmp: Order, recs: seq<Rec>, last: Option<string>, limit: nat): seq<Rec> {
    if recs == [] || limit == 0 then []
    else if last.Some? && cmp(recs[0].0, last.value) <= 0 then Page(cmp, recs[1..], last, limit)
    else [recs[0]] + Page(cmp, recs[1..], last, limit - 1)
  }

  function Min(a: nat, b: nat): nat {
    if a < b then a else b
  }

  /** Where all rows are behind the last key, a page is the next rows. */
  lemma {:induction false} PageAll(cmp: Order, recs: seq<Rec>, last: Option<string>, limit: nat)
    requires forall i | 0 <= i < |recs| && last.Some? :: cmp(recs[i].0, last.value) > 0
    ensures Page(cmp, recs, last, limit) == recs[..Min(limit, |recs|)]
    decreases |recs|
  {
    if recs != [] && limit > 0 {
      assert forall i | 0 <= i < |recs[1..]| :: recs[1..][i] == recs[i + 1];
      PageAll(cmp, recs[1..], last, limit - 1);
    }
  }

  /** The page after row `m - 1` starts at row `m`. */
  lemma {:induction false} PageNext(cmp: Order, recs: seq<Rec>, m: nat, last: string, limit: nat)
    requires m <= |recs|
    requires forall i | 0 <= i < m :: cmp(recs[i].0, last) <= 0
    requires forall i | m <= i < |recs| :: cmp(recs[i].0, last) > 0
    ensures Page(cmp, recs, Some(last), limit) == recs[m..m + Min(limit, |recs| - m)]
    decreases |recs|
  {
    assert forall i | 0 < i < |recs| :: recs[1..][i - 1] == recs[i];
    if m == 0 {
      PageAll(cmp, recs, Some(last), limit);
    } else if limit > 0 {
      PageNext(cmp, recs[1..], m - 1, last, limit);
      SliceTail(recs, m, Min(limit, |recs| - m));
    }
  }

  lemma SliceTail(recs: seq<Rec>, m: nat, n: nat)
    requires 0 < m && m + n <= |recs|
    ensures recs[1..][m - 1..m - 1 + n] == recs[m..m + n]
  {
  }

  /** The order of the database and the order of the comparison are one linear order without equal keys. */
  predicate Sorted(cmp: Order, db: TableData, orderBy: string) {
    db.Valid() && Increasing(cmp, Recs(db, orderBy)) && Linear(cmp, Keys(Recs(db, orderBy)))
  }

  /** The key of the last of the first `n` rows, if any. */
  function LastKey(db: TableData, orderBy: string, n: nat): Option<string>
    requires n <= |db.rows|
  {
    if n == 0 then None else Some(KeyOf(db.columns, orderBy, db.rows[n - 1]))
  }

  lemma BesideKey(cmp: Order, recs: seq<Rec>, n: nat, i: nat)
    requires Increasing(cmp, recs) && Linear(cmp, Keys(recs)) && 0 < n <= |recs| && i < |recs|
    ensures i < n <==> cmp(recs[i].0, recs[n - 1].0) <= 0
  {
    assert recs[i] in recs && recs[n - 1] in recs;
    assert recs[i].0 in Keys(recs) && recs[n - 1].0 in Keys(recs);
  }

  /** The rows up to number n are those whose keys are not behind the key of the last of them. */
  lemma AroundKey(cmp: Order, recs: seq<Rec>, n: nat)
    requires Increasing(cmp, recs) && Linear(cmp, Keys(recs)) && 0 < n <= |recs|
    ensures forall i | 0 <= i < n :: cmp(recs[i].0, recs[n - 1].0) <= 0
    ensures forall i | n <= i < |recs| :: cmp(recs[i].0, recs[n - 1].0) > 0
  {
    forall i | 0 <= i < |recs|
      ensures i < n <==> cmp(recs[i].0, recs[n - 1].0) <= 0
    {
      BesideKey(cmp, recs, n, i);
    }
  }

  /** The next page after the first `n` rows. */
  lemma NextPage(cmp: Order, recs: seq<Rec>, n: nat, limit: nat)
    requires Increasing(cmp, recs) && Linear(cmp, Keys(recs)) && n <= |recs|
    ensures Page(cmp, recs, if n == 0 then None else Some(recs[n - 1].0), limit) == recs[n..n + Min(limit, |recs| - n)]
  {
    if n == 0 {
      PageAll(cmp, recs, None, limit);
    } else {
      AroundKey(cmp, recs, n);
      PageNext(cmp, recs, n, recs[n - 1].0, limit);
    }
  }

  /** The page after the first `n` rows continues where they end. */
  predicate PageFrom(cmp: Order, db: TableData, orderBy: string, limit: nat, n: nat)
    requires n <= |db.rows|
  {
    Page(cmp, Recs(db, orderBy), LastKey(db, orderBy, n), limit) == Recs(db, orderBy)[n..n + Min(limit, |db.rows| - n)]
  }

  ghost predicate Continues(cmp: Order, db: TableData, orderBy: string, limit: nat) {
    forall n: nat | n <= |db.rows| :: PageFrom(cmp, db, orderBy, limit, n)
  }

  ghost predicate Usable(cmp: Order, db: TableData, orderBy: string, limit: nat) {
    match db
    case TableData(_, _) => db.Valid() && Continues(cmp, db, orderBy, limit)
  }

  /** `rows` is the page of the table that starts at row `base`, and `last` the greatest key fetched. */
  ghost predicate Paged(db: TableData, orderBy: string, limit: nat, base: nat, rows: seq<Row>, last: Option<string>) {
    match db
    case TableData(_, all) =>
      && base + |rows| <= |all|
      && rows == all[base..base + |rows|]
      && last == LastKey(db, orderBy, base + |rows|)
      && (limit == 0 ==> rows == [])
  }

  lemma LastKeyOf(db: TableData, orderBy: string, n: nat)
    requires n <= |db.rows|
    ensures LastKey(db, orderBy, n) == if n == 0 then None else Some(Recs(db, orderBy)[n - 1].0)
  {
  }

  lemma NextPageAfter(cmp: Order, recs: seq<Rec>, n: nat, limit: nat, last: Option<string>)
    requires Increasing(cmp, recs) && Linear(cmp, Keys(recs)) && n <= |recs|
    requires last == if n == 0 then None else Some(recs[n - 1].0)
    ensures Page(cmp, recs, last, limit) == recs[n..n + Min(limit, |recs| - n)]
  {
    NextPage(cmp, recs, n, limit);
  }

  lemma PageFromBy(cmp: Order, db: TableData, orderBy: string, limit: nat, n: nat, recs: seq<Rec>, last: Option<string>)
    requires recs == Recs(db, orderBy) && n <= |db.rows| && last == LastKey(db, orderBy, n)
    requires Page(cmp, recs, last, limit) == recs[n..n + Min(limit, |recs| - n)]
    ensures PageFrom(cmp, db, orderBy, limit, n)
  {
  }

  lemma PageContinues(cmp: Order, db: TableData, orderBy: string, limit: nat, n: nat, recs: seq<Rec>)
    requires recs == Recs(db, orderBy) && Increasing(cmp, recs) && Linear(cmp, Keys(recs)) && n <= |db.rows|
    ensures PageFrom(cmp, db, orderBy, limit, n)
  {
    var last := LastKey(db, orderBy, n);
    LastKeyOf(db, orderBy, n);
    NextPageAfter(cmp, recs, n, limit, last);
    PageFromBy(cmp, db, orderBy, limit, n, recs, last);
  }

  lemma SortedContinues(cmp: Order, db: TableData, orderBy: string, limit: nat)
    requires Sorted(cmp, db, orderBy)
    ensures Usable(cmp, db, orderBy, limit)
  {
    forall n: nat | n <= |db.rows|
      ensures PageFrom(cmp, db, orderBy, limit, n)
    {
      PageContinues(cmp, db, orderBy, limit, n, Recs(db, orderBy));
    }
  }

  /** `rowCursor` over the table `db`. The page at hand starts at row `base` of the table. */
  class RowCursor {
    const db: TableData
    const orderBy: string
    const batchSize: nat
    const cmp: Order

    var columns: seq<string>
    var colIdx: map<string, nat>
    var rows: seq<Row>
    var pos: nat
    var lastValue: Option<string>
    var done: bool
    ghost var base: nat

    ghost predicate Valid()
      reads this
    {
      match db
      case TableData(dbColumns, dbRows) =>
        && Usable(cmp, db, orderBy, batchSize)
        && Paged(db, orderBy, batchSize, base, rows, lastValue)
        && pos <= |rows|
        && (done ==> pos == |rows| && (batchSize == 0 || base + |rows| == |dbRows|))
        && (columns == [] ==> rows == [] && !done)
        && (columns != [] ==> columns == dbColumns && Indexed(colIdx, columns))
    }

    /** The rows still to come. */
    ghost function Remaining(): seq<Row>
      requires Valid()
      reads this
    {
      if batchSize == 0 then [] else db.rows[base + pos..]
    }

    constructor (db: TableData, orderBy: string, batchSize: nat, cmp: Order)
      requires Sorted(cmp, db, orderBy)
      ensures this.db == db && this.orderBy == orderBy && this.batchSize == batchSize && this.cmp == cmp
      ensures Valid() && Remaining() == (if batchSize == 0 then [] else db.rows)
    {
      this.db, this.orderBy, this.batchSize, this.cmp := db, orderBy, batchSize, cmp;
      columns, colIdx, rows, pos, lastValue, done := [], map[], [], 0, None, false;
      base := 0;
      SortedContinues(cmp, db, orderBy, batchSize);
    }

    /** The columns are taken from the first answer. */
    method LearnColumns()
      requires columns == [] || (columns == db.columns && Indexed(colIdx, columns))
      modifies this`columns, this`colIdx
      ensures columns == db.columns && Indexed(colIdx, columns)
    {
      if columns == [] {
        columns := db.columns;
        colIdx := IndexColumns(columns);
      }
    }

    /** The key of the last row fetched is remembered. */
    method KeepLast()
      requires db.Valid() && columns == db.columns && Indexed(colIdx, columns)
      requires base + |rows| <= |db.rows| && rows == db.rows[base..base + |rows|]
      modifies this`lastValue
      ensures lastValue == if rows == [] then old(lastValue) else LastKey(db, orderBy, base + |rows|)
    {
      if |rows| > 0 {
        LastOfPage(db, orderBy, base, rows);
        var row := rows[|rows| - 1];
        var column := Lookup(colIdx, orderBy);
        assert column == ColIndex(columns, orderBy) && column < |row| == |columns|;
        lastValue := Some(CellText(row[column]));
      }
    }

    /** `fetchBatch` */
    method FetchBatch()
      requires Usable(cmp, db, orderBy, batchSize) && Paged(db, orderBy, batchSize, base, rows, lastValue)
      requires columns == [] || (columns == db.columns && Indexed(colIdx, columns))
      modifies this`base, this`columns, this`colIdx, this`rows, this`lastValue
      ensures base == old(base + |rows|)
      ensures columns == db.columns && Indexed(colIdx, columns)
      ensures Paged(db, orderBy, batchSize, base, rows, lastValue)
      ensures base <= |db.rows| && |rows| == Min(batchSize, |db.rows| - base)
    {
      base := base + |rows|;
      var answer := Query(cmp, db, orderBy, base, lastValue, batchSize);
      LearnColumns();
      rows := answer;
      KeepLast();
      NewPage(db, orderBy, batchSize, base, rows, lastValue);
    }

    /** The first half of `next`: have a row at `pos`, or be done. */
    method Advance() returns (more: bool)
      requires Valid()
      modifies this
      ensures Valid() && columns == db.columns
      ensures Remaining() == old(Remaining()) && (more <==> Remaining() != [])
      ensures more ==> pos < |rows|
    {
      if done {
        return false;
      }
      if pos >= |rows| {
        FetchBatch();
        pos := 0;
        if |rows| == 0 {
          done := true;
          return false;
        }
      }
      return true;
    }

    /** `next` */
    method Next() returns (row: Option<Row>)
      requires Valid()
      modifies this
      ensures Valid() && columns == db.columns
      ensures old(Remaining()) == (match row case None => [] case Some(r) => [r]) + Remaining()
      ensures row.None? ==> Remaining() == []
    {
      var more := Advance();
      if !more {
        return None;
      }
      row := Some(rows[pos]);
      FirstLeft(db, orderBy, batchSize, base, rows, lastValue, pos);
      pos := pos + 1;
    }
  }

  /** The page at hand after a fetch. */
  lemma NewPage(db: TableData, orderBy: string, limit: nat, base: nat, rows: seq<Row>, last: Option<string>)
    requires db.Valid() && base <= |db.rows| && rows == db.rows[base..base + Min(limit, |db.rows| - base)]
    requires rows == [] ==> last == LastKey(db, orderBy, base)
    requires rows != [] ==> last == LastKey(db, orderBy, base + |rows|)
    ensures Paged(db, orderBy, limit, base, rows, last) && |rows| == Min(limit, |db.rows| - base)
  {
  }

  /** The greatest key of a page is that of its last row. */
  lemma LastOfPage(db: TableData, orderBy: string, base: nat, rows: seq<Row>)
    requires db.Valid() && rows != [] && base + |rows| <= |db.rows| && rows == db.rows[base..base + |rows|]
    ensures var row := rows[|rows| - 1];
      && |row| == |db.columns| && ColIndex(db.columns, orderBy) < |row|
      && LastKey(db, orderBy, base + |rows|) == Some(CellText(row[ColIndex(db.columns, orderBy)]))
  {
    assert rows[|rows| - 1] == db.rows[base + |rows| - 1];
  }

  /** The row at hand is the first one still to come. */
  lemma FirstLeft(db: TableData, orderBy: string, limit: nat, base: nat, rows: seq<Row>, last: Option<string>, pos: nat)
    requires Paged(db, orderBy, limit, base, rows, last) && pos < |rows|
    ensures base + pos < |db.rows| && limit > 0
    ensures db.rows[base + pos..] == [rows[pos]] + db.rows[base + pos + 1..]
  {
    assert rows[pos] == db.rows[base + pos];
  }

  /** The page query and the loop that scans its answer; `n` rows have been fetched before. */
  method Query(cmp: Order, db: TableData, orderBy: string, ghost n: nat, last: Option<string>, limit: nat)
    returns (rows: seq<Row>)
    requires n <= |db.rows| && Continues(cmp, db, orderBy, limit) && last == LastKey(db, orderBy, n)
    ensures rows == db.rows[n..n + Min(limit, |db.rows| - n)]
  {
    assert PageFrom(cmp, db, orderBy, limit, n);
    var answer := Page(cmp, Recs(db, orderBy), last, limit);
    rows := [];
    for k := 0 to |answer|
      invariant |rows| == k && forall i | 0 <= i < k :: rows[i] == answer[i].1
    {
      rows := rows + [answer[k].1];
    }
  }

  /** `colIdx` reads as the position of every column. */
  ghost predicate Indexed(colIdx: map<string, nat>, columns: seq<string>) {
    forall c :: Lookup(colIdx, c) == ColIndex(columns, c)
  }

  /** The loop that fills `colIdx`. */
  method IndexColumns(columns: seq<string>) returns (colIdx: map<string, nat>)
    ensures Indexed(colIdx, columns)
  {
    colIdx := map[];
    for i := 0 to |columns|
      invariant forall c :: Lookup(colIdx, c) == ColIndex(columns[..i], c)
    {
      assert columns[..i + 1][..i] == columns[..i];
      colIdx := colIdx[columns[i] := i];
    }
    assert columns[..|columns|] == columns;
  }

  /** `buildCompareCols` */
  method BuildCompareCols(srcCols: seq<string>, tgtCols: seq<string>, ignore: set<string>) returns (cols: seq<string>)
    ensures cols == CompareCols(srcCols, tgtCols, ignore)
  {
    var tgtSet := set c | c in tgtCols;
    cols := [];
    assert srcCols[0..] == srcCols;
    for i := 0 to |srcCols|
      invariant cols + CompareCols(srcCols[i..], tgtCols, ignore) == CompareCols(srcCols, tgtCols, ignore)
    {
      var col := srcCols[i];
      assert srcCols[i..][0] == col && srcCols[i..][1..] == srcCols[i + 1..];
      if col in ignore || col !in tgtSet {
        assert [] + CompareCols(srcCols[i + 1..], tgtCols, ignore) == CompareCols(srcCols[i + 1..], tgtCols, ignore);
        continue;
      }
      cols := cols + [col];
    }
  }
}
