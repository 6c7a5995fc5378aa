/**
 The mismatches of two tables as things that can be pointed at: the rows of each
 table without a partner in the other one, and the cells in which partners
 differ. The difference that the merge computes is how many there are.
 */
module Mismatches {
  import opened Sync
  import opened Wrappers

  /** No row of `b` has the key. */
  predicate IsLonely(cmp: Order, key: string, b: seq<Rec>) {
    forall j | 0 <= j < |b| :: cmp(key, b[j].0) != 0
  }

  /** The rows, among the first `n` of `a`, that have no partner in `b`. */
  ghost function Lonely(cmp: Order, a: seq<Rec>, b: seq<Rec>, n: nat): set<nat>
    requires n <= |a|
  {
    set i: nat | i < n && IsLonely(cmp, a[i].0, b)
  }

  /** Column `k` of the source is compared, and differs in the rows `s` and `t`. */
  predicate CellDiffers(src: seq<string>, tgt: seq<string>, ignore: set<string>, s: Row, t: Row, k: nat) {
    && k < |src| && src[k] in tgt && src[k] !in ignore
    && CellAt(s, ColIndex(src, src[k])) != CellAt(t, ColIndex(tgt, src[k]))
  }

  /** The columns, among the first `n` of the source, in which two rows differ. */
  ghost function RowCells(src: seq<string>, tgt: seq<string>, ignore: set<string>, s: Row, t: Row, n: nat): set<nat> {
    set k: nat | k < n && CellDiffers(src, tgt, ignore, s, t, k)
  }

  /** The differing cells of a row and its partners among the first `n` rows of `b`. */
  ghost function PartnerCells(cmp: Order, src: seq<string>, tgt: seq<string>, ignore: set<string>, r: Rec,
                              b: seq<Rec>, n: nat): set<(nat, nat)>
    requires n <= |b|
  {
    set j: nat, k: nat | j < n && k < |src| && cmp(r.0, b[j].0) == 0 && CellDiffers(src, tgt, ignore, r.1, b[j].1, k) ::
      (j, k)
  }

  /** The differing cells of the first `n` rows of `a`: row, partner and column. */
  ghost function TableCells(cmp: Order, src: seq<string>, tgt: seq<string>, ignore: set<string>, a: seq<Rec>,
                            b: seq<Rec>, n: nat): set<(nat, nat, nat)>
    requires n <= |a|
  {
    set i: nat, j: nat, k: nat |
      i < n && j < |b| && k < |src| && cmp(a[i].0, b[j].0) == 0 && CellDiffers(src, tgt, ignore, a[i].1, b[j].1, k) ::
      (i, j, k)
  }

  // ---------------------------------------------------------------- counting

  lemma {:induction false} ImageCount<X, Y(!new)>(s: set<X>, f: X -> Y, image: set<Y>)
    requires forall x, y | x in s && y in s && f(x) == f(y) :: x == y
    requires forall y :: y in image <==> exists x | x in s :: f(x) == y
    ensures |image| == |s|
    decreases |s|
  {
    if s == {} {
      assert forall y :: y !in image;
    } else {
      var x :| x in s;
      var s', image' := s - {x}, image - {f(x)};
      assert f(x) in image;
      forall y
        ensures y in image' <==> exists z | z in s' :: f(z) == y
      {
        if y in image' {
          var z :| z in s && f(z) == y;
          assert z in s';
        }
        if exists z | z in s' :: f(z) == y {
          var z :| z in s' && f(z) == y;
          assert z in s;
        }
      }
      ImageCount(s', f, image');
    }
  }

  lemma DisjointCount<X>(a: set<X>, b: set<X>, c: set<X>)
    requires c == a + b && a !! b
    ensures |c| == |a| + |b|
  {
  }

  // ------------------------------------------------------------- lonely rows

  lemma {:induction false} MissingSnoc(cmp: Order, a: seq<Rec>, r: Rec, b: seq<Rec>)
    ensures Missing(cmp, a + [r], b) == Missing(cmp, a, b) + if HasMatch(cmp, r.0, b) then 0 else 1
  {
    if a == [] {
      assert a + [r] == [r] && [r][1..] == [];
    } else {
      assert (a + [r])[1..] == a[1..] + [r];
      MissingSnoc(cmp, a[1..], r, b);
    }
  }

  lemma LonelyStep(cmp: Order, a: seq<Rec>, b: seq<Rec>, n: nat)
    requires n < |a|
    ensures |Lonely(cmp, a, b, n + 1)| == |Lonely(cmp, a, b, n)| + if IsLonely(cmp, a[n].0, b) then 1 else 0
  {
    var last: set<nat> := if IsLonely(cmp, a[n].0, b) then {n} else {};
    assert Lonely(cmp, a, b, n + 1) == Lonely(cmp, a, b, n) + last;
    DisjointCount(Lonely(cmp, a, b, n), last, Lonely(cmp, a, b, n + 1));
  }

  lemma {:induction false} LonelyCount(cmp: Order, a: seq<Rec>, b: seq<Rec>, n: nat)
    requires n <= |a|
    ensures |Lonely(cmp, a, b, n)| == Missing(cmp, a[..n], b)
  {
    if n == 0 {
      assert Lonely(cmp, a, b, 0) == {};
    } else {
      LonelyCount(cmp, a, b, n - 1);
      LonelyStep(cmp, a, b, n - 1);
      assert a[..n] == a[..n - 1] + [a[n - 1]];
      MissingSnoc(cmp, a[..n - 1], a[n - 1], b);
      assert IsLonely(cmp, a[n - 1].0, b) <==> !HasMatch(cmp, a[n - 1].0, b);
    }
  }

  // -------------------------------------------------------------- cells of a row

  lemma {:induction false} CompareColsSnoc(cols: seq<string>, c: string, tgt: seq<string>, ignore: set<string>)
    ensures CompareCols(cols + [c], tgt, ignore)
         == CompareCols(cols, tgt, ignore) + if c in ignore || c !in tgt then [] else [c]
  {
    if cols == [] {
      assert cols + [c] == [c] && [c][1..] == [];
    } else {
      assert (cols + [c])[1..] == cols[1..] + [c];
      CompareColsSnoc(cols[1..], c, tgt, ignore);
    }
  }

  lemma {:induction false} RowDiffsJoin(src: seq<string>, tgt: seq<string>, a: seq<string>, b: seq<string>, s: Row, t: Row)
    ensures RowDiffs(src, tgt, a + b, s, t) == RowDiffs(src, tgt, a, s, t) + RowDiffs(src, tgt, b, s, t)
  {
    if a == [] {
      assert a + b == b;
    } else {
      assert (a + b)[1..] == a[1..] + b;
      RowDiffsJoin(src, tgt, a[1..], b, s, t);
    }
  }

  lemma RowDiffsOne(src: seq<string>, tgt: seq<string>, c: string, s: Row, t: Row)
    ensures RowDiffs(src, tgt, [c], s, t) == if CellAt(s, ColIndex(src, c)) != CellAt(t, ColIndex(tgt, c)) then 1 else 0
  {
    assert [c][1..] == [];
  }

  lemma RowStep(src: seq<string>, tgt: seq<string>, ignore: set<string>, s: Row, t: Row, n: nat)
    ensures |RowCells(src, tgt, ignore, s, t, n + 1)|
         == |RowCells(src, tgt, ignore, s, t, n)| + if CellDiffers(src, tgt, ignore, s, t, n) then 1 else 0
  {
    var last: set<nat> := if CellDiffers(src, tgt, ignore, s, t, n) then {n} else {};
    assert RowCells(src, tgt, ignore, s, t, n + 1) == RowCells(src, tgt, ignore, s, t, n) + last;
    DisjointCount(RowCells(src, tgt, ignore, s, t, n), last, RowCells(src, tgt, ignore, s, t, n + 1));
  }

  lemma RowNext(src: seq<string>, tgt: seq<string>, ignore: set<string>, s: Row, t: Row, n: nat)
    requires n < |src|
    ensures RowDiffs(src, tgt, CompareCols(src[..n + 1], tgt, ignore), s, t)
         == RowDiffs(src, tgt, CompareCols(src[..n], tgt, ignore), s, t)
            + if CellDiffers(src, tgt, ignore, s, t, n) then 1 else 0
  {
    var c := src[n];
    var last := if c in ignore || c !in tgt then [] else [c];
    assert src[..n + 1] == src[..n] + [c];
    CompareColsSnoc(src[..n], c, tgt, ignore);
    RowDiffsJoin(src, tgt, CompareCols(src[..n], tgt, ignore), last, s, t);
    RowDiffsOne(src, tgt, c, s, t);
  }

  lemma {:induction false} RowCount(src: seq<string>, tgt: seq<string>, ignore: set<string>, s: Row, t: Row, n: nat)
    requires n <= |src|
    ensures |RowCells(src, tgt, ignore, s, t, n)| == RowDiffs(src, tgt, CompareCols(src[..n], tgt, ignore), s, t)
  {
    if n == 0 {
      assert RowCells(src, tgt, ignore, s, t, 0) == {};
    } else {
      RowCount(src, tgt, ignore, s, t, n - 1);
      RowStep(src, tgt, ignore, s, t, n - 1);
      RowNext(src, tgt, ignore, s, t, n - 1);
    }
  }

  /** The differences of two rows are the columns in which they differ. */
  lemma RowDiffsCount(src: seq<string>, tgt: seq<string>, ignore: set<string>, s: Row, t: Row)
    ensures RowDiffs(src, tgt, CompareCols(src, tgt, ignore), s, t) == |RowCells(src, tgt, ignore, s, t, |src|)|
  {
    RowCount(src, tgt, ignore, s, t, |src|);
    assert src[..|src|] == src;
  }

  // --------------------------------------------------------- cells of partners

  /** `diff` counts the columns in which two rows differ. */
  ghost predicate Counts(diff: (Row, Row) -> nat, src: seq<string>, tgt: seq<string>, ignore: set<string>) {
    forall s, t :: diff(s, t) == |RowCells(src, tgt, ignore, s, t, |src|)|
  }

  lemma {:induction false} MatchDiffsSnoc(cmp: Order, diff: (Row, Row) -> nat, r: Rec, b: seq<Rec>, x: Rec)
    ensures MatchDiffs(cmp, diff, r, b + [x])
         == MatchDiffs(cmp, diff, r, b) + if cmp(r.0, x.0) == 0 then diff(r.1, x.1) else 0
  {
    if b == [] {
      assert b + [x] == [x] && [x][1..] == [];
    } else {
      assert (b + [x])[1..] == b[1..] + [x];
      MatchDiffsSnoc(cmp, diff, r, b[1..], x);
    }
  }

  lemma PartnerLast(cmp: Order, src: seq<string>, tgt: seq<string>, ignore: set<string>, r: Rec, b: seq<Rec>, n: nat,
                    last: set<(nat, nat)>)
    requires n < |b| && cmp(r.0, b[n].0) == 0
    requires last == set k | k in RowCells(src, tgt, ignore, r.1, b[n].1, |src|) :: (n, k)
    ensures PartnerCells(cmp, src, tgt, ignore, r, b, n + 1) == PartnerCells(cmp, src, tgt, ignore, r, b, n) + last
    ensures PartnerCells(cmp, src, tgt, ignore, r, b, n) !! last
  {
    forall j: nat, k: nat
      ensures (j, k) in last <==> j == n && k in RowCells(src, tgt, ignore, r.1, b[n].1, |src|)
    {
    }
  }

  lemma PartnerStep(cmp: Order, src: seq<string>, tgt: seq<string>, ignore: set<string>, r: Rec, b: seq<Rec>, n: nat)
    requires n < |b|
    ensures |PartnerCells(cmp, src, tgt, ignore, r, b, n + 1)|
         == |PartnerCells(cmp, src, tgt, ignore, r, b, n)|
            + if cmp(r.0, b[n].0) == 0 then |RowCells(src, tgt, ignore, r.1, b[n].1, |src|)| else 0
  {
    var before, after := PartnerCells(cmp, src, tgt, ignore, r, b, n), PartnerCells(cmp, src, tgt, ignore, r, b, n + 1);
    if cmp(r.0, b[n].0) == 0 {
      var cells := RowCells(src, tgt, ignore, r.1, b[n].1, |src|);
      var last := set k | k in cells :: (n, k);
      ImageCount(cells, (k: nat) => (n, k), last);
      PartnerLast(cmp, src, tgt, ignore, r, b, n, last);
      DisjointCount(before, last, after);
    } else {
      assert after == before;
    }
  }

  lemma {:induction false} PartnerCount(cmp: Order, diff: (Row, Row) -> nat, src: seq<string>, tgt: seq<string>,
                                        ignore: set<string>, r: Rec, b: seq<Rec>, n: nat)
    requires Counts(diff, src, tgt, ignore) && n <= |b|
    ensures |PartnerCells(cmp, src, tgt, ignore, r, b, n)| == MatchDiffs(cmp, diff, r, b[..n])
  {
    if n == 0 {
      assert PartnerCells(cmp, src, tgt, ignore, r, b, 0) == {};
    } else {
      PartnerCount(cmp, diff, src, tgt, ignore, r, b, n - 1);
      PartnerStep(cmp, src, tgt, ignore, r, b, n - 1);
      assert b[..n] == b[..n - 1] + [b[n - 1]];
      MatchDiffsSnoc(cmp, diff, r, b[..n - 1], b[n - 1]);
    }
  }

  // --------------------------------------------------------- cells of the tables

  lemma {:induction false} CommonDiffsSnoc(cmp: Order, diff: (Row, Row) -> nat, a: seq<Rec>, r: Rec, b: seq<Rec>)
    ensures CommonDiffs(cmp, diff, a + [r], b) == CommonDiffs(cmp, diff, a, b) + MatchDiffs(cmp, diff, r, b)
  {
    if a == [] {
      assert a + [r] == [r] && [r][1..] == [];
    } else {
      assert (a + [r])[1..] == a[1..] + [r];
      CommonDiffsSnoc(cmp, diff, a[1..], r, b);
    }
  }

  lemma TableLast(cmp: Order, src: seq<string>, tgt: seq<string>, ignore: set<string>, a: seq<Rec>, b: seq<Rec>, n: nat,
                  last: set<(nat, nat, nat)>)
    requires n < |a|
    requires forall i: nat, j: nat, k: nat ::
      (i, j, k) in last <==> i == n && (j, k) in PartnerCells(cmp, src, tgt, ignore, a[n], b, |b|)
    ensures TableCells(cmp, src, tgt, ignore, a, b, n + 1) == TableCells(cmp, src, tgt, ignore, a, b, n) + last
    ensures TableCells(cmp, src, tgt, ignore, a, b, n) !! last
  {
    var before, after := TableCells(cmp, src, tgt, ignore, a, b, n), TableCells(cmp, src, tgt, ignore, a, b, n + 1);
    forall i: nat, j: nat, k: nat
      ensures (i, j, k) in after <==> (i, j, k) in before + last
      ensures !((i, j, k) in before && (i, j, k) in last)
    {
    }
    forall c: (nat, nat, nat)
      ensures c in after <==> c in before + last
      ensures !(c in before && c in last)
    {
      assert c == (c.0, c.1, c.2);
    }
  }

  lemma TableStep(cmp: Order, src: seq<string>, tgt: seq<string>, ignore: set<string>, a: seq<Rec>, b: seq<Rec>, n: nat)
    requires n < |a|
    ensures |TableCells(cmp, src, tgt, ignore, a, b, n + 1)|
         == |TableCells(cmp, src, tgt, ignore, a, b, n)| + |PartnerCells(cmp, src, tgt, ignore, a[n], b, |b|)|
  {
    var cells := PartnerCells(cmp, src, tgt, ignore, a[n], b, |b|);
    var last := set c | c in cells :: (n, c.0, c.1);
    forall i: nat, j: nat, k: nat
      ensures (i, j, k) in last <==> i == n && (j, k) in cells
    {
      assert (j, k) in cells ==> (n, (j, k).0, (j, k).1) in last;
    }
    ImageCount(cells, (c: (nat, nat)) => (n, c.0, c.1), last);
    TableLast(cmp, src, tgt, ignore, a, b, n, last);
    DisjointCount(TableCells(cmp, src, tgt, ignore, a, b, n), last, TableCells(cmp, src, tgt, ignore, a, b, n + 1));
  }

  lemma TableNext(cmp: Order, diff: (Row, Row) -> nat, src: seq<string>, tgt: seq<string>, ignore: set<string>,
                  a: seq<Rec>, b: seq<Rec>, n: nat)
    requires Counts(diff, src, tgt, ignore) && n < |a|
    ensures CommonDiffs(cmp, diff, a[..n + 1], b)
         == CommonDiffs(cmp, diff, a[..n], b) + |PartnerCells(cmp, src, tgt, ignore, a[n], b, |b|)|
  {
    PartnerCount(cmp, diff, src, tgt, ignore, a[n], b, |b|);
    assert b[..|b|] == b && a[..n + 1] == a[..n] + [a[n]];
    CommonDiffsSnoc(cmp, diff, a[..n], a[n], b);
  }

  lemma {:induction false} TableCount(cmp: Order, diff: (Row, Row) -> nat, src: seq<string>, tgt: seq<string>,
                                      ignore: set<string>, a: seq<Rec>, b: seq<Rec>, n: nat)
    requires Counts(diff, src, tgt, ignore) && n <= |a|
    ensures |TableCells(cmp, src, tgt, ignore, a, b, n)| == CommonDiffs(cmp, diff, a[..n], b)
  {
    if n == 0 {
      assert TableCells(cmp, src, tgt, ignore, a, b, 0) == {};
    } else {
      TableCount(cmp, diff, src, tgt, ignore, a, b, n - 1);
      TableStep(cmp, src, tgt, ignore, a, b, n - 1);
      TableNext(cmp, diff, src, tgt, ignore, a, b, n - 1);
    }
  }

  /** The difference is the number of rows without a partner, on both sides, and of cells in which partners differ. */
  lemma DifferenceCounts(cmp: Order, diff: (Row, Row) -> nat, src: seq<string>, tgt: seq<string>, ignore: set<string>,
                         a: seq<Rec>, b: seq<Rec>)
    requires Counts(diff, src, tgt, ignore)
    ensures Difference(cmp, diff, a, b)
         == |Lonely(cmp, a, b, |a|)| + |Lonely(cmp, b, a, |b|)| + |TableCells(cmp, src, tgt, ignore, a, b, |a|)|
  {
    LonelyCount(cmp, a, b, |a|);
    LonelyCount(cmp, b, a, |b|);
    TableCount(cmp, diff, src, tgt, ignore, a, b, |a|);
    assert a[..|a|] == a && b[..|b|] == b;
  }

  /** Each compared column is compared as often as the source lists it. */
  lemma {:induction false} CompareColsOften(src: seq<string>, tgt: seq<string>, ignore: set<string>, c: string)
    ensures multiset(CompareCols(src, tgt, ignore))[c] == if c in tgt && c !in ignore then multiset(src)[c] else 0
  {
    if src != [] {
      CompareColsOften(src[1..], tgt, ignore, c);
      assert src == [src[0]] + src[1..];
    }
  }
}
