/**
 The quote-aware batch scanner and the per-row statement expander of
 pkg/db/batch.go.
 */
module Batch {
  import opened Strings

  type Range = (nat, nat)

  /** `isGroupDelim` */
  predicate IsGroupDelim(c: char) {
    c in {',', ':', '(', ')', '[', ']', '{', '}', ' ', '\t', '\n', '\r'}
  }

  // ------------------------------------------------------------ quote modes

  /** Which quotation the scanner is inside of. */
  datatype Mode = Plain | Single | Double

  function NextMode(m: Mode, c: char): Mode {
    if c == '\'' && m != Double then (if m == Single then Plain else Single)
    else if c == '"' && m != Single then (if m == Double then Plain else Double)
    else m
  }

  /** The mode after reading `s` from mode `m`. */
  function Run(m: Mode, s: string): Mode
    decreases |s|
  {
    if s == "" then m else Run(NextMode(m, s[0]), s[1..])
  }

  lemma {:induction false} RunConcat(m: Mode, a: string, b: string)
    ensures Run(m, a + b) == Run(Run(m, a), b)
    decreases |a|
  {
    if a == "" {
      assert a + b == b;
    } else {
      assert (a + b)[1..] == a[1..] + b;
      RunConcat(NextMode(m, a[0]), a[1..], b);
    }
  }

  /** The mode just before position `i` of a whole query. */
  function ModeAt(s: string, i: nat): Mode
    requires i <= |s|
  {
    Run(Plain, s[..i])
  }

  lemma ModeAtStep(s: string, i: nat)
    requires i < |s|
    ensures ModeAt(s, i + 1) == NextMode(ModeAt(s, i), s[i])
  {
    assert s[..i + 1] == s[..i] + [s[i]];
    RunConcat(Plain, s[..i], [s[i]]);
  }

  // ------------------------------------------- what a batch group is, outright

  predicate DelimAt(s: string, i: nat)
    requires i < |s|
  {
    ModeAt(s, i) == Plain && IsGroupDelim(s[i])
  }

  predicate SepAt(s: string, i: nat)
    requires i < |s|
  {
    ModeAt(s, i) == Plain && s[i] == SEP
  }

  predicate DelimFree(s: string, a: nat, b: nat)
    requires a <= b <= |s|
  {
    forall i | a <= i < b :: !DelimAt(s, i)
  }

  predicate HasSep(s: string, a: nat, b: nat)
    requires a <= b <= |s|
  {
    exists i | a <= i < b :: SepAt(s, i)
  }

  /**
   `[a, b)` is a batch group: a maximal stretch without unquoted delimiters
   that holds at least one unquoted separator.
   */
  predicate IsGroup(s: string, a: nat, b: nat) {
    && a <= b <= |s|
    && (a == 0 || DelimAt(s, a - 1))
    && (b == |s| || DelimAt(s, b))
    && DelimFree(s, a, b)
    && HasSep(s, a, b)
  }

  /** Non-empty ranges inside `[lo, hi]`, each ending before the next one starts. */
  predicate Ordered(groups: seq<Range>, lo: nat, hi: nat) {
    && (forall i | 0 <= i < |groups| :: lo <= groups[i].0 < groups[i].1 <= hi)
    && (forall i, j | 0 <= i < j < |groups| :: groups[i].1 <= groups[j].0)
  }

  /** `groups` holds exactly the groups of `s` that end at `from` or later. */
  ghost predicate Lists(groups: seq<Range>, s: string, from: nat) {
    forall a: nat, b: nat :: (a, b) in groups <==> (from <= b && IsGroup(s, a, b))
  }

  // --------------------------------------------------- the scan as a function

  /**
   The groups closed while reading `s`, whose first character stands at `off`,
   in mode `mode`, when the current stretch began at `start`.
   */
  function Scan(s: string, off: nat, mode: Mode, start: nat, hasSep: bool): seq<Range>
    decreases |s|
  {
    if s == "" then
      if hasSep then [(start, off)] else []
    else if mode == Plain && IsGroupDelim(s[0]) then
      (if hasSep then [(start, off)] else []) + Scan(s[1..], off + 1, Plain, off + 1, false)
    else
      Scan(s[1..], off + 1, NextMode(mode, s[0]), start, hasSep || (mode == Plain && s[0] == SEP))
  }

  function Groups(s: string): seq<Range> {
    Scan(s, 0, Plain, 0, false)
  }

  /** The stretch being read at position `i` began at `start`. */
  ghost predicate InStretch(s: string, start: nat, i: nat) {
    && start <= i <= |s|
    && (start == 0 || DelimAt(s, start - 1))
    && DelimFree(s, start, i)
  }

  /** At a delimiter or the end of the text the stretch that is read is a group just if it has a separator. */
  lemma GroupEnds(s: string, start: nat, i: nat)
    requires InStretch(s, start, i) && (i == |s| || DelimAt(s, i))
    ensures forall a: nat | IsGroup(s, a, i) :: a == start
    ensures HasSep(s, start, i) <==> IsGroup(s, start, i)
    ensures HasSep(s, start, i) ==> start < i
  {
    StretchUnique(s, start, i);
  }

  /** Nothing ends inside a stretch. */
  lemma ListsInside(groups: seq<Range>, s: string, i: nat)
    requires i < |s| && !DelimAt(s, i) && Lists(groups, s, i + 1)
    ensures Lists(groups, s, i)
  {
    assert forall a: nat :: !IsGroup(s, a, i);
  }

  lemma ListsAfter(groups: seq<Range>, s: string, i: nat, start: nat)
    requires InStretch(s, start, i) && i < |s| && DelimAt(s, i)
    requires Lists(groups, s, i + 1)
    ensures Lists((if HasSep(s, start, i) then [(start, i)] else []) + groups, s, i)
  {
    GroupEnds(s, start, i);
    var all := (if HasSep(s, start, i) then [(start, i)] else []) + groups;
    forall a: nat, b: nat
      ensures (a, b) in all <==> (i <= b && IsGroup(s, a, b))
    {
      assert (a, b) in all <==> (a, b) in groups || (HasSep(s, start, i) && (a, b) == (start, i));
      assert b == i ==> !((a, b) in groups);
    }
  }

  lemma ListsLast(s: string, start: nat)
    requires InStretch(s, start, |s|)
    ensures Lists(if HasSep(s, start, |s|) then [(start, |s|)] else [], s, |s|)
  {
    GroupEnds(s, start, |s|);
  }

  lemma OrderedAfter(groups: seq<Range>, start: nat, i: nat, hi: nat)
    requires Ordered(groups, i + 1, hi) && start <= i < hi
    ensures Ordered(groups, start, hi)
    ensures start < i ==> Ordered([(start, i)] + groups, start, hi)
  {
  }

  /** What `Scan` finds from position `i` on: exactly the groups that end there or later. */
  lemma {:induction false} ScanExact(s: string, i: nat, start: nat, hasSep: bool)
    requires InStretch(s, start, i)
    requires hasSep <==> HasSep(s, start, i)
    ensures Ordered(Scan(s[i..], i, ModeAt(s, i), start, hasSep), start, |s|)
    ensures Lists(Scan(s[i..], i, ModeAt(s, i), start, hasSep), s, i)
    decreases |s| - i
  {
    if i == |s| {
      GroupEnds(s, start, i);
      ListsLast(s, start);
    } else {
      ModeAtStep(s, i);
      assert s[i..][0] == s[i] && s[i..][1..] == s[i + 1..];
      if DelimAt(s, i) {
        var rest := Scan(s[i + 1..], i + 1, Plain, i + 1, false);
        ScanExact(s, i + 1, i + 1, false);
        GroupEnds(s, start, i);
        OrderedAfter(rest, start, i, |s|);
        ListsAfter(rest, s, i, start);
      } else {
        var hasSep' := hasSep || SepAt(s, i);
        ScanExact(s, i + 1, start, hasSep');
        ListsInside(Scan(s[i + 1..], i + 1, ModeAt(s, i + 1), start, hasSep'), s, i);
      }
    }
  }

  /** Only one stretch is being read at a position. */
  lemma StretchUnique(s: string, start: nat, i: nat)
    requires InStretch(s, start, i)
    ensures forall a: nat | InStretch(s, a, i) :: a == start
    ensures forall a: nat | IsGroup(s, a, i) :: a == start
  {
    forall a: nat | InStretch(s, a, i)
      ensures a == start
    {
      var j := if a < start then start else a;
      assert j > 0 ==> DelimAt(s, j - 1);
    }
    assert forall a: nat | IsGroup(s, a, i) :: InStretch(s, a, i);
  }

  // ----------------------------------------------------------- the two methods

  /** `findBatchGroups` */
  method FindBatchGroups(query: string) returns (groups: seq<Range>)
    ensures groups == Groups(query)
    ensures Ordered(groups, 0, |query|)
    ensures Lists(groups, query, 0)
  {
    groups := [];
    var n := |query|;
    var inSingle, inDouble := false, false;
    var tokenStart, groupStart := -1, -1;
    var hasSep := false;
    ghost var mode, start := Plain, 0;

    assert query[0..] == query;
    for i := 0 to n + 1
      invariant inSingle <==> mode == Single
      invariant inDouble <==> mode == Double
      invariant start <= i && (mode != Plain ==> start < i)
      invariant hasSep ==> groupStart == start
      invariant i <= n && !hasSep ==> groupStart == -1 && tokenStart == (if start == i then -1 else start)
      invariant i <= n ==> groups + Scan(query[i..], i, mode, start, hasSep) == Groups(query)
      invariant i > n ==> groups == Groups(query)
    {
      if i < n {
        var b := query[i];
        assert query[i..][1..] == query[i + 1..];
        mode := NextMode(mode, b);

        if b == '\'' && !inDouble {
          inSingle := !inSingle;
          if tokenStart < 0 {
            tokenStart := i;
          }
          continue;
        }
        if b == '"' && !inSingle {
          inDouble := !inDouble;
          if tokenStart < 0 {
            tokenStart := i;
          }
          continue;
        }

        if inSingle || inDouble {
          continue;
        }

        if b == SEP {
          if tokenStart < 0 {
            tokenStart := i;
          }
          if groupStart < 0 {
            groupStart := tokenStart;
          }
          hasSep := true;
          tokenStart := -1;
          continue;
        }

        if IsGroupDelim(b) {
          if hasSep {
            groups := groups + [(groupStart, i)];
          }
          tokenStart := -1;
          groupStart := -1;
          hasSep := false;
          start := i + 1;
          continue;
        }

        if tokenStart < 0 {
          tokenStart := i;
        }
        continue;
      }

      if hasSep {
        groups := groups + [(groupStart, n)];
      }
    }
    GroupsExact(query);
  }

  function Parts(q: string, g: Range): (parts: seq<string>)
    requires g.0 <= g.1 <= |q|
    ensures |parts| >= 1
  {
    Split(q[g.0..g.1], SEP)
  }

  /** `q` from position `from` on, with every group from index `i` on replaced by its text. */
  function Splice(q: string, groups: seq<Range>, texts: seq<string>, i: nat, from: nat): string
    requires Ordered(groups, 0, |q|) && |texts| == |groups|
    requires i <= |groups| && from <= (if i < |groups| then groups[i].0 else |q|)
    decreases |groups| - i
  {
    if i == |groups| then q[from..]
    else q[from..groups[i].0] + texts[i] + Splice(q, groups, texts, i + 1, groups[i].1)
  }

  lemma GroupsExact(q: string)
    ensures Ordered(Groups(q), 0, |q|)
    ensures Lists(Groups(q), q, 0)
  {
    assert q[0..] == q;
    ScanExact(q, 0, 0, false);
  }

  /** The parts of every group, in order. */
  function GroupParts(q: string): (parts: seq<seq<string>>)
    ensures |parts| == |Groups(q)|
    ensures forall i | 0 <= i < |parts| :: |parts[i]| >= 1
  {
    GroupsExact(q);
    var gs := Groups(q);
    seq(|gs|, i requires 0 <= i < |gs| => Parts(q, gs[i]))
  }

  /**
   Every group has a part for each row of the first group. The source indexes
   each group by those rows and panics when one is too short.
   */
  predicate NoPanic(q: string) {
    var parts := GroupParts(q);
    forall i | 0 <= i < |parts| :: |parts[0]| <= |parts[i]|
  }

  /** Row `row` of every group. */
  function RowTexts(parts: seq<seq<string>>, row: nat): (texts: seq<string>)
    requires forall i | 0 <= i < |parts| :: row < |parts[i]|
    ensures |texts| == |parts|
  {
    seq(|parts|, i requires 0 <= i < |parts| => parts[i][row])
  }

  /** The statement of one row. */
  function RowQuery(q: string, row: nat): string
    requires NoPanic(q) && GroupParts(q) != [] && row < |GroupParts(q)[0]|
  {
    GroupsExact(q);
    Splice(q, Groups(q), RowTexts(GroupParts(q), row), 0, 0)
  }

  /** One statement per row of the first group; the query itself when there is no group. */
  function Expanded(q: string): seq<string>
    requires NoPanic(q)
  {
    var parts := GroupParts(q);
    if parts == [] then [q]
    else seq(|parts[0]|, row requires 0 <= row < |parts[0]| => RowQuery(q, row))
  }

  lemma GroupHasSep(q: string, a: nat, b: nat)
    requires IsGroup(q, a, b)
    ensures SEP in q
  {
    var i :| a <= i < b && SepAt(q, i);
    assert q[i] == SEP;
  }

  lemma NoSepNoGroup(q: string)
    ensures Groups(q) != [] ==> SEP in q
  {
    GroupsExact(q);
    if Groups(q) != [] {
      var g := Groups(q)[0];
      assert (g.0, g.1) in Groups(q);
      GroupHasSep(q, g.0, g.1);
    }
  }

  /** The inner loop of `ExpandBatchQuery`: splice one row in, from right to left. */
  method SpliceRow(query: string, matches: seq<Range>, groups: seq<seq<string>>, row: nat) returns (q: string)
    requires Ordered(matches, 0, |query|) && |groups| == |matches|
    requires forall i | 0 <= i < |groups| :: row < |groups[i]|
    ensures q == Splice(query, matches, RowTexts(groups, row), 0, 0)
  {
    q := query;
    ghost var texts := RowTexts(groups, row);
    for i := |matches| downto 0
      invariant i == |matches| ==> q == query
      invariant i < |matches| ==>
        q == query[..matches[i].0] + Splice(query, matches, texts, i, matches[i].0)
    {
      SpliceTail(query, matches, texts, i, q);
      q := q[..matches[i].0] + groups[i][row] + q[matches[i].1..];
      assert query[matches[i].0..matches[i].0] == "";
    }
    if matches != [] {
      assert query[0..matches[0].0] == query[..matches[0].0];
      assert query[matches[0].0..matches[0].0] == "";
    }
  }

  /** `ExpandBatchQuery` */
  method ExpandBatchQuery(query: string) returns (queries: seq<string>)
    requires NoPanic(query)
    ensures queries == Expanded(query)
  {
    NoSepNoGroup(query);
    if SEP !in query {
      return [query];
    }

    var matches := FindBatchGroups(query);
    if |matches| == 0 {
      return [query];
    }

    var groups: seq<seq<string>> := [];
    var rowCount := 0;
    for i := 0 to |matches|
      invariant groups == GroupParts(query)[..i]
      invariant i > 0 ==> rowCount == |groups[0]|
    {
      var raw := query[matches[i].0..matches[i].1];
      var parts := Split(raw, SEP);
      groups := groups + [parts];
      if i == 0 {
        rowCount := |groups[i]|;
      }
    }

    assert groups == GroupParts(query);

    queries := [];
    for row := 0 to rowCount
      invariant |queries| == row
      invariant forall r | 0 <= r < row :: queries[r] == RowQuery(query, r)
    {
      var q := SpliceRow(query, matches, groups, row);
      queries := queries + [q];
    }
  }

  /** When the groups after `i` are done, the text from the end of group `i` on is final. */
  lemma SpliceTail(query: string, gs: seq<Range>, texts: seq<string>, i: nat, q: string)
    requires Ordered(gs, 0, |query|) && |texts| == |gs| && i < |gs|
    requires i + 1 == |gs| ==> q == query
    requires i + 1 < |gs| ==>
      q == query[..gs[i + 1].0] + Splice(query, gs, texts, i + 1, gs[i + 1].0)
    ensures gs[i].1 <= |q| && q[..gs[i].0] == query[..gs[i].0]
    ensures q[gs[i].1..] == Splice(query, gs, texts, i + 1, gs[i].1)
  {
    if i + 1 < |gs| {
      var next := gs[i + 1].0;
      assert query[..next][gs[i].1..] == query[gs[i].1..next];
      assert query[next..next] == "";
    }
  }
}
