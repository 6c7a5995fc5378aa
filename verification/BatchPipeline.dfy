/**
 The whole path of an exec_batch query: format each value, join the rows of
 each column, inline the columns, scan the text again and expand it into one
 statement per row.
 */
module BatchPipeline {
  import opened Strings
  import opened Convert
  import opened Batch
  import opened Inline
  import opened ValuesToken
  import Literals

  // -------------------------------------------- values the scanner reads over

  /** Read from mode `m`, the text shows no delimiter and no separator outside quotes. */
  predicate Quiet(m: Mode, s: string)
    decreases |s|
  {
    s != "" ==>
      && !(m == Plain && (IsGroupDelim(s[0]) || s[0] == SEP))
      && Quiet(NextMode(m, s[0]), s[1..])
  }

  /** A value the scanner reads as one token of a group. */
  predicate Atomic(v: string) {
    Lacks(v, SEP) && Quiet(Plain, v) && Run(Plain, v) == Plain
  }

  lemma {:induction false} QuietConcat(m: Mode, a: string, b: string)
    requires Quiet(m, a) && Quiet(Run(m, a), b)
    ensures Quiet(m, a + b) && Run(m, a + b) == Run(Run(m, a), b)
    decreases |a|
  {
    if a == "" {
      assert a + b == b;
    } else {
      assert (a + b)[1..] == a[1..] + b;
      QuietConcat(NextMode(m, a[0]), a[1..], b);
    }
  }

  /** Text without quotes, delimiters and separators is atomic. */
  predicate Bare(s: string) {
    forall i | 0 <= i < |s| :: !IsQuote(s[i]) && !IsGroupDelim(s[i]) && s[i] != SEP
  }

  lemma {:induction false} BareQuiet(s: string)
    requires Bare(s)
    ensures Atomic(s)
    decreases |s|
  {
    if s != "" {
      BareQuiet(s[1..]);
    }
  }

  lemma OneQuiet(c: char)
    requires c != SEP
    ensures var head := if c == '\'' then "''" else [c];
      Quiet(Single, head) && Run(Single, head) == Single
  {
    if c == '\'' {
      QuietConcat(Single, "'", "'");
      assert "'" + "'" == "''" && "'"[1..] == "";
    } else {
      assert [c][1..] == "";
    }
  }

  /** Inside single quotes everything but a single quote is read over. */
  lemma {:induction false} DoubledQuiet(s: string)
    requires Lacks(s, SEP)
    ensures Quiet(Single, DoubleQuotes(s)) && Run(Single, DoubleQuotes(s)) == Single
    ensures Lacks(DoubleQuotes(s), SEP)
    decreases |s|
  {
    if s != "" {
      DoubledQuiet(s[1..]);
      DoubleQuotesStep(s);
      var head := if s[0] == '\'' then "''" else [s[0]];
      OneQuiet(s[0]);
      QuietConcat(Single, head, DoubleQuotes(s[1..]));
    }
  }

  lemma QuotedAtomic(body: string)
    requires Lacks(body, SEP) && Quiet(Single, body) && Run(Single, body) == Single
    ensures Atomic("'" + body + "'")
  {
    assert Quiet(Plain, "'") && Run(Plain, "'") == Single by {
      assert "'"[1..] == "";
    }
    assert Quiet(Single, "'") && Run(Single, "'") == Plain by {
      assert "'"[1..] == "";
    }
    QuietConcat(Plain, "'", body);
    QuietConcat(Plain, "'" + body, "'");
  }

  lemma {:induction false} PlainSingle(s: string)
    requires forall i | 0 <= i < |s| :: IsHexDigit(s[i])
    ensures Quiet(Single, s) && Run(Single, s) == Single
    decreases |s|
  {
    if s != "" {
      PlainSingle(s[1..]);
    }
  }

  /** A generated value: not yet SQL text, and free of the separator. */
  predicate Generated(v: Value) {
    !v.Raw? && (v.Str? ==> Lacks(v.s, SEP))
  }

  lemma HexAtomic(hex: string)
    requires forall i | 0 <= i < |hex| :: IsHexDigit(hex[i])
    ensures Atomic("0x" + hex) && Atomic("'" + hex + "'") && Atomic("X'" + hex + "'")
  {
    BareQuiet("0x" + hex);
    PlainSingle(hex);
    QuotedAtomic(hex);
    BareQuiet("X");
    QuietConcat(Plain, "X", "'" + hex + "'");
    assert "X" + ("'" + hex + "'") == "X'" + hex + "'";
  }

  lemma NumberAtomic(n: int, negative: bool, decimals: string)
    requires forall i | 0 <= i < |decimals| :: IsDigit(decimals[i])
    ensures Atomic(IntText(n))
    ensures n >= 0 ==> Atomic((if negative then "-" else "") + Itoa(n) + "." + decimals)
  {
    BareQuiet(IntText(n));
    if n >= 0 {
      BareQuiet((if negative then "-" else "") + Itoa(n) + "." + decimals);
    }
  }

  /** Whatever delimiters and quotes a value contains, the scanner sees one balanced token. */
  lemma FormattedAtomic(v: Value, driver: Driver)
    requires driver != MongoDB && Generated(v)
    ensures Atomic(SQLFormatValue(v, driver))
  {
    match v
    case Null => BareQuiet("NULL");
    case ObjectID(id) => HexAtomic(Hex(id));
    case Int(n) => NumberAtomic(n, false, "");
    case Whole(n) => NumberAtomic(n, false, "");
    case Fraction(negative, whole, decimals) => NumberAtomic(whole, negative, decimals);
    case Bytes(bytes) => HexAtomic(Hex(bytes));
    case Str(s) =>
      if driver == Cassandra && IsUuid(s) {
        BareQuiet(s);
      } else {
        DoubledQuiet(s);
        QuotedAtomic(DoubleQuotes(s));
      }
  }

  // ------------------------------------------------- templates with slots

  /**
   The template, read from mode `m`, has no separator of its own outside
   quotes, and each of its holes stands alone between unquoted delimiters (or
   an end of the query). `begins` says that a stretch begins here.
   */
  predicate Slotted(toks: seq<Token>, m: Mode, begins: bool) {
    toks != [] ==>
      match toks[0]
      case Ch(c) =>
        && !(m == Plain && c == SEP)
        && Slotted(toks[1..], NextMode(m, c), m == Plain && IsGroupDelim(c))
      case Hole(_, _) =>
        && m == Plain && begins
        && (|toks| > 1 ==> toks[1].Ch? && IsGroupDelim(toks[1].c))
        && Slotted(toks[1..], Plain, false)
  }

  /** Where the holes end up in the filled template, whose first character stands at `off`. */
  function Slots(toks: seq<Token>, vals: seq<string>, off: nat): seq<Range> {
    if toks == [] then []
    else
      match toks[0]
      case Ch(_) => Slots(toks[1..], vals, off + 1)
      case Hole(k, _) =>
        var end := off + |Arg(vals, k)|;
        [(off, end)] + Slots(toks[1..], vals, end)
  }

  lemma {:induction false} ScanQuiet(m: Mode, v: string, rest: string, off: nat, start: nat, hasSep: bool)
    requires Quiet(m, v)
    ensures Scan(v + rest, off, m, start, hasSep) == Scan(rest, off + |v|, Run(m, v), start, hasSep)
    decreases |v|
  {
    if v == "" {
      assert v + rest == rest;
    } else {
      assert (v + rest)[1..] == v[1..] + rest;
      ScanQuiet(NextMode(m, v[0]), v[1..], rest, off + 1, start, hasSep);
    }
  }

  /** Reading the joined rows of one column: one stretch, with a separator iff there are two rows. */
  lemma {:induction false} ScanJoined(rows: seq<string>, rest: string, off: nat, start: nat, hasSep: bool)
    requires rows != [] && forall v | v in rows :: Atomic(v)
    ensures Scan(Join(rows, SEP) + rest, off, Plain, start, hasSep)
         == Scan(rest, off + |Join(rows, SEP)|, Plain, start, hasSep || |rows| > 1)
    decreases |rows|
  {
    assert rows[0] in rows;
    if |rows| == 1 {
      ScanQuiet(Plain, rows[0], rest, off, start, hasSep);
    } else {
      var tail := Join(rows[1..], SEP) + rest;
      assert Join(rows, SEP) + rest == rows[0] + ([SEP] + tail);
      ScanQuiet(Plain, rows[0], [SEP] + tail, off, start, hasSep);
      assert ([SEP] + tail)[1..] == tail;
      ScanJoined(rows[1..], rest, off + |rows[0]| + 1, start, true);
    }
  }

  /** The columns of a batch: `n` rows of atomic text each, and an argument for every hole. */
  predicate Columns(toks: seq<Token>, cols: seq<seq<string>>, n: nat) {
    && n > 0
    && (forall k | 0 <= k < |cols| :: |cols[k]| == n)
    && (forall k, r | 0 <= k < |cols| && 0 <= r < n :: Atomic(cols[k][r]))
    && (forall i | 0 <= i < |toks| && toks[i].Hole? :: 1 <= toks[i].arg <= |cols|)
  }

  /** The texts inlined for the columns: the rows of each one, joined. */
  function Joined(cols: seq<seq<string>>): (vals: seq<string>)
    ensures |vals| == |cols|
    ensures forall k | 0 <= k < |cols| :: vals[k] == Join(cols[k], SEP)
  {
    seq(|cols|, k requires 0 <= k < |cols| => Join(cols[k], SEP))
  }

  /** Row `r` of every column. */
  function Row(cols: seq<seq<string>>, r: nat): (vals: seq<string>)
    requires forall k | 0 <= k < |cols| :: r < |cols[k]|
    ensures |vals| == |cols|
    ensures forall k | 0 <= k < |cols| :: vals[k] == cols[k][r]
  {
    seq(|cols|, k requires 0 <= k < |cols| => cols[k][r])
  }

  lemma ColumnsTail(toks: seq<Token>, cols: seq<seq<string>>, n: nat)
    requires toks != [] && Columns(toks, cols, n)
    ensures Columns(toks[1..], cols, n)
  {
  }

  /** Reading the text of a hole. */
  lemma ScanHole(toks: seq<Token>, cols: seq<seq<string>>, n: nat, rest: string, off: nat)
    requires toks != [] && toks[0].Hole? && Columns(toks, cols, n)
    ensures var v := Arg(Joined(cols), toks[0].arg);
      Scan(v + rest, off, Plain, off, false) == Scan(rest, off + |v|, Plain, off, n > 1)
  {
    ScanJoined(cols[toks[0].arg - 1], rest, off, off, false);
  }

  /** The delimiter, or the end of the query, behind it. */
  lemma ScanBehind(c: char, rest: string, off: nat, start: nat, hasSep: bool)
    requires IsGroupDelim(c)
    ensures Scan([c] + rest, off, Plain, start, hasSep)
         == (if hasSep then [(start, off)] else []) + Scan(rest, off + 1, Plain, off + 1, false)
    ensures Scan("", off, Plain, start, hasSep) == if hasSep then [(start, off)] else []
  {
    assert ([c] + rest)[1..] == rest;
  }

  lemma ScanChar(c: char, rest: string, off: nat, m: Mode, start: nat)
    requires !(m == Plain && c == SEP)
    ensures var delim := m == Plain && IsGroupDelim(c);
      Scan([c] + rest, off, m, start, false)
      == Scan(rest, off + 1, NextMode(m, c), if delim then off + 1 else start, false)
  {
    assert ([c] + rest)[1..] == rest;
  }

  lemma FillCons(t: Token, toks: seq<Token>, vals: seq<string>)
    ensures Fill([t] + toks, vals) == (if t.Ch? then [t.c] else Arg(vals, t.arg)) + Fill(toks, vals)
  {
    assert ([t] + toks)[1..] == toks;
  }

  /** Scanning the filled template finds its slots (for one row there is nothing to find). */
  predicate Finds(toks: seq<Token>, cols: seq<seq<string>>, n: nat, m: Mode, off: nat, start: nat) {
    Scan(Fill(toks, Joined(cols)), off, m, start, false) == if n > 1 then Slots(toks, Joined(cols), off) else []
  }

  lemma FindsChar(toks: seq<Token>, cols: seq<seq<string>>, n: nat, m: Mode, begins: bool, off: nat, start: nat)
    requires toks != [] && toks[0].Ch? && Slotted(toks, m, begins)
    requires var delim := m == Plain && IsGroupDelim(toks[0].c);
      Finds(toks[1..], cols, n, NextMode(m, toks[0].c), off + 1, if delim then off + 1 else start)
    ensures Finds(toks, cols, n, m, off, start)
  {
    ScanChar(toks[0].c, Fill(toks[1..], Joined(cols)), off, m, start);
  }

  /** What a template with a hole in front has behind it. */
  lemma BehindHole(toks: seq<Token>, vals: seq<string>, end: nat)
    requires |toks| > 1 && toks[0].Hole? && Slotted(toks, Plain, true)
    ensures toks[1].Ch? && IsGroupDelim(toks[1].c) && toks[1..][1..] == toks[2..]
    ensures Fill(toks[1..], vals) == [toks[1].c] + Fill(toks[2..], vals)
    ensures Slots(toks[1..], vals, end) == Slots(toks[2..], vals, end + 1)
    ensures Slotted(toks[2..], Plain, true)
  {
    assert toks[1..] == [toks[1]] + toks[2..];
    FillCons(toks[1], toks[2..], vals);
  }

  lemma FindsHole(toks: seq<Token>, cols: seq<seq<string>>, n: nat, off: nat)
    requires toks != [] && toks[0].Hole? && Slotted(toks, Plain, true) && Columns(toks, cols, n)
    requires var end := off + |Arg(Joined(cols), toks[0].arg)|;
      |toks| > 1 ==> Finds(toks[2..], cols, n, Plain, end + 1, end + 1)
    ensures Finds(toks, cols, n, Plain, off, off)
  {
    var vals := Joined(cols);
    var end := off + |Arg(vals, toks[0].arg)|;
    ScanHole(toks, cols, n, Fill(toks[1..], vals), off);
    if |toks| == 1 {
      ScanBehind('(', "", end, off, n > 1);
    } else {
      BehindHole(toks, vals, end);
      ScanBehind(toks[1].c, Fill(toks[2..], vals), end, off, n > 1);
    }
  }

  lemma CharTail(toks: seq<Token>, cols: seq<seq<string>>, n: nat, m: Mode, begins: bool)
    requires toks != [] && toks[0].Ch? && Slotted(toks, m, begins) && Columns(toks, cols, n)
    ensures Slotted(toks[1..], NextMode(m, toks[0].c), m == Plain && IsGroupDelim(toks[0].c))
    ensures Columns(toks[1..], cols, n)
  {
    ColumnsTail(toks, cols, n);
  }

  lemma HoleTail(toks: seq<Token>, cols: seq<seq<string>>, n: nat)
    requires |toks| > 1 && toks[0].Hole? && Slotted(toks, Plain, true) && Columns(toks, cols, n)
    ensures Slotted(toks[2..], Plain, true) && Columns(toks[2..], cols, n)
  {
    BehindHole(toks, Joined(cols), 0);
    ColumnsTail(toks, cols, n);
    ColumnsTail(toks[1..], cols, n);
  }

  lemma {:induction false} ScanFill(toks: seq<Token>, cols: seq<seq<string>>, n: nat,
                                    m: Mode, begins: bool, off: nat, start: nat)
    requires Slotted(toks, m, begins) && Columns(toks, cols, n)
    requires begins ==> start == off
    ensures Finds(toks, cols, n, m, off, start)
    decreases |toks|
  {
    if toks == [] {
    } else if toks[0].Ch? {
      var delim := m == Plain && IsGroupDelim(toks[0].c);
      CharTail(toks, cols, n, m, begins);
      ScanFill(toks[1..], cols, n, NextMode(m, toks[0].c), delim, off + 1, if delim then off + 1 else start);
      FindsChar(toks, cols, n, m, begins, off, start);
    } else {
      if |toks| > 1 {
        var end := off + |Arg(Joined(cols), toks[0].arg)|;
        HoleTail(toks, cols, n);
        ScanFill(toks[2..], cols, n, Plain, true, end + 1, end + 1);
      }
      FindsHole(toks, cols, n, off);
    }
  }

  // ------------------------------------------------------ the expanded rows

  /** The texts of the holes, in textual order. */
  function HoleTexts(toks: seq<Token>, vals: seq<string>): seq<string> {
    if toks == [] then []
    else (match toks[0] case Ch(_) => [] case Hole(k, _) => [Arg(vals, k)]) + HoleTexts(toks[1..], vals)
  }

  lemma HolesCons(toks: seq<Token>, vals: seq<string>)
    requires toks != []
    ensures toks[0].Ch? ==> Holes(toks) == Holes(toks[1..]) && HoleTexts(toks, vals) == HoleTexts(toks[1..], vals)
    ensures toks[0].Hole? ==> Holes(toks) == [toks[0].arg] + Holes(toks[1..])
    ensures toks[0].Hole? ==> HoleTexts(toks, vals) == [Arg(vals, toks[0].arg)] + HoleTexts(toks[1..], vals)
  {
    assert [] + Holes(toks[1..]) == Holes(toks[1..]) && [] + HoleTexts(toks[1..], vals) == HoleTexts(toks[1..], vals);
  }

  /** Text i is that of hole i. */
  predicate TextsOf(texts: seq<string>, holes: seq<nat>, vals: seq<string>) {
    |texts| == |holes| && forall i | 0 <= i < |holes| :: texts[i] == Arg(vals, holes[i])
  }

  lemma TextsCons(texts: seq<string>, holes: seq<nat>, vals: seq<string>, k: nat)
    requires TextsOf(texts, holes, vals)
    ensures TextsOf([Arg(vals, k)] + texts, [k] + holes, vals)
  {
  }

  lemma {:induction false} HoleTextsAt(toks: seq<Token>, vals: seq<string>)
    ensures TextsOf(HoleTexts(toks, vals), Holes(toks), vals)
  {
    if toks != [] {
      HoleTextsAt(toks[1..], vals);
      HolesCons(toks, vals);
      if toks[0].Hole? {
        TextsCons(HoleTexts(toks[1..], vals), Holes(toks[1..]), vals, toks[0].arg);
      }
    }
  }

  /** Slot i of `q` holds text i. */
  predicate Delimit(q: string, slots: seq<Range>, texts: seq<string>) {
    && |slots| == |texts|
    && forall i | 0 <= i < |slots| :: slots[i].0 <= slots[i].1 <= |q| && q[slots[i].0..slots[i].1] == texts[i]
  }

  lemma DelimitCons(q: string, slots: seq<Range>, texts: seq<string>, a: nat, b: nat, text: string)
    requires Delimit(q, slots, texts) && a <= b <= |q| && q[a..b] == text
    ensures Delimit(q, [(a, b)] + slots, [text] + texts)
  {
  }

  lemma SlotsHead(toks: seq<Token>, vals: seq<string>, off: nat)
    requires toks != []
    ensures toks[0].Ch? ==> Slots(toks, vals, off) == Slots(toks[1..], vals, off + 1)
                            && HoleTexts(toks, vals) == HoleTexts(toks[1..], vals)
    ensures toks[0].Hole? ==>
      var head := Arg(vals, toks[0].arg);
      && Slots(toks, vals, off) == [(off, off + |head|)] + Slots(toks[1..], vals, off + |head|)
      && HoleTexts(toks, vals) == [head] + HoleTexts(toks[1..], vals)
  {
    assert [] + HoleTexts(toks[1..], vals) == HoleTexts(toks[1..], vals);
  }

  /** The slots delimit exactly the texts of the holes. */
  lemma {:induction false} SlotTexts(q: string, toks: seq<Token>, vals: seq<string>, off: nat)
    requires off <= |q| && q[off..] == Fill(toks, vals)
    ensures Delimit(q, Slots(toks, vals, off), HoleTexts(toks, vals))
    decreases |toks|
  {
    if toks != [] {
      var rest := toks[1..];
      SlotsHead(toks, vals, off);
      if toks[0].Ch? {
        ReadHead(q, off, [toks[0].c], Fill(rest, vals));
        SlotTexts(q, rest, vals, off + 1);
      } else {
        var head := Arg(vals, toks[0].arg);
        ReadHead(q, off, head, Fill(rest, vals));
        SlotTexts(q, rest, vals, off + |head|);
        DelimitCons(q, Slots(rest, vals, off + |head|), HoleTexts(rest, vals), off, off + |head|, head);
      }
    }
  }

  /** Splicing the texts of a row into the slots fills the template with that row. */
  lemma {:induction false} SpliceSlots(q: string, toks: seq<Token>, vals: seq<string>, rowVals: seq<string>,
                                       slots: seq<Range>, texts: seq<string>, i: nat, from: nat, off: nat)
    requires Ordered(slots, 0, |q|) && |texts| == |slots| && i <= |slots|
    requires from <= off <= |q| && q[off..] == Fill(toks, vals)
    requires slots[i..] == Slots(toks, vals, off)
    requires texts[i..] == HoleTexts(toks, rowVals)
    ensures from <= (if i < |slots| then slots[i].0 else |q|)
    ensures Splice(q, slots, texts, i, from) == q[from..off] + Fill(toks, rowVals)
    decreases |toks|
  {
    if toks == [] {
      assert i == |slots|;
      assert q[from..] == q[from..off] + q[off..];
    } else {
      var head := match toks[0] case Ch(c) => [c] case Hole(k, _) => Arg(vals, k);
      var next := off + |head|;
      ReadHead(q, off, head, Fill(toks[1..], vals));
      match toks[0]
      case Ch(c) =>
        SpliceSlots(q, toks[1..], vals, rowVals, slots, texts, i, from, next);
        Glue(q, from, off, next, Fill(toks[1..], rowVals));
      case Hole(k, _) =>
        TailOf(slots, i, (off, next), Slots(toks[1..], vals, next));
        TailOf(texts, i, Arg(rowVals, k), HoleTexts(toks[1..], rowVals));
        SpliceSlots(q, toks[1..], vals, rowVals, slots, texts, i + 1, next, next);
        SpliceOne(q, slots, texts, i, from, off, next, Fill(toks[1..], rowVals));
    }
  }

  lemma SpliceOne(q: string, slots: seq<Range>, texts: seq<string>, i: nat, from: nat, off: nat, next: nat, rest: string)
    requires Ordered(slots, 0, |q|) && |texts| == |slots| && i < |slots|
    requires slots[i] == (off, next) && from <= off
    requires next <= (if i + 1 < |slots| then slots[i + 1].0 else |q|)
    requires Splice(q, slots, texts, i + 1, next) == q[next..next] + rest
    ensures Splice(q, slots, texts, i, from) == q[from..off] + (texts[i] + rest)
  {
    assert q[next..next] + rest == rest;
  }

  lemma Glue(q: string, from: nat, off: nat, next: nat, rest: string)
    requires from <= off <= next <= |q|
    ensures q[from..next] + rest == q[from..off] + (q[off..next] + rest)
  {
  }

  lemma ReadHead(q: string, off: nat, head: string, rest: string)
    requires off <= |q| && q[off..] == head + rest
    ensures off + |head| <= |q| && q[off..off + |head|] == head && q[off + |head|..] == rest
  {
    assert q[off + |head|..] == q[off..][|head|..];
  }

  lemma TailOf<T>(s: seq<T>, i: nat, x: T, rest: seq<T>)
    requires i <= |s| && s[i..] == [x] + rest
    ensures i < |s| && s[i] == x && s[i + 1..] == rest
  {
    assert s[i + 1..] == s[i..][1..];
  }

  lemma {:induction false} HolesBound(toks: seq<Token>, n: nat)
    requires forall i | 0 <= i < |toks| && toks[i].Hole? :: 1 <= toks[i].arg <= n
    ensures forall k | k in Holes(toks) :: 1 <= k <= n
  {
    if toks != [] {
      HolesBound(toks[1..], n);
    }
  }

  /** The slots are the joined columns of their holes. */
  lemma SlotColumns(toks: seq<Token>, cols: seq<seq<string>>, n: nat)
    requires Slotted(toks, Plain, true) && Columns(toks, cols, n) && n > 1
    ensures var parts := GroupParts(Fill(toks, Joined(cols)));
      && |parts| == |Holes(toks)|
      && forall i | 0 <= i < |parts| :: parts[i] == Split(Arg(Joined(cols), Holes(toks)[i]), SEP)
  {
    var q := Fill(toks, Joined(cols));
    ScanFill(toks, cols, n, Plain, true, 0, 0);
    assert q[0..] == q;
    SlotTexts(q, toks, Joined(cols), 0);
    HoleTextsAt(toks, Joined(cols));
  }

  lemma ColumnParts(toks: seq<Token>, cols: seq<seq<string>>, n: nat, k: nat)
    requires Columns(toks, cols, n) && k in Holes(toks)
    ensures 1 <= k <= |cols| && Split(Arg(Joined(cols), k), SEP) == cols[k - 1]
  {
    HolesBound(toks, |cols|);
    SplitJoin(cols[k - 1], SEP);
  }

  /** Part i of the statement is the column of hole i. */
  predicate PartsAre(parts: seq<seq<string>>, holes: seq<nat>, cols: seq<seq<string>>) {
    && |parts| == |holes|
    && forall i | 0 <= i < |parts| :: 1 <= holes[i] <= |cols| && parts[i] == cols[holes[i] - 1]
  }

  lemma PartsFromColumns(parts: seq<seq<string>>, holes: seq<nat>, cols: seq<seq<string>>, vals: seq<string>)
    requires |parts| == |holes|
    requires forall i | 0 <= i < |parts| :: parts[i] == Split(Arg(vals, holes[i]), SEP)
    requires forall k | k in holes :: 1 <= k <= |cols| && Split(Arg(vals, k), SEP) == cols[k - 1]
    ensures PartsAre(parts, holes, cols)
  {
    assert forall i | 0 <= i < |parts| :: holes[i] in holes;
  }

  /** Splitting the slots gives the columns back. */
  lemma SlotParts(toks: seq<Token>, cols: seq<seq<string>>, n: nat)
    requires Slotted(toks, Plain, true) && Columns(toks, cols, n) && n > 1
    ensures PartsAre(GroupParts(Fill(toks, Joined(cols))), Holes(toks), cols)
  {
    SlotColumns(toks, cols, n);
    var holes, vals := Holes(toks), Joined(cols);
    forall k | k in holes
      ensures 1 <= k <= |cols| && Split(Arg(vals, k), SEP) == cols[k - 1]
    {
      ColumnParts(toks, cols, n, k);
    }
    PartsFromColumns(GroupParts(Fill(toks, vals)), holes, cols, vals);
  }

  lemma RowFill(toks: seq<Token>, cols: seq<seq<string>>, n: nat, r: nat)
    requires Slotted(toks, Plain, true) && Columns(toks, cols, n) && n > 1 && r < n
    requires Holes(toks) != []
    ensures var q := Fill(toks, Joined(cols));
      NoPanic(q) && |GroupParts(q)| > 0 && |GroupParts(q)[0]| == n && RowQuery(q, r) == Fill(toks, Row(cols, r))
  {
    var vals, rowVals := Joined(cols), Row(cols, r);
    var q := Fill(toks, vals);
    SlotParts(toks, cols, n);
    var texts := RowTexts(GroupParts(q), r);
    HoleTextsAt(toks, rowVals);
    assert texts == HoleTexts(toks, rowVals);
    ScanFill(toks, cols, n, Plain, true, 0, 0);
    GroupsExact(q);
    assert q[0..] == q && Groups(q)[0..] == Groups(q) && texts[0..] == texts && q[0..0] == "";
    SpliceSlots(q, toks, vals, rowVals, Groups(q), texts, 0, 0, 0);
  }

  /**
   The batch round trip: a template filled with joined columns expands into
   exactly one statement per row, the r-th being the template filled with the
   r-th value of every column.
   */
  lemma ExpandRoundTrip(toks: seq<Token>, cols: seq<seq<string>>, n: nat)
    requires Slotted(toks, Plain, true) && Columns(toks, cols, n) && Holes(toks) != []
    ensures NoPanic(Fill(toks, Joined(cols)))
    ensures Expanded(Fill(toks, Joined(cols)))
         == seq(n, r requires 0 <= r < n => Fill(toks, Row(cols, r)))
  {
    if n == 1 {
      OneRow(toks, cols);
    } else {
      forall r | 0 <= r < n
        ensures var q := Fill(toks, Joined(cols));
          NoPanic(q) && |GroupParts(q)| > 0 && |GroupParts(q)[0]| == n && RowQuery(q, r) == Fill(toks, Row(cols, r))
      {
        RowFill(toks, cols, n, r);
      }
      RowFill(toks, cols, n, 0);
    }
  }

  lemma OneRow(toks: seq<Token>, cols: seq<seq<string>>)
    requires Slotted(toks, Plain, true) && Columns(toks, cols, 1)
    ensures var q := Fill(toks, Joined(cols)); NoPanic(q) && Expanded(q) == [q] && q == Fill(toks, Row(cols, 0))
  {
    ScanFill(toks, cols, 1, Plain, true, 0, 0);
    assert Joined(cols) == Row(cols, 0);
  }

  // ------------------------------------------------------------ end to end

  function NoUnits(n: nat): (units: seq<set<char>>)
    ensures |units| == n && forall i | 0 <= i < n :: units[i] == {}
  {
    seq(n, _ => {})
  }

  lemma NoHoleFirst(s: string, m: Mode, k: nat, n: nat)
    requires s != "" && 1 <= k <= n && StartsWith(s, k)
    ensures !Slotted(Tokenize(s, NoUnits(n)), m, false)
  {
    NextHole(s, NoUnits(n), k);
    TokenizeNext(s, NoUnits(n), Hole(k, ""));
  }

  /** A placeholder that would be read with its quotes stands behind a quote, which is no delimiter. */
  lemma NoUnitAhead(s: string, units: seq<set<char>>, m: Mode, begins: bool, k: nat)
    requires Slotted(Tokenize(s, NoUnits(|units|)), m, begins) && s != "" && NextToken(s, NoUnits(|units|)) == Ch(s[0])
    ensures !UnitAt(s, units, k)
  {
    TokenizeNext(s, NoUnits(|units|), Ch(s[0]));
    if UnitAt(s, units, k) {
      NoHoleFirst(s[1..], NextMode(m, s[0]), k, |units|);
    }
  }

  /** Where every slot stands between delimiters no placeholder is quoted, so the quotes handled do not matter. */
  lemma SlottedNext(s: string, units: seq<set<char>>, m: Mode, begins: bool)
    requires s != "" && Slotted(Tokenize(s, NoUnits(|units|)), m, begins)
    ensures NextToken(s, units) == NextToken(s, NoUnits(|units|))
  {
    var none := NoUnits(|units|);
    var t, t0 := NextToken(s, units), NextToken(s, none);
    NextReads(s, units);
    NextReads(s, none);
    if t0.Hole? {
      NextHole(s, units, t0.arg);
    } else if t.Hole? {
      NoUnitAhead(s, units, m, begins, t.arg);
    }
  }

  lemma {:induction false} SlottedTokens(s: string, units: seq<set<char>>, m: Mode, begins: bool)
    requires Slotted(Tokenize(s, NoUnits(|units|)), m, begins)
    ensures Tokenize(s, units) == Tokenize(s, NoUnits(|units|))
    decreases |s|
  {
    if s != "" {
      var none := NoUnits(|units|);
      var t := NextToken(s, none);
      SlottedNext(s, units, m, begins);
      TokenizeNext(s, none, t);
      TokenizeNext(s, units, t);
      if t.Ch? {
        SlottedTokens(s[|Written(t)|..], units, NextMode(m, t.c), m == Plain && IsGroupDelim(t.c));
      } else {
        SlottedTokens(s[|Written(t)|..], units, Plain, false);
      }
    }
  }

  lemma SlottedHead(toks: seq<Token>, units: seq<set<char>>, m: Mode, begins: bool)
    requires toks != [] && HeadOk(toks[0], toks[1..], NoUnits(|units|)) && Slotted(toks, m, begins)
    ensures HeadOk(toks[0], toks[1..], units)
  {
    if |toks| > 2 && toks[1].Hole? {
      assert toks[1..][1] == toks[2] && toks[2].Ch? && IsGroupDelim(toks[2].c);
    }
  }

  /** Nor do they matter for whether the template can be filled. */
  lemma {:induction false} SlottedWellFormed(toks: seq<Token>, units: seq<set<char>>, m: Mode, begins: bool)
    requires WellFormed(toks, NoUnits(|units|)) && Slotted(toks, m, begins)
    ensures WellFormed(toks, units)
  {
    if toks != [] {
      SlottedHead(toks, units, m, begins);
      if toks[0].Ch? {
        SlottedWellFormed(toks[1..], units, NextMode(m, toks[0].c), m == Plain && IsGroupDelim(toks[0].c));
      } else {
        SlottedWellFormed(toks[1..], units, Plain, false);
      }
    }
  }

  /** The holes of a tokenized query are among its arguments. */
  lemma {:induction false} HolesInRange(toks: seq<Token>, units: seq<set<char>>)
    requires WellFormed(toks, units)
    ensures forall i | 0 <= i < |toks| && toks[i].Hole? :: 1 <= toks[i].arg <= |units|
  {
    if toks != [] {
      HolesInRange(toks[1..], units);
      assert forall i | 0 < i < |toks| :: toks[i] == toks[1..][i - 1];
    }
  }

  lemma HexDollarFree(bytes: seq<Byte>)
    ensures Lacks(Hex(bytes), '$')
  {
    assert forall i | 0 <= i < |Hex(bytes)| :: Hex(bytes)[i] != '$';
  }

  lemma {:induction false} DoubledDollarFree(s: string)
    requires Lacks(s, '$')
    ensures Lacks(DoubleQuotes(s), '$')
  {
    if s != "" {
      DoubledDollarFree(s[1..]);
      DoubleQuotesStep(s);
    }
  }

  /** Formatting adds no `$`. */
  lemma FormattedDollarFree(v: Value, driver: Driver)
    requires driver != MongoDB && Generated(v) && (v.Str? ==> Lacks(v.s, '$'))
    ensures Lacks(SQLFormatValue(v, driver), '$')
  {
    match v
    case ObjectID(id) => HexDollarFree(id);
    case Bytes(bytes) => HexDollarFree(bytes);
    case Str(s) => DoubledDollarFree(s);
    case _ =>
  }

  lemma {:induction false} JoinDollarFree(parts: seq<string>)
    requires DollarFree(parts)
    ensures Lacks(Join(parts, SEP), '$')
  {
    assert parts != [] ==> parts[0] in parts;
    if |parts| > 1 {
      JoinDollarFree(parts[1..]);
    }
  }

  /** The arguments of row `r`, as a query that is run for one row alone would get them. */
  function RowArgs(cols: seq<seq<Value>>, r: nat): (args: seq<Value>)
    requires forall k | 0 <= k < |cols| :: r < |cols[k]|
    ensures |args| == |cols|
    ensures forall k | 0 <= k < |cols| :: args[k] == cols[k][r]
  {
    seq(|cols|, k requires 0 <= k < |cols| => cols[k][r])
  }

  /** `n` rows of generated values that contain neither the separator nor a `$`. */
  predicate Rows(cols: seq<seq<Value>>, n: nat) {
    && n > 0
    && (forall k | 0 <= k < |cols| :: |cols[k]| == n)
    && (forall k, r | 0 <= k < |cols| && 0 <= r < n ::
          Generated(cols[k][r]) && (cols[k][r].Str? ==> Lacks(cols[k][r].s, '$')))
  }

  /** A batch template: it can be filled, each placeholder is in a slot of its own, and there is at least one. */
  ghost predicate BatchTemplate(query: string, n: nat) {
    && WellFormed(Tokenize(query, NoUnits(n)), NoUnits(n))
    && Slotted(Tokenize(query, NoUnits(n)), Plain, true)
    && Holes(Tokenize(query, NoUnits(n))) != []
  }

  function FormattedColumns(cols: seq<seq<Value>>, driver: Driver): (texts: seq<seq<string>>)
    requires driver != MongoDB
    ensures |texts| == |cols|
    ensures forall k | 0 <= k < |cols| :: texts[k] == Formatted(cols[k], driver)
  {
    seq(|cols|, k requires 0 <= k < |cols| => Formatted(cols[k], driver))
  }

  /**
   The statement is the template with a literal in the place of each placeholder
   that says what the argument of its number is.
   */
  predicate Tells(stmt: string, toks: seq<Token>, args: seq<Value>, driver: Driver) {
    if toks == [] then stmt == ""
    else
      match toks[0]
      case Ch(c) => stmt != "" && stmt[0] == c && Tells(stmt[1..], toks[1..], args, driver)
      case Hole(k, _) =>
        1 <= k <= |args| &&
        exists m | 0 <= m <= |stmt| ::
          Literals.LiteralFor(stmt[..m], args[k - 1], driver) && Tells(stmt[m..], toks[1..], args, driver)
  }

  lemma TellsNext(text: string, rest: string, toks: seq<Token>, args: seq<Value>, driver: Driver)
    requires toks != [] && Tells(rest, toks[1..], args, driver)
    requires if toks[0].Ch? then text == [toks[0].c]
             else 1 <= toks[0].arg <= |args| && Literals.LiteralFor(text, args[toks[0].arg - 1], driver)
    ensures Tells(text + rest, toks, args, driver)
  {
    var stmt := text + rest;
    assert stmt[..|text|] == text && stmt[|text|..] == rest;
  }

  /** Filling a template with formatted values tells those values. */
  lemma {:induction false} FillTells(toks: seq<Token>, args: seq<Value>, driver: Driver)
    requires driver != MongoDB && forall k | 0 <= k < |args| :: !args[k].Raw?
    requires forall i | 0 <= i < |toks| && toks[i].Hole? :: 1 <= toks[i].arg <= |args|
    ensures Tells(Fill(toks, Formatted(args, driver)), toks, args, driver)
  {
    if toks != [] {
      assert forall i | 0 <= i < |toks[1..]| :: toks[1..][i] == toks[i + 1];
      FillTells(toks[1..], args, driver);
      var rest := Fill(toks[1..], Formatted(args, driver));
      if toks[0].Ch? {
        TellsNext([toks[0].c], rest, toks, args, driver);
      } else {
        var k := toks[0].arg;
        Literals.FormattedReads(args[k - 1], driver);
        TellsNext(SQLFormatValue(args[k - 1], driver), rest, toks, args, driver);
      }
    }
  }

  /** What a single run of the query with the arguments of row `r` would send. */
  ghost function RowStatement(query: string, cols: seq<seq<Value>>, r: nat, driver: Driver): string
    requires driver != MongoDB && forall k | 0 <= k < |cols| :: r < |cols[k]|
  {
    var args := RowArgs(cols, r);
    Substituted(query, Units(args, {'\'', '"'}, {}), Formatted(args, driver))
  }

  lemma ColumnsReady(query: string, cols: seq<seq<Value>>, n: nat, driver: Driver)
    requires driver != MongoDB && Rows(cols, n) && BatchTemplate(query, |cols|)
    ensures var toks, texts := Tokenize(query, NoUnits(|cols|)), FormattedColumns(cols, driver);
      Columns(toks, texts, n) && DollarFree(Joined(texts))
  {
    var toks, texts := Tokenize(query, NoUnits(|cols|)), FormattedColumns(cols, driver);
    HolesInRange(toks, NoUnits(|cols|));
    forall k, r | 0 <= k < |cols| && 0 <= r < n
      ensures Atomic(texts[k][r]) && Lacks(texts[k][r], '$')
    {
      FormattedAtomic(cols[k][r], driver);
      FormattedDollarFree(cols[k][r], driver);
    }
    forall k | 0 <= k < |cols|
      ensures Lacks(Joined(texts)[k], '$')
    {
      JoinDollarFree(texts[k]);
    }
  }

  lemma RowReady(query: string, cols: seq<seq<Value>>, n: nat, r: nat, driver: Driver)
    requires driver != MongoDB && Rows(cols, n) && BatchTemplate(query, |cols|) && r < n
    ensures Row(FormattedColumns(cols, driver), r) == Formatted(RowArgs(cols, r), driver)
    ensures Fill(Tokenize(query, NoUnits(|cols|)), Row(FormattedColumns(cols, driver), r))
         == RowStatement(query, cols, r, driver)
  {
    SlottedTokens(query, Units(RowArgs(cols, r), {'\'', '"'}, {}), Plain, true);
  }

  /** It tells the values of the row. */
  lemma RowTells(query: string, cols: seq<seq<Value>>, n: nat, r: nat, driver: Driver)
    requires driver != MongoDB && Rows(cols, n) && BatchTemplate(query, |cols|) && r < n
    ensures Tells(RowStatement(query, cols, r, driver), Tokenize(query, NoUnits(|cols|)), RowArgs(cols, r), driver)
  {
    RowReady(query, cols, n, r, driver);
    HolesInRange(Tokenize(query, NoUnits(|cols|)), NoUnits(|cols|));
    FillTells(Tokenize(query, NoUnits(|cols|)), RowArgs(cols, r), driver);
  }

  /** Running the query for one row alone sends that statement. */
  lemma RowRuns(query: string, cols: seq<seq<Value>>, n: nat, r: nat, driver: Driver)
    requires driver != MongoDB && Rows(cols, n) && BatchTemplate(query, |cols|) && r < n
    ensures var args := RowArgs(cols, r);
      var units, vals := Units(args, {'\'', '"'}, {}), Formatted(args, driver);
      && Substitutable(query, units, vals)
      && WithValues(Replaced(query, units, vals), args) == RowStatement(query, cols, r, driver)
  {
    var args := RowArgs(cols, r);
    var units, vals := Units(args, {'\'', '"'}, {}), Formatted(args, driver);
    SlottedTokens(query, units, Plain, true);
    SlottedWellFormed(Tokenize(query, units), units, Plain, true);
    forall k | 0 <= k < |cols|
      ensures Lacks(vals[k], '$')
    {
      FormattedDollarFree(cols[k][r], driver);
    }
    SubstitutedAtOnce(query, units, vals);
  }

  // -------------------------------------------------------- the values token

  /** Word characters read in a filled template from a character of it on are characters of the template. */
  lemma {:induction false} WordsOfTemplate(p: string, toks: seq<Token>, vals: seq<string>, m: Mode, begins: bool)
    requires Slotted(toks, m, begins) && toks != [] && toks[0].Ch?
    requires p <= Fill(toks, vals) && forall i | 0 <= i < |p| :: IsWord(p[i])
    ensures p <= Source(toks)
    decreases |toks|
  {
    if p != "" {
      var c, rest := toks[0].c, Fill(toks[1..], vals);
      assert p[0] == ([c] + rest)[0] == c;
      assert p[1..] <= rest by {
        assert ([c] + rest)[1..] == rest;
      }
      if |p| > 1 {
        assert toks[1..] != [];
        WordsOfTemplate(p[1..], toks[1..], vals, NextMode(m, c), m == Plain && IsGroupDelim(c));
      }
      assert [c] + p[1..] == p;
    }
  }

  lemma TokenInChar(toks: seq<Token>, vals: seq<string>, m: Mode, begins: bool)
    requires Slotted(toks, m, begins) && toks != [] && toks[0].Ch? && NoToken(Source(toks))
    ensures !(TOKEN <= Fill(toks, vals))
  {
    assert Source(toks)[0..] == Source(toks);
    assert forall i | 0 <= i < |TOKEN| :: IsWord(TOKEN[i]);
    if TOKEN <= Fill(toks, vals) {
      WordsOfTemplate(TOKEN, toks, vals, m, begins);
    }
  }

  /** What stands behind a slot does not begin with a word character. */
  lemma TokenInSlot(v: string, rest: string, i: nat)
    requires NoToken(v) && i <= |v| && (rest != "" ==> !IsWord(rest[0]))
    ensures !(TOKEN <= (v + rest)[i..])
  {
    if rest == "" {
      assert v + rest == v;
    } else {
      assert (v + rest)[i..] == v[i..] + [rest[0]] + rest[1..];
      if TOKEN <= (v + rest)[i..] {
        TokenBefore(v[i..], rest[0], rest[1..]);
      }
    }
  }

  lemma BehindSlot(toks: seq<Token>, vals: seq<string>)
    requires toks != [] && toks[0].Hole? && Slotted(toks, Plain, true)
    ensures var rest := Fill(toks[1..], vals); rest != "" ==> !IsWord(rest[0])
  {
  }

  lemma TailText(head: string, rest: string, i: nat)
    requires |head| <= i <= |head| + |rest|
    ensures (head + rest)[i..] == rest[i - |head|..]
  {
  }

  lemma SourceTail(toks: seq<Token>)
    requires toks != [] && NoToken(Source(toks))
    ensures NoToken(Source(toks[1..]))
  {
    NoTokenTail(Source(toks), |Written(toks[0])|);
    TailText(Written(toks[0]), Source(toks[1..]), |Written(toks[0])|);
  }

  /** A filled template holds the token nowhere if neither the template nor a value filled in does: it cannot arise where
      they meet. */
  lemma {:induction false} FillNoToken(toks: seq<Token>, vals: seq<string>, m: Mode, begins: bool)
    requires Slotted(toks, m, begins) && NoToken(Source(toks)) && forall k | k in Holes(toks) :: NoToken(Arg(vals, k))
    ensures NoToken(Fill(toks, vals))
    decreases |toks|
  {
    if toks != [] {
      var head, rest := (match toks[0] case Ch(c) => [c] case Hole(k, _) => Arg(vals, k)), Fill(toks[1..], vals);
      SourceTail(toks);
      HolesCons(toks, vals);
      if toks[0].Ch? {
        FillNoToken(toks[1..], vals, NextMode(m, toks[0].c), m == Plain && IsGroupDelim(toks[0].c));
        TokenInChar(toks, vals, m, begins);
      } else {
        FillNoToken(toks[1..], vals, Plain, false);
        BehindSlot(toks, vals);
        assert NoToken(head);
      }
      forall i | 0 <= i <= |head + rest|
        ensures !(TOKEN <= (head + rest)[i..])
      {
        if i >= |head| {
          TailText(head, rest, i);
        } else if toks[0].Ch? {
          assert (head + rest)[0..] == head + rest;
        } else {
          TokenInSlot(head, rest, i);
        }
      }
    }
  }

  /** No value of a column that the query uses holds the token. */
  ghost predicate TokenFree(query: string, cols: seq<seq<Value>>, driver: Driver)
    requires driver != MongoDB
  {
    forall k | k in Holes(Tokenize(query, NoUnits(|cols|))) && 1 <= k <= |cols| :: ColumnTokenFree(cols[k - 1], driver)
  }

  predicate ColumnTokenFree(column: seq<Value>, driver: Driver)
    requires driver != MongoDB
  {
    forall r | 0 <= r < |column| :: NoToken(SQLFormatValue(column[r], driver))
  }

  lemma ColumnJoined(column: seq<Value>, driver: Driver)
    requires driver != MongoDB && ColumnTokenFree(column, driver)
    ensures NoToken(Join(Formatted(column, driver), SEP))
  {
    var texts := Formatted(column, driver);
    forall v | v in texts
      ensures NoToken(v)
    {
      var r :| 0 <= r < |texts| && texts[r] == v;
    }
    JoinNoToken(texts, SEP);
  }

  lemma UsedColumn(cols: seq<seq<Value>>, driver: Driver, vals: seq<string>, k: nat)
    requires driver != MongoDB && |vals| == |cols| && (1 <= k <= |cols| ==> ColumnTokenFree(cols[k - 1], driver))
    requires 1 <= k <= |cols| ==> vals[k - 1] == Join(Formatted(cols[k - 1], driver), SEP)
    ensures NoToken(Arg(vals, k))
  {
    if 1 <= k <= |cols| {
      ColumnJoined(cols[k - 1], driver);
    }
  }

  lemma TokenFreeFill(query: string, cols: seq<seq<Value>>, n: nat, driver: Driver)
    requires driver != MongoDB && Rows(cols, n) && BatchTemplate(query, |cols|)
    requires NoToken(query) && TokenFree(query, cols, driver)
    ensures NoToken(Fill(Tokenize(query, NoUnits(|cols|)), Joined(FormattedColumns(cols, driver))))
  {
    var toks, vals := Tokenize(query, NoUnits(|cols|)), Joined(FormattedColumns(cols, driver));
    SourceTokenize(query, NoUnits(|cols|));
    forall k | k in Holes(toks)
      ensures NoToken(Arg(vals, k))
    {
      UsedColumn(cols, driver, vals, k);
    }
    FillNoToken(toks, vals, Plain, true);
  }

  /** The arguments of a batch: the joined columns, as SQL text. */
  predicate ColumnArgs(args: seq<Value>, cols: seq<seq<Value>>, driver: Driver)
    requires driver != MongoDB
  {
    |args| == |cols| && forall i | 0 <= i < |cols| :: args[i] == Raw(Joined(FormattedColumns(cols, driver))[i])
  }

  /** The text that is expanded: the joined columns inlined, and the token replaced. */
  function Inlined(query: string, args: seq<Value>, driver: Driver): string
    requires driver != MongoDB
  {
    WithValues(Replaced(query, Units(args, {'\'', '"'}, {}), Formatted(args, driver)), args)
  }

  /** Inlining the joined columns fills the template with them. */
  lemma ColumnsInlined(query: string, cols: seq<seq<Value>>, n: nat, driver: Driver, args: seq<Value>)
    requires driver != MongoDB && Rows(cols, n) && BatchTemplate(query, |cols|) && ColumnArgs(args, cols, driver)
    ensures Inlined(query, args, driver)
         == WithValues(Fill(Tokenize(query, NoUnits(|cols|)), Joined(FormattedColumns(cols, driver))), args)
  {
    var none, vals := NoUnits(|cols|), Joined(FormattedColumns(cols, driver));
    assert Formatted(args, driver) == vals && Units(args, {'\'', '"'}, {}) == none;
    ColumnsReady(query, cols, n, driver);
    SubstitutedAtOnce(query, none, vals);
  }

  /** The statements sent are those of running the query once per row. */
  ghost predicate SendsRows(q: string, query: string, cols: seq<seq<Value>>, n: nat, driver: Driver)
    requires driver != MongoDB && forall k | 0 <= k < |cols| :: |cols[k]| == n
  {
    NoPanic(q) && |Expanded(q)| == n && forall r | 0 <= r < n :: Expanded(q)[r] == RowStatement(query, cols, r, driver)
  }

  lemma NoValuesReplaced(s: string, args: seq<Value>)
    requires NoToken(s)
    ensures WithValues(s, args) == s
  {
    if args != [] && args[0].Raw? {
      NothingReplaced(s, args[0].sql);
    }
  }

  /** Expanding that gives the statements of the rows. */
  lemma RowsExpanded(query: string, cols: seq<seq<Value>>, n: nat, driver: Driver)
    requires driver != MongoDB && Rows(cols, n) && BatchTemplate(query, |cols|)
    ensures var inlined := Fill(Tokenize(query, NoUnits(|cols|)), Joined(FormattedColumns(cols, driver)));
      && NoPanic(inlined) && |Expanded(inlined)| == n
      && forall r | 0 <= r < n :: Expanded(inlined)[r] == RowStatement(query, cols, r, driver)
  {
    var none, texts := NoUnits(|cols|), FormattedColumns(cols, driver);
    ColumnsReady(query, cols, n, driver);
    ExpandRoundTrip(Tokenize(query, none), texts, n);
    forall r | 0 <= r < n
      ensures Fill(Tokenize(query, none), Row(texts, r)) == RowStatement(query, cols, r, driver)
    {
      RowReady(query, cols, n, r, driver);
    }
  }

  /** The end of `generateBatchArgs`: every column formatted and joined. */
  method JoinColumns(cols: seq<seq<Value>>, driver: Driver) returns (args: seq<Value>)
    requires driver != MongoDB
    ensures ColumnArgs(args, cols, driver)
  {
    args := [];
    for k := 0 to |cols|
      invariant |args| == k
      invariant forall i | 0 <= i < k :: args[i] == Raw(Joined(FormattedColumns(cols, driver))[i])
    {
      args := args + [Raw(Join(Formatted(cols[k], driver), SEP))];
    }
  }

  lemma BatchRight(query: string, cols: seq<seq<Value>>, n: nat, driver: Driver, args: seq<Value>)
    requires driver != MongoDB && Rows(cols, n) && BatchTemplate(query, |cols|) && ColumnArgs(args, cols, driver)
    requires NoToken(query) && TokenFree(query, cols, driver)
    ensures SendsRows(Inlined(query, args, driver), query, cols, n, driver)
  {
    ColumnsInlined(query, cols, n, driver, args);
    TokenFreeFill(query, cols, n, driver);
    NoValuesReplaced(Fill(Tokenize(query, NoUnits(|cols|)), Joined(FormattedColumns(cols, driver))), args);
    RowsExpanded(query, cols, n, driver);
  }

  /**
   An exec_batch query from its generated columns to the statements sent:
   format and join (`generateBatchArgs`), inline (`runSection`), expand
   (`ExecContext`). For every batch template without the token `__values__`, if
   no value of a column that it uses holds it, it sends, in order, exactly the
   statements that running the query once per row would send; otherwise it does
   not (`BatchToken.BatchExact`). Statement `r` has, in the place of every
   placeholder, a literal that is read back as the value of row `r`.
   */
  method ExecBatch(query: string, cols: seq<seq<Value>>, n: nat, driver: Driver) returns (stmts: seq<string>)
    requires driver != MongoDB && Rows(cols, n) && BatchTemplate(query, |cols|)
    requires NoToken(query) && TokenFree(query, cols, driver)
    ensures |stmts| == n
    ensures forall r | 0 <= r < n :: stmts[r] == RowStatement(query, cols, r, driver)
    ensures forall r | 0 <= r < n :: Tells(stmts[r], Tokenize(query, NoUnits(|cols|)), RowArgs(cols, r), driver)
  {
    var args := JoinColumns(cols, driver);
    BatchRight(query, cols, n, driver, args);
    var inlined := InlineForRun(query, args, driver);
    stmts := ExpandBatchQuery(inlined);
    forall r | 0 <= r < n
      ensures Tells(stmts[r], Tokenize(query, NoUnits(|cols|)), RowArgs(cols, r), driver)
    {
      RowTells(query, cols, n, r, driver);
    }
  }
}
