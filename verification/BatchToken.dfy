/**
 The token `__values__` in the values of a batch: the statements are those of
 the rows if and only if no value of a column that the query uses holds it.
 */
module BatchToken {
  import opened Strings
  import opened Convert
  import opened Batch
  import opened Inline
  import opened ValuesToken
  import opened BatchPipeline

  // ------------------------------------------------- where the token is found

  lemma ReplacedHere(s: string, raw: string) returns (rest: string)
    requires TOKEN <= s
    ensures ReplaceValues(s, raw) == raw + rest
  {
    var behind := s[|TOKEN|..];
    rest := ReplaceValues(behind[Parameters(behind)..], raw);
  }

  lemma ReplacedLater(s: string, raw: string)
    requires s != "" && !(TOKEN <= s)
    ensures ReplaceValues(s, raw) == [s[0]] + ReplaceValues(s[1..], raw)
  {
  }

  lemma HeadAndPrefix(s: string, p: nat, x: string)
    requires 0 < p <= |s|
    ensures [s[0]] + (s[1..][..p - 1] + x) == s[..p] + x && s[1..][p - 1..] == s[p..]
  {
    assert [s[0]] + s[1..][..p - 1] == s[..p];
  }

  lemma TokenLater(s: string)
    requires !NoToken(s) && !(TOKEN <= s)
    ensures s != "" && !NoToken(s[1..])
  {
    var i :| 0 <= i <= |s| && TOKEN <= s[i..];
    assert s[0..] == s && s[1..][i - 1..] == s[i..];
  }

  /** A text that holds the token changes when it is replaced, from some place on. */
  lemma {:induction false} FirstToken(s: string, raw: string) returns (p: nat, rest: string)
    requires !NoToken(s)
    ensures p < |s| && TOKEN <= s[p..] && ReplaceValues(s, raw) == s[..p] + (raw + rest)
    decreases |s|
  {
    if TOKEN <= s {
      p := 0;
      rest := ReplacedHere(s, raw);
      assert s[0..] == s && s[..0] + (raw + rest) == raw + rest;
    } else {
      TokenLater(s);
      p, rest := FirstToken(s[1..], raw);
      ReplacedLater(s, raw);
      HeadAndPrefix(s, p + 1, raw + rest);
      p := p + 1;
    }
  }

  /** In front of what does not begin with a word character the token lies within the text. */
  lemma TokenStays(v: string, rest: string, i: nat)
    requires i <= |v| && (rest != "" ==> !IsWord(rest[0])) && TOKEN <= (v + rest)[i..]
    ensures TOKEN <= v[i..]
  {
    if rest == "" {
      assert v + rest == v;
    } else {
      assert (v + rest)[i..] == v[i..] + [rest[0]] + rest[1..];
      TokenBefore(v[i..], rest[0], rest[1..]);
    }
  }

  /** The text of one token when it is filled. */
  function Filled(t: Token, vals: seq<string>): string {
    if t.Ch? then [t.c] else Arg(vals, t.arg)
  }

  lemma FillStep(toks: seq<Token>, vals: seq<string>, i: nat)
    requires 0 < i <= |toks|
    ensures Fill(toks[..i], vals) == (if toks[0].Ch? then [toks[0].c] else Arg(vals, toks[0].arg)) + Fill(toks[1..][..i - 1], vals)
  {
    assert toks[..i][0] == toks[0] && toks[..i][1..] == toks[1..][..i - 1];
  }

  /** Place `p` of a filled template is place `o` of the text of slot `i`, where the token stands. */
  predicate InSlot(toks: seq<Token>, vals: seq<string>, p: nat, i: nat, o: nat) {
    && i < |toks| && toks[i].Hole? && p == |Fill(toks[..i], vals)| + o
    && o < |Arg(vals, toks[i].arg)| && TOKEN <= Arg(vals, toks[i].arg)[o..]
  }

  lemma InFirstSlot(toks: seq<Token>, vals: seq<string>, m: Mode, begins: bool, p: nat)
    requires toks != [] && Slotted(toks, m, begins) && NoToken(Source(toks))
    requires p < |Filled(toks[0], vals)| && TOKEN <= Fill(toks, vals)[p..]
    ensures InSlot(toks, vals, p, 0, p)
  {
    assert toks[..0] == [];
    assert Fill(toks, vals)[0..] == Fill(toks, vals);
    if toks[0].Ch? {
      TokenInChar(toks, vals, m, begins);
    } else {
      BehindSlot(toks, vals);
      TokenStays(Arg(vals, toks[0].arg), Fill(toks[1..], vals), p);
    }
  }

  lemma InLaterSlot(toks: seq<Token>, vals: seq<string>, p: nat, i: nat, o: nat)
    requires toks != [] && p >= |Filled(toks[0], vals)| && InSlot(toks[1..], vals, p - |Filled(toks[0], vals)|, i, o)
    ensures InSlot(toks, vals, p, i + 1, o)
  {
    FillStep(toks, vals, i + 1);
  }

  /** The token stands in the text of a slot. */
  lemma {:induction false} SlotOf(toks: seq<Token>, vals: seq<string>, m: Mode, begins: bool, p: nat) returns (i: nat, o: nat)
    requires Slotted(toks, m, begins) && NoToken(Source(toks))
    requires p <= |Fill(toks, vals)| && TOKEN <= Fill(toks, vals)[p..]
    ensures InSlot(toks, vals, p, i, o)
    decreases |toks|
  {
    assert toks != [];
    var head := Filled(toks[0], vals);
    if p < |head| {
      InFirstSlot(toks, vals, m, begins, p);
      i, o := 0, p;
    } else {
      TailText(head, Fill(toks[1..], vals), p);
      SourceTail(toks);
      if toks[0].Ch? {
        i, o := SlotOf(toks[1..], vals, NextMode(m, toks[0].c), m == Plain && IsGroupDelim(toks[0].c), p - |head|);
      } else {
        i, o := SlotOf(toks[1..], vals, Plain, false, p - |head|);
      }
      InLaterSlot(toks, vals, p, i, o);
      i := i + 1;
    }
  }

  /** The first `r` rows of a column, each with the separator behind it. */
  function Before(parts: seq<string>, r: nat): string
    requires r <= |parts|
  {
    if r == 0 then "" else parts[0] + ([SEP] + Before(parts[1..], r - 1))
  }

  lemma JoinCut(a: string, rest: string, o: nat)
    requires |a| < o <= |a| + 1 + |rest|
    ensures (a + ([SEP] + rest))[o..] == rest[o - |a| - 1..]
    ensures (a + ([SEP] + rest))[..o] == a + ([SEP] + rest[..o - |a| - 1])
  {
  }

  lemma JoinStep(parts: seq<string>)
    requires |parts| > 1
    ensures Join(parts, SEP) == parts[0] + ([SEP] + Join(parts[1..], SEP))
  {
  }

  /** Place `o` of a joined column is place `w` of row `r`, where the token stands. */
  predicate InRow(parts: seq<string>, o: nat, r: nat, w: nat) {
    && r < |parts| && w < |parts[r]| && TOKEN <= parts[r][w..]
    && o <= |Join(parts, SEP)| && Join(parts, SEP)[..o] == Before(parts, r) + parts[r][..w]
  }

  lemma InFirstRow(parts: seq<string>, o: nat)
    requires |parts| > 1 && o <= |parts[0]| && TOKEN <= Join(parts, SEP)[o..]
    ensures InRow(parts, o, 0, o)
  {
    var rest := [SEP] + Join(parts[1..], SEP);
    JoinStep(parts);
    TokenStays(parts[0], rest, o);
    assert (parts[0] + rest)[..o] == parts[0][..o];
    assert "" + parts[0][..o] == parts[0][..o];
  }

  lemma InLaterRow(parts: seq<string>, o: nat, r: nat, w: nat)
    requires |parts| > 1 && |parts[0]| < o <= |Join(parts, SEP)| && InRow(parts[1..], o - |parts[0]| - 1, r, w)
    ensures InRow(parts, o, r + 1, w)
  {
    JoinStep(parts);
    JoinCut(parts[0], Join(parts[1..], SEP), o);
    BeforeCons(parts, r, parts[1..][r][..w]);
  }

  /** The token stands in one row of a column. */
  lemma {:induction false} RowOf(parts: seq<string>, o: nat) returns (r: nat, w: nat)
    requires parts != [] && o <= |Join(parts, SEP)| && TOKEN <= Join(parts, SEP)[o..]
    ensures InRow(parts, o, r, w)
  {
    if |parts| == 1 {
      r, w := 0, o;
    } else if o <= |parts[0]| {
      InFirstRow(parts, o);
      r, w := 0, o;
    } else {
      JoinStep(parts);
      JoinCut(parts[0], Join(parts[1..], SEP), o);
      r, w := RowOf(parts[1..], o - |parts[0]| - 1);
      InLaterRow(parts, o, r, w);
      r := r + 1;
    }
  }

  lemma BeforeCons(parts: seq<string>, r: nat, x: string)
    requires r < |parts|
    ensures parts[0] + ([SEP] + (Before(parts[1..], r) + x)) == Before(parts, r + 1) + x
  {
    assert Before(parts, r + 1) == parts[0] + ([SEP] + Before(parts[1..], r));
  }

  // -------------------------------------------------------- reading up to there

  lemma {:induction false} QuietPrefix(m: Mode, a: string, b: string)
    requires Quiet(m, a + b)
    ensures Quiet(m, a)
    decreases |a|
  {
    if a != "" {
      assert (a + b)[1..] == a[1..] + b;
      QuietPrefix(NextMode(m, a[0]), a[1..], b);
    }
  }

  /** Reading rows of a column. */
  lemma {:induction false} ScanBefore(parts: seq<string>, r: nat, rest: string, off: nat, start: nat, hasSep: bool)
    requires r <= |parts| && forall v | v in parts :: Atomic(v)
    ensures Scan(Before(parts, r) + rest, off, Plain, start, hasSep)
         == Scan(rest, off + |Before(parts, r)|, Plain, start, hasSep || r > 0)
    decreases r
  {
    if r == 0 {
      assert "" + rest == rest;
    } else {
      assert parts[0] in parts;
      var tail := Before(parts[1..], r - 1) + rest;
      assert Before(parts, r) + rest == parts[0] + ([SEP] + tail);
      ScanQuiet(Plain, parts[0], [SEP] + tail, off, start, hasSep);
      assert ([SEP] + tail)[1..] == tail;
      ScanBefore(parts[1..], r - 1, rest, off + |parts[0]| + 1, start, true);
    }
  }

  /** A character that neither ends a stretch nor separates. */
  predicate Inner(c: char) {
    c != '_' && !IsGroupDelim(c) && c != SEP
  }

  lemma ScanInner(c: char, rest: string, off: nat, m: Mode, start: nat, hasSep: bool)
    requires Inner(c)
    ensures Scan([c] + rest, off, m, start, hasSep) == Scan(rest, off + 1, NextMode(m, c), start, hasSep)
  {
    assert ([c] + rest)[1..] == rest;
  }

  /** The text of a slot up to the pasted one: whole rows, the beginning of a row, and one character. */
  function Upto(parts: seq<string>, r: nat, w: nat, c: char): string
    requires r < |parts| && w <= |parts[r]|
  {
    Before(parts, r) + (parts[r][..w] + [c])
  }

  lemma UptoText(a: string, b: string, c: char, rest: string)
    ensures (a + (b + [c])) + rest == a + (b + ([c] + rest))
  {
  }

  lemma ScanUpto(parts: seq<string>, r: nat, w: nat, c: char, rest: string, off: nat)
    requires r < |parts| && w <= |parts[r]| && Inner(c) && forall v | v in parts :: Atomic(v)
    ensures Scan(Upto(parts, r, w, c) + rest, off, Plain, off, false)
         == Scan(rest, off + |Upto(parts, r, w, c)|, NextMode(Run(Plain, parts[r][..w]), c), off, r > 0)
  {
    var row := parts[r][..w];
    assert parts[r] in parts;
    UptoText(Before(parts, r), row, c, rest);
    ScanBefore(parts, r, row + ([c] + rest), off, off, false);
    assert parts[r] == row + parts[r][w..];
    QuietPrefix(Plain, row, parts[r][w..]);
    ScanQuiet(Plain, row, [c] + rest, off + |Before(parts, r)|, off, r > 0);
    ScanInner(c, rest, off + |Before(parts, r)| + |row|, Run(Plain, row), off, r > 0);
  }

  /** The groups that a stretch in progress leads to: its own first, if it becomes one, then later ones. */
  lemma {:induction false} FirstGroup(s: string, off: nat, m: Mode, start: nat, hasSep: bool)
    requires start <= off
    ensures var g := Scan(s, off, m, start, hasSep);
      && (hasSep ==> g != [] && g[0].0 == start)
      && (g != [] ==> (g[0].0 == start && g[0].1 >= off) || g[0].0 > off)
    decreases |s|
  {
    if s != "" {
      if m == Plain && IsGroupDelim(s[0]) {
        FirstGroup(s[1..], off + 1, Plain, off + 1, false);
      } else {
        FirstGroup(s[1..], off + 1, NextMode(m, s[0]), start, hasSep || (m == Plain && s[0] == SEP));
      }
    }
  }

  // the slots in front

  lemma PreChar(toks: seq<Token>, cols: seq<seq<string>>, i: nat, w: string, c: char)
    requires 0 < i <= |toks| && toks[0] == Ch(c)
    ensures Fill(toks[..i], Joined(cols)) + w == [c] + (Fill(toks[1..][..i - 1], Joined(cols)) + w)
  {
    FillStep(toks, Joined(cols), i);
  }

  lemma PreHole(toks: seq<Token>, vals: seq<string>, i: nat, w: string)
    requires 1 < i <= |toks| && toks[0].Hole? && toks[1].Ch?
    ensures Fill(toks[..i], vals) + w == Arg(vals, toks[0].arg) + ([toks[1].c] + (Fill(toks[2..][..i - 2], vals) + w))
  {
    FillStep(toks, vals, i);
    FillStep(toks[1..], vals, i - 1);
    assert toks[1..][1..] == toks[2..];
  }

  lemma SlotsStep(toks: seq<Token>, vals: seq<string>, i: nat, off: nat)
    requires 0 < i <= |toks|
    ensures toks[0].Ch? ==> Slots(toks[..i], vals, off) == Slots(toks[1..][..i - 1], vals, off + 1)
    ensures toks[0].Hole? ==>
      var end := off + |Arg(vals, toks[0].arg)|;
      Slots(toks[..i], vals, off) == [(off, end)] + Slots(toks[1..][..i - 1], vals, end)
  {
    assert toks[..i][0] == toks[0] && toks[..i][1..] == toks[1..][..i - 1];
  }

  /** Reading a filled template up to one of its slots. */
  predicate Reads(toks: seq<Token>, cols: seq<seq<string>>, i: nat, w: string, off: nat, m: Mode, start: nat)
    requires i <= |toks|
  {
    var pre, next := Fill(toks[..i], Joined(cols)), off + |Fill(toks[..i], Joined(cols))|;
    Scan(pre + w, off, m, start, false) == Slots(toks[..i], Joined(cols), off) + Scan(w, next, Plain, next, false)
  }

  lemma ReadsChar(toks: seq<Token>, cols: seq<seq<string>>, i: nat, w: string, off: nat, m: Mode, start: nat, begins: bool)
    requires 0 < i <= |toks| && toks[0].Ch? && Slotted(toks, m, begins)
    requires var delim := m == Plain && IsGroupDelim(toks[0].c);
      Reads(toks[1..], cols, i - 1, w, off + 1, NextMode(m, toks[0].c), if delim then off + 1 else start)
    ensures Reads(toks, cols, i, w, off, m, start)
  {
    PreChar(toks, cols, i, w, toks[0].c);
    FillStep(toks, Joined(cols), i);
    SlotsStep(toks, Joined(cols), i, off);
    ScanChar(toks[0].c, Fill(toks[1..][..i - 1], Joined(cols)) + w, off, m, start);
  }

  /** The text and the slots when a slot and a delimiter stand in front. */
  lemma PreSlots(toks: seq<Token>, vals: seq<string>, i: nat, off: nat)
    requires 1 < i <= |toks| && toks[0].Hole? && toks[1].Ch?
    ensures var end := off + |Arg(vals, toks[0].arg)|;
      && off + |Fill(toks[..i], vals)| == end + 1 + |Fill(toks[2..][..i - 2], vals)|
      && Slots(toks[..i], vals, off) == [(off, end)] + Slots(toks[2..][..i - 2], vals, end + 1)
  {
    FillStep(toks, vals, i);
    FillStep(toks[1..], vals, i - 1);
    SlotsStep(toks, vals, i, off);
    SlotsStep(toks[1..], vals, i - 1, off + |Arg(vals, toks[0].arg)|);
    assert toks[1..][1..] == toks[2..];
  }

  /** Reading a slot and the delimiter behind it. */
  lemma ScanSlot(toks: seq<Token>, cols: seq<seq<string>>, n: nat, c: char, rest: string, off: nat)
    requires toks != [] && toks[0].Hole? && Columns(toks, cols, n) && n > 1 && IsGroupDelim(c)
    ensures var v := Arg(Joined(cols), toks[0].arg);
      var end := off + |v|;
      Scan(v + ([c] + rest), off, Plain, off, false) == [(off, end)] + Scan(rest, end + 1, Plain, end + 1, false)
  {
    var v := Arg(Joined(cols), toks[0].arg);
    ScanHole(toks, cols, n, [c] + rest, off);
    ScanBehind(c, rest, off + |v|, off, true);
  }

  lemma ReadsHole(toks: seq<Token>, cols: seq<seq<string>>, n: nat, i: nat, w: string, off: nat)
    requires 1 < i <= |toks| && toks[0].Hole? && Slotted(toks, Plain, true) && Columns(toks, cols, n) && n > 1
    requires var end := off + |Arg(Joined(cols), toks[0].arg)|;
      Reads(toks[2..], cols, i - 2, w, end + 1, Plain, end + 1)
    ensures Reads(toks, cols, i, w, off, Plain, off)
  {
    var vals := Joined(cols);
    var end, rest := off + |Arg(vals, toks[0].arg)|, Fill(toks[2..][..i - 2], vals) + w;
    assert toks[1].Ch? && IsGroupDelim(toks[1].c);
    PreHole(toks, vals, i, w);
    PreSlots(toks, vals, i, off);
    ScanSlot(toks, cols, n, toks[1].c, rest, off);
    var next := off + |Fill(toks[..i], vals)|;
    OneMore((off, end), Slots(toks[2..][..i - 2], vals, end + 1), Scan(w, next, Plain, next, false));
  }

  lemma OneMore<T>(x: T, a: seq<T>, b: seq<T>)
    ensures [x] + (a + b) == ([x] + a) + b
  {
  }

  lemma {:induction false} ScanPre(toks: seq<Token>, cols: seq<seq<string>>, n: nat, i: nat, w: string,
                                   off: nat, m: Mode, start: nat, begins: bool)
    requires i < |toks| && toks[i].Hole? && Slotted(toks, m, begins) && Columns(toks, cols, n) && n > 1
    requires begins ==> start == off
    ensures Reads(toks, cols, i, w, off, m, start)
    decreases i
  {
    if i == 0 {
      assert toks[..0] == [] && "" + w == w;
    } else if toks[0].Ch? {
      var delim := m == Plain && IsGroupDelim(toks[0].c);
      CharTail(toks, cols, n, m, begins);
      ScanPre(toks[1..], cols, n, i - 1, w, off + 1, NextMode(m, toks[0].c), if delim then off + 1 else start, delim);
      ReadsChar(toks, cols, i, w, off, m, start, begins);
    } else {
      var end := off + |Arg(Joined(cols), toks[0].arg)|;
      HoleTail(toks, cols, n);
      assert i > 1 && toks[2..][i - 2] == toks[i];
      ScanPre(toks[2..], cols, n, i - 2, w, end + 1, Plain, end + 1, true);
      ReadsHole(toks, cols, n, i, w, off);
    }
  }

  // ------------------------------------------------- a statement up to there

  lemma CutAt(q: string, from: nat, off: nat, to: nat, x: string)
    requires from <= off <= to <= |q|
    ensures q[from..to] + x == q[from..off] + (q[off..to] + x)
  {
  }

  lemma SpliceFrom(q: string, groups: seq<Range>, texts: seq<string>, i: nat, from: nat, off: nat)
    requires Ordered(groups, 0, |q|) && |texts| == |groups| && i <= |groups|
    requires from <= off <= (if i < |groups| then groups[i].0 else |q|)
    ensures Splice(q, groups, texts, i, from) == q[from..off] + Splice(q, groups, texts, i, off)
  {
    if i == |groups| {
      CutAt(q, from, off, |q|, "");
      assert q[from..|q|] + "" == q[from..] && q[off..|q|] + "" == q[off..];
    } else {
      var to, x := groups[i].0, texts[i] + Splice(q, groups, texts, i + 1, groups[i].1);
      CutAt(q, from, off, to, x);
      assert Splice(q, groups, texts, i, from) == q[from..to] + x;
      assert Splice(q, groups, texts, i, off) == q[off..to] + x;
    }
  }

  lemma SpliceSlot(q: string, groups: seq<Range>, texts: seq<string>, i: nat, from: nat, off: nat, next: nat, rest: string)
    requires Ordered(groups, 0, |q|) && |texts| == |groups| && i < |groups|
    requires groups[i] == (off, next) && from <= off
    requires next <= (if i + 1 < |groups| then groups[i + 1].0 else |q|)
    requires Splice(q, groups, texts, i + 1, next) == q[next..next] + rest
    ensures Splice(q, groups, texts, i, from) == q[from..off] + (texts[i] + rest)
  {
    assert q[next..next] + rest == rest;
  }

  lemma GlueChar(q: string, from: nat, off: nat, c: char, x: string, y: string)
    requires from <= off < |q| && q[off] == c
    ensures q[from..off + 1] + (x + y) == q[from..off] + (([c] + x) + y)
  {
    assert q[from..off + 1] == q[from..off] + [c];
  }

  lemma HeadAt(q: string, off: nat, head: string, rest: string)
    requires off + |head + rest| <= |q| && q[off..off + |head + rest|] == head + rest
    ensures q[off..off + |head|] == head && q[off + |head|..off + |head| + |rest|] == rest
  {
    var t := q[off..off + |head + rest|];
    assert t[..|head|] == head && t[|head|..] == rest;
  }

  /** Splicing from slot `i` on fills `pre` with the row and goes on with slot `h` at `end`. */
  predicate Spliced(q: string, groups: seq<Range>, texts: seq<string>, pre: seq<Token>, rowVals: seq<string>,
                    i: nat, from: nat, off: nat, h: nat, end: nat)
    requires Ordered(groups, 0, |q|) && |texts| == |groups|
  {
    && from <= off <= |q| && i <= h <= |groups|
    && from <= (if i < |groups| then groups[i].0 else |q|)
    && end <= (if h < |groups| then groups[h].0 else |q|)
    && Splice(q, groups, texts, i, from) == q[from..off] + (Fill(pre, rowVals) + Splice(q, groups, texts, h, end))
  }

  lemma SplicedChar(q: string, groups: seq<Range>, texts: seq<string>, pre: seq<Token>, rowVals: seq<string>,
                    i: nat, from: nat, off: nat, h: nat, end: nat)
    requires Ordered(groups, 0, |q|) && |texts| == |groups| && from <= off < |q|
    requires pre != [] && pre[0] == Ch(q[off])
    requires Spliced(q, groups, texts, pre[1..], rowVals, i, from, off + 1, h, end)
    ensures Spliced(q, groups, texts, pre, rowVals, i, from, off, h, end)
  {
    GlueChar(q, from, off, q[off], Fill(pre[1..], rowVals), Splice(q, groups, texts, h, end));
  }

  lemma SplicedHole(q: string, groups: seq<Range>, texts: seq<string>, pre: seq<Token>, rowVals: seq<string>,
                    i: nat, from: nat, off: nat, next: nat, h: nat, end: nat)
    requires Ordered(groups, 0, |q|) && |texts| == |groups| && from <= off && i < |groups| && groups[i] == (off, next)
    requires pre != [] && pre[0].Hole? && texts[i] == Arg(rowVals, pre[0].arg)
    requires Spliced(q, groups, texts, pre[1..], rowVals, i + 1, next, next, h, end)
    ensures Spliced(q, groups, texts, pre, rowVals, i, from, off, h, end)
  {
    var x, y := Fill(pre[1..], rowVals), Splice(q, groups, texts, h, end);
    SpliceSlot(q, groups, texts, i, from, off, next, x + y);
    assert texts[i] + (x + y) == (texts[i] + x) + y;
  }

  /** `pre` stands in the text from `off` to `end`; its slots and row texts are those from number `i` on, up to `later`. */
  predicate Ahead(q: string, pre: seq<Token>, vals: seq<string>, rowVals: seq<string>, groups: seq<Range>,
                  texts: seq<string>, i: nat, off: nat, later: seq<Range>, laterTexts: seq<string>, end: nat) {
    && i <= |groups| == |texts|
    && end == off + |Fill(pre, vals)| <= |q| && q[off..end] == Fill(pre, vals)
    && groups[i..] == Slots(pre, vals, off) + later
    && texts[i..] == HoleTexts(pre, rowVals) + laterTexts
  }

  lemma AheadChar(q: string, pre: seq<Token>, vals: seq<string>, rowVals: seq<string>, groups: seq<Range>,
                  texts: seq<string>, i: nat, off: nat, later: seq<Range>, laterTexts: seq<string>, end: nat)
    requires Ahead(q, pre, vals, rowVals, groups, texts, i, off, later, laterTexts, end) && pre != [] && pre[0].Ch?
    ensures off < |q| && pre[0] == Ch(q[off])
    ensures Ahead(q, pre[1..], vals, rowVals, groups, texts, i, off + 1, later, laterTexts, end)
  {
    HeadAt(q, off, [pre[0].c], Fill(pre[1..], vals));
    HolesCons(pre, rowVals);
    assert q[off..off + 1][0] == q[off];
  }

  lemma AheadHole(q: string, pre: seq<Token>, vals: seq<string>, rowVals: seq<string>, groups: seq<Range>,
                  texts: seq<string>, i: nat, off: nat, later: seq<Range>, laterTexts: seq<string>, end: nat)
    requires Ahead(q, pre, vals, rowVals, groups, texts, i, off, later, laterTexts, end) && pre != [] && pre[0].Hole?
    ensures var next := off + |Arg(vals, pre[0].arg)|;
      && i < |groups| && groups[i] == (off, next) && texts[i] == Arg(rowVals, pre[0].arg)
      && Ahead(q, pre[1..], vals, rowVals, groups, texts, i + 1, next, later, laterTexts, end)
  {
    var v := Arg(vals, pre[0].arg);
    var next := off + |v|;
    HeadAt(q, off, v, Fill(pre[1..], vals));
    HolesCons(pre, rowVals);
    ConsTail(groups, i, (off, next), Slots(pre[1..], vals, next), later);
    ConsTail(texts, i, Arg(rowVals, pre[0].arg), HoleTexts(pre[1..], rowVals), laterTexts);
  }

  lemma AheadNone(q: string, vals: seq<string>, rowVals: seq<string>, groups: seq<Range>,
                  texts: seq<string>, i: nat, off: nat, later: seq<Range>, laterTexts: seq<string>, end: nat)
    requires Ahead(q, [], vals, rowVals, groups, texts, i, off, later, laterTexts, end)
    ensures end == off && later == groups[i..]
  {
  }

  lemma SplicedNone(q: string, vals: seq<string>, rowVals: seq<string>, groups: seq<Range>, texts: seq<string>,
                    i: nat, from: nat, off: nat, later: seq<Range>, laterTexts: seq<string>, h: nat, end: nat)
    requires Ordered(groups, 0, |q|) && from <= off && h + |later| == |groups|
    requires Ahead(q, [], vals, rowVals, groups, texts, i, off, later, laterTexts, end)
    requires later != [] ==> end <= later[0].0
    ensures Spliced(q, groups, texts, [], rowVals, i, from, off, h, end)
  {
    AheadNone(q, vals, rowVals, groups, texts, i, off, later, laterTexts, end);
    SpliceFrom(q, groups, texts, i, from, off);
    assert "" + Splice(q, groups, texts, h, end) == Splice(q, groups, texts, h, end);
  }

  /** Splicing through the slots in front of a place in the template. */
  lemma {:induction false} SplicePre(q: string, pre: seq<Token>, vals: seq<string>, rowVals: seq<string>,
                                     groups: seq<Range>, texts: seq<string>, i: nat, from: nat, off: nat,
                                     later: seq<Range>, laterTexts: seq<string>, h: nat, end: nat)
    requires Ordered(groups, 0, |q|) && from <= off && h + |later| == |groups|
    requires Ahead(q, pre, vals, rowVals, groups, texts, i, off, later, laterTexts, end)
    requires later != [] ==> end <= later[0].0
    ensures Spliced(q, groups, texts, pre, rowVals, i, from, off, h, end)
    decreases |pre|
  {
    if pre == [] {
      SplicedNone(q, vals, rowVals, groups, texts, i, from, off, later, laterTexts, h, end);
    } else if pre[0].Ch? {
      AheadChar(q, pre, vals, rowVals, groups, texts, i, off, later, laterTexts, end);
      SplicePre(q, pre[1..], vals, rowVals, groups, texts, i, from, off + 1, later, laterTexts, h, end);
      SplicedChar(q, groups, texts, pre, rowVals, i, from, off, h, end);
    } else {
      var next := off + |Arg(vals, pre[0].arg)|;
      AheadHole(q, pre, vals, rowVals, groups, texts, i, off, later, laterTexts, end);
      SplicePre(q, pre[1..], vals, rowVals, groups, texts, i + 1, next, next, later, laterTexts, h, end);
      SplicedHole(q, groups, texts, pre, rowVals, i, from, off, next, h, end);
    }
  }

  lemma ConsTail<T>(s: seq<T>, i: nat, x: T, rest: seq<T>, later: seq<T>)
    requires i <= |s| && s[i..] == ([x] + rest) + later
    ensures i < |s| && s[i] == x && s[i + 1..] == rest + later
  {
    assert ([x] + rest) + later == [x] + (rest + later);
    assert s[i + 1..] == s[i..][1..];
  }

  /** The slots in front delimit exactly the texts of their holes. */
  lemma {:induction false} PreTexts(q: string, pre: seq<Token>, vals: seq<string>, off: nat)
    requires off + |Fill(pre, vals)| <= |q| && q[off..off + |Fill(pre, vals)|] == Fill(pre, vals)
    ensures Delimit(q, Slots(pre, vals, off), HoleTexts(pre, vals))
    decreases |pre|
  {
    if pre != [] {
      var head := Filled(pre[0], vals);
      HeadAt(q, off, head, Fill(pre[1..], vals));
      PreTexts(q, pre[1..], vals, off + |head|);
      HolesCons(pre, vals);
      if pre[0].Hole? {
        DelimitCons(q, Slots(pre[1..], vals, off + |head|), HoleTexts(pre[1..], vals), off, off + |head|, head);
      }
    }
  }

  lemma {:induction false} HolesOfPrefix(toks: seq<Token>, i: nat, k: nat)
    requires i <= |toks| && k in Holes(toks[..i])
    ensures k in Holes(toks)
    decreases i
  {
    if i > 0 {
      assert toks[..i][0] == toks[0] && toks[..i][1..] == toks[1..][..i - 1];
      if k in Holes(toks[1..][..i - 1]) {
        HolesOfPrefix(toks[1..], i - 1, k);
      }
    }
  }

  /** Row `r` of a column, as it is split and as it is filled in. */
  lemma RowOfColumn(toks: seq<Token>, cols: seq<seq<string>>, n: nat, r: nat, k: nat)
    requires Columns(toks, cols, n) && r < n && k in Holes(toks)
    ensures var split := Split(Arg(Joined(cols), k), SEP); r < |split| && split[r] == Arg(Row(cols, r), k)
  {
    ColumnParts(toks, cols, n, k);
  }

  /** Row `r` of a slot in front. */
  lemma PreRowAt(q: string, toks: seq<Token>, i: nat, cols: seq<seq<string>>, n: nat, r: nat, g: nat, slots: seq<Range>)
    requires i <= |toks| && Columns(toks, cols, n) && r < n && g < |Holes(toks[..i])|
    requires Delimit(q, slots, HoleTexts(toks[..i], Joined(cols)))
    ensures g < |slots| && g < |HoleTexts(toks[..i], Row(cols, r))| && slots[g].0 <= slots[g].1 <= |q|
    ensures var split := Split(q[slots[g].0..slots[g].1], SEP);
      r < |split| && split[r] == HoleTexts(toks[..i], Row(cols, r))[g]
  {
    HoleTextsAt(toks[..i], Joined(cols));
    HoleTextsAt(toks[..i], Row(cols, r));
    var k := Holes(toks[..i])[g];
    assert k in Holes(toks[..i]);
    HolesOfPrefix(toks, i, k);
    RowOfColumn(toks, cols, n, r, k);
  }

  /** Row `r` of the groups in front is row `r` of their columns. */
  lemma PreRow(q: string, toks: seq<Token>, i: nat, cols: seq<seq<string>>, n: nat, r: nat, later: seq<Range>)
    requires i <= |toks| && Columns(toks, cols, n) && r < n
    requires |Fill(toks[..i], Joined(cols))| <= |q| && q[..|Fill(toks[..i], Joined(cols))|] == Fill(toks[..i], Joined(cols))
    requires Groups(q) == Slots(toks[..i], Joined(cols), 0) + later
    requires forall g | 0 <= g < |GroupParts(q)| :: r < |GroupParts(q)[g]|
    ensures var texts := RowTexts(GroupParts(q), r);
      texts == HoleTexts(toks[..i], Row(cols, r)) + texts[|texts| - |later|..]
  {
    var pre := toks[..i];
    var slots, own, texts := Slots(pre, Joined(cols), 0), HoleTexts(pre, Row(cols, r)), RowTexts(GroupParts(q), r);
    PreTexts(q, pre, Joined(cols), 0);
    HoleTextsAt(pre, Joined(cols));
    HoleTextsAt(pre, Row(cols, r));
    forall g | 0 <= g < |own|
      ensures texts[g] == own[g]
    {
      PreRowAt(q, toks, i, cols, n, r, g, slots);
      assert Groups(q)[g] == slots[g];
      assert GroupParts(q)[g] == Split(q[slots[g].0..slots[g].1], SEP);
    }
    FirstOnes(texts, own);
    assert |texts| - |later| == |own|;
  }

  lemma FirstOnes(texts: seq<string>, own: seq<string>)
    requires |own| <= |texts| && forall g | 0 <= g < |own| :: texts[g] == own[g]
    ensures texts == own + texts[|own|..]
  {
  }

  // what the row with the token looks like

  lemma {:induction false} SplitStart(a: string, y: string)
    requires Lacks(a, SEP)
    ensures a <= Split(a + y, SEP)[0]
  {
    if a != "" {
      assert (a + y)[1..] == a[1..] + y;
      SplitStart(a[1..], y);
      assert a == [a[0]] + a[1..];
    }
  }

  lemma {:induction false} SplitUpto(parts: seq<string>, r: nat, w: nat, c: char, y: string)
    requires r < |parts| && w <= |parts[r]| && c != SEP && forall v | v in parts :: Lacks(v, SEP)
    ensures var split := Split(Upto(parts, r, w, c) + y, SEP); r < |split| && parts[r][..w] + [c] <= split[r]
    decreases r
  {
    var v := parts[r][..w] + [c];
    assert parts[r] in parts;
    if r == 0 {
      assert Upto(parts, r, w, c) == v;
      SplitStart(v, y);
    } else {
      assert parts[0] in parts;
      var rest := Upto(parts[1..], r - 1, w, c) + y;
      assert Upto(parts, r, w, c) + y == parts[0] + [SEP] + rest;
      SplitHead(parts[0], rest, SEP);
      SplitUpto(parts[1..], r - 1, w, c, y);
    }
  }

  /** The statement of that row, from the slot on, begins with the row up to the token and then goes on otherwise. */
  lemma RowBegins(q: string, parts: seq<string>, r: nat, w: nat, c: char, groups: seq<Range>, texts: seq<string>, h: nat, at: nat)
    requires Ordered(groups, 0, |q|) && |texts| == |groups| && h <= |groups|
    requires at <= (if h < |groups| then groups[h].0 else |q|)
    requires r < |parts| && w <= |parts[r]| && c != SEP && forall v | v in parts :: Lacks(v, SEP)
    requires var end := at + |Upto(parts, r, w, c)|;
      && end <= |q| && q[at..end] == Upto(parts, r, w, c)
      && (r > 0 ==> h < |groups| && groups[h].0 == at)
      && (h < |groups| ==> (groups[h].0 == at && groups[h].1 >= end) || groups[h].0 > end)
    requires h < |groups| ==>
      var split := Split(q[groups[h].0..groups[h].1], SEP); r < |split| && texts[h] == split[r]
    ensures parts[r][..w] + [c] <= Splice(q, groups, texts, h, at)
  {
    var v, u := parts[r][..w] + [c], Upto(parts, r, w, c);
    var end := at + |u|;
    if h < |groups| && groups[h].0 == at {
      var b := groups[h].1;
      CutAt(q, at, end, b, "");
      assert q[at..b] + "" == q[at..b] && q[end..b] + "" == q[end..b];
      assert q[at..b] == u + q[end..b];
      SplitUpto(parts, r, w, c, q[end..b]);
      assert q[at..at] + texts[h] == texts[h];
    } else {
      assert u == v;
      if h == |groups| {
        assert q[at..] == v + q[end..];
      } else {
        assert q[at..groups[h].0] == v + q[end..groups[h].0];
      }
    }
  }

  lemma Differ(a: string, v: string, c: char, d: char, x: string, y: string)
    requires c != d && v + [c] <= x && v + [d] <= y
    ensures a + x != a + y
  {
    assert x[|v|] == (v + [c])[|v|] == c && y[|v|] == (v + [d])[|v|] == d;
    assert (a + x)[|a| + |v|] == c && (a + y)[|a| + |v|] == d;
  }

  lemma DifferBy(s: string, t: string, a: string, v: string, c: char, d: char, x: string, y: string)
    requires c != d && v + [c] <= x && v + [d] <= y && s == a + x && t == a + y
    ensures s != t
  {
    Differ(a, v, c, d, x, y);
  }

  lemma FillParts(toks: seq<Token>, vals: seq<string>, i: nat)
    requires i < |toks| && toks[i].Hole?
    ensures Fill(toks, vals) == Fill(toks[..i], vals) + (Arg(vals, toks[i].arg) + Fill(toks[i + 1..], vals))
    decreases i
  {
    if i == 0 {
      assert toks[..0] == [];
    } else {
      FillStep(toks, vals, i);
      FillParts(toks[1..], vals, i - 1);
      assert toks[1..][i..] == toks[i + 1..];
    }
  }

  // ------------------------------------------------------------ the statements

  /** A statement is the query with every group replaced by its row, also if there is no group. */
  lemma StatementOf(q: string, r: nat)
    requires NoPanic(q) && r < |Expanded(q)|
    ensures forall g | 0 <= g < |GroupParts(q)| :: r < |GroupParts(q)[g]|
    ensures Ordered(Groups(q), 0, |q|)
    ensures Expanded(q)[r] == Splice(q, Groups(q), RowTexts(GroupParts(q), r), 0, 0)
  {
    GroupsExact(q);
    if Groups(q) == [] {
      assert q[0..] == q;
    }
  }

  /** What is read of a text that is a filled template up to a slot, and in the slot goes its own way from row `r` on. */
  lemma GroupsOf(toks: seq<Token>, cols: seq<seq<string>>, n: nat, i: nat, r: nat, w: nat, c: char, z: string, q: string)
    returns (later: seq<Range>)
    requires Slotted(toks, Plain, true) && Columns(toks, cols, n) && n > 1 && i < |toks| && toks[i].Hole? && r < n
    requires w <= |cols[toks[i].arg - 1][r]| && Inner(c)
    requires q == Fill(toks[..i], Joined(cols)) + (Upto(cols[toks[i].arg - 1], r, w, c) + z)
    ensures var at := |Fill(toks[..i], Joined(cols))|;
      var end := at + |Upto(cols[toks[i].arg - 1], r, w, c)|;
      && Groups(q) == Slots(toks[..i], Joined(cols), 0) + later
      && (r > 0 ==> later != [] && later[0].0 == at)
      && (later != [] ==> (later[0].0 == at && later[0].1 >= end) || later[0].0 > end)
  {
    var col := cols[toks[i].arg - 1];
    var u := Upto(col, r, w, c);
    var at := |Fill(toks[..i], Joined(cols))|;
    ScanPre(toks, cols, n, i, u + z, 0, Plain, 0, true);
    ScanUpto(col, r, w, c, z, at);
    var m := NextMode(Run(Plain, col[r][..w]), c);
    later := Scan(z, at + |u|, m, at, r > 0);
    FirstGroup(z, at + |u|, m, at, r > 0);
  }

  lemma PartOf(q: string, pre: string, u: string, z: string)
    requires q == pre + (u + z)
    ensures |pre| + |u| <= |q| && q[..|pre|] == pre == q[0..|pre|] && q[|pre|..|pre| + |u|] == u
  {
    assert q[|pre|..] == u + z;
    assert q[|pre|..|pre| + |u|] == q[|pre|..][..|u|];
  }

  /** Such a text, and how it is read. */
  predicate Pasted(toks: seq<Token>, cols: seq<seq<string>>, n: nat, i: nat, r: nat, w: nat, c: char, z: string, q: string) {
    && Slotted(toks, Plain, true) && Columns(toks, cols, n) && n > 1 && i < |toks| && toks[i].Hole? && r < n
    && w <= |cols[toks[i].arg - 1][r]| && Inner(c)
    && q == Fill(toks[..i], Joined(cols)) + (Upto(cols[toks[i].arg - 1], r, w, c) + z)
  }

  predicate GroupsAhead(groups: seq<Range>, q: string, pre: seq<Token>, vals: seq<string>, at: nat, end: nat, r: nat,
                        later: seq<Range>) {
    && groups == Slots(pre, vals, 0) + later
    && (r > 0 ==> later != [] && later[0].0 == at)
    && (later != [] ==> (later[0].0 == at && later[0].1 >= end) || later[0].0 > end)
  }

  /** The statement of row `r` fills what stands in front with that row. */
  lemma StatementFront(toks: seq<Token>, cols: seq<seq<string>>, n: nat, i: nat, r: nat, w: nat, c: char, z: string, q: string,
                       later: seq<Range>)
    requires Pasted(toks, cols, n, i, r, w, c, z, q) && NoPanic(q) && r < |Expanded(q)|
    requires var at := |Fill(toks[..i], Joined(cols))|;
      var end := at + |Upto(cols[toks[i].arg - 1], r, w, c)|;
      GroupsAhead(Groups(q), q, toks[..i], Joined(cols), at, end, r, later)
    ensures Ordered(Groups(q), 0, |q|) && |later| <= |Groups(q)|
    ensures forall g | 0 <= g < |GroupParts(q)| :: r < |GroupParts(q)[g]|
    ensures var h, at := |Groups(q)| - |later|, |Fill(toks[..i], Joined(cols))|;
      && at <= (if h < |Groups(q)| then Groups(q)[h].0 else |q|)
      && Expanded(q)[r]
         == Fill(toks[..i], Row(cols, r)) + Splice(q, Groups(q), RowTexts(GroupParts(q), r), h, at)
  {
    var pre, vals, rowVals, col := toks[..i], Joined(cols), Row(cols, r), cols[toks[i].arg - 1];
    var at := |Fill(pre, vals)|;
    StatementOf(q, r);
    PartOf(q, Fill(pre, vals), Upto(col, r, w, c), z);
    PreRow(q, toks, i, cols, n, r, later);
    var groups, texts := Groups(q), RowTexts(GroupParts(q), r);
    var h := |groups| - |later|;
    WholeLists(groups, texts);
    SplicePre(q, pre, vals, rowVals, groups, texts, 0, 0, 0, later, texts[h..], h, at);
    EmptySlice(q, Fill(pre, rowVals) + Splice(q, groups, texts, h, at));
  }

  lemma WholeLists(groups: seq<Range>, texts: seq<string>)
    ensures groups[0..] == groups && texts[0..] == texts
  {
  }

  lemma EmptySlice(q: string, x: string)
    ensures q[0..0] + x == x
  {
  }

  /** And, from the slot on, begins with the row up to the token. */
  lemma StatementBack(toks: seq<Token>, cols: seq<seq<string>>, n: nat, i: nat, r: nat, w: nat, c: char, z: string, q: string,
                      later: seq<Range>, h: nat, at: nat)
    requires Pasted(toks, cols, n, i, r, w, c, z, q) && Ordered(Groups(q), 0, |q|)
    requires forall g | 0 <= g < |GroupParts(q)| :: r < |GroupParts(q)[g]|
    requires at == |Fill(toks[..i], Joined(cols))| && h + |later| == |Groups(q)|
    requires GroupsAhead(Groups(q), q, toks[..i], Joined(cols), at, at + |Upto(cols[toks[i].arg - 1], r, w, c)|, r, later)
    requires at <= (if h < |Groups(q)| then Groups(q)[h].0 else |q|)
    ensures cols[toks[i].arg - 1][r][..w] + [c] <= Splice(q, Groups(q), RowTexts(GroupParts(q), r), h, at)
  {
    var col, groups, texts := cols[toks[i].arg - 1], Groups(q), RowTexts(GroupParts(q), r);
    PartOf(q, Fill(toks[..i], Joined(cols)), Upto(col, r, w, c), z);
    assert h < |groups| ==> groups[h] == later[0];
    RowBegins(q, col, r, w, c, groups, texts, h, at);
  }

  /** The text of a statement of such a text, from the slot on. */
  lemma StatementBegins(toks: seq<Token>, cols: seq<seq<string>>, n: nat, i: nat, r: nat, w: nat, c: char, z: string, q: string)
    returns (rest: string)
    requires Pasted(toks, cols, n, i, r, w, c, z, q) && NoPanic(q) && r < |Expanded(q)|
    ensures Expanded(q)[r] == Fill(toks[..i], Row(cols, r)) + rest
    ensures cols[toks[i].arg - 1][r][..w] + [c] <= rest
  {
    var at := |Fill(toks[..i], Joined(cols))|;
    var later := GroupsOf(toks, cols, n, i, r, w, c, z, q);
    StatementFront(toks, cols, n, i, r, w, c, z, q, later);
    var h := |Groups(q)| - |later|;
    StatementBack(toks, cols, n, i, r, w, c, z, q, later, h, at);
    rest := Splice(q, Groups(q), RowTexts(GroupParts(q), r), h, at);
  }

  lemma UpToChar(row: string, w: nat, post: string)
    requires w < |row|
    ensures row[..w] + [row[w]] <= row + post
  {
    assert row[..w + 1] == row[..w] + [row[w]];
  }

  /** A filled template from a slot on. */
  lemma OwnText(toks: seq<Token>, vals: seq<string>, i: nat, w: nat) returns (own: string)
    requires i < |toks| && toks[i].Hole? && w < |Arg(vals, toks[i].arg)|
    ensures Fill(toks, vals) == Fill(toks[..i], vals) + own
    ensures var row := Arg(vals, toks[i].arg); row[..w] + [row[w]] <= own
  {
    own := Arg(vals, toks[i].arg) + Fill(toks[i + 1..], vals);
    FillParts(toks, vals, i);
    UpToChar(Arg(vals, toks[i].arg), w, Fill(toks[i + 1..], vals));
  }

  lemma RowArg(toks: seq<Token>, cols: seq<seq<string>>, n: nat, i: nat, r: nat)
    requires Columns(toks, cols, n) && i < |toks| && toks[i].Hole? && r < n
    ensures Arg(Row(cols, r), toks[i].arg) == cols[toks[i].arg - 1][r]
  {
  }

  /** So the statement of row `r` is another one, if the row goes on with another character. */
  lemma StatementDiffers(toks: seq<Token>, cols: seq<seq<string>>, n: nat, i: nat, r: nat, w: nat, c: char, z: string, q: string)
    requires Pasted(toks, cols, n, i, r, w, c, z, q) && NoPanic(q) && r < |Expanded(q)|
    requires w < |cols[toks[i].arg - 1][r]| && cols[toks[i].arg - 1][r][w] != c
    ensures Expanded(q)[r] != Fill(toks, Row(cols, r))
  {
    var rest := StatementBegins(toks, cols, n, i, r, w, c, z, q);
    RowArg(toks, cols, n, i, r);
    var own := OwnText(toks, Row(cols, r), i, w);
    var row := cols[toks[i].arg - 1][r];
    DifferBy(Expanded(q)[r], Fill(toks, Row(cols, r)), Fill(toks[..i], Row(cols, r)), row[..w], c, row[w], rest, own);
  }

  lemma {:induction false} SepSplits(s: string)
    requires SEP in s
    ensures |Split(s, SEP)| >= 2
  {
    if s[0] != SEP {
      SepSplits(s[1..]);
    }
  }

  lemma GroupOfTwo(q: string)
    requires Groups(q) != []
    ensures |GroupParts(q)[0]| >= 2
  {
    GroupsExact(q);
    var g := Groups(q)[0];
    assert (g.0, g.1) in Groups(q) && IsGroup(q, g.0, g.1);
    var k :| g.0 <= k < g.1 && SepAt(q, k);
    assert q[g.0..g.1][k - g.0] == SEP;
    SepSplits(q[g.0..g.1]);
    assert GroupParts(q)[0] == Split(q[g.0..g.1], SEP);
  }

  /** A text that is sent as one statement is sent as it is. */
  lemma OneStatement(q: string)
    requires NoPanic(q) && |Expanded(q)| == 1
    ensures Expanded(q) == [q]
  {
    if Groups(q) != [] {
      GroupOfTwo(q);
    }
  }

  /** The statements are those of the rows. */
  ghost predicate Right(q: string, toks: seq<Token>, cols: seq<seq<string>>, n: nat)
    requires forall k | 0 <= k < |cols| :: |cols[k]| == n
  {
    NoPanic(q) && |Expanded(q)| == n && forall r | 0 <= r < n :: Expanded(q)[r] == Fill(toks, Row(cols, r))
  }

  /** Where the token stands in the filled template. */
  lemma PlaceIn(toks: seq<Token>, cols: seq<seq<string>>, n: nat, p: nat) returns (i: nat, r: nat, w: nat)
    requires Slotted(toks, Plain, true) && Columns(toks, cols, n) && NoToken(Source(toks))
    requires p <= |Fill(toks, Joined(cols))| && TOKEN <= Fill(toks, Joined(cols))[p..]
    ensures i < |toks| && toks[i].Hole? && 1 <= toks[i].arg <= |cols| && r < n
    ensures w < |cols[toks[i].arg - 1][r]| && cols[toks[i].arg - 1][r][w] == '_'
    ensures Fill(toks, Joined(cols))[..p]
         == Fill(toks[..i], Joined(cols)) + (Before(cols[toks[i].arg - 1], r) + cols[toks[i].arg - 1][r][..w])
  {
    var vals := Joined(cols);
    var o;
    i, o := SlotOf(toks, vals, Plain, true, p);
    var col := cols[toks[i].arg - 1];
    r, w := RowOf(col, o);
    FillParts(toks, vals, i);
    CutThrough(Fill(toks[..i], vals), Arg(vals, toks[i].arg), Fill(toks[i + 1..], vals), o);
    assert col[r][w..][0] == TOKEN[0];
  }

  /** The template up to the slot of the token, and the slot up to the token. */
  lemma PlaceOf(toks: seq<Token>, cols: seq<seq<string>>, n: nat, raw: string, q: string)
    returns (i: nat, r: nat, w: nat, z: string, p: nat)
    requires Slotted(toks, Plain, true) && Columns(toks, cols, n) && NoToken(Source(toks))
    requires !NoToken(Fill(toks, Joined(cols))) && raw != "" && q == ReplaceValues(Fill(toks, Joined(cols)), raw)
    ensures i < |toks| && toks[i].Hole? && 1 <= toks[i].arg <= |cols| && r < n
    ensures w < |cols[toks[i].arg - 1][r]| && cols[toks[i].arg - 1][r][w] == '_'
    ensures q == Fill(toks[..i], Joined(cols)) + (Upto(cols[toks[i].arg - 1], r, w, raw[0]) + z)
    ensures p < |Fill(toks, Joined(cols))| && p < |q| && Fill(toks, Joined(cols))[p] == '_' && q[p] == raw[0]
  {
    var f := Fill(toks, Joined(cols));
    var rest;
    p, rest := FirstToken(f, raw);
    i, r, w := PlaceIn(toks, cols, n, p);
    var col := cols[toks[i].arg - 1];
    z := raw[1..] + rest;
    PasteIn(Fill(toks[..i], Joined(cols)), Before(col, r), col[r][..w], raw, rest);
    assert f[p..][0] == TOKEN[0];
    PastedChar(f[..p], raw, rest);
  }

  lemma PastedChar(a: string, raw: string, rest: string)
    requires raw != ""
    ensures |a| < |a + (raw + rest)| && (a + (raw + rest))[|a|] == raw[0]
  {
  }

  lemma CutThrough(a: string, v: string, b: string, o: nat)
    requires o <= |v|
    ensures (a + (v + b))[..|a| + o] == a + v[..o]
  {
  }

  lemma PasteIn(a: string, b: string, c: string, raw: string, rest: string)
    requires raw != ""
    ensures (a + (b + c)) + (raw + rest) == a + ((b + (c + [raw[0]])) + (raw[1..] + rest))
  {
    assert raw == [raw[0]] + raw[1..];
  }

  lemma OneRowWrong(toks: seq<Token>, cols: seq<seq<string>>, q: string)
    requires Columns(toks, cols, 1) && q != Fill(toks, Joined(cols))
    ensures !Right(q, toks, cols, 1)
  {
    assert Joined(cols) == Row(cols, 0);
    if NoPanic(q) && |Expanded(q)| == 1 {
      OneStatement(q);
    }
  }

  /** If a filled template holds the token, putting a text in its place makes some statement another one. */
  lemma TokenWrong(toks: seq<Token>, cols: seq<seq<string>>, n: nat, raw: string, q: string)
    requires Slotted(toks, Plain, true) && Columns(toks, cols, n) && NoToken(Source(toks))
    requires !NoToken(Fill(toks, Joined(cols))) && raw != "" && Inner(raw[0])
    requires q == ReplaceValues(Fill(toks, Joined(cols)), raw)
    ensures !Right(q, toks, cols, n)
  {
    var i, r, w, z, p := PlaceOf(toks, cols, n, raw, q);
    if n == 1 {
      OneRowWrong(toks, cols, q);
    } else if Right(q, toks, cols, n) {
      StatementDiffers(toks, cols, n, i, r, w, raw[0], z, q);
    }
  }

  // -------------------------------------------------------- a batch of values

  /** No formatted value begins like the token, with a delimiter or with a separator. */
  lemma FormattedHead(v: Value, driver: Driver)
    requires driver != MongoDB && Generated(v)
    ensures var s := SQLFormatValue(v, driver); s != "" && Inner(s[0])
  {
    match v
    case Int(n) => assert IntText(n)[0] == '-' || IsDigit(IntText(n)[0]);
    case Whole(n) => assert IntText(n)[0] == '-' || IsDigit(IntText(n)[0]);
    case Fraction(negative, whole, decimals) =>
      var s := SQLFormatValue(v, driver);
      assert s[0] == '-' || s[0] == Itoa(whole)[0];
    case _ =>
  }

  lemma PrefixOfMore(p: string, a: string, b: string)
    ensures p <= a ==> p <= a + b
  {
  }

  lemma NoTokenPart(a: string, b: string, c: string)
    requires NoToken(a + b + c)
    ensures NoToken(b)
  {
    var s := a + b + c;
    forall i | 0 <= i <= |b|
      ensures !(TOKEN <= b[i..])
    {
      assert s[|a| + i..] == b[i..] + c;
      PrefixOfMore(TOKEN, b[i..], c);
    }
  }

  /** A text that holds the token shows it where the text is filled in. */
  lemma {:induction false} TokenShows(toks: seq<Token>, vals: seq<string>, k: nat)
    requires k in Holes(toks) && NoToken(Fill(toks, vals))
    ensures NoToken(Arg(vals, k))
  {
    var head, rest := Filled(toks[0], vals), Fill(toks[1..], vals);
    HolesCons(toks, vals);
    assert Fill(toks, vals) == "" + head + rest == head + rest + "";
    if toks[0].Hole? && toks[0].arg == k {
      NoTokenPart("", head, rest);
    } else {
      NoTokenPart(head, rest, "");
      TokenShows(toks[1..], vals, k);
    }
  }

  lemma {:induction false} JoinShows(parts: seq<string>, r: nat)
    requires r < |parts| && NoToken(Join(parts, SEP))
    ensures NoToken(parts[r])
  {
    if |parts| > 1 {
      var rest := Join(parts[1..], SEP);
      assert Join(parts, SEP) == "" + parts[0] + ([SEP] + rest) == (parts[0] + [SEP]) + rest + "";
      if r == 0 {
        NoTokenPart("", parts[0], [SEP] + rest);
      } else {
        NoTokenPart(parts[0] + [SEP], rest, "");
        JoinShows(parts[1..], r - 1);
      }
    }
  }

  lemma ColumnShows(column: seq<Value>, driver: Driver)
    requires driver != MongoDB && NoToken(Join(Formatted(column, driver), SEP))
    ensures ColumnTokenFree(column, driver)
  {
    forall r | 0 <= r < |column|
      ensures NoToken(SQLFormatValue(column[r], driver))
    {
      JoinShows(Formatted(column, driver), r);
    }
  }

  lemma UsedShows(toks: seq<Token>, cols: seq<seq<Value>>, driver: Driver, vals: seq<string>, k: nat)
    requires driver != MongoDB && k in Holes(toks) && 1 <= k <= |cols| == |vals|
    requires vals[k - 1] == Join(Formatted(cols[k - 1], driver), SEP) && NoToken(Fill(toks, vals))
    ensures ColumnTokenFree(cols[k - 1], driver)
  {
    TokenShows(toks, vals, k);
    ColumnShows(cols[k - 1], driver);
  }

  lemma AllUsedShow(toks: seq<Token>, cols: seq<seq<Value>>, driver: Driver, vals: seq<string>)
    requires driver != MongoDB && |cols| == |vals| && NoToken(Fill(toks, vals))
    requires forall k | 0 <= k < |cols| :: vals[k] == Join(Formatted(cols[k], driver), SEP)
    ensures forall k | k in Holes(toks) && 1 <= k <= |cols| :: ColumnTokenFree(cols[k - 1], driver)
  {
    forall k | k in Holes(toks) && 1 <= k <= |cols|
      ensures ColumnTokenFree(cols[k - 1], driver)
    {
      UsedShows(toks, cols, driver, vals, k);
    }
  }

  /** If the filled template does not hold the token, no value of a column in use does. */
  lemma TokenFreeValues(query: string, cols: seq<seq<Value>>, driver: Driver)
    requires driver != MongoDB
    requires NoToken(Fill(Tokenize(query, NoUnits(|cols|)), Joined(FormattedColumns(cols, driver))))
    ensures TokenFree(query, cols, driver)
  {
    AllUsedShow(Tokenize(query, NoUnits(|cols|)), cols, driver, Joined(FormattedColumns(cols, driver)));
  }

  /** The first argument, which is put in place of the token, begins like a value. */
  lemma FirstArgument(query: string, cols: seq<seq<Value>>, n: nat, driver: Driver, args: seq<Value>)
    requires driver != MongoDB && Rows(cols, n) && BatchTemplate(query, |cols|) && ColumnArgs(args, cols, driver)
    ensures args != [] && args[0].Raw? && args[0].sql != "" && Inner(args[0].sql[0])
  {
    var toks, texts := Tokenize(query, NoUnits(|cols|)), FormattedColumns(cols, driver);
    HolesInRange(toks, NoUnits(|cols|));
    HolesBound(toks, |cols|);
    assert Holes(toks)[0] in Holes(toks);
    FormattedHead(cols[0][0], driver);
    var parts := texts[0];
    assert parts[0] == SQLFormatValue(cols[0][0], driver);
    assert Join(parts, SEP)[0] == parts[0][0];
  }

  lemma RightSends(q: string, query: string, cols: seq<seq<Value>>, n: nat, driver: Driver)
    requires driver != MongoDB && Rows(cols, n) && BatchTemplate(query, |cols|)
    ensures SendsRows(q, query, cols, n, driver) <==>
            Right(q, Tokenize(query, NoUnits(|cols|)), FormattedColumns(cols, driver), n)
  {
    forall r | 0 <= r < n
      ensures Fill(Tokenize(query, NoUnits(|cols|)), Row(FormattedColumns(cols, driver), r)) == RowStatement(query, cols, r, driver)
    {
      RowReady(query, cols, n, r, driver);
    }
  }

  /**
   The text that is expanded for a batch, whose query does not hold the token,
   gives the statements of the rows if and only if no value of a column that the
   query uses holds it.
   */
  lemma BatchExact(query: string, cols: seq<seq<Value>>, n: nat, driver: Driver, args: seq<Value>)
    requires driver != MongoDB && Rows(cols, n) && BatchTemplate(query, |cols|) && NoToken(query)
    requires ColumnArgs(args, cols, driver)
    ensures SendsRows(Inlined(query, args, driver), query, cols, n, driver) <==> TokenFree(query, cols, driver)
  {
    var toks, texts := Tokenize(query, NoUnits(|cols|)), FormattedColumns(cols, driver);
    var f := Fill(toks, Joined(texts));
    ColumnsInlined(query, cols, n, driver, args);
    if TokenFree(query, cols, driver) {
      BatchRight(query, cols, n, driver, args);
    } else {
      if NoToken(f) {
        TokenFreeValues(query, cols, driver);
      }
      FirstArgument(query, cols, n, driver, args);
      ColumnsReady(query, cols, n, driver);
      SourceTokenize(query, NoUnits(|cols|));
      TokenWrong(toks, texts, n, args[0].sql, Inlined(query, args, driver));
      RightSends(Inlined(query, args, driver), query, cols, n, driver);
    }
  }

  // -------------------------------------------------------------- an example

  lemma ScanSep(rest: string, off: nat, start: nat)
    ensures Scan([SEP] + rest, off, Plain, start, false) == Scan(rest, off + 1, Plain, start, true)
  {
    assert ([SEP] + rest)[1..] == rest;
  }

  lemma ScanLast(b: string, off: nat, start: nat)
    requires Quiet(Plain, b) && Run(Plain, b) == Plain
    ensures Scan(b + ")", off, Plain, start, true) == [(start, off + |b|)]
  {
    ScanQuiet(Plain, b, ")", off, start, true);
    ScanBehind(')', "", off + |b|, start, true);
    assert [')'] + "" == ")";
    assert Scan("", off + |b| + 1, Plain, off + |b| + 1, false) == [];
  }

  lemma ScanChain(a: string, rest: string, groups: seq<Range>)
    requires Quiet(Plain, a) && Run(Plain, a) == Plain && Scan(rest, 1 + |a|, Plain, 1, false) == groups
    ensures Scan(a + rest, 1, Plain, 1, false) == groups
  {
    ScanQuiet(Plain, a, rest, 1, 1, false);
  }

  lemma ScanTwo(a: string, b: string, c: string, d: string)
    requires Quiet(Plain, a) && Run(Plain, a) == Plain && Quiet(Plain, b) && Run(Plain, b) == Plain
    requires c == b + ")" && d == [SEP] + c
    ensures Scan(a + d, 1, Plain, 1, false) == [(1, 2 + |a| + |b|)]
  {
    ScanLast(b, 2 + |a|, 1);
    ScanSep(c, 1 + |a|, 1);
    ScanChain(a, d, [(1, 2 + |a| + |b|)]);
  }

  lemma CutTwo(a: string, b: string)
    ensures var q := "(" + (a + ([SEP] + (b + ")"))); 2 + |a| + |b| <= |q| && q[1..2 + |a| + |b|] == a + ([SEP] + b)
  {
    var q := "(" + (a + ([SEP] + (b + ")")));
    assert q == "(" + (a + ([SEP] + b)) + ")";
  }

  /** One group of two texts of any kind. */
  lemma OneGroup(q: string, a: string, b: string)
    requires Quiet(Plain, a) && Run(Plain, a) == Plain && Quiet(Plain, b) && Run(Plain, b) == Plain
    requires q == "(" + (a + ([SEP] + (b + ")")))
    ensures NoPanic(q) && |Expanded(q)| == |Split(a + ([SEP] + b), SEP)|
  {
    ScanTwo(a, b, b + ")", [SEP] + (b + ")"));
    ScanBehind('(', a + ([SEP] + (b + ")")), 0, 0, false);
    CutTwo(a, b);
    assert Groups(q) == [(1, 2 + |a| + |b|)];
    assert GroupParts(q) == [Split(a + ([SEP] + b), SEP)];
  }

  lemma TwoQuotes()
    ensures Quiet(Plain, "''") && Run(Plain, "''") == Plain
  {
    assert "''"[1..] == "'" && "'"[1..] == "";
  }

  lemma QuotedSep()
    ensures var sep := "'" + ([SEP] + "'"); Quiet(Plain, sep) && Run(Plain, sep) == Plain
  {
    assert "'"[1..] == "" && [SEP][1..] == "";
    assert Quiet(Plain, "'") && Run(Plain, "'") == Single;
    assert Quiet(Single, [SEP]) && Run(Single, [SEP]) == Single;
    assert Quiet(Single, "'") && Run(Single, "'") == Plain;
    QuietConcat(Single, [SEP], "'");
    QuietConcat(Plain, "'", [SEP] + "'");
  }

  /** Read as text without quotes: a value in two pairs of quotes, a quoted separator, and a letter between quotes. */
  lemma PastedQuiet(t: string)
    requires Bare(t)
    ensures var a := "''" + t + ("'" + ([SEP] + "'")) + "b" + "''"; Quiet(Plain, a) && Run(Plain, a) == Plain
  {
    var sep := "'" + ([SEP] + "'");
    TwoQuotes();
    QuotedSep();
    BareQuiet(t);
    BareQuiet("b");
    QuietConcat(Plain, "''", t);
    QuietConcat(Plain, "''" + t, sep);
    QuietConcat(Plain, "''" + t + sep, "b");
    QuietConcat(Plain, "''" + t + sep + "b", "''");
  }

  lemma ThreeParts(x: string, y: string, z: string)
    requires Lacks(x, SEP) && Lacks(y, SEP) && Lacks(z, SEP)
    ensures Split(x + [SEP] + (y + [SEP] + z), SEP) == [x, y, z]
  {
    SplitHead(x, y + [SEP] + z, SEP);
    SplitHead(y, z, SEP);
    SplitHead(z, "", SEP);
  }

  lemma NoTokenStart(s: string, raw: string)
    requires Lacks(s, '_')
    ensures ReplaceValues(s, raw) == s
  {
    assert forall i | 0 <= i <= |s| && TOKEN <= s[i..] :: s[i] == TOKEN[0] == '_';
    NothingReplaced(s, raw);
  }

  /** The token between quotes, behind a parenthesis. */
  lemma TokenPasted(rest: string, raw: string)
    requires Lacks(rest, '_') && rest != "" && rest[0] == '\''
    ensures ReplaceValues(['('] + (['\''] + (TOKEN + rest)), raw) == ['('] + (['\''] + (raw + rest))
  {
    CharPassed('(', ['\''] + (TOKEN + rest), raw);
    CharPassed('\'', TOKEN + rest, raw);
    TokenReplaced(rest, raw);
    NoTokenStart(rest, raw);
  }

  /** The column inlined for `($1)`, and that text with the column in place of the token. */
  lemma PastedTexts(t: string, sep: string)
    ensures var raw, rest := "'" + t + "'" + (sep + "'b'"), "'" + (sep + "'b')");
      && "(" + raw + ")" == ['('] + (['\''] + (t + rest))
      && ['('] + (['\''] + (raw + rest)) == "(" + (("''" + t + ("'" + (sep + "'")) + "b" + "''") + (sep + ("'b'" + ")")))
  {
  }

  lemma PastedParts(t: string)
    requires Lacks(t, SEP)
    ensures |Split(("''" + t + ("'" + ([SEP] + "'")) + "b" + "''") + ([SEP] + "'b'"), SEP)| == 3
  {
    ThreeParts("''" + t + "'", "'b''", "'b'");
    assert ("''" + t + ("'" + ([SEP] + "'")) + "b" + "''") + ([SEP] + "'b'") == ("''" + t + "'") + [SEP] + ("'b''" + [SEP] + "'b'");
  }

  lemma QuotedPlain(s: string)
    requires Lacks(s, '\'')
    ensures Quote(s) == "'" + s + "'"
  {
    ReplaceAbsent(s, "'", "''", 0);
  }

  lemma JoinTwo(x: string, y: string)
    ensures Join([x, y], SEP) == x + [SEP] + y
  {
    assert [x, y][1..] == [y];
  }

  lemma FormatPlain(s: string, driver: Driver)
    requires driver != MongoDB && Lacks(s, '\'') && |s| != 36
    ensures SQLFormatValue(Str(s), driver) == "'" + s + "'"
  {
    QuotedPlain(s);
  }

  lemma TwoRows(s: string, t: string, driver: Driver)
    requires driver != MongoDB && Lacks(s, '\'') && |s| != 36 && Lacks(t, '\'') && |t| != 36
    ensures Join(Formatted([Str(s), Str(t)], driver), SEP) == ("'" + s + "'") + [SEP] + ("'" + t + "'")
  {
    var values := [Str(s), Str(t)];
    FormatPlain(s, driver);
    FormatPlain(t, driver);
    assert Formatted(values, driver) == ["'" + s + "'", "'" + t + "'"];
    JoinTwo("'" + s + "'", "'" + t + "'");
  }

  lemma ThreeStatements(t: string)
    requires Bare(t)
    ensures var q := "(" + (("''" + t + ("'" + ([SEP] + "'")) + "b" + "''") + ([SEP] + ("'b'" + ")")));
      NoPanic(q) && |Expanded(q)| == 3
  {
    var a := "''" + t + ("'" + ([SEP] + "'")) + "b" + "''";
    PastedQuiet(t);
    PlainSingle("b");
    QuotedAtomic("b");
    OneGroup("(" + (a + ([SEP] + ("'b'" + ")"))), a, "'b'");
    PastedParts(t);
  }

  lemma TokenChars()
    ensures Bare(TOKEN) && Lacks(TOKEN, '\'') && |TOKEN| == 10
  {
    assert forall i | 0 <= i < |TOKEN| :: IsWord(TOKEN[i]);
    assert forall c | c in TOKEN :: IsWord(c);
  }

  lemma PastedInline(raw: string)
    requires raw == ("'" + TOKEN + "'") + [SEP] + ("'" + "b" + "'")
    ensures WithValues("(" + raw + ")", [Raw(raw)])
         == "(" + (("''" + TOKEN + ("'" + ([SEP] + "'")) + "b" + "''") + ([SEP] + ("'b'" + ")")))
  {
    assert raw == "'" + TOKEN + "'" + ([SEP] + "'b'");
    PastedTexts(TOKEN, [SEP]);
    TokenPasted("'" + ([SEP] + "'b')"), raw);
  }

  /** The query `($1)` as a template. */
  function Parenthesized(): seq<Token> {
    [Ch('('), Hole(1, ""), Ch(')')]
  }

  lemma ParenthesizedParts()
    ensures Parenthesized()[1..] == [Hole(1, "")] + [Ch(')')] && ([Hole(1, "")] + [Ch(')')])[1..] == [Ch(')')]
    ensures [Ch(')')][1..] == []
  {
  }

  lemma ParenthesizedForm(units: seq<set<char>>)
    requires units == [{}]
    ensures WellFormed(Parenthesized(), units)
  {
    ParenthesizedParts();
    var last, tail := [Ch(')')], [Hole(1, "")] + [Ch(')')];
    assert HeadOk(Ch(')'), [], units);
    assert WellFormed(last, units);
    assert HeadOk(Hole(1, ""), last, units);
    assert WellFormed(tail, units);
    assert HeadOk(Ch('('), tail, units);
  }

  lemma ParenthesizedTexts(vals: seq<string>)
    requires |vals| == 1
    ensures Source(Parenthesized()) == "($1)"
    ensures Fill(Parenthesized(), vals) == "(" + vals[0] + ")"
  {
    ParenthesizedParts();
    var last, tail := [Ch(')')], [Hole(1, "")] + [Ch(')')];
    assert Itoa(1) == "1";
    assert Written(Hole(1, "")) == "$1";
    assert Source(last) == ")" + Source([]) && Fill(last, vals) == ")" + Fill([], vals);
    assert Source(last) == ")" && Fill(last, vals) == ")";
    assert tail[0] == Hole(1, "");
    assert Source(tail) == "$1" + ")" && Fill(tail, vals) == vals[0] + ")";
    assert Parenthesized()[0] == Ch('(');
  }

  lemma ParenthesizedFill(units: seq<set<char>>, raw: string)
    requires units == [{}] && Lacks(raw, '$')
    ensures Replaced("($1)", units, [raw]) == "(" + raw + ")"
  {
    ParenthesizedForm(units);
    ParenthesizedTexts([raw]);
    ReplacedAtOnce(Parenthesized(), units, [raw]);
  }

  lemma NoDollarThere()
    ensures Lacks(("'" + TOKEN + "'") + [SEP] + ("'" + "b" + "'"), '$')
  {
    TokenChars();
    assert forall c | c in TOKEN :: IsWord(c);
  }

  /**
   The text of a column replaces the token in its own first value: for the query
   `($1)` and the rows `__values__` and `b` three statements are sent.
   */
  lemma TokenInValue(driver: Driver)
    requires driver != MongoDB
    ensures var args := [Raw(Join(Formatted([Str(TOKEN), Str("b")], driver), SEP))];
      NoPanic(Inlined("($1)", args, driver)) && |Expanded(Inlined("($1)", args, driver))| == 3
  {
    TokenChars();
    TwoRows(TOKEN, "b", driver);
    var raw := Join(Formatted([Str(TOKEN), Str("b")], driver), SEP);
    NoDollarThere();
    assert Units([Raw(raw)], {'\'', '"'}, {}) == [{}] && Formatted([Raw(raw)], driver) == [raw];
    ParenthesizedFill([{}], raw);
    PastedInline(raw);
    ThreeStatements(TOKEN);
  }
}
