/**
 When the replaces of `Inline` amount to one substitution: exactly on the
 templates that are well-formed (`WellFormedExact`).

 A template that is not well-formed is substituted wrongly for some values that
 are letters between two edges, argument `k` having `k` letters. The replaces are
 followed on items. The letters count what was read: a numeral that is read as a
 longer one, or a `$` that is read at all, leaves more letters than there should
 be. And where the numbers are right, a quote that is taken wrongly, or left,
 moves the letters behind it, from the first such place on.
 */
module InlineLimits {
  import opened Strings
  import opened Inline

  /** The replaces are one substitution for all values without `$`. */
  ghost predicate Substitutes(toks: seq<Token>, units: seq<set<char>>) {
    forall vals: seq<string> | |vals| == |units| && DollarFree(vals) ::
      Replaced(Source(toks), units, vals) == Fill(toks, vals)
  }

  lemma WellFormedSubstitutes(toks: seq<Token>, units: seq<set<char>>)
    requires WellFormed(toks, units)
    ensures Substitutes(toks, units)
  {
    forall vals: seq<string> | |vals| == |units| && DollarFree(vals)
      ensures Replaced(Source(toks), units, vals) == Fill(toks, vals)
    {
      ReplacedAtOnce(toks, units, vals);
    }
  }

  // ------------------------------------------------------------------- items

  /** The characters around the letters of every value. */
  datatype Edges = Edges(pre: char, post: char)
  {
    predicate Valid() { pre != '$' && post != '$' && pre != 'x' && post != 'x' }
  }

  /**
   A text between two replaces: characters; placeholders still to be read, with
   their quotes or without; and the letters of an argument that has been read,
   with whether its placeholder was a quoted one and whether it took quotes along.
   */
  datatype Item = Lit(c: char) | Pending(arg: nat, quoted: bool) | Core(arg: nat, quoted: bool, eaten: bool)

  function Letters(k: nat): (s: string)
    ensures |s| == k && forall c | c in s :: c == 'x'
  {
    if k == 0 then "" else ['x'] + Letters(k - 1)
  }

  function Value(k: nat, e: Edges): string {
    [e.pre] + (Letters(k) + [e.post])
  }

  function Values(n: nat, e: Edges): (vals: seq<string>)
    ensures |vals| == n && forall i | 0 <= i < n :: vals[i] == Value(i + 1, e)
  {
    seq(n, i requires 0 <= i < n => Value(i + 1, e))
  }

  function ItemText(i: Item): string {
    match i
    case Lit(c) => [c]
    case Pending(a, _) => Placeholder(a)
    case Core(k, _, _) => Letters(k)
  }

  function Text(items: seq<Item>): string {
    if items == [] then "" else ItemText(items[0]) + Text(items[1..])
  }

  function Lits(s: string): (items: seq<Item>)
    ensures |items| == |s| && forall i | 0 <= i < |s| :: items[i] == Lit(s[i])
  {
    seq(|s|, i requires 0 <= i < |s| => Lit(s[i]))
  }

  /** The items begin with the characters `s`. */
  predicate Chars(items: seq<Item>, s: string) {
    |s| <= |items| && forall i | 0 <= i < |s| :: items[i] == Lit(s[i])
  }

  /** No placeholder above `j` is still to be read. */
  predicate Below(items: seq<Item>, j: nat) {
    forall i | 0 <= i < |items| :: (items[i].Pending? ==> 1 <= items[i].arg <= j) && (items[i].Core? ==> items[i].arg >= 1)
  }

  /** `s` has no character that is at the beginning of a placeholder or of the letters of a value. */
  predicate Simple(s: string) {
    Lacks(s, '$') && Lacks(s, 'x')
  }

  lemma Prefix(a: string, b: string, t: string)
    ensures a + b <= a + t <==> b <= t
  {
    assert (a + b)[|a|..] == b && (a + t)[|a|..] == t;
    if a + b <= a + t {
      assert b == (a + t)[|a|..|a| + |b|];
    }
  }

  lemma Associate(a: string, b: string, c: string)
    ensures (a + b) + c == a + (b + c)
  {
  }

  lemma {:induction false} CharsText(items: seq<Item>, s: string, j: nat)
    requires Below(items, j) && Simple(s)
    ensures s <= Text(items) <==> Chars(items, s)
    ensures Chars(items, s) ==> Text(items) == s + Text(items[|s|..])
  {
    if s != "" && items != [] {
      assert s == [s[0]] + s[1..];
      if items[0] == Lit(s[0]) {
        CharsText(items[1..], s[1..], j);
        Prefix([s[0]], s[1..], Text(items[1..]));
        CharsCons(items, s);
      } else {
        assert Text(items)[0] == ItemText(items[0])[0] != s[0];
      }
    } else if s == "" {
      assert items[|s|..] == items;
    }
  }

  lemma CharsCons(items: seq<Item>, s: string)
    requires s != "" && items != [] && items[0] == Lit(s[0])
    ensures Chars(items, s) <==> Chars(items[1..], s[1..])
    ensures Chars(items, s) ==> items[|s|..] == items[1..][|s[1..]|..]
  {
    if Chars(items[1..], s[1..]) {
      forall i | 0 <= i < |s|
        ensures items[i] == Lit(s[i])
      {
        if i > 0 {
          assert items[1..][i - 1] == Lit(s[1..][i - 1]);
        }
      }
    }
  }

  // ------------------------------------------------------ one replace of items

  predicate Quoting(w: string) {
    w == "" || w == "'" || w == "\""
  }

  predicate Dollar(i: Item) {
    i == Lit('$') || i.Pending?
  }

  function Numeral(i: Item): string {
    if i.Pending? then Itoa(i.arg) else ""
  }

  /** What a numeral still needs to be read as that of `j`. */
  function Missing(i: Item, j: nat): (s: string)
    requires Numeral(i) <= Itoa(j)
  {
    Itoa(j)[|Numeral(i)|..]
  }

  /** Placeholder `j`, between the quotes `w`, is read at the front. */
  predicate Hits(items: seq<Item>, j: nat, w: string) {
    && Chars(items, w) && |items| > |w|
    && Dollar(items[|w|]) && Numeral(items[|w|]) <= Itoa(j)
    && Chars(items[|w| + 1..], Missing(items[|w|], j) + w)
  }

  function Behind(items: seq<Item>, j: nat, w: string): seq<Item>
    requires Hits(items, j, w)
  {
    items[|w| + 1..][|Missing(items[|w|], j) + w|..]
  }

  /** What stands for argument `j` when it has been read. */
  function Read(j: nat, quoted: bool, eaten: bool, e: Edges): seq<Item> {
    [Lit(e.pre), Core(j, quoted, eaten), Lit(e.post)]
  }

  /** The global replace of placeholder `j` between the quotes `w`. */
  function Step(items: seq<Item>, j: nat, w: string, e: Edges): seq<Item>
    decreases |items|
  {
    if items == [] then []
    else if Hits(items, j, w) then
      Read(j, items[|w|].Pending? && items[|w|].quoted, w != "", e) + Step(Behind(items, j, w), j, w, e)
    else [items[0]] + Step(items[1..], j, w, e)
  }

  lemma FrontOf(p: string, q: string, w: string, t: string)
    requires q + w <= p + t
    ensures if |p| <= |q| then p <= q else q <= p
  {
    var n := if |p| <= |q| then |p| else |q|;
    assert p[..n] == (p + t)[..n] == (q + w)[..n] == q[..n];
  }

  /** How a numeral that is a placeholder's can be part of a longer one. */
  lemma NumeralSplit(a: nat, j: nat, w: string, t: string)
    requires 1 <= a <= j
    ensures Itoa(j) + w <= Itoa(a) + t <==> Itoa(a) <= Itoa(j) && Itoa(j)[|Itoa(a)|..] + w <= t
  {
    if Itoa(a) <= Itoa(j) {
      assert Itoa(j) == Itoa(a) + Itoa(j)[|Itoa(a)|..];
      Associate(Itoa(a), Itoa(j)[|Itoa(a)|..], w);
      Prefix(Itoa(a), Itoa(j)[|Itoa(a)|..] + w, t);
    } else {
      NotNumeral(a, j, w, t);
    }
  }

  lemma NotNumeral(a: nat, j: nat, w: string, t: string)
    requires 1 <= a <= j && !(Itoa(a) <= Itoa(j))
    ensures !(Itoa(j) + w <= Itoa(a) + t)
  {
    if Itoa(j) + w <= Itoa(a) + t {
      FrontOf(Itoa(a), Itoa(j), w, t);
      NumeralPrefix(j, a);
    }
  }

  lemma NumeralSimple(j: nat, from: nat, w: string)
    requires Quoting(w) && from <= |Itoa(j)|
    ensures Simple(Itoa(j)[from..] + w) && Simple(w)
  {
    assert forall c | c in Itoa(j)[from..] :: IsDigit(c);
  }

  /** The rest of placeholder `j` is behind an item that begins with `$`. */
  predicate Completes(items: seq<Item>, j: nat, w: string)
    requires items != []
  {
    Dollar(items[0]) && Numeral(items[0]) <= Itoa(j) && Chars(items[1..], Missing(items[0], j) + w)
  }

  lemma DollarFront(numeral: string, rest: string, j: nat, w: string)
    ensures Placeholder(j) + w <= ['$'] + numeral + rest <==> Itoa(j) + w <= numeral + rest
  {
    Associate(['$'], Itoa(j), w);
    Associate(['$'], numeral, rest);
    Prefix(['$'], Itoa(j) + w, numeral + rest);
  }

  lemma Whole(numeral: string, missing: string, j: nat, w: string, rest: string)
    requires Itoa(j) == numeral + missing
    ensures ['$'] + numeral + (missing + w + rest) == Placeholder(j) + w + rest
  {
  }

  /** The numeral of the item and what it still needs. */
  lemma NumeralRead(i: Item, j: nat, w: string, rest: string)
    requires Dollar(i) && (i.Pending? ==> 1 <= i.arg <= j)
    ensures Itoa(j) + w <= Numeral(i) + rest <==> Numeral(i) <= Itoa(j) && Missing(i, j) + w <= rest
  {
    if i.Pending? {
      NumeralSplit(i.arg, j, w, rest);
    } else {
      assert "" + rest == rest && Itoa(j)[0..] == Itoa(j);
    }
  }

  lemma DollarItem(items: seq<Item>)
    requires items != [] && Dollar(items[0])
    ensures Text(items) == ['$'] + Numeral(items[0]) + Text(items[1..])
  {
    assert ['$'] + "" == ['$'];
  }

  /** At a `$`. */
  lemma DollarText(items: seq<Item>, j: nat, w: string)
    requires items != [] && Below(items, j) && Quoting(w) && Dollar(items[0])
    ensures Placeholder(j) + w <= Text(items) <==> Completes(items, j, w)
  {
    var t, rest := items[0], Text(items[1..]);
    DollarItem(items);
    DollarFront(Numeral(t), rest, j, w);
    NumeralRead(t, j, w, rest);
    if Numeral(t) <= Itoa(j) {
      NumeralSimple(j, |Numeral(t)|, w);
      CharsText(items[1..], Missing(t, j) + w, j);
    }
  }

  lemma BelowTail(items: seq<Item>, j: nat, k: nat)
    requires Below(items, j) && k <= |items|
    ensures Below(items[k..], j)
  {
  }

  lemma MissingText(tail: seq<Item>, missing: string, j: nat, w: string)
    requires Below(tail, j) && Simple(missing + w) && Chars(tail, missing + w)
    ensures Text(tail) == missing + w + Text(tail[|missing + w|..])
  {
    CharsText(tail, missing + w, j);
  }

  lemma NumeralJoins(i: Item, j: nat)
    requires Numeral(i) <= Itoa(j)
    ensures Itoa(j) == Numeral(i) + Missing(i, j)
  {
  }

  /** The text of an item with `$` and of what is behind it. */
  lemma ItemAndTail(items: seq<Item>, missing: string, j: nat, w: string)
    requires items != [] && Dollar(items[0]) && Below(items, j) && Simple(missing + w) && Chars(items[1..], missing + w)
    ensures Text(items) == ['$'] + Numeral(items[0]) + (missing + w + Text(items[1..][|missing + w|..]))
  {
    DollarItem(items);
    BelowTail(items, j, 1);
    MissingText(items[1..], missing, j, w);
  }

  lemma CompletesText(items: seq<Item>, j: nat, w: string)
    requires items != [] && Below(items, j) && Quoting(w) && Completes(items, j, w)
    ensures Text(items) == Placeholder(j) + w + Text(items[1..][|Missing(items[0], j) + w|..])
  {
    var missing := Missing(items[0], j);
    NumeralSimple(j, |Numeral(items[0])|, w);
    NumeralJoins(items[0], j);
    ItemAndTail(items, missing, j, w);
    Whole(Numeral(items[0]), missing, j, w, Text(items[1..][|missing + w|..]));
  }

  /** Elsewhere. */
  lemma OtherText(items: seq<Item>, j: nat, w: string)
    requires Below(items, j) && (items == [] || !Dollar(items[0]))
    ensures !(Placeholder(j) + w <= Text(items))
  {
    if items != [] {
      assert Text(items)[0] == ItemText(items[0])[0] != '$';
    }
  }

  /** Reading items is reading their text. */
  lemma HitsText(items: seq<Item>, j: nat, w: string)
    requires Below(items, j) && Quoting(w)
    ensures Hits(items, j, w) <==> w + Placeholder(j) + w <= Text(items)
    ensures Hits(items, j, w) ==> Text(items) == w + Placeholder(j) + w + Text(Behind(items, j, w))
  {
    CharsText(items, w, j);
    Associate(w, Placeholder(j), w);
    assert w <= w + (Placeholder(j) + w);
    if Chars(items, w) {
      var tail := items[|w|..];
      Prefix(w, Placeholder(j) + w, Text(tail));
      if tail != [] && Dollar(tail[0]) {
        DollarText(tail, j, w);
        assert tail[1..] == items[|w| + 1..];
        if Completes(tail, j, w) {
          CompletesText(tail, j, w);
          Associate(w, Placeholder(j) + w, Text(Behind(items, j, w)));
        }
      } else {
        OtherText(tail, j, w);
      }
    }
  }

  lemma BelowBehind(items: seq<Item>, j: nat, w: string, n: nat)
    requires Hits(items, j, w) && Below(items, n)
    ensures Below(Behind(items, j, w), n)
  {
    BelowTail(items, n, |w| + 1);
    BelowTail(items[|w| + 1..], n, |Missing(items[|w|], j) + w|);
  }

  lemma TextCons(i: Item, rest: seq<Item>)
    ensures Text([i] + rest) == ItemText(i) + Text(rest)
  {
    assert ([i] + rest)[1..] == rest;
  }

  lemma InFront(a: Item, b: Item, c: Item, rest: seq<Item>)
    ensures [a, b, c] + rest == [a] + ([b] + ([c] + rest))
  {
  }

  lemma ReadText(j: nat, quoted: bool, eaten: bool, e: Edges, rest: seq<Item>)
    ensures Text(Read(j, quoted, eaten, e) + rest) == Value(j, e) + Text(rest)
  {
    var core := Core(j, quoted, eaten);
    InFront(Lit(e.pre), core, Lit(e.post), rest);
    TextCons(Lit(e.post), rest);
    TextCons(core, [Lit(e.post)] + rest);
    TextCons(Lit(e.pre), [core] + ([Lit(e.post)] + rest));
    Associate(Letters(j), [e.post], Text(rest));
    Associate([e.pre], Letters(j) + [e.post], Text(rest));
  }

  /** A pattern is found at the front of an item only. */
  lemma InsideItem(i: Item, rest: string, p: string, k: nat)
    requires p != "" && (p[0] == '$' || IsQuote(p[0])) && 0 < k < |ItemText(i)|
    ensures !(p <= (ItemText(i) + rest)[k..])
  {
    assert (ItemText(i) + rest)[k..][0] == ItemText(i)[k];
    assert ItemText(i)[k] in ItemText(i);
    if i.Pending? {
      assert Placeholder(i.arg)[k] == Itoa(i.arg)[k - 1];
    }
  }

  lemma PassItem(items: seq<Item>, j: nat, w: string, v: string)
    requires items != [] && Below(items, j) && Quoting(w) && !Hits(items, j, w)
    ensures ReplaceAll(Text(items), w + Placeholder(j) + w, v)
         == ItemText(items[0]) + ReplaceAll(Text(items[1..]), w + Placeholder(j) + w, v)
  {
    var p, head, rest := w + Placeholder(j) + w, ItemText(items[0]), Text(items[1..]);
    HitsText(items, j, w);
    forall k | 0 <= k < |head|
      ensures !(p <= (head + rest)[k..])
    {
      if k == 0 {
        assert (head + rest)[0..] == Text(items);
      } else {
        InsideItem(items[0], rest, p, k);
      }
    }
    ReplaceSkip(head, rest, p, v);
  }

  /** A replace of items is one of their text. */
  lemma {:induction false} StepText(items: seq<Item>, j: nat, w: string, e: Edges)
    requires Below(items, j) && Quoting(w)
    ensures Text(Step(items, j, w, e)) == ReplaceAll(Text(items), w + Placeholder(j) + w, Value(j, e))
    decreases |items|
  {
    var p := w + Placeholder(j) + w;
    if items == [] {
    } else if Hits(items, j, w) {
      var rest := Behind(items, j, w);
      HitsText(items, j, w);
      BelowBehind(items, j, w, j);
      StepText(rest, j, w, e);
      ReadText(j, items[|w|].Pending? && items[|w|].quoted, w != "", e, Step(rest, j, w, e));
      ReplaceHit(p, Text(rest), Value(j, e));
    } else {
      StepText(items[1..], j, w, e);
      PassItem(items, j, w, Value(j, e));
      TextCons(items[0], Step(items[1..], j, w, e));
    }
  }

  lemma BelowJoin(a: seq<Item>, b: seq<Item>, j: nat)
    requires Below(a, j) && Below(b, j)
    ensures Below(a + b, j)
  {
  }

  /** It leaves no greater placeholder, nor its own if that is read without quotes. */
  lemma {:induction false} StepBelow(items: seq<Item>, j: nat, w: string, e: Edges)
    requires Below(items, j) && Quoting(w) && j >= 1
    ensures Below(Step(items, j, w, e), if w == "" then j - 1 else j)
    decreases |items|
  {
    var n := if w == "" then j - 1 else j;
    if items == [] {
    } else if Hits(items, j, w) {
      var rest := Behind(items, j, w);
      BelowBehind(items, j, w, j);
      StepBelow(rest, j, w, e);
      BelowJoin(Read(j, items[|w|].Pending? && items[|w|].quoted, w != "", e), Step(rest, j, w, e), n);
    } else {
      StepBelow(items[1..], j, w, e);
      assert items[1..][0..] == items[1..];
      assert w == "" && items[0].Pending? ==> items[0].arg != j;
      BelowJoin([items[0]], Step(items[1..], j, w, e), n);
    }
  }

  // ------------------------------------------------------------ what is kept

  function ItemWeight(i: Item): nat {
    match i
    case Lit(c) => if c == 'x' then 1 else 0
    case Pending(a, _) => a
    case Core(k, _, _) => k
  }

  /** The letters that there are, and that there will be if every placeholder is read as its own. */
  function Weight(items: seq<Item>): nat {
    if items == [] then 0 else ItemWeight(items[0]) + Weight(items[1..])
  }

  lemma {:induction false} CharsWeight(items: seq<Item>, s: string)
    requires Chars(items, s) && Simple(s)
    ensures Weight(items) == Weight(items[|s|..])
  {
    if s != "" {
      CharsCons(items, s);
      CharsWeight(items[1..], s[1..]);
    } else {
      assert items[0..] == items;
    }
  }

  lemma HitWeight(items: seq<Item>, j: nat, w: string)
    requires Hits(items, j, w) && Below(items, j) && Quoting(w) && j >= 1
    ensures Weight(items) == ItemWeight(items[|w|]) + Weight(Behind(items, j, w)) && ItemWeight(items[|w|]) <= j
  {
    CharsWeight(items, w);
    NumeralSimple(j, |Numeral(items[|w|])|, w);
    assert items[|w|..][1..] == items[|w| + 1..];
    CharsWeight(items[|w| + 1..], Missing(items[|w|], j) + w);
  }

  lemma WeightCons(i: Item, rest: seq<Item>)
    ensures Weight([i] + rest) == ItemWeight(i) + Weight(rest)
  {
    assert ([i] + rest)[1..] == rest;
  }

  lemma ReadWeight(j: nat, quoted: bool, eaten: bool, e: Edges, rest: seq<Item>)
    requires e.Valid()
    ensures Weight(Read(j, quoted, eaten, e) + rest) == j + Weight(rest)
  {
    var core := Core(j, quoted, eaten);
    InFront(Lit(e.pre), core, Lit(e.post), rest);
    WeightCons(Lit(e.post), rest);
    WeightCons(core, [Lit(e.post)] + rest);
    WeightCons(Lit(e.pre), [core] + ([Lit(e.post)] + rest));
  }

  /** The weight does not fall. */
  lemma {:induction false} StepWeight(items: seq<Item>, j: nat, w: string, e: Edges)
    requires Below(items, j) && Quoting(w) && j >= 1 && e.Valid()
    ensures Weight(Step(items, j, w, e)) >= Weight(items)
    decreases |items|
  {
    if items == [] {
    } else if Hits(items, j, w) {
      var rest := Behind(items, j, w);
      HitWeight(items, j, w);
      BelowBehind(items, j, w, j);
      StepWeight(rest, j, w, e);
      ReadWeight(j, items[|w|].Pending? && items[|w|].quoted, w != "", e, Step(rest, j, w, e));
    } else {
      StepWeight(items[1..], j, w, e);
      WeightCons(items[0], Step(items[1..], j, w, e));
    }
  }

  /** The numbers of the arguments, read or to be read, in textual order, and whether they are quoted. */
  function Numbers(items: seq<Item>): seq<(nat, bool)> {
    if items == [] then [] else ItemNumbers(items[0]) + Numbers(items[1..])
  }

  function ItemNumbers(i: Item): seq<(nat, bool)> {
    match i
    case Lit(_) => []
    case Pending(a, quoted) => [(a, quoted)]
    case Core(k, quoted, _) => [(k, quoted)]
  }

  function Took(eaten: bool): int {
    if eaten then 1 else 0
  }

  /**
   The lengths of the gaps between the arguments, the one under way being `acc`
   so far: with the quotes that were taken along, and without the edges of values.
   */
  function Gaps(items: seq<Item>, acc: int): seq<int> {
    if items == [] then [acc]
    else
      match items[0]
      case Lit(_) => Gaps(items[1..], acc + 1)
      case Pending(_, _) => [acc] + Gaps(items[1..], 0)
      case Core(_, _, eaten) => [acc - 1 + Took(eaten)] + Gaps(items[1..], Took(eaten) - 1)
  }

  /** What is read as its own, with or without quotes. */
  function Own(j: nat, quoted: bool, w: string): seq<Item> {
    Lits(w) + ([Pending(j, quoted)] + Lits(w))
  }

  /** A hit of the right weight is one of the placeholder of that number. */
  lemma HitOwn(items: seq<Item>, j: nat, w: string)
    requires Hits(items, j, w) && Below(items, j) && Quoting(w) && j >= 1 && ItemWeight(items[|w|]) == j
    ensures items[|w|].Pending? && items == Own(j, items[|w|].quoted, w) + Behind(items, j, w)
  {
    var p, tail := items[|w|], items[|w| + 1..];
    assert Missing(p, j) + w == w;
    CharsSplit(tail, w);
    CharsSplit(items, w);
    assert items[|w|..] == [p] + tail;
    Middle(Lits(w), p, Lits(w), Behind(items, j, w));
  }

  lemma CharsSplit(items: seq<Item>, s: string)
    requires Chars(items, s)
    ensures items == Lits(s) + items[|s|..]
  {
  }

  lemma Middle(a: seq<Item>, p: Item, b: seq<Item>, c: seq<Item>)
    ensures a + ([p] + (b + c)) == a + ([p] + b) + c
  {
  }

  lemma NumbersCons(i: Item, rest: seq<Item>)
    ensures Numbers([i] + rest) == ItemNumbers(i) + Numbers(rest)
  {
    assert ([i] + rest)[1..] == rest;
  }

  lemma GapsCons(i: Item, rest: seq<Item>, acc: int)
    ensures i.Lit? ==> Gaps([i] + rest, acc) == Gaps(rest, acc + 1)
    ensures i.Pending? ==> Gaps([i] + rest, acc) == [acc] + Gaps(rest, 0)
    ensures i.Core? ==> Gaps([i] + rest, acc) == [acc - 1 + Took(i.eaten)] + Gaps(rest, Took(i.eaten) - 1)
  {
    assert ([i] + rest)[1..] == rest;
  }

  lemma ReadNumbers(j: nat, quoted: bool, eaten: bool, e: Edges, rest: seq<Item>)
    ensures Numbers(Read(j, quoted, eaten, e) + rest) == [(j, quoted)] + Numbers(rest)
  {
    var core := Core(j, quoted, eaten);
    InFront(Lit(e.pre), core, Lit(e.post), rest);
    NumbersCons(Lit(e.post), rest);
    NumbersCons(core, [Lit(e.post)] + rest);
    NumbersCons(Lit(e.pre), [core] + ([Lit(e.post)] + rest));
  }

  /** The argument read, in the middle of the edges of its value. */
  lemma ReadGaps(j: nat, quoted: bool, eaten: bool, e: Edges, rest: seq<Item>, acc: int)
    ensures Numbers(Read(j, quoted, eaten, e) + rest) == [(j, quoted)] + Numbers(rest)
    ensures Gaps(Read(j, quoted, eaten, e) + rest, acc) == [acc + Took(eaten)] + Gaps(rest, Took(eaten))
  {
    var core := Core(j, quoted, eaten);
    InFront(Lit(e.pre), core, Lit(e.post), rest);
    ReadNumbers(j, quoted, eaten, e, rest);
    GapsCons(Lit(e.pre), [core] + ([Lit(e.post)] + rest), acc);
    GapsCons(core, [Lit(e.post)] + rest, acc + 1);
    GapsCons(Lit(e.post), rest, Took(eaten) - 1);
  }

  /** The placeholder to be read, in the middle of its quotes. */
  lemma OwnGaps(j: nat, quoted: bool, w: string, rest: seq<Item>, acc: int)
    requires Quoting(w)
    ensures Numbers(Own(j, quoted, w) + rest) == [(j, quoted)] + Numbers(rest)
    ensures Gaps(Own(j, quoted, w) + rest, acc) == [acc + |w|] + Gaps(rest, |w|)
  {
    var p := Pending(j, quoted);
    if w == "" {
      assert Own(j, quoted, w) + rest == [p] + rest;
      NumbersCons(p, rest);
      GapsCons(p, rest, acc);
    } else {
      var q := Lit(w[0]);
      assert Own(j, quoted, w) == [q, p, q];
      InFront(q, p, q, rest);
      NumbersCons(q, rest);
      NumbersCons(p, [q] + rest);
      NumbersCons(q, [p] + ([q] + rest));
      GapsCons(q, [p] + ([q] + rest), acc);
      GapsCons(p, [q] + rest, acc + 1);
      GapsCons(q, rest, 0);
    }
  }

  ghost predicate SameGaps(a: seq<Item>, b: seq<Item>) {
    Numbers(a) == Numbers(b) && forall k: int :: Gaps(a, k) == Gaps(b, k)
  }

  /** Reading a placeholder as its own keeps the gaps. */
  lemma OwnKept(j: nat, quoted: bool, w: string, e: Edges, rest: seq<Item>, rest': seq<Item>)
    requires Quoting(w) && SameGaps(rest, rest')
    ensures SameGaps(Own(j, quoted, w) + rest, Read(j, quoted, w != "", e) + rest')
  {
    forall k: int
      ensures Gaps(Own(j, quoted, w) + rest, k) == Gaps(Read(j, quoted, w != "", e) + rest', k)
    {
      OwnGaps(j, quoted, w, rest, k);
      ReadGaps(j, quoted, w != "", e, rest', k);
    }
    OwnGaps(j, quoted, w, rest, 0);
    ReadGaps(j, quoted, w != "", e, rest', 0);
  }

  lemma ConsKept(i: Item, rest: seq<Item>, rest': seq<Item>)
    requires SameGaps(rest, rest')
    ensures SameGaps([i] + rest, [i] + rest')
  {
    NumbersCons(i, rest);
    NumbersCons(i, rest');
    forall k: int
      ensures Gaps([i] + rest, k) == Gaps([i] + rest', k)
    {
      GapsCons(i, rest, k);
      GapsCons(i, rest', k);
    }
  }

  /** A replace that keeps the weight keeps the numbers and the gaps. */
  lemma {:induction false} StepKept(items: seq<Item>, j: nat, w: string, e: Edges)
    requires Below(items, j) && Quoting(w) && j >= 1 && e.Valid()
    requires Weight(Step(items, j, w, e)) == Weight(items)
    ensures SameGaps(items, Step(items, j, w, e))
    decreases |items|
  {
    if items == [] {
    } else if Hits(items, j, w) {
      var rest := Behind(items, j, w);
      var quoted := items[|w|].Pending? && items[|w|].quoted;
      HitWeight(items, j, w);
      BelowBehind(items, j, w, j);
      StepWeight(rest, j, w, e);
      ReadWeight(j, quoted, w != "", e, Step(rest, j, w, e));
      HitOwn(items, j, w);
      StepKept(rest, j, w, e);
      OwnKept(j, quoted, w, e, rest, Step(rest, j, w, e));
    } else {
      var rest := items[1..];
      StepWeight(rest, j, w, e);
      WeightCons(items[0], Step(rest, j, w, e));
      StepKept(rest, j, w, e);
      assert items == [items[0]] + rest;
      ConsKept(items[0], rest, Step(rest, j, w, e));
    }
  }

  /** Exactly the quoted arguments have taken quotes along. */
  predicate Good(items: seq<Item>) {
    forall i | 0 <= i < |items| && items[i].Core? :: items[i].quoted == items[i].eaten
  }

  lemma HitGood(items: seq<Item>, j: nat, w: string)
    requires Hits(items, j, w) && Good(Behind(items, j, w))
    ensures Good(items)
  {
    var m := Missing(items[|w|], j) + w;
    forall i | 0 <= i < |items| && items[i].Core?
      ensures items[i].quoted == items[i].eaten
    {
      if |w| < i < |w| + 1 + |m| {
        assert items[|w| + 1..][i - |w| - 1] == Lit(m[i - |w| - 1]);
      } else if i > |w| {
        assert items[i] == Behind(items, j, w)[i - |w| - 1 - |m|];
      }
    }
  }

  lemma GoodTail(a: seq<Item>, b: seq<Item>)
    requires Good(a + b)
    ensures Good(b)
  {
    forall i | 0 <= i < |b| && b[i].Core?
      ensures b[i].quoted == b[i].eaten
    {
      assert (a + b)[|a| + i] == b[i];
    }
  }

  /** What has been read stays. */
  lemma {:induction false} StepGood(items: seq<Item>, j: nat, w: string, e: Edges)
    requires Good(Step(items, j, w, e))
    ensures Good(items)
    decreases |items|
  {
    if items == [] {
    } else if Hits(items, j, w) {
      var rest := Behind(items, j, w);
      GoodTail(Read(j, items[|w|].Pending? && items[|w|].quoted, w != "", e), Step(rest, j, w, e));
      StepGood(rest, j, w, e);
      HitGood(items, j, w);
    } else {
      GoodTail([items[0]], Step(items[1..], j, w, e));
      StepGood(items[1..], j, w, e);
      assert Step(items, j, w, e)[0] == items[0];
      assert items == [items[0]] + items[1..];
    }
  }

  /** Between two arguments stands a character, and the last one is no letter. */
  predicate Seam(items: seq<Item>) {
    forall i | 0 <= i < |items| - 1 && items[i + 1].Core? :: items[i].Lit? && items[i].c != 'x'
  }

  lemma SeamCons(i: Item, rest: seq<Item>)
    requires Seam(rest) && (rest != [] && rest[0].Core? ==> i.Lit? && i.c != 'x')
    ensures Seam([i] + rest)
  {
  }

  lemma SeamTail(items: seq<Item>, k: nat)
    requires Seam(items) && k <= |items|
    ensures Seam(items[k..])
  {
  }

  lemma ReadSeam(j: nat, quoted: bool, eaten: bool, e: Edges, rest: seq<Item>)
    requires Seam(rest) && e.Valid()
    ensures Seam(Read(j, quoted, eaten, e) + rest)
  {
    var core := Core(j, quoted, eaten);
    InFront(Lit(e.pre), core, Lit(e.post), rest);
    SeamCons(Lit(e.post), rest);
    SeamCons(core, [Lit(e.post)] + rest);
    SeamCons(Lit(e.pre), [core] + ([Lit(e.post)] + rest));
  }

  lemma {:induction false} StepSeam(items: seq<Item>, j: nat, w: string, e: Edges)
    requires Seam(items) && e.Valid()
    ensures var s := Step(items, j, w, e); Seam(s) && (s != [] && s[0].Core? ==> items != [] && items[0].Core?)
    decreases |items|
  {
    if items == [] {
    } else if Hits(items, j, w) {
      var rest := Behind(items, j, w);
      SeamTail(items, |w| + 1);
      SeamTail(items[|w| + 1..], |Missing(items[|w|], j) + w|);
      StepSeam(rest, j, w, e);
      ReadSeam(j, items[|w|].Pending? && items[|w|].quoted, w != "", e, Step(rest, j, w, e));
    } else {
      SeamTail(items, 1);
      StepSeam(items[1..], j, w, e);
      SeamCons(items[0], Step(items[1..], j, w, e));
    }
  }

  // ------------------------------------------------- two texts that are equal

  lemma {:induction false} LettersCount(k: nat)
    ensures multiset(Letters(k))['x'] == k
  {
    if k > 0 {
      LettersCount(k - 1);
    }
  }

  /** When all is read, the weight can be seen in the text. */
  lemma {:induction false} TextWeight(items: seq<Item>)
    requires Below(items, 0)
    ensures multiset(Text(items))['x'] == Weight(items)
  {
    if items != [] {
      TextWeight(items[1..]);
      if items[0].Core? {
        LettersCount(items[0].arg);
      }
    }
  }

  lemma {:induction false} GapAtLeast(items: seq<Item>, acc: int)
    requires Below(items, 0) && Numbers(items) != []
    ensures Gaps(items, acc) != [] && Gaps(items, acc)[0] >= acc - 1
  {
    if items[0].Lit? {
      GapAtLeast(items[1..], acc + 1);
    }
  }

  /** A letter of an argument stands against no character. */
  lemma CoreAgainst(f: seq<Item>, r: seq<Item>, acc: int)
    requires Below(f, 0) && Below(r, 0) && Seam(r) && f != [] && f[0].Core? && r != [] && r[0].Lit?
    requires Numbers(f) == Numbers(r) && Gaps(f, acc) == Gaps(r, acc)
    ensures Text(f) != Text(r)
  {
    assert Numbers(r) == Numbers(r[1..]) != [];
    assert r[1..] != [];
    if r[1].Lit? {
      assert Numbers(r[1..]) == Numbers(r[1..][1..]);
      GapAtLeast(r[1..][1..], acc + 2);
    } else {
      assert r[1].Core?;
      assert Text(f)[0] == Letters(f[0].arg)[0];
      assert Letters(f[0].arg)[0] in Letters(f[0].arg);
      assert Text(r)[0] == r[0].c != 'x';
    }
  }

  lemma SameHead(f: seq<Item>, r: seq<Item>)
    requires f != [] && r != [] && Text(f) == Text(r) && |ItemText(f[0])| == |ItemText(r[0])|
    ensures ItemText(f[0]) == ItemText(r[0]) && Text(f[1..]) == Text(r[1..])
  {
    var n := |ItemText(f[0])|;
    assert Text(f)[..n] == ItemText(f[0]) && Text(r)[..n] == ItemText(r[0]);
    assert Text(f)[n..] == Text(f[1..]) && Text(r)[n..] == Text(r[1..]);
  }

  lemma NotEmpty(items: seq<Item>)
    requires Below(items, 0) && items != []
    ensures Text(items) != ""
  {
    assert ItemText(items[0]) != "";
  }

  /** Two texts in which all is read, that are equal, with equal gaps. */
  predicate Alike(f: seq<Item>, r: seq<Item>, acc: int) {
    && Below(f, 0) && Below(r, 0) && Seam(f) && Seam(r)
    && Text(f) == Text(r) && Numbers(f) == Numbers(r) && Gaps(f, acc) == Gaps(r, acc)
  }

  lemma AlikeTails(f: seq<Item>, r: seq<Item>)
    requires Below(f, 0) && Below(r, 0) && Seam(f) && Seam(r) && f != [] && r != []
    ensures Below(f[1..], 0) && Below(r[1..], 0) && Seam(f[1..]) && Seam(r[1..])
  {
  }

  lemma AlikeLit(f: seq<Item>, r: seq<Item>, acc: int)
    requires Alike(f, r, acc) && f != [] && r != [] && f[0].Lit? && r[0].Lit?
    ensures Alike(f[1..], r[1..], acc + 1)
  {
    AlikeTails(f, r);
    assert Numbers(f) == [] + Numbers(f[1..]) == Numbers(f[1..]);
    assert Numbers(r) == [] + Numbers(r[1..]) == Numbers(r[1..]);
    SameHead(f, r);
  }

  lemma AlikeCore(f: seq<Item>, r: seq<Item>, acc: int)
    requires Alike(f, r, acc) && f != [] && r != [] && f[0].Core? && r[0].Core?
    ensures f[0] == r[0] && Alike(f[1..], r[1..], Took(f[0].eaten) - 1)
  {
    AlikeTails(f, r);
    assert Numbers(f) == ItemNumbers(f[0]) + Numbers(f[1..]) && Numbers(r) == ItemNumbers(r[0]) + Numbers(r[1..]);
    assert Numbers(f)[0] == ItemNumbers(f[0])[0] && Numbers(r)[0] == ItemNumbers(r[0])[0];
    assert Numbers(f)[1..] == Numbers(f[1..]) && Numbers(r)[1..] == Numbers(r[1..]);
    assert Gaps(f, acc)[0] == acc - 1 + Took(f[0].eaten) && Gaps(r, acc)[0] == acc - 1 + Took(r[0].eaten);
    assert Gaps(f, acc)[1..] == Gaps(f[1..], Took(f[0].eaten) - 1) && Gaps(r, acc)[1..] == Gaps(r[1..], Took(r[0].eaten) - 1);
    SameHead(f, r);
  }

  /** Then the same arguments have taken quotes along. */
  lemma {:induction false} SameText(f: seq<Item>, r: seq<Item>, acc: int)
    requires Alike(f, r, acc) && Good(r)
    ensures Good(f)
    decreases |f|
  {
    if f == [] {
    } else if r == [] {
      NotEmpty(f);
    } else if f[0].Core? && r[0].Lit? {
      CoreAgainst(f, r, acc);
    } else if f[0].Lit? && r[0].Core? {
      CoreAgainst(r, f, acc);
    } else {
      GoodTail([r[0]], r[1..]);
      assert r == [r[0]] + r[1..] && f == [f[0]] + f[1..];
      if f[0].Lit? {
        AlikeLit(f, r, acc);
        SameText(f[1..], r[1..], acc + 1);
      } else {
        AlikeCore(f, r, acc);
        SameText(f[1..], r[1..], Took(f[0].eaten) - 1);
      }
    }
  }

  // ------------------------------------------------------------ all replaces

  function StepOne(items: seq<Item>, j: nat, phase: nat, unit: set<char>, e: Edges): seq<Item> {
    if phase < 2 && PhaseQuote(phase)[0] !in unit then items else Step(items, j, PhaseQuote(phase), e)
  }

  /** The greatest number that can still be read. */
  function Top(j: nat, phase: nat): nat {
    if phase == 3 && j > 0 then j - 1 else j
  }

  function Run(items: seq<Item>, units: seq<set<char>>, j: nat, phase: nat, e: Edges): seq<Item>
    requires j <= |units| && phase <= 3
    decreases j, 3 - phase
  {
    if j == 0 then items
    else if phase == 3 then Run(items, units, j - 1, 0, e)
    else Run(StepOne(items, j, phase, units[j - 1], e), units, j, phase + 1, e)
  }

  /** `b` is what became of `a`. */
  ghost predicate Became(a: seq<Item>, b: seq<Item>) {
    && Weight(a) <= Weight(b) && (Weight(a) == Weight(b) ==> SameGaps(a, b))
    && (Good(b) ==> Good(a)) && (Seam(a) ==> Seam(b))
  }

  lemma StepOneBecame(items: seq<Item>, j: nat, phase: nat, unit: set<char>, e: Edges)
    requires Below(items, j) && phase <= 2 && j >= 1 && e.Valid()
    ensures var s := StepOne(items, j, phase, unit, e);
      && Became(items, s) && Below(s, Top(j, phase + 1))
      && Text(s) == ReplaceOne(Text(items), j, phase, unit, Value(j, e))
  {
    var w := PhaseQuote(phase);
    if !(phase < 2 && w[0] !in unit) {
      StepText(items, j, w, e);
      StepBelow(items, j, w, e);
      StepWeight(items, j, w, e);
      if Weight(Step(items, j, w, e)) == Weight(items) {
        StepKept(items, j, w, e);
      }
      if Good(Step(items, j, w, e)) {
        StepGood(items, j, w, e);
      }
      if Seam(items) {
        StepSeam(items, j, w, e);
      }
    }
  }

  lemma BecameTwice(a: seq<Item>, b: seq<Item>, c: seq<Item>)
    requires Became(a, b) && Became(b, c)
    ensures Became(a, c)
  {
  }

  /** `s` is what the replaces from a certain one on make of the items. */
  ghost predicate Ran(items: seq<Item>, s: seq<Item>, units: seq<set<char>>, j: nat, phase: nat, e: Edges)
    requires j <= |units| && phase <= 3
  {
    Became(items, s) && Below(s, 0) && Text(s) == From(Text(items), units, Values(|units|, e), j, phase)
  }

  lemma RanStep(items: seq<Item>, s: seq<Item>, units: seq<set<char>>, j: nat, phase: nat, e: Edges)
    requires 1 <= j <= |units| && phase <= 2 && Below(items, j) && e.Valid()
    requires Ran(StepOne(items, j, phase, units[j - 1], e), s, units, j, phase + 1, e)
    ensures Ran(items, s, units, j, phase, e)
  {
    StepOneBecame(items, j, phase, units[j - 1], e);
    BecameTwice(items, StepOne(items, j, phase, units[j - 1], e), s);
    FromStep(Text(items), units, Values(|units|, e), j, phase);
  }

  lemma RanArg(items: seq<Item>, s: seq<Item>, units: seq<set<char>>, j: nat, e: Edges)
    requires 1 <= j <= |units| && Ran(items, s, units, j - 1, 0, e)
    ensures Ran(items, s, units, j, 3, e)
  {
    FromStep(Text(items), units, Values(|units|, e), j, 3);
  }

  lemma RanEnd(items: seq<Item>, units: seq<set<char>>, phase: nat, e: Edges)
    requires phase <= 3 && Below(items, 0)
    ensures Ran(items, items, units, 0, phase, e)
  {
  }

  lemma RunStep(items: seq<Item>, units: seq<set<char>>, j: nat, phase: nat, e: Edges)
    requires 1 <= j <= |units| && phase <= 2
    ensures Run(items, units, j, phase, e) == Run(StepOne(items, j, phase, units[j - 1], e), units, j, phase + 1, e)
  {
  }

  lemma {:induction false} RunBecame(items: seq<Item>, units: seq<set<char>>, j: nat, phase: nat, e: Edges)
    requires j <= |units| && phase <= 3 && Below(items, Top(j, phase)) && e.Valid()
    ensures Ran(items, Run(items, units, j, phase, e), units, j, phase, e)
    decreases j, 3 - phase
  {
    if j == 0 {
      RanEnd(items, units, phase, e);
    } else if phase == 3 {
      RunBecame(items, units, j - 1, 0, e);
      RanArg(items, Run(items, units, j, phase, e), units, j, e);
    } else {
      var s := StepOne(items, j, phase, units[j - 1], e);
      StepOneBecame(items, j, phase, units[j - 1], e);
      RunStep(items, units, j, phase, e);
      RunBecame(s, units, j, phase + 1, e);
      RanStep(items, Run(s, units, j, phase + 1, e), units, j, phase, e);
    }
  }

  /** From here on every number is read as its own, with its quotes. */
  predicate Fine(items: seq<Item>, units: seq<set<char>>, j: nat, phase: nat, e: Edges)
    requires j <= |units| && phase <= 3
  {
    Weight(Run(items, units, j, phase, e)) == Weight(items) && Good(Run(items, units, j, phase, e))
  }

  lemma FineNext(items: seq<Item>, units: seq<set<char>>, j: nat, phase: nat, e: Edges)
    requires 1 <= j <= |units| && phase <= 2 && Below(items, j) && e.Valid() && Fine(items, units, j, phase, e)
    ensures var s := StepOne(items, j, phase, units[j - 1], e);
      Weight(s) == Weight(items) && Good(s) && Fine(s, units, j, phase + 1, e)
  {
    RunStep(items, units, j, phase, e);
    StepOneBecame(items, j, phase, units[j - 1], e);
    RunBecame(StepOne(items, j, phase, units[j - 1], e), units, j, phase + 1, e);
  }

  // --------------------------------------------- templates between two replaces

  /** The items of one token, some replaces having been done rightly. */
  function TokenState(t: Token, j: nat, phase: nat, e: Edges): seq<Item> {
    match t
    case Ch(c) => [Lit(c)]
    case Hole(k, quote) =>
      if Done(k, quote, j, phase) then Read(k, quote != "", quote != "", e) else Own(k, quote != "", quote)
  }

  function State(toks: seq<Token>, j: nat, phase: nat, e: Edges): seq<Item> {
    if toks == [] then [] else TokenState(toks[0], j, phase, e) + State(toks[1..], j, phase, e)
  }

  lemma QuoteOf(t: Token, units: seq<set<char>>)
    requires t.Hole? && Proper(t, units)
    ensures Quoting(t.quote)
  {
    if t.quote != "" {
      OneQuote(t.quote);
    }
  }

  lemma OwnText(k: nat, quote: string, rest: seq<Item>)
    requires Quoting(quote)
    ensures Text(Own(k, quote != "", quote) + rest) == Written(Hole(k, quote)) + Text(rest)
  {
    var p := Pending(k, quote != "");
    if quote == "" {
      assert Own(k, false, quote) + rest == [p] + rest;
      TextCons(p, rest);
      BareWritten(k);
    } else {
      var q := Lit(quote[0]);
      assert Own(k, true, quote) == [q, p, q];
      InFront(q, p, q, rest);
      TextCons(q, rest);
      TextCons(p, [q] + rest);
      TextCons(q, [p] + ([q] + rest));
      WrittenQuoted(k, quote, Text(rest));
      assert quote == [quote[0]];
    }
  }

  /** The text of the items is that of the template. */
  lemma {:induction false} StateText(toks: seq<Token>, units: seq<set<char>>, j: nat, phase: nat, e: Edges)
    requires AllProper(toks, units)
    ensures Text(State(toks, j, phase, e)) == Partial(toks, Values(|units|, e), j, phase)
  {
    if toks != [] {
      StateText(toks[1..], units, j, phase, e);
      var t, rest := toks[0], State(toks[1..], j, phase, e);
      if t.Ch? {
        TextCons(Lit(t.c), rest);
      } else if Done(t.arg, t.quote, j, phase) {
        ReadText(t.arg, t.quote != "", t.quote != "", e, rest);
      } else {
        QuoteOf(t, units);
        OwnText(t.arg, t.quote, rest);
      }
    }
  }

  lemma TokenBelow(t: Token, units: seq<set<char>>, j: nat, phase: nat, e: Edges)
    requires Proper(t, units) && phase <= 3 && j <= |units|
    ensures Below(TokenState(t, j, phase, e), Top(j, phase))
  {
    if t.Hole? {
      QuoteOf(t, units);
    }
  }

  lemma {:induction false} StateBelow(toks: seq<Token>, units: seq<set<char>>, j: nat, phase: nat, e: Edges)
    requires AllProper(toks, units) && phase <= 3 && j <= |units|
    ensures Below(State(toks, j, phase, e), Top(j, phase))
  {
    if toks != [] {
      StateBelow(toks[1..], units, j, phase, e);
      TokenBelow(toks[0], units, j, phase, e);
      BelowJoin(TokenState(toks[0], j, phase, e), State(toks[1..], j, phase, e), Top(j, phase));
    }
  }

  lemma GoodJoin(a: seq<Item>, b: seq<Item>)
    requires Good(a) && Good(b)
    ensures Good(a + b)
  {
  }

  lemma {:induction false} StateGood(toks: seq<Token>, j: nat, phase: nat, e: Edges)
    ensures Good(State(toks, j, phase, e))
  {
    if toks != [] {
      StateGood(toks[1..], j, phase, e);
      assert Good(TokenState(toks[0], j, phase, e));
      GoodJoin(TokenState(toks[0], j, phase, e), State(toks[1..], j, phase, e));
    }
  }

  lemma OwnSeam(k: nat, quote: string, rest: seq<Item>)
    requires Quoting(quote) && Seam(rest) && (rest != [] ==> !rest[0].Core?)
    ensures Seam(Own(k, quote != "", quote) + rest)
  {
  }

  lemma {:induction false} StateSeam(toks: seq<Token>, units: seq<set<char>>, j: nat, phase: nat, e: Edges)
    requires AllProper(toks, units) && e.Valid()
    ensures var s := State(toks, j, phase, e); Seam(s) && (s != [] ==> s[0].Lit? || (s[0].Pending? && !s[0].quoted))
  {
    if toks != [] {
      StateSeam(toks[1..], units, j, phase, e);
      var t, rest := toks[0], State(toks[1..], j, phase, e);
      if t.Ch? {
        SeamCons(Lit(t.c), rest);
      } else if Done(t.arg, t.quote, j, phase) {
        ReadSeam(t.arg, t.quote != "", t.quote != "", e, rest);
      } else {
        QuoteOf(t, units);
        OwnSeam(t.arg, t.quote, rest);
      }
    }
  }

  lemma OwnWeight(k: nat, quote: string, rest: seq<Item>)
    requires Quoting(quote)
    ensures Weight(Own(k, quote != "", quote) + rest) == k + Weight(rest)
  {
    var p := Pending(k, quote != "");
    if quote == "" {
      assert Own(k, false, quote) + rest == [p] + rest;
      WeightCons(p, rest);
    } else {
      var q := Lit(quote[0]);
      assert Own(k, true, quote) == [q, p, q];
      InFront(q, p, q, rest);
      WeightCons(q, rest);
      WeightCons(p, [q] + rest);
      WeightCons(q, [p] + ([q] + rest));
    }
  }

  lemma HoleWeight(t: Token, units: seq<set<char>>, j: nat, phase: nat, e: Edges, rest: seq<Item>)
    requires t.Hole? && Proper(t, units) && e.Valid()
    ensures Weight(TokenState(t, j, phase, e) + rest) == t.arg + Weight(rest)
  {
    QuoteOf(t, units);
    if Done(t.arg, t.quote, j, phase) {
      ReadWeight(t.arg, t.quote != "", t.quote != "", e, rest);
    } else {
      OwnWeight(t.arg, t.quote, rest);
    }
  }

  /** A hole, read or not, in the middle of what stands around it. */
  lemma HoleGaps(t: Token, units: seq<set<char>>, j: nat, phase: nat, e: Edges, rest: seq<Item>, acc: int)
    requires t.Hole? && Proper(t, units)
    ensures Numbers(TokenState(t, j, phase, e) + rest) == [(t.arg, t.quote != "")] + Numbers(rest)
    ensures Gaps(TokenState(t, j, phase, e) + rest, acc) == [acc + |t.quote|] + Gaps(rest, |t.quote|)
  {
    QuoteOf(t, units);
    if Done(t.arg, t.quote, j, phase) {
      ReadGaps(t.arg, t.quote != "", t.quote != "", e, rest, acc);
    } else {
      OwnGaps(t.arg, t.quote != "", t.quote, rest, acc);
    }
  }

  lemma HoleKept(t: Token, units: seq<set<char>>, j: nat, phase: nat, j': nat, phase': nat, e: Edges,
                 rest: seq<Item>, rest': seq<Item>)
    requires t.Hole? && Proper(t, units) && SameGaps(rest, rest')
    ensures SameGaps(TokenState(t, j, phase, e) + rest, TokenState(t, j', phase', e) + rest')
  {
    var a, b := TokenState(t, j, phase, e) + rest, TokenState(t, j', phase', e) + rest';
    forall k: int
      ensures Gaps(a, k) == Gaps(b, k)
    {
      HoleGaps(t, units, j, phase, e, rest, k);
      HoleGaps(t, units, j', phase', e, rest', k);
    }
    HoleGaps(t, units, j, phase, e, rest, 0);
    HoleGaps(t, units, j', phase', e, rest', 0);
  }

  /** Replaces done rightly keep the weight, the numbers and the gaps. */
  lemma {:induction false} StateKept(toks: seq<Token>, units: seq<set<char>>, j: nat, phase: nat, j': nat, phase': nat, e: Edges)
    requires AllProper(toks, units) && e.Valid()
    ensures var s, s' := State(toks, j, phase, e), State(toks, j', phase', e); Weight(s) == Weight(s') && SameGaps(s, s')
  {
    if toks != [] {
      StateKept(toks[1..], units, j, phase, j', phase', e);
      var t, rest, rest' := toks[0], State(toks[1..], j, phase, e), State(toks[1..], j', phase', e);
      if t.Ch? {
        WeightCons(Lit(t.c), rest);
        WeightCons(Lit(t.c), rest');
        ConsKept(Lit(t.c), rest, rest');
      } else {
        HoleWeight(t, units, j, phase, e, rest);
        HoleWeight(t, units, j', phase', e, rest');
        HoleKept(t, units, j, phase, j', phase', e, rest, rest');
      }
    }
  }

  lemma ValuesDollarFree(n: nat, e: Edges)
    requires e.Valid()
    ensures DollarFree(Values(n, e))
  {
    forall v | v in Values(n, e)
      ensures Lacks(v, '$')
    {
      var i :| 0 <= i < n && v == Value(i + 1, e);
      assert Lacks(Letters(i + 1), '$');
    }
  }

  /** If a template is substituted at once, every number in it is read as its own, with its quotes. */
  lemma SubstitutesFine(toks: seq<Token>, units: seq<set<char>>, e: Edges)
    requires AllProper(toks, units) && Substitutes(toks, units) && e.Valid()
    ensures Fine(State(toks, |units|, 0, e), units, |units|, 0, e)
  {
    var n, vals := |units|, Values(|units|, e);
    var s, r := State(toks, n, 0, e), State(toks, 0, 0, e);
    var f := Run(s, units, n, 0, e);
    ValuesDollarFree(n, e);
    StateBelow(toks, units, n, 0, e);
    StateBelow(toks, units, 0, 0, e);
    RunBecame(s, units, n, 0, e);
    StateText(toks, units, n, 0, e);
    StateText(toks, units, 0, 0, e);
    PartialEnds(toks, units, vals);
    assert Text(f) == Replaced(Source(toks), units, vals) == Fill(toks, vals) == Text(r);
    TextWeight(f);
    TextWeight(r);
    StateKept(toks, units, n, 0, 0, 0, e);
    StateSeam(toks, units, n, 0, e);
    StateSeam(toks, units, 0, 0, e);
    StateGood(toks, 0, 0, e);
    SameText(f, r, 0);
  }

  // -------------------------------------------- replaces that go right, one by one

  /** The replace reads numbers as their own, with their quotes. */
  predicate Calm(items: seq<Item>, j: nat, w: string, e: Edges) {
    && Below(items, j) && Quoting(w) && j >= 1 && e.Valid()
    && Weight(Step(items, j, w, e)) == Weight(items) && Good(Step(items, j, w, e))
  }

  lemma HitCalm(items: seq<Item>, j: nat, w: string, e: Edges)
    requires Calm(items, j, w, e) && Hits(items, j, w)
    ensures items == Own(j, w != "", w) + Behind(items, j, w) && Calm(Behind(items, j, w), j, w, e)
    ensures Step(items, j, w, e) == Read(j, w != "", w != "", e) + Step(Behind(items, j, w), j, w, e)
  {
    var rest, quoted := Behind(items, j, w), items[|w|].Pending? && items[|w|].quoted;
    HitWeight(items, j, w);
    BelowBehind(items, j, w, j);
    StepWeight(rest, j, w, e);
    ReadWeight(j, quoted, w != "", e, Step(rest, j, w, e));
    HitOwn(items, j, w);
    assert Step(items, j, w, e)[1] == Core(j, quoted, w != "");
    GoodTail(Read(j, quoted, w != "", e), Step(rest, j, w, e));
  }

  lemma PassCalm(i: Item, rest: seq<Item>, j: nat, w: string, e: Edges)
    requires Calm([i] + rest, j, w, e) && !Hits([i] + rest, j, w)
    ensures Step([i] + rest, j, w, e) == [i] + Step(rest, j, w, e) && Calm(rest, j, w, e)
  {
    assert ([i] + rest)[1..] == rest;
    BelowTail([i] + rest, j, 1);
    WeightCons(i, rest);
    WeightCons(i, Step(rest, j, w, e));
    GoodTail([i], Step(rest, j, w, e));
  }

  /** What the items of a template can begin with. */
  predicate Front(items: seq<Item>) {
    items != [] ==> items[0].Lit? || (items[0].Pending? && !items[0].quoted)
  }

  lemma OwnFront(j: nat, w: string, rest: seq<Item>)
    requires Quoting(w)
    ensures var s := Own(j, w != "", w) + rest;
      if w == "" then s == [Pending(j, false)] + rest else s == [Lit(w[0])] + ([Pending(j, true)] + ([Lit(w[0])] + rest))
  {
    if w != "" {
      InFront(Lit(w[0]), Pending(j, true), Lit(w[0]), rest);
      assert Own(j, true, w) == [Lit(w[0]), Pending(j, true), Lit(w[0])];
    }
  }

  lemma LitCalm(c: char, rest: seq<Item>, j: nat, w: string, e: Edges)
    requires Calm([Lit(c)] + rest, j, w, e) && Front(rest)
    ensures !Hits([Lit(c)] + rest, j, w)
    ensures Step([Lit(c)] + rest, j, w, e) == [Lit(c)] + Step(rest, j, w, e) && Calm(rest, j, w, e)
  {
    var items := [Lit(c)] + rest;
    assert items[0] == Lit(c) && items[1..] == rest;
    if Hits(items, j, w) {
      HitCalm(items, j, w, e);
      OwnFront(j, w, Behind(items, j, w));
    }
    PassCalm(Lit(c), rest, j, w, e);
  }

  lemma ReadCalm(k: nat, quoted: bool, rest: seq<Item>, j: nat, w: string, e: Edges)
    requires Calm(Read(k, quoted, quoted, e) + rest, j, w, e) && Front(rest)
    ensures !Hits([Lit(e.post)] + rest, j, w) && Calm(rest, j, w, e)
    ensures Step(Read(k, quoted, quoted, e) + rest, j, w, e) == Read(k, quoted, quoted, e) + Step(rest, j, w, e)
  {
    var core := Core(k, quoted, quoted);
    InFront(Lit(e.pre), core, Lit(e.post), rest);
    InFront(Lit(e.pre), core, Lit(e.post), Step(rest, j, w, e));
    var tail := [core] + ([Lit(e.post)] + rest);
    assert ([Lit(e.pre)] + tail)[1] == core;
    PassCalm(Lit(e.pre), tail, j, w, e);
    PassCalm(core, [Lit(e.post)] + rest, j, w, e);
    LitCalm(e.post, rest, j, w, e);
  }

  lemma BareCalm(k: nat, rest: seq<Item>, j: nat, w: string, e: Edges)
    requires Calm([Pending(k, false)] + rest, j, w, e)
    ensures k != j ==> !Hits([Pending(k, false)] + rest, j, w)
    ensures Calm(rest, j, w, e)
    ensures Step([Pending(k, false)] + rest, j, w, e)
         == (if k == j && w == "" then Read(k, false, false, e) else [Pending(k, false)]) + Step(rest, j, w, e)
  {
    var items := [Pending(k, false)] + rest;
    assert items[1..] == rest && items[0] == Pending(k, false);
    if Hits(items, j, w) {
      HitCalm(items, j, w, e);
      OwnFront(j, w, Behind(items, j, w));
      assert rest[0..] == rest;
    } else {
      assert !(k == j && w == "");
      PassCalm(Pending(k, false), rest, j, w, e);
    }
  }

  lemma QuotedHits(k: nat, quote: string, rest: seq<Item>)
    requires Quoting(quote) && quote != ""
    ensures Hits(Own(k, true, quote) + rest, k, quote) && Behind(Own(k, true, quote) + rest, k, quote) == rest
  {
    var items := Own(k, true, quote) + rest;
    OwnFront(k, quote, rest);
    assert items[1] == Pending(k, true) && items[1..][1..] == [Lit(quote[0])] + rest && items[2..] == items[1..][1..];
    assert Missing(items[1], k) + quote == quote;
    assert ([Lit(quote[0])] + rest)[1..] == rest;
  }

  lemma QuotedPass(k: nat, quote: string, rest: seq<Item>, j: nat, w: string, e: Edges)
    requires Quoting(quote) && quote != "" && Front(rest) && !(k == j && w == quote)
    requires Calm(Own(k, true, quote) + rest, j, w, e)
    ensures Calm(rest, j, w, e) && !Hits([Lit(quote[0])] + rest, j, w)
    ensures Step(Own(k, true, quote) + rest, j, w, e) == Own(k, true, quote) + Step(rest, j, w, e)
  {
    var q, p := Lit(quote[0]), Pending(k, true);
    OwnFront(k, quote, rest);
    OwnFront(k, quote, Step(rest, j, w, e));
    var items, tail := Own(k, true, quote) + rest, [p] + ([q] + rest);
    assert quote == [quote[0]];
    assert items[0] == q && items[1] == p && tail[0] == p;
    if Hits(items, j, w) {
      HitCalm(items, j, w, e);
      OwnFront(j, w, Behind(items, j, w));
    }
    PassCalm(q, tail, j, w, e);
    if Hits(tail, j, w) {
      HitCalm(tail, j, w, e);
      OwnFront(j, w, Behind(tail, j, w));
    }
    PassCalm(p, [q] + rest, j, w, e);
    LitCalm(quote[0], rest, j, w, e);
  }

  lemma QuotedCalm(k: nat, quote: string, rest: seq<Item>, j: nat, w: string, e: Edges)
    requires Quoting(quote) && quote != "" && Front(rest)
    requires Calm(Own(k, true, quote) + rest, j, w, e)
    ensures k != j ==> !Hits([Lit(quote[0])] + rest, j, w)
    ensures Calm(rest, j, w, e)
    ensures Step(Own(k, true, quote) + rest, j, w, e)
         == (if k == j && w == quote then Read(k, true, true, e) else Own(k, true, quote)) + Step(rest, j, w, e)
  {
    if k == j && w == quote {
      QuotedHits(k, quote, rest);
      HitCalm(Own(k, true, quote) + rest, j, w, e);
    } else {
      QuotedPass(k, quote, rest, j, w, e);
    }
  }

  /** Nothing is read across the end of a token, nor a number as a longer one. */
  predicate QuietToken(t: Token, rest: seq<Item>, j: nat, phase: nat, e: Edges) {
    var w := PhaseQuote(phase);
    match t
    case Ch(c) => !Hits([Lit(c)] + rest, j, w)
    case Hole(k, quote) =>
      if Done(k, quote, j, phase) then !Hits([Lit(e.post)] + rest, j, w)
      else if k == j then true
      else if quote == "" then !Hits([Pending(k, false)] + rest, j, w)
      else !Hits([Lit(quote[0])] + rest, j, w)
  }

  predicate Quiet(toks: seq<Token>, j: nat, phase: nat, e: Edges) {
    toks == [] || (QuietToken(toks[0], State(toks[1..], j, phase, e), j, phase, e) && Quiet(toks[1..], j, phase, e))
  }

  lemma TokenCalm(t: Token, units: seq<set<char>>, rest: seq<Item>, j: nat, phase: nat, e: Edges)
    requires Proper(t, units) && phase <= 2 && Front(rest) && Calm(TokenState(t, j, phase, e) + rest, j, PhaseQuote(phase), e)
    ensures QuietToken(t, rest, j, phase, e) && Calm(rest, j, PhaseQuote(phase), e)
    ensures Step(TokenState(t, j, phase, e) + rest, j, PhaseQuote(phase), e)
         == TokenState(t, j, phase + 1, e) + Step(rest, j, PhaseQuote(phase), e)
  {
    var w := PhaseQuote(phase);
    if t.Ch? {
      LitCalm(t.c, rest, j, w, e);
    } else {
      QuoteOf(t, units);
      if Done(t.arg, t.quote, j, phase) {
        ReadCalm(t.arg, t.quote != "", rest, j, w, e);
      } else if t.quote == "" {
        assert Own(t.arg, false, t.quote) == [Pending(t.arg, false)];
        BareCalm(t.arg, rest, j, w, e);
      } else {
        QuotedCalm(t.arg, t.quote, rest, j, w, e);
      }
    }
  }

  /** Such a replace does its holes, and nothing else is near being read. */
  lemma {:induction false} StateCalm(toks: seq<Token>, units: seq<set<char>>, j: nat, phase: nat, e: Edges)
    requires AllProper(toks, units) && phase <= 2 && Calm(State(toks, j, phase, e), j, PhaseQuote(phase), e)
    ensures Step(State(toks, j, phase, e), j, PhaseQuote(phase), e) == State(toks, j, phase + 1, e)
    ensures Quiet(toks, j, phase, e)
  {
    if toks != [] {
      StateSeam(toks[1..], units, j, phase, e);
      TokenCalm(toks[0], units, State(toks[1..], j, phase, e), j, phase, e);
      StateCalm(toks[1..], units, j, phase, e);
    }
  }

  lemma {:induction false} StateSkip(toks: seq<Token>, units: seq<set<char>>, j: nat, phase: nat, e: Edges)
    requires AllProper(toks, units) && 1 <= j <= |units| && phase < 2 && PhaseQuote(phase)[0] !in units[j - 1]
    ensures State(toks, j, phase, e) == State(toks, j, phase + 1, e)
  {
    if toks != [] {
      StateSkip(toks[1..], units, j, phase, e);
    }
  }

  lemma {:induction false} StateArg(toks: seq<Token>, j: nat, e: Edges)
    requires j > 0
    ensures State(toks, j, 3, e) == State(toks, j - 1, 0, e)
  {
    if toks != [] {
      StateArg(toks[1..], j, e);
    }
  }

  /** A replace that the source does not skip. */
  predicate Asked(units: seq<set<char>>, j: nat, phase: nat) {
    1 <= j <= |units| && phase <= 2 && (phase < 2 ==> PhaseQuote(phase)[0] in units[j - 1])
  }

  lemma StateStep(toks: seq<Token>, units: seq<set<char>>, j: nat, phase: nat, e: Edges)
    requires AllProper(toks, units) && e.Valid() && 1 <= j <= |units| && phase <= 2
    requires Fine(State(toks, j, phase, e), units, j, phase, e)
    ensures Asked(units, j, phase) ==> Quiet(toks, j, phase, e)
    ensures Fine(State(toks, j, phase + 1, e), units, j, phase + 1, e)
  {
    StateBelow(toks, units, j, phase, e);
    FineNext(State(toks, j, phase, e), units, j, phase, e);
    if Asked(units, j, phase) {
      StateCalm(toks, units, j, phase, e);
    } else {
      StateSkip(toks, units, j, phase, e);
    }
  }

  lemma {:induction false} FineQuiet(toks: seq<Token>, units: seq<set<char>>, j: nat, phase: nat, e: Edges, i: nat, p: nat)
    requires AllProper(toks, units) && e.Valid() && j <= |units| && phase <= 3
    requires Fine(State(toks, j, phase, e), units, j, phase, e)
    requires Asked(units, i, p) && Due(i, p, j, phase)
    ensures Quiet(toks, i, p, e)
    decreases j, 3 - phase
  {
    if phase == 3 {
      StateArg(toks, j, e);
      FineQuiet(toks, units, j - 1, 0, e, i, p);
    } else {
      StateStep(toks, units, j, phase, e);
      if !(i == j && p == phase) {
        FineQuiet(toks, units, j, phase + 1, e, i, p);
      }
    }
  }

  ghost predicate AlwaysQuiet(toks: seq<Token>, units: seq<set<char>>) {
    forall j: nat, phase: nat, e: Edges | Asked(units, j, phase) && e.Valid() :: Quiet(toks, j, phase, e)
  }

  lemma SubstitutesQuiet(toks: seq<Token>, units: seq<set<char>>)
    requires AllProper(toks, units) && Substitutes(toks, units)
    ensures AlwaysQuiet(toks, units)
  {
    forall j: nat, phase: nat, e: Edges | Asked(units, j, phase) && e.Valid()
      ensures Quiet(toks, j, phase, e)
    {
      SubstitutesFine(toks, units, e);
      FineQuiet(toks, units, |units|, 0, e, j, phase);
    }
  }

  // ----------------------------------------------------------- what that excludes

  /** A `$` with its digits, behind which another digit stands. */
  lemma HitsLonger(i: Item, rest: seq<Item>, m: nat, d: char)
    requires Dollar(i) && Itoa(m) == Numeral(i) + [d] && rest != [] && rest[0] == Lit(d)
    ensures Hits([i] + rest, m, "")
  {
    assert ([i] + rest)[1..] == rest;
    assert Missing(i, m) + "" == [d];
  }

  /** A placeholder between two quotes. */
  lemma HitsBetween(q: char, m: nat, rest: seq<Item>)
    requires rest != [] && rest[0] == Lit(q)
    ensures Hits([Lit(q)] + ([Pending(m, false)] + rest), m, [q])
  {
    var items := [Lit(q)] + ([Pending(m, false)] + rest);
    assert items[1] == Pending(m, false) && items[2..] == rest;
    assert Missing(Pending(m, false), m) + [q] == [q];
  }

  lemma PairFromStray(next: Token, rest: seq<Token>, units: seq<set<char>>)
    requires Proper(next, units) && AlwaysQuiet([Ch('$'), next] + rest, units)
    ensures PairOk(Ch('$'), next, |units|)
  {
    var toks := [Ch('$'), next] + rest;
    assert toks[1..] == [next] + rest && toks[1..][0] == next;
    if !PairOk(Ch('$'), next, |units|) {
      var m, e := if next.Ch? then DigitValue(next.c) else 1, Edges('1', 'y');
      assert Asked(units, m, 2);
      assert Itoa(1) == "1";
      assert Quiet(toks, m, 2, e);
      HitsLonger(Lit('$'), State(toks[1..], m, 2, e), m, if next.Ch? then next.c else '1');
    }
  }

  lemma PairFromBare(a: nat, next: Token, rest: seq<Token>, units: seq<set<char>>)
    requires 1 <= a && Proper(next, units) && AlwaysQuiet([Hole(a, ""), next] + rest, units)
    ensures PairOk(Hole(a, ""), next, |units|)
  {
    var toks := [Hole(a, ""), next] + rest;
    assert toks[1..] == [next] + rest && toks[1..][0] == next;
    if !PairOk(Hole(a, ""), next, |units|) {
      var d, e := if next.Ch? then next.c else '0', Edges('0', 'y');
      var m := 10 * a + DigitValue(d);
      assert Asked(units, m, 2);
      ItoaSnoc(a, d);
      assert Quiet(toks, m, 2, e);
      HitsLonger(Pending(a, false), State(toks[1..], m, 2, e), m, d);
    }
  }

  lemma PairFromQuiet(t: Token, next: Token, rest: seq<Token>, units: seq<set<char>>)
    requires Proper(t, units) && Proper(next, units) && AlwaysQuiet([t, next] + rest, units)
    ensures PairOk(t, next, |units|)
  {
    if t == Ch('$') {
      PairFromStray(next, rest, units);
    } else if t.Hole? && t.quote == "" {
      PairFromBare(t.arg, next, rest, units);
    }
  }

  /** A text that may begin with a quote that is replaced does so for some values. */
  lemma BeginsWith(behind: Token, rest: seq<Token>, units: seq<set<char>>, j: nat, phase: nat, e: Edges)
    requires Proper(behind, units) && phase < 2 && e.pre == PhaseQuote(phase)[0] && BeginsQuote(behind, j, phase)
    ensures var s := State([behind] + rest, j, phase, e); s != [] && s[0] == Lit(e.pre)
  {
    if behind.Hole? {
      QuoteOf(behind, units);
    }
  }

  lemma QuotesFromQuiet(before: Token, j: nat, behind: Token, rest: seq<Token>, units: seq<set<char>>)
    requires Proper(before, units) && 1 <= j <= |units| && Proper(behind, units)
    requires AlwaysQuiet([before, Hole(j, ""), behind] + rest, units)
    ensures QuotesOk(before, j, behind, units[j - 1])
  {
    forall phase | 0 <= phase < 2 && PhaseQuote(phase)[0] in units[j - 1]
      ensures !(EndsQuote(before, j, phase) && BeginsQuote(behind, j, phase))
    {
      if EndsQuote(before, j, phase) && BeginsQuote(behind, j, phase) {
        var q := PhaseQuote(phase)[0];
        var e := Edges(q, q);
        var toks := [before, Hole(j, ""), behind] + rest;
        assert toks[0] == before && toks[1..] == [Hole(j, "")] + ([behind] + rest) && toks[1..][1..] == [behind] + rest;
        assert Own(j, false, "") == [Pending(j, false)];
        assert Asked(units, j, phase);
        assert Quiet(toks, j, phase, e);
        BeginsWith(behind, rest, units, j, phase, e);
        HitsBetween(q, j, State([behind] + rest, j, phase, e));
      }
    }
  }

  lemma {:induction false} ProperAt(toks: seq<Token>, units: seq<set<char>>, i: nat)
    requires AllProper(toks, units) && i < |toks|
    ensures Proper(toks[i], units)
  {
    if i > 0 {
      ProperAt(toks[1..], units, i - 1);
    }
  }

  lemma HeadFromQuiet(toks: seq<Token>, units: seq<set<char>>)
    requires toks != [] && AllProper(toks, units) && AlwaysQuiet(toks, units)
    ensures HeadOk(toks[0], toks[1..], units)
  {
    if |toks| > 1 {
      ProperAt(toks, units, 1);
      assert toks == [toks[0], toks[1]] + toks[2..] && toks[1..][0] == toks[1];
      PairFromQuiet(toks[0], toks[1], toks[2..], units);
      if |toks| > 2 && IsBare(toks[1], |units|) {
        ProperAt(toks, units, 2);
        assert toks[1..][1] == toks[2];
        assert toks == [toks[0], Hole(toks[1].arg, ""), toks[2]] + toks[3..];
        QuotesFromQuiet(toks[0], toks[1].arg, toks[2], toks[3..], units);
      }
    }
  }

  lemma {:induction false} QuietWellFormed(toks: seq<Token>, units: seq<set<char>>)
    requires AllProper(toks, units) && AlwaysQuiet(toks, units)
    ensures WellFormed(toks, units)
  {
    if toks != [] {
      HeadFromQuiet(toks, units);
      forall j: nat, phase: nat, e: Edges | Asked(units, j, phase) && e.Valid()
        ensures Quiet(toks[1..], j, phase, e)
      {
        assert Quiet(toks, j, phase, e);
      }
      QuietWellFormed(toks[1..], units);
    }
  }

  /**
   The condition on templates is exact: the replaces are one substitution for all
   values without `$` if and only if no two neighbours, and no bare placeholder
   with its neighbours, can be read together.
   */
  lemma WellFormedExact(toks: seq<Token>, units: seq<set<char>>)
    requires AllProper(toks, units)
    ensures WellFormed(toks, units) <==> Substitutes(toks, units)
  {
    if WellFormed(toks, units) {
      WellFormedSubstitutes(toks, units);
    }
    if Substitutes(toks, units) {
      SubstitutesQuiet(toks, units);
      QuietWellFormed(toks, units);
    }
  }

  lemma ReadsProper(s: string, units: seq<set<char>>, t: Token)
    requires Reads(s, units, t)
    ensures Proper(t, units)
  {
  }

  lemma {:induction false} TokenizeProper(s: string, units: seq<set<char>>)
    ensures AllProper(Tokenize(s, units), units)
    decreases |s|
  {
    if s != "" {
      var t := NextToken(s, units);
      NextReads(s, units);
      ReadsProper(s, units, t);
      TokenizeNext(s, units, t);
      TokenizeProper(s[|Written(t)|..], units);
    }
  }

  /** So on every query the replaces are one substitution, for all values without `$`, just if it reads as a well-formed template. */
  lemma QueryExact(query: string, units: seq<set<char>>)
    ensures WellFormed(Tokenize(query, units), units) <==>
            forall vals: seq<string> | |vals| == |units| && DollarFree(vals) ::
              Replaced(query, units, vals) == Substituted(query, units, vals)
  {
    SourceTokenize(query, units);
    TokenizeProper(query, units);
    WellFormedExact(Tokenize(query, units), units);
  }

  // ----------------------------------------------------------------- windows

  /** Two neighbours, or a bare placeholder with both its neighbours. */
  predicate Window(toks: seq<Token>, i: nat, k: nat, n: nat) {
    i + k <= |toks| && (k == 2 || (k == 3 && IsBare(toks[i + 1], n)))
  }

  /** In every window the replaces are one substitution for all values. */
  ghost predicate LocallySubstitutes(toks: seq<Token>, units: seq<set<char>>) {
    forall i: nat, k: nat | Window(toks, i, k, |units|) :: Substitutes(toks[i..i + k], units)
  }

  ghost predicate LocallyWellFormed(toks: seq<Token>, units: seq<set<char>>) {
    forall i: nat, k: nat | Window(toks, i, k, |units|) :: WellFormed(toks[i..i + k], units)
  }

  lemma {:induction false} WindowOf(toks: seq<Token>, units: seq<set<char>>, i: nat, k: nat)
    requires WellFormed(toks, units) && i + k <= |toks|
    ensures WellFormed(toks[i..i + k], units)
  {
    if i > 0 {
      WindowOf(toks[1..], units, i - 1, k);
      assert toks[1..][i - 1..i - 1 + k] == toks[i..i + k];
    } else if k > 0 {
      WindowOf(toks[1..], units, 0, k - 1);
      assert toks[0..k][1..] == toks[1..][0..k - 1];
    }
  }

  lemma HeadFromWindows(toks: seq<Token>, units: seq<set<char>>)
    requires AllProper(toks, units) && LocallyWellFormed(toks, units) && toks != []
    ensures HeadOk(toks[0], toks[1..], units)
  {
    if |toks| > 1 {
      assert Window(toks, 0, 2, |units|);
      var two := toks[0..2];
      assert two[0] == toks[0] && two[1..][0] == toks[1];
      if |toks| > 2 && IsBare(toks[1], |units|) {
        assert Window(toks, 0, 3, |units|);
        var three := toks[0..3];
        assert three[0] == toks[0] && three[1..][0] == toks[1] && three[1..][1] == toks[2];
      }
    }
  }

  lemma {:induction false} FromWindows(toks: seq<Token>, units: seq<set<char>>)
    requires AllProper(toks, units) && LocallyWellFormed(toks, units)
    ensures WellFormed(toks, units)
  {
    if toks != [] {
      HeadFromWindows(toks, units);
      forall i: nat, k: nat | Window(toks[1..], i, k, |units|)
        ensures WellFormed(toks[1..][i..i + k], units)
      {
        assert Window(toks, i + 1, k, |units|);
        assert toks[1..][i..i + k] == toks[i + 1..i + 1 + k];
      }
      FromWindows(toks[1..], units);
    }
  }

  lemma {:induction false} ProperWindow(toks: seq<Token>, units: seq<set<char>>, i: nat, k: nat)
    requires AllProper(toks, units) && i + k <= |toks|
    ensures AllProper(toks[i..i + k], units)
    decreases k
  {
    if k > 0 {
      ProperAt(toks, units, i);
      ProperWindow(toks, units, i + 1, k - 1);
      assert toks[i..i + k][1..] == toks[i + 1..i + k];
    }
  }

  /**
   Whether a template is substituted rightly is a local matter: it is just if every
   two neighbours, and every bare placeholder with its neighbours, are when they
   stand alone.
   */
  lemma SubstitutesLocally(toks: seq<Token>, units: seq<set<char>>)
    requires AllProper(toks, units)
    ensures Substitutes(toks, units) <==> LocallySubstitutes(toks, units)
  {
    WellFormedExact(toks, units);
    forall i: nat, k: nat | Window(toks, i, k, |units|)
      ensures WellFormed(toks[i..i + k], units) <==> Substitutes(toks[i..i + k], units)
      ensures WellFormed(toks, units) ==> WellFormed(toks[i..i + k], units)
    {
      ProperWindow(toks, units, i, k);
      WellFormedExact(toks[i..i + k], units);
      if WellFormed(toks, units) {
        WindowOf(toks, units, i, k);
      }
    }
    if LocallySubstitutes(toks, units) {
      FromWindows(toks, units);
    }
  }

  // -------------------------------------------------------------- an example

  /**
   Two quoted placeholders that share a quote are not substituted at once:
   the quote that closes the first value is taken for the one that opens the
   second placeholder.
   */
  lemma SharedQuote()
    ensures var q := "'$2'$1'";
      var s := ReplaceAll(ReplaceAll(q, "'$2'", "'b'"), "'$1'", "'a'");
      s == "'b'a'" && s != "'b'" + "'a'" + "'"
  {
    assert ReplaceAll("'$2'$1'", "'$2'", "'b'") == "'b'" + ReplaceAll("$1'", "'$2'", "'b'");
    assert Lacks("$1'", '2');
    ReplaceAbsent("$1'", "'$2'", "'b'", 2);
    assert "'b'" + "$1'" == "'b" + "'$1'";
    assert "'b'$1'" == "'b" + "'$1'";
    assert ReplaceAll("'$1'", "'$1'", "'a'") == "'a'";
    var s := "'b'$1'";
    assert !("'$1'" <= s) && !("'$1'" <= s[1..]);
    assert s[1..][1..] == "'$1'";
    assert ReplaceAll(s, "'$1'", "'a'") == ['\''] + (['b'] + "'a'");
  }
}
