/**
 Inlining of `$N` placeholders: the descending sequence of global replaces of
 pkg/env/env_query.go and pkg/output/writer.go against one simultaneous
 substitution.
 */
module Inline {
  import opened Strings
  import opened Convert
  import opened ValuesToken

  // ------------------------------------------------------- queries as tokens

  /**
   A query read as tokens: plain characters, and holes for the argument number
   `arg` (counted from 1). A hole with `quote` `'` or `"` stands for a
   placeholder that is replaced together with the quotes around it.
   */
  datatype Token = Ch(c: char) | Hole(arg: nat, quote: string)

  function Placeholder(k: nat): (s: string)
    ensures |s| >= 2
  {
    "$" + Itoa(k)
  }

  function Written(t: Token): string {
    match t
    case Ch(c) => [c]
    case Hole(k, quote) => quote + Placeholder(k) + quote
  }

  function Source(toks: seq<Token>): string {
    if toks == [] then "" else Written(toks[0]) + Source(toks[1..])
  }

  /** The text of argument `k`, counted from 1. */
  function Arg(vals: seq<string>, k: nat): string {
    if 1 <= k <= |vals| then vals[k - 1] else ""
  }

  /** The simultaneous substitution: every hole becomes the text of its argument. */
  function Fill(toks: seq<Token>, vals: seq<string>): string {
    if toks == [] then ""
    else (match toks[0] case Ch(c) => [c] case Hole(k, _) => Arg(vals, k)) + Fill(toks[1..], vals)
  }

  /** The numbers of the holes, in textual order. */
  function Holes(toks: seq<Token>): seq<nat> {
    if toks == [] then []
    else (match toks[0] case Ch(_) => [] case Hole(k, _) => [k]) + Holes(toks[1..])
  }

  // ------------------------------------------------------------- tokenizing

  predicate IsQuote(c: char) {
    c == '\'' || c == '"'
  }

  /** `s` starts with placeholder `k`, which no further digit continues. */
  predicate StartsWith(s: string, k: nat) {
    && Placeholder(k) <= s
    && (|Placeholder(k)| == |s| || !IsDigit(s[|Placeholder(k)|]))
  }

  ghost predicate StartsHole(s: string, n: nat) {
    exists k | 1 <= k <= n :: StartsWith(s, k)
  }

  ghost function HoleNumber(s: string, n: nat): (k: nat)
    requires StartsHole(s, n)
    ensures 1 <= k <= n && StartsWith(s, k)
  {
    var k :| 1 <= k <= n && StartsWith(s, k); k
  }

  lemma HoleNumberUnique(s: string, n: nat, k: nat)
    requires 1 <= k <= n && StartsWith(s, k)
    ensures StartsHole(s, n) && HoleNumber(s, n) == k
  {
    var j := HoleNumber(s, n);
    NumeralsAgree(s, j, k);
  }

  lemma BehindDollar(s: string, k: nat)
    requires StartsWith(s, k)
    ensures s != "" && Itoa(k) <= s[1..] && (|s[1..]| == |Itoa(k)| || !IsDigit(s[1..][|Itoa(k)|]))
  {
    assert Placeholder(k)[1..] == Itoa(k);
  }

  lemma NumeralBefore(t: string, j: nat, k: nat)
    requires Itoa(j) <= t && Itoa(k) <= t && (|t| == |Itoa(k)| || !IsDigit(t[|Itoa(k)|]))
    ensures j <= k
  {
    var rest := t[|Itoa(k)|..];
    assert t == Itoa(k) + rest;
    NumeralMatch(j, k, rest);
  }

  lemma NumeralsAgree(s: string, j: nat, k: nat)
    requires StartsWith(s, j) && StartsWith(s, k)
    ensures j == k
  {
    BehindDollar(s, j);
    BehindDollar(s, k);
    NumeralBefore(s[1..], j, k);
    NumeralBefore(s[1..], k, j);
  }

  /**
   `s` starts with placeholder `k` inside a pair of quotes that goes away with
   it: `units[k - 1]` are the quote characters for which argument `k` is
   replaced as such a unit.
   */
  predicate UnitAt(s: string, units: seq<set<char>>, k: nat) {
    && s != "" && IsQuote(s[0]) && 1 <= k <= |units| && StartsWith(s[1..], k) && s[0] in units[k - 1]
    && |Placeholder(k)| + 1 < |s| && s[|Placeholder(k)| + 1] == s[0]
  }

  ghost predicate StartsUnit(s: string, units: seq<set<char>>) {
    s != "" && StartsHole(s[1..], |units|) && UnitAt(s, units, HoleNumber(s[1..], |units|))
  }

  lemma UnitWritten(s: string, k: nat)
    requires s != "" && Placeholder(k) <= s[1..] && |Placeholder(k)| + 1 < |s| && s[|Placeholder(k)| + 1] == s[0]
    ensures Written(Hole(k, [s[0]])) <= s
  {
    var p := Placeholder(k);
    assert s[..|p| + 2] == [s[0]] + p + [s[0]];
  }

  lemma BareWritten(k: nat)
    ensures Written(Hole(k, "")) == Placeholder(k)
  {
  }

  /** The token `s` begins with. */
  ghost function NextToken(s: string, units: seq<set<char>>): (t: Token)
    requires s != ""
    ensures Written(t) <= s && Written(t) != ""
  {
    if StartsUnit(s, units) then
      var k := HoleNumber(s[1..], |units|);
      UnitWritten(s, k);
      Hole(k, [s[0]])
    else if StartsHole(s, |units|) then
      var k := HoleNumber(s, |units|);
      BareWritten(k);
      Hole(k, "")
    else Ch(s[0])
  }

  ghost function Tokenize(s: string, units: seq<set<char>>): (toks: seq<Token>)
    ensures s == "" <==> toks == []
    decreases |s|
  {
    if s == "" then []
    else
      var t := NextToken(s, units);
      [t] + Tokenize(s[|Written(t)|..], units)
  }

  /** `t` is the token that the text begins with. */
  ghost predicate Reads(s: string, units: seq<set<char>>, t: Token) {
    s != "" &&
    match t
    case Ch(c) => c == s[0] && !StartsHole(s, |units|) && forall k :: !UnitAt(s, units, k)
    case Hole(k, quote) =>
      if quote == "" then 1 <= k <= |units| && StartsWith(s, k) else UnitAt(s, units, k) && quote == [s[0]]
  }

  lemma UnitStarts(s: string, units: seq<set<char>>, k: nat)
    requires UnitAt(s, units, k)
    ensures StartsUnit(s, units)
  {
    HoleNumberUnique(s[1..], |units|, k);
  }

  lemma NextReads(s: string, units: seq<set<char>>)
    requires s != ""
    ensures Reads(s, units, NextToken(s, units))
  {
    forall k | UnitAt(s, units, k)
      ensures StartsUnit(s, units)
    {
      UnitStarts(s, units, k);
    }
  }

  lemma NextHole(s: string, units: seq<set<char>>, k: nat)
    requires s != "" && 1 <= k <= |units| && StartsWith(s, k)
    ensures NextToken(s, units) == Hole(k, "")
  {
    assert s[0] == Placeholder(k)[0] == '$';
    HoleNumberUnique(s, |units|, k);
  }

  lemma TokenizeNext(s: string, units: seq<set<char>>, t: Token)
    requires s != "" && NextToken(s, units) == t
    ensures Tokenize(s, units) == [t] + Tokenize(s[|Written(t)|..], units)
    ensures Tokenize(s, units)[0] == t && Tokenize(s, units)[1..] == Tokenize(s[|Written(t)|..], units)
  {
  }

  lemma SourceNext(t: Token, rest: seq<Token>, s: string)
    requires Written(t) <= s && Source(rest) == s[|Written(t)|..]
    ensures Source([t] + rest) == s
  {
    assert ([t] + rest)[1..] == rest;
    assert s == Written(t) + s[|Written(t)|..];
  }

  /** Tokenizing loses nothing. */
  lemma {:induction false} SourceTokenize(s: string, units: seq<set<char>>)
    ensures Source(Tokenize(s, units)) == s
    decreases |s|
  {
    if s != "" {
      var t := NextToken(s, units);
      var rest := s[|Written(t)|..];
      TokenizeNext(s, units, t);
      SourceTokenize(rest, units);
      SourceNext(t, Tokenize(rest, units), s);
    }
  }

  /** What may follow a placeholder: neither a digit nor, at once or behind one quote, another `$`. */
  predicate FollowOk(rest: string) {
    rest != "" ==>
      && !IsDigit(rest[0])
      && rest[0] != '$'
      && !(IsQuote(rest[0]) && |rest| > 1 && rest[1] == '$')
  }

  /** `s` starts with a placeholder in 1..n that stands clear of what follows it. */
  ghost predicate ClearHole(s: string, n: nat) {
    exists k | 1 <= k <= n :: Placeholder(k) <= s && FollowOk(s[|Placeholder(k)|..])
  }

  ghost predicate ClearAt(q: string, i: nat, n: nat)
    requires i < |q|
  {
    q[i] == '$' ==> ClearHole(q[i..], n)
  }

  /** Every `$` of `q` begins a placeholder in 1..n that stands clear of the next one. */
  ghost predicate Clear(q: string, n: nat) {
    forall i: nat {:trigger ClearAt(q, i, n)} | i < |q| :: ClearAt(q, i, n)
  }

  lemma ClearTail(q: string, n: nat, i: nat)
    requires Clear(q, n) && i <= |q|
    ensures Clear(q[i..], n)
  {
    forall k: nat | k < |q[i..]|
      ensures ClearAt(q[i..], k, n)
    {
      assert ClearAt(q, i + k, n);
      assert q[i..][k..] == q[i + k..];
    }
  }

  /** A clear text that begins with `$` begins with a placeholder that stands clear. */
  lemma ClearStarts(s: string, n: nat) returns (k: nat)
    requires Clear(s, n) && s != "" && s[0] == '$'
    ensures 1 <= k <= n && StartsWith(s, k) && FollowOk(s[|Placeholder(k)|..])
  {
    assert ClearAt(s, 0, n) && s[0..] == s;
    k :| 1 <= k <= n && Placeholder(k) <= s && FollowOk(s[|Placeholder(k)|..]);
  }

  lemma ClearFollow(s: string, n: nat, k: nat)
    requires Clear(s, n) && 1 <= k <= n && StartsWith(s, k)
    ensures FollowOk(s[|Placeholder(k)|..])
  {
    assert s[0] == Placeholder(k)[0];
    var j := ClearStarts(s, n);
    NumeralsAgree(s, j, k);
  }

  /** How the tokens of a clear query relate to the ones after them. */
  predicate Apart(t: Token, rest: seq<Token>, units: seq<set<char>>) {
    match t
    case Ch(c) =>
      && c != '$'
      // a quoted placeholder that is replaced with its quotes is read as one hole
      && !(|rest| > 1 && rest[0].Hole? && rest[0].quote == "" && rest[1] == Ch(c)
           && IsQuote(c) && 1 <= rest[0].arg <= |units| && c in units[rest[0].arg - 1])
    case Hole(k, quote) =>
      && 1 <= k <= |units|
      && (quote != "" ==> |quote| == 1 && IsQuote(quote[0]) && quote[0] in units[k - 1])
      && (rest != [] && rest[0].Hole? ==> quote != "" && rest[0].quote != "")
      && (quote == "" && rest != [] ==> rest[0].Ch? && !IsDigit(rest[0].c))
  }

  predicate AllApart(toks: seq<Token>, units: seq<set<char>>) {
    toks == [] || (Apart(toks[0], toks[1..], units) && AllApart(toks[1..], units))
  }

  /** What the tokens of `s` say of its first characters. */
  predicate Heads(s: string, toks: seq<Token>) {
    && (s == "" <==> toks == [])
    && (s != "" ==>
          match toks[0]
          case Ch(c) => c == s[0]
          case Hole(_, quote) => if quote == "" then s[0] == '$' else IsQuote(s[0]) && |s| > 1 && s[1] == '$')
  }

  lemma ReadsHead(s: string, units: seq<set<char>>, t: Token, rest: seq<Token>)
    requires Reads(s, units, t)
    ensures Heads(s, [t] + rest)
  {
    if t.Hole? {
      var p := Placeholder(t.arg);
      assert p[0] == '$';
      assert if t.quote == "" then p <= s else p <= s[1..];
    }
  }

  lemma TokenizeHeads(s: string, units: seq<set<char>>)
    ensures Heads(s, Tokenize(s, units))
  {
    if s != "" {
      NextReads(s, units);
      TokenizeNext(s, units, NextToken(s, units));
      ReadsHead(s, units, NextToken(s, units), Tokenize(s, units)[1..]);
    }
  }

  /** A bare placeholder and the character behind it, in the text. */
  predicate BareThenChar(s: string, units: seq<set<char>>, toks: seq<Token>) {
    |toks| > 1 && toks[0].Hole? && toks[0].quote == "" && toks[1].Ch? ==>
      var k := toks[0].arg;
      1 <= k <= |units| && StartsWith(s, k) && |Placeholder(k)| < |s| && s[|Placeholder(k)|] == toks[1].c
  }

  lemma BareBehind(s: string, units: seq<set<char>>, k: nat, toks: seq<Token>)
    requires Reads(s, units, Hole(k, "")) && Heads(s[|Placeholder(k)|..], toks)
    ensures BareThenChar(s, units, [Hole(k, "")] + toks)
  {
  }

  lemma TokenizeBare(s: string, units: seq<set<char>>)
    ensures BareThenChar(s, units, Tokenize(s, units))
  {
    if s != "" {
      var t := NextToken(s, units);
      NextReads(s, units);
      TokenizeNext(s, units, t);
      if t.Hole? && t.quote == "" {
        BareWritten(t.arg);
        TokenizeHeads(s[|Placeholder(t.arg)|..], units);
        BareBehind(s, units, t.arg, Tokenize(s[|Placeholder(t.arg)|..], units));
      }
    }
  }

  /** What follows a placeholder and its closing quote does not begin with `$`. */
  lemma BehindUnit(s: string, n: nat, k: nat)
    requires Clear(s, n) && s != "" && IsQuote(s[0]) && 1 <= k <= n && StartsWith(s[1..], k)
    requires |Placeholder(k)| + 1 < |s| && s[|Placeholder(k)| + 1] == s[0]
    ensures var rest := s[|Placeholder(k)| + 2..]; rest != "" ==> rest[0] != '$'
  {
    ClearTail(s, n, 1);
    ClearFollow(s[1..], n, k);
    NotBehindQuote(s, |Placeholder(k)|);
  }

  lemma NotBehindQuote(s: string, i: nat)
    requires i + 1 < |s| && IsQuote(s[i + 1]) && FollowOk(s[1..][i..])
    ensures i + 2 < |s| ==> s[i + 2] != '$'
  {
    assert s[1..][i..][0] == s[i + 1] && (i + 2 < |s| ==> s[1..][i..][1] == s[i + 2]);
  }

  /** Behind a placeholder and its closing quote. */
  lemma UnitApart(s: string, units: seq<set<char>>, k: nat, toks: seq<Token>)
    requires Clear(s, |units|) && UnitAt(s, units, k) && Heads(s[|Placeholder(k)| + 2..], toks)
    ensures Apart(Hole(k, [s[0]]), toks, units)
  {
    BehindUnit(s, |units|, k);
  }

  /** Behind a bare placeholder. */
  lemma HoleApart(s: string, units: seq<set<char>>, k: nat, toks: seq<Token>)
    requires Clear(s, |units|) && 1 <= k <= |units| && StartsWith(s, k) && Heads(s[|Placeholder(k)|..], toks)
    ensures Apart(Hole(k, ""), toks, units)
  {
    ClearFollow(s, |units|, k);
  }

  lemma NotDollar(s: string, n: nat)
    requires Clear(s, n) && s != "" && !StartsHole(s, n)
    ensures s[0] != '$'
  {
    if s[0] == '$' {
      var k := ClearStarts(s, n);
    }
  }

  /** A placeholder between two quotes that go away with it is not read as a bare one. */
  lemma NotUnread(s: string, units: seq<set<char>>, toks: seq<Token>)
    requires s != "" && IsQuote(s[0]) && BareThenChar(s[1..], units, toks) && forall k :: !UnitAt(s, units, k)
    requires |toks| > 1 && toks[0].Hole? && toks[0].quote == "" && toks[1] == Ch(s[0])
    ensures 1 <= toks[0].arg <= |units| && s[0] !in units[toks[0].arg - 1]
  {
    var k := toks[0].arg;
    assert s[1..][|Placeholder(k)|] == s[|Placeholder(k)| + 1];
    assert !UnitAt(s, units, k);
  }

  lemma CharApart(s: string, units: seq<set<char>>, toks: seq<Token>)
    requires s != "" && Clear(s, |units|) && Reads(s, units, Ch(s[0])) && BareThenChar(s[1..], units, toks)
    ensures Apart(Ch(s[0]), toks, units)
  {
    NotDollar(s, |units|);
    if |toks| > 1 && toks[0].Hole? && toks[0].quote == "" && toks[1] == Ch(s[0]) && IsQuote(s[0]) {
      NotUnread(s, units, toks);
    }
  }

  lemma WrittenLength(t: Token)
    ensures |Written(t)| == if t.Ch? then 1 else |Placeholder(t.arg)| + 2 * |t.quote|
  {
  }

  lemma ReadsApart(s: string, units: seq<set<char>>, t: Token, toks: seq<Token>)
    requires Clear(s, |units|) && Reads(s, units, t) && |Written(t)| <= |s|
    requires Heads(s[|Written(t)|..], toks) && BareThenChar(s[|Written(t)|..], units, toks)
    ensures Apart(t, toks, units)
  {
    WrittenLength(t);
    if t.Ch? {
      CharApart(s, units, toks);
    } else if t.quote == "" {
      HoleApart(s, units, t.arg, toks);
    } else {
      UnitApart(s, units, t.arg, toks);
    }
  }

  /** The tokens of a clear query stand apart. */
  lemma {:induction false} TokenizeApart(s: string, units: seq<set<char>>)
    requires Clear(s, |units|)
    ensures AllApart(Tokenize(s, units), units)
    decreases |s|
  {
    if s != "" {
      var t := NextToken(s, units);
      var rest := s[|Written(t)|..];
      NextReads(s, units);
      TokenizeHeads(rest, units);
      TokenizeBare(rest, units);
      ReadsApart(s, units, t, Tokenize(rest, units));
      ClearTail(s, |units|, |Written(t)|);
      TokenizeApart(rest, units);
      TokenizeNext(s, units, t);
    }
  }

  // ------------------------------------------- templates that can be filled

  function DigitValue(c: char): (d: nat)
    requires IsDigit(c)
    ensures d < 10
  {
    c as int - 48
  }

  /** A hole is for an argument that there is, and takes along only quotes that are replaced with it. */
  predicate Proper(t: Token, units: seq<set<char>>) {
    t.Hole? ==>
      && 1 <= t.arg <= |units|
      && (t.quote == "" || (|t.quote| == 1 && IsQuote(t.quote[0]) && t.quote[0] in units[t.arg - 1]))
  }

  /** The quotes handled by replace number `phase` of one argument. */
  function PhaseQuote(phase: nat): string {
    if phase == 0 then "'" else if phase == 1 then "\"" else ""
  }

  /**
   Whether a hole is replaced by the time the arguments above `j` and the
   first `phase` replaces of argument `j` are done.
   */
  predicate Done(k: nat, quote: string, j: nat, phase: nat) {
    k > j || (k == j && (phase > 2 || (phase > 1 && quote == PhaseQuote(1)) || (phase > 0 && quote == PhaseQuote(0))))
  }

  /**
   What may stand behind a token without being read together with it. A `$`
   that begins no placeholder is read together with a digit that is an
   argument's number, and with any value but the one replaced last. A bare
   placeholder `$a` is read together with a digit behind it, its own or that of
   a value replaced earlier, as soon as there is an argument number to match.
   */
  predicate PairOk(t: Token, next: Token, n: nat) {
    match t
    case Ch(c) =>
      c == '$' ==>
        (match next
         case Ch(d) => !(IsDigit(d) && 1 <= DigitValue(d) <= n)
         case Hole(k, quote) => k == 1 && quote == "")
    case Hole(a, quote) =>
      quote == "" ==>
        (match next
         case Ch(d) => IsDigit(d) ==> 10 * a + DigitValue(d) > n
         case Hole(b, quote') => 10 * a > b || (10 * a == b && quote' == ""))
  }

  /** At replace number `phase` of argument `j` the text of `t` may end with the quote that is replaced. */
  predicate EndsQuote(t: Token, j: nat, phase: nat) {
    match t
    case Ch(c) => [c] == PhaseQuote(phase)
    case Hole(k, quote) => Done(k, quote, j, phase) || (k < j && quote == PhaseQuote(phase))
  }

  /** It may begin with that quote. */
  predicate BeginsQuote(t: Token, j: nat, phase: nat) {
    match t
    case Ch(c) => [c] == PhaseQuote(phase)
    case Hole(k, quote) => Done(k, quote, j, phase) || (k <= j && quote == PhaseQuote(phase))
  }

  /** The bare placeholder `$j` does not come to stand between two quotes that are replaced with it. */
  predicate QuotesOk(before: Token, j: nat, behind: Token, unit: set<char>) {
    forall phase | 0 <= phase < 2 && PhaseQuote(phase)[0] in unit ::
      !(EndsQuote(before, j, phase) && BeginsQuote(behind, j, phase))
  }

  predicate IsBare(t: Token, n: nat) {
    t.Hole? && t.quote == "" && 1 <= t.arg <= n
  }

  /** How a token may relate to the ones after it. */
  predicate HeadOk(t: Token, rest: seq<Token>, units: seq<set<char>>) {
    && Proper(t, units)
    && (rest != [] ==> PairOk(t, rest[0], |units|))
    && (|rest| > 1 && IsBare(rest[0], |units|) ==> QuotesOk(t, rest[0].arg, rest[1], units[rest[0].arg - 1]))
  }

  predicate WellFormed(toks: seq<Token>, units: seq<set<char>>) {
    toks == [] || (HeadOk(toks[0], toks[1..], units) && WellFormed(toks[1..], units))
  }

  lemma ApartOk(t: Token, rest: seq<Token>, units: seq<set<char>>)
    requires Apart(t, rest, units) && AllApart(rest, units)
    ensures HeadOk(t, rest, units)
  {
  }

  /** Tokens that stand apart are well-formed. */
  lemma {:induction false} ApartWellFormed(toks: seq<Token>, units: seq<set<char>>)
    requires AllApart(toks, units)
    ensures WellFormed(toks, units)
  {
    if toks != [] {
      ApartWellFormed(toks[1..], units);
      ApartOk(toks[0], toks[1..], units);
    }
  }

  /** Every clear query reads as a well-formed template. */
  lemma TokenizeWellFormed(s: string, units: seq<set<char>>)
    requires Clear(s, |units|)
    ensures WellFormed(Tokenize(s, units), units)
  {
    TokenizeApart(s, units);
    ApartWellFormed(Tokenize(s, units), units);
  }

  // ------------------------------------- the sequence of replaces, step by step

  /** The text of one token at that time. */
  function Head(t: Token, vals: seq<string>, j: nat, phase: nat): string {
    match t
    case Ch(c) => [c]
    case Hole(k, quote) => if Done(k, quote, j, phase) then Arg(vals, k) else Written(t)
  }

  /** The query at that time. */
  function Partial(toks: seq<Token>, vals: seq<string>, j: nat, phase: nat): string {
    if toks == [] then "" else Head(toks[0], vals, j, phase) + Partial(toks[1..], vals, j, phase)
  }

  predicate DollarFree(vals: seq<string>) {
    forall v | v in vals :: Lacks(v, '$')
  }

  lemma ArgDollarFree(vals: seq<string>, k: nat)
    requires DollarFree(vals)
    ensures Lacks(Arg(vals, k), '$')
  {
  }

  /** What the pair conditions come to at one replace. */
  predicate PairStill(t: Token, next: Token, j: nat, phase: nat) {
    match t
    case Ch(c) =>
      c == '$' ==>
        (match next
         case Ch(d) => d != Itoa(j)[0]
         case Hole(k, quote) => !Done(k, quote, j, phase))
    case Hole(a, quote) =>
      quote == "" && a < j ==>
        (match next
         case Ch(d) => IsDigit(d) ==> 10 * a + DigitValue(d) > j
         case Hole(b, quote') => Done(b, quote', j, phase) ==> 10 * a > j)
  }

  /** Replace number `phase` of argument `j` finds nothing but holes. */
  predicate HeadStill(t: Token, rest: seq<Token>, units: seq<set<char>>, j: nat, phase: nat) {
    && Proper(t, units)
    && (rest != [] ==> PairStill(t, rest[0], j, phase))
    && (|rest| > 1 && rest[0] == Hole(j, "") && phase < 2 && 1 <= j <= |units| && PhaseQuote(phase)[0] in units[j - 1] ==>
          !(EndsQuote(t, j, phase) && BeginsQuote(rest[1], j, phase)))
  }

  predicate Still(toks: seq<Token>, units: seq<set<char>>, j: nat, phase: nat) {
    toks == [] || (HeadStill(toks[0], toks[1..], units, j, phase) && Still(toks[1..], units, j, phase))
  }

  lemma {:induction false} LeadingDigit(j: nat)
    requires j >= 1
    ensures 1 <= DigitValue(Itoa(j)[0]) <= j
  {
    if j >= 10 {
      LeadingDigit(j / 10);
      assert Itoa(j)[0] == Itoa(j / 10)[0];
    }
  }

  lemma OkStill(t: Token, rest: seq<Token>, units: seq<set<char>>, j: nat, phase: nat)
    requires HeadOk(t, rest, units) && 1 <= j <= |units| && phase <= 2
    ensures HeadStill(t, rest, units, j, phase)
  {
    LeadingDigit(j);
  }

  /** In a well-formed template every replace finds nothing but holes. */
  lemma {:induction false} WellFormedStill(toks: seq<Token>, units: seq<set<char>>, j: nat, phase: nat)
    requires WellFormed(toks, units) && 1 <= j <= |units| && phase <= 2
    ensures Still(toks, units, j, phase)
  {
    if toks != [] {
      WellFormedStill(toks[1..], units, j, phase);
      OkStill(toks[0], toks[1..], units, j, phase);
    }
  }

  /** The pattern of replace number `phase` of argument `j`. */
  function Pattern(j: nat, phase: nat): (p: string)
    ensures p != ""
  {
    PhaseQuote(phase) + Placeholder(j) + PhaseQuote(phase)
  }

  lemma PlaceholderMatch(j: nat, k: nat, rest: string)
    requires rest == "" || !IsDigit(rest[0])
    requires Placeholder(j) <= Placeholder(k) + rest
    ensures j <= k
  {
    assert (Placeholder(k) + rest)[1..] == Itoa(k) + rest;
    assert Placeholder(j)[1..] == Itoa(j);
    NumeralMatch(j, k, rest);
  }

  lemma ItoaSnoc(a: nat, c: char)
    requires a >= 1 && IsDigit(c)
    ensures Itoa(10 * a + DigitValue(c)) == Itoa(a) + [c]
  {
    var m, d := 10 * a + DigitValue(c), DigitValue(c);
    assert m / 10 == a && m % 10 == d && Digit(d) == c;
  }

  lemma ExtendedNumeral(j: nat, a: nat, c: char)
    requires a >= 1 && IsDigit(c) && Itoa(a) + [c] <= Itoa(j)
    ensures 10 * a + DigitValue(c) <= j
  {
    ItoaSnoc(a, c);
    NumeralPrefix(10 * a + DigitValue(c), j);
  }

  /** A longer numeral read across the end of `a` continues with a digit. */
  lemma LongerRead(j: nat, a: nat, rest: string)
    requires 1 <= a < j && Itoa(j) <= Itoa(a) + rest
    ensures rest != "" && IsDigit(rest[0]) && 10 * a + DigitValue(rest[0]) <= j
  {
    if |Itoa(j)| <= |Itoa(a)| {
      assert Itoa(j) <= Itoa(a);
      NumeralPrefix(j, a);
      assert false;
    } else {
      var c := Itoa(j)[|Itoa(a)|];
      assert c == (Itoa(a) + rest)[|Itoa(a)|] == rest[0];
      ExtendedNumeral(j, a, c);
    }
  }

  /** What follows a pending bare hole does not continue its numeral to that of `j`. */
  lemma BareFollow(toks: seq<Token>, units: seq<set<char>>, vals: seq<string>, j: nat, phase: nat)
    requires toks != [] && HeadStill(toks[0], toks[1..], units, j, phase) && IsBare(toks[0], |units|) && toks[0].arg < j
    requires |toks| > 1 ==> Proper(toks[1], units)
    ensures var rest := Partial(toks[1..], vals, j, phase);
      rest != "" && IsDigit(rest[0]) ==> 10 * toks[0].arg + DigitValue(rest[0]) > j
  {
    if |toks| > 1 && toks[1].Hole? && !Done(toks[1].arg, toks[1].quote, j, phase) {
      var t := toks[1];
      assert Partial(toks[1..], vals, j, phase)[0] == Written(t)[0];
      assert Written(t)[0] == if t.quote == "" then '$' else t.quote[0];
    }
  }

  lemma NumeralText(j: nat, k: nat, rest: string)
    requires Placeholder(j) <= Placeholder(k) + rest
    ensures Itoa(j) <= Itoa(k) + rest
  {
    BehindHead('$', Itoa(j), Itoa(k), rest);
  }

  lemma BehindHead(c: char, a: string, b: string, rest: string)
    requires [c] + a <= [c] + b + rest
    ensures a <= b + rest
  {
    assert ([c] + a)[1..] == a && ([c] + b + rest)[1..] == b + rest;
  }

  lemma BareMatch(toks: seq<Token>, units: seq<set<char>>, vals: seq<string>, j: nat, phase: nat)
    requires toks != [] && HeadStill(toks[0], toks[1..], units, j, phase) && IsBare(toks[0], |units|) && toks[0].arg < j
    requires |toks| > 1 ==> Proper(toks[1], units)
    ensures !(Placeholder(j) <= Placeholder(toks[0].arg) + Partial(toks[1..], vals, j, phase))
  {
    var k, rest := toks[0].arg, Partial(toks[1..], vals, j, phase);
    BareFollow(toks, units, vals, j, phase);
    if Placeholder(j) <= Placeholder(k) + rest {
      NumeralText(j, k, rest);
      LongerRead(j, k, rest);
    }
  }

  lemma QuotedMatch(j: nat, k: nat, quote: string, rest: string)
    requires |quote| == 1 && IsQuote(quote[0]) && Placeholder(j) <= Placeholder(k) + (quote + rest)
    ensures j <= k
  {
    assert (quote + rest)[0] == quote[0];
    PlaceholderMatch(j, k, quote + rest);
  }

  /** Only its own hole can be read as placeholder `j` when the larger ones are gone. */
  lemma HoleMatch(toks: seq<Token>, units: seq<set<char>>, vals: seq<string>, j: nat, phase: nat, rest: string)
    requires toks != [] && toks[0].Hole? && HeadStill(toks[0], toks[1..], units, j, phase)
    requires |toks| > 1 ==> Proper(toks[1], units)
    requires !Done(toks[0].arg, toks[0].quote, j, phase)
    requires rest == Partial(toks[1..], vals, j, phase)
    requires Placeholder(j) <= Placeholder(toks[0].arg) + (toks[0].quote + rest)
    ensures toks[0].arg == j
  {
    if toks[0].quote == "" {
      assert toks[0].quote + rest == rest;
      if toks[0].arg < j {
        BareMatch(toks, units, vals, j, phase);
      }
    } else {
      QuotedMatch(j, toks[0].arg, toks[0].quote, rest);
    }
  }

  /** The first character of a placeholder. */
  lemma WrittenHead(t: Token)
    requires t.Hole?
    ensures Written(t) != "" && Written(t)[0] == if t.quote == "" then '$' else t.quote[0]
  {
  }

  /** Its last character. */
  lemma WrittenLast(t: Token)
    requires t.Hole?
    ensures var s := Written(t); s != "" && if t.quote == "" then IsDigit(s[|s| - 1]) else s[|s| - 1] == t.quote[|t.quote| - 1]
  {
    if t.quote == "" {
      assert Written(t) == "$" + Itoa(t.arg);
    }
  }

  /** The text begins with `$` where the first token that is not an empty value is a hole for `j`. */
  predicate FirstBare(toks: seq<Token>, vals: seq<string>, j: nat, phase: nat) {
    && toks != [] && toks[0].Hole?
    && (toks[0] == Hole(j, "")
        || (Done(toks[0].arg, toks[0].quote, j, phase) && Arg(vals, toks[0].arg) == "" && FirstBare(toks[1..], vals, j, phase)))
  }

  /** A stray `$` is not read as placeholder `j`. */
  lemma StrayStill(toks: seq<Token>, units: seq<set<char>>, vals: seq<string>, j: nat, phase: nat)
    requires toks != [] && toks[0] == Ch('$') && HeadStill(toks[0], toks[1..], units, j, phase)
    requires |toks| > 1 ==> Proper(toks[1], units)
    ensures !(Placeholder(j) <= Partial(toks, vals, j, phase))
  {
    var s, rest := Partial(toks, vals, j, phase), Partial(toks[1..], vals, j, phase);
    assert s == ['$'] + rest;
    assert Placeholder(j)[1] == Itoa(j)[0];
    if |toks| > 1 && rest != "" {
      var t := toks[1];
      if t.Hole? {
        assert rest[0] == Written(t)[0] == (if t.quote == "" then '$' else t.quote[0]);
      }
    }
  }

  /** Only a hole for `j` can be read as placeholder `j`. */
  lemma {:induction false} FirstDollar(toks: seq<Token>, units: seq<set<char>>, vals: seq<string>, j: nat, phase: nat)
    requires Still(toks, units, j, phase) && DollarFree(vals) && phase <= 2
    requires Placeholder(j) <= Partial(toks, vals, j, phase)
    ensures FirstBare(toks, vals, j, phase)
  {
    var s, t := Partial(toks, vals, j, phase), toks[0];
    assert s[0] == Placeholder(j)[0] == '$';
    if t.Ch? {
      StrayStill(toks, units, vals, j, phase);
    } else if Done(t.arg, t.quote, j, phase) {
      ArgDollarFree(vals, t.arg);
      assert Arg(vals, t.arg) == "";
      FirstDollar(toks[1..], units, vals, j, phase);
    } else {
      var rest := Partial(toks[1..], vals, j, phase);
      WrittenHead(t);
      assert s[0] == Written(t)[0];
      WrittenBare(t.arg, rest);
      HoleMatch(toks, units, vals, j, phase, rest);
    }
  }

  /** Matching `w p ...` at `i` in `quote text`, where `w` ends with the opening quote, matches `p` in `text`. */
  lemma MatchShift(w: string, p: string, quote: string, text: string, i: nat)
    requires i + |w| == |quote|
    requires w + p + w <= (quote + text)[i..]
    ensures p <= text
    ensures w <= quote[i..]
  {
    var s := (quote + text)[i..];
    assert s[|w|..] == text;
    assert w + p + w == w + (p + w);
    assert (w + p + w)[|w|..] == p + w;
    assert s[..|w|] == quote[i..];
    assert (w + p + w)[..|w|] == w;
    assert p <= p + w;
  }

  lemma MatchBehind(p: string, c: char, rest: string)
    requires p + [c] <= p + rest
    ensures rest != "" && rest[0] == c
  {
    assert (p + rest)[|p|] == (p + [c])[|p|] == c;
  }

  /** The text behind a placeholder begins with a quote that is replaced: where that can come from. */
  lemma BehindBegins(toks: seq<Token>, units: seq<set<char>>, vals: seq<string>, j: nat, phase: nat)
    requires toks != [] && Proper(toks[0], units) && phase < 2
    requires var s := Partial(toks, vals, j, phase); s != "" && [s[0]] == PhaseQuote(phase)
    ensures BeginsQuote(toks[0], j, phase)
  {
    var t := toks[0];
    if t.Hole? && !Done(t.arg, t.quote, j, phase) {
      assert Partial(toks, vals, j, phase)[0] == Written(t)[0] == (if t.quote == "" then '$' else t.quote[0]);
      assert t.quote == [t.quote[0]];
    }
  }

  /** The text of a token ends with a quote that is replaced: where that can come from. */
  lemma BeforeEnds(t: Token, units: seq<set<char>>, vals: seq<string>, j: nat, phase: nat)
    requires Proper(t, units) && phase < 2 && t != Hole(j, PhaseQuote(phase))
    requires var s := Head(t, vals, j, phase); s != "" && [s[|s| - 1]] == PhaseQuote(phase)
    ensures EndsQuote(t, j, phase)
  {
    if t.Hole? && !Done(t.arg, t.quote, j, phase) {
      WrittenLast(t);
    }
  }

  /** Behind a token that may end with the quote no quoted placeholder can be read. */
  lemma {:induction false} QuoteMatch(before: Token, toks: seq<Token>, units: seq<set<char>>, vals: seq<string>, j: nat, phase: nat)
    requires HeadStill(before, toks, units, j, phase) && Still(toks, units, j, phase) && DollarFree(vals)
    requires 1 <= j <= |units| && phase < 2 && PhaseQuote(phase)[0] in units[j - 1] && EndsQuote(before, j, phase)
    ensures !(Placeholder(j) + PhaseQuote(phase) <= Partial(toks, vals, j, phase))
    decreases |toks|
  {
    var p, w := Placeholder(j), PhaseQuote(phase);
    if p + w <= Partial(toks, vals, j, phase) {
      assert p <= p + w;
      FirstDollar(toks, units, vals, j, phase);
      if toks[0] == Hole(j, "") {
        var rest := Partial(toks[1..], vals, j, phase);
        WrittenBare(j, rest);
        MatchBehind(p, w[0], rest);
        BehindBegins(toks[1..], units, vals, j, phase);
      } else {
        QuoteMatch(toks[0], toks[1..], units, vals, j, phase);
      }
    }
  }

  lemma WrittenBare(k: nat, rest: string)
    ensures Written(Hole(k, "")) + rest == Placeholder(k) + ("" + rest) == Placeholder(k) + rest
  {
    assert "" + Placeholder(k) + "" == Placeholder(k);
    assert "" + rest == rest;
  }

  lemma WrittenQuoted(k: nat, quote: string, rest: string)
    ensures Written(Hole(k, quote)) + rest == quote + (Placeholder(k) + (quote + rest))
  {
  }

  lemma OneDollar(quote: string, n: string, i: nat)
    requires Lacks(quote, '$') && Lacks(n, '$')
    requires i < |quote + ("$" + n) + quote| && (quote + ("$" + n) + quote)[i] == '$'
    ensures i == |quote|
  {
    var s := quote + ("$" + n) + quote;
    assert forall x | 0 <= x < |quote| :: s[x] == quote[x];
    assert forall x | |quote| < x < |quote| + 1 + |n| :: s[x] == n[x - |quote| - 1];
    assert forall x | |quote| + 1 + |n| <= x < |s| :: s[x] == quote[x - |quote| - 1 - |n|];
  }

  /** Where the `$` of a token not yet replaced is. */
  lemma DollarOf(t: Token, vals: seq<string>, j: nat, phase: nat, units: seq<set<char>>, i: nat)
    requires DollarFree(vals) && Proper(t, units) && t != Ch('$')
    requires i < |Head(t, vals, j, phase)| && Head(t, vals, j, phase)[i] == '$'
    ensures t.Hole? && !Done(t.arg, t.quote, j, phase) && i == |t.quote|
  {
    if t.Hole? {
      ArgDollarFree(vals, t.arg);
      if !Done(t.arg, t.quote, j, phase) {
        PendingDollar(t, i);
      }
    }
  }

  lemma PendingDollar(t: Token, i: nat)
    requires t.Hole? && Lacks(t.quote, '$') && i < |Written(t)| && Written(t)[i] == '$'
    ensures i == |t.quote|
  {
    OneDollar(t.quote, Itoa(t.arg), i);
  }

  /** A match that begins at a stray `$`. */
  lemma NoMatchAtStray(toks: seq<Token>, units: seq<set<char>>, vals: seq<string>, j: nat, phase: nat, i: nat)
    requires Still(toks, units, j, phase) && toks != [] && toks[0] == Ch('$')
    requires i + |PhaseQuote(phase)| < 1
    ensures !(Pattern(j, phase) <= Partial(toks, vals, j, phase)[i..])
  {
    StrayStill(toks, units, vals, j, phase);
    var s := Partial(toks, vals, j, phase);
    assert i == 0 && s[0..] == s && Pattern(j, phase) == "" + Placeholder(j) + "" == Placeholder(j);
  }

  /** A match whose `$` lies in the first token is its hole. */
  lemma MatchInside(toks: seq<Token>, units: seq<set<char>>, vals: seq<string>, j: nat, phase: nat, i: nat)
    requires Still(toks, units, j, phase) && toks != [] && DollarFree(vals)
    requires 1 <= j <= |units| && phase <= 2
    requires i + |PhaseQuote(phase)| < |Head(toks[0], vals, j, phase)|
    requires Pattern(j, phase) <= Partial(toks, vals, j, phase)[i..]
    ensures toks[0] == Hole(j, PhaseQuote(phase)) && i == 0 && !Done(j, PhaseQuote(phase), j, phase)
  {
    if toks[0] == Ch('$') {
      NoMatchAtStray(toks, units, vals, j, phase, i);
    } else {
      var rest := Partial(toks[1..], vals, j, phase);
      var w, p := PhaseQuote(phase), Placeholder(j);
      HeadDollar(Head(toks[0], vals, j, phase), rest, w, p, i);
      DollarOf(toks[0], vals, j, phase, units, i + |w|);
      MatchHole(toks, units, vals, j, phase, i);
    }
  }

  lemma MatchHole(toks: seq<Token>, units: seq<set<char>>, vals: seq<string>, j: nat, phase: nat, i: nat)
    requires Still(toks, units, j, phase) && toks != [] && toks[0].Hole? && phase <= 2
    requires !Done(toks[0].arg, toks[0].quote, j, phase) && i + |PhaseQuote(phase)| == |toks[0].quote|
    requires Pattern(j, phase) <= Partial(toks, vals, j, phase)[i..]
    ensures toks[0] == Hole(j, PhaseQuote(phase)) && i == 0
  {
    var rest := Partial(toks[1..], vals, j, phase);
    var w, k, quote := PhaseQuote(phase), toks[0].arg, toks[0].quote;
    WrittenQuoted(k, quote, rest);
    MatchShift(w, Placeholder(j), quote, Placeholder(k) + (quote + rest), i);
    HoleMatch(toks, units, vals, j, phase, rest);
    if phase < 2 {
      assert quote == w;
    } else {
      assert quote == "";
    }
  }

  lemma HeadDollar(head: string, rest: string, w: string, p: string, i: nat)
    requires i + |w| < |head| && p != ""
    requires w + p + w <= (head + rest)[i..]
    ensures head[i + |w|] == p[0]
  {
    assert (w + p + w)[|w|] == p[0];
    assert (head + rest)[i..][|w|] == head[i + |w|];
  }

  /** No match has its `$` behind the first token. */
  lemma NoMatchAcross(toks: seq<Token>, units: seq<set<char>>, vals: seq<string>, j: nat, phase: nat, i: nat)
    requires Still(toks, units, j, phase) && toks != [] && DollarFree(vals)
    requires 1 <= j <= |units| && phase <= 2
    requires phase < 2 ==> PhaseQuote(phase)[0] in units[j - 1]
    requires toks[0] != Hole(j, PhaseQuote(phase)) || Done(j, PhaseQuote(phase), j, phase)
    requires i < |Head(toks[0], vals, j, phase)| <= i + |PhaseQuote(phase)|
    ensures !(Pattern(j, phase) <= Partial(toks, vals, j, phase)[i..])
  {
    if Pattern(j, phase) <= Partial(toks, vals, j, phase)[i..] {
      var head := Head(toks[0], vals, j, phase);
      var rest := Partial(toks[1..], vals, j, phase);
      var c := PhaseQuote(phase)[0];
      AcrossText(head, rest, c, Placeholder(j), i);
      BeforeEnds(toks[0], units, vals, j, phase);
      QuoteMatch(toks[0], toks[1..], units, vals, j, phase);
    }
  }

  lemma AcrossText(head: string, rest: string, c: char, p: string, i: nat)
    requires i + 1 == |head| && [c] + p + [c] <= (head + rest)[i..]
    ensures head[i] == c && p + [c] <= rest
  {
    var s := (head + rest)[i..];
    assert s[0] == head[i] && s[1..] == rest;
    assert ([c] + p + [c])[0] == c && ([c] + p + [c])[1..] == p + [c];
  }

  /** A token that is not asked for is passed over. */
  lemma NoMatchInHead(toks: seq<Token>, units: seq<set<char>>, vals: seq<string>, j: nat, phase: nat)
    requires Still(toks, units, j, phase) && toks != [] && DollarFree(vals)
    requires 1 <= j <= |units| && phase <= 2
    requires phase < 2 ==> PhaseQuote(phase)[0] in units[j - 1]
    requires !(toks[0] == Hole(j, PhaseQuote(phase)) && !Done(j, PhaseQuote(phase), j, phase))
    ensures forall i | 0 <= i < |Head(toks[0], vals, j, phase)| ::
      !(Pattern(j, phase) <= Partial(toks, vals, j, phase)[i..])
  {
    var head := Head(toks[0], vals, j, phase);
    forall i | 0 <= i < |head|
      ensures !(Pattern(j, phase) <= Partial(toks, vals, j, phase)[i..])
    {
      if |head| <= i + |PhaseQuote(phase)| {
        NoMatchAcross(toks, units, vals, j, phase, i);
      } else if Pattern(j, phase) <= Partial(toks, vals, j, phase)[i..] {
        MatchInside(toks, units, vals, j, phase, i);
      }
    }
  }

  /** The hole that is asked for is replaced... */
  lemma ReplaceHole(toks: seq<Token>, vals: seq<string>, j: nat, phase: nat)
    requires toks != [] && 1 <= j <= |vals| && phase <= 2
    requires toks[0] == Hole(j, PhaseQuote(phase)) && !Done(j, PhaseQuote(phase), j, phase)
    requires ReplaceAll(Partial(toks[1..], vals, j, phase), Pattern(j, phase), vals[j - 1])
          == Partial(toks[1..], vals, j, phase + 1)
    ensures ReplaceAll(Partial(toks, vals, j, phase), Pattern(j, phase), vals[j - 1])
         == Partial(toks, vals, j, phase + 1)
  {
    ReplaceHit(Pattern(j, phase), Partial(toks[1..], vals, j, phase), vals[j - 1]);
  }

  lemma PassHead(head: string, rest: string, rest': string, pattern: string, v: string)
    requires pattern != "" && forall i | 0 <= i < |head| :: !(pattern <= (head + rest)[i..])
    requires ReplaceAll(rest, pattern, v) == rest'
    ensures ReplaceAll(head + rest, pattern, v) == head + rest'
  {
    ReplaceSkip(head, rest, pattern, v);
  }

  lemma PartialCons(toks: seq<Token>, vals: seq<string>, j: nat, phase: nat)
    requires toks != []
    ensures Partial(toks, vals, j, phase) == Head(toks[0], vals, j, phase) + Partial(toks[1..], vals, j, phase)
  {
  }

  /** ...and every other token stays. */
  lemma ReplaceOther(toks: seq<Token>, units: seq<set<char>>, vals: seq<string>, j: nat, phase: nat)
    requires Still(toks, units, j, phase) && toks != [] && DollarFree(vals) && |vals| == |units|
    requires 1 <= j <= |vals| && phase <= 2
    requires phase < 2 ==> PhaseQuote(phase)[0] in units[j - 1]
    requires !(toks[0] == Hole(j, PhaseQuote(phase)) && !Done(j, PhaseQuote(phase), j, phase))
    requires ReplaceAll(Partial(toks[1..], vals, j, phase), Pattern(j, phase), vals[j - 1])
          == Partial(toks[1..], vals, j, phase + 1)
    ensures ReplaceAll(Partial(toks, vals, j, phase), Pattern(j, phase), vals[j - 1])
         == Partial(toks, vals, j, phase + 1)
  {
    NoMatchInHead(toks, units, vals, j, phase);
    PartialCons(toks, vals, j, phase);
    PartialCons(toks, vals, j, phase + 1);
    HeadStays(toks[0], vals, j, phase);
    PassHead(Head(toks[0], vals, j, phase), Partial(toks[1..], vals, j, phase), Partial(toks[1..], vals, j, phase + 1),
             Pattern(j, phase), vals[j - 1]);
  }

  lemma HeadStays(t: Token, vals: seq<string>, j: nat, phase: nat)
    requires phase <= 2 && !(t == Hole(j, PhaseQuote(phase)) && !Done(j, PhaseQuote(phase), j, phase))
    requires t.Hole? ==> t.quote == "" || (|t.quote| == 1 && IsQuote(t.quote[0]))
    ensures Head(t, vals, j, phase + 1) == Head(t, vals, j, phase)
  {
    if t.Hole? && t.quote != "" {
      OneQuote(t.quote);
    }
  }

  lemma OneQuote(quote: string)
    requires |quote| == 1 && IsQuote(quote[0])
    ensures quote == "'" || quote == "\""
  {
    assert quote == [quote[0]];
  }

  /** One global replace does exactly the holes of its pattern. */
  lemma {:induction false} ReplaceStep(toks: seq<Token>, units: seq<set<char>>, vals: seq<string>, j: nat, phase: nat)
    requires Still(toks, units, j, phase) && DollarFree(vals) && |vals| == |units|
    requires 1 <= j <= |vals| && phase <= 2
    requires phase < 2 ==> PhaseQuote(phase)[0] in units[j - 1]
    ensures ReplaceAll(Partial(toks, vals, j, phase), Pattern(j, phase), vals[j - 1])
         == Partial(toks, vals, j, phase + 1)
  {
    if toks != [] {
      ReplaceStep(toks[1..], units, vals, j, phase);
      if toks[0] == Hole(j, PhaseQuote(phase)) && !Done(j, PhaseQuote(phase), j, phase) {
        ReplaceHole(toks, vals, j, phase);
      } else {
        ReplaceOther(toks, units, vals, j, phase);
      }
    }
  }

  // ---------------------------------------------------- the sequence of replaces

  /** Replace number `phase` of argument `j`, which is left out where the quotes stay. */
  function ReplaceOne(s: string, j: nat, phase: nat, unit: set<char>, v: string): string {
    if phase < 2 && PhaseQuote(phase)[0] !in unit then s else ReplaceAll(s, Pattern(j, phase), v)
  }

  /** All replaces of argument `j`. */
  function ReplaceArg(s: string, j: nat, unit: set<char>, v: string): string {
    ReplaceOne(ReplaceOne(ReplaceOne(s, j, 0, unit, v), j, 1, unit, v), j, 2, unit, v)
  }

  /** All replaces from number `phase` of argument `j` on, down to argument 1. */
  function From(s: string, units: seq<set<char>>, vals: seq<string>, j: nat, phase: nat): string
    requires |units| == |vals| && j <= |vals| && phase <= 3
    decreases j, 3 - phase
  {
    if j == 0 then s
    else if phase == 3 then From(s, units, vals, j - 1, 0)
    else From(ReplaceOne(s, j, phase, units[j - 1], vals[j - 1]), units, vals, j, phase + 1)
  }

  /** `s` after all replaces. */
  function Replaced(s: string, units: seq<set<char>>, vals: seq<string>): string
    requires |units| == |vals|
  {
    From(s, units, vals, |vals|, 0)
  }

  lemma FromStep(s: string, units: seq<set<char>>, vals: seq<string>, j: nat, phase: nat)
    requires |units| == |vals| && 1 <= j <= |vals| && phase <= 3
    ensures From(s, units, vals, j, phase) ==
      if phase == 3 then From(s, units, vals, j - 1, 0)
      else From(ReplaceOne(s, j, phase, units[j - 1], vals[j - 1]), units, vals, j, phase + 1)
  {
  }

  lemma FromArg(s: string, units: seq<set<char>>, vals: seq<string>, j: nat)
    requires |units| == |vals| && 1 <= j <= |vals|
    ensures From(s, units, vals, j, 0) == From(ReplaceArg(s, j, units[j - 1], vals[j - 1]), units, vals, j - 1, 0)
  {
    var u, v := units[j - 1], vals[j - 1];
    var s1 := ReplaceOne(s, j, 0, u, v);
    var s2 := ReplaceOne(s1, j, 1, u, v);
    assert From(s, units, vals, j, 0) == From(s1, units, vals, j, 1);
    assert From(s1, units, vals, j, 1) == From(s2, units, vals, j, 2);
    assert From(s2, units, vals, j, 2) == From(ReplaceOne(s2, j, 2, u, v), units, vals, j, 3);
  }

  predicate AllProper(toks: seq<Token>, units: seq<set<char>>) {
    toks == [] || (Proper(toks[0], units) && AllProper(toks[1..], units))
  }

  /** A replace that no token asks for is skipped by the source. */
  lemma {:induction false} SkipStep(toks: seq<Token>, units: seq<set<char>>, vals: seq<string>, j: nat, phase: nat)
    requires AllProper(toks, units) && 1 <= j <= |units|
    requires phase < 2 && PhaseQuote(phase)[0] !in units[j - 1]
    ensures Partial(toks, vals, j, phase) == Partial(toks, vals, j, phase + 1)
  {
    if toks != [] {
      SkipStep(toks[1..], units, vals, j, phase);
    }
  }

  /** After its last replace an argument is done. */
  lemma {:induction false} NextArg(toks: seq<Token>, vals: seq<string>, j: nat)
    requires j > 0
    ensures Partial(toks, vals, j, 3) == Partial(toks, vals, j - 1, 0)
  {
    if toks != [] {
      NextArg(toks[1..], vals, j);
    }
  }

  /** Before the first replace and after the last one. */
  lemma {:induction false} PartialEnds(toks: seq<Token>, units: seq<set<char>>, vals: seq<string>)
    requires AllProper(toks, units)
    ensures Partial(toks, vals, |units|, 0) == Source(toks)
    ensures Partial(toks, vals, 0, 0) == Fill(toks, vals)
  {
    if toks != [] {
      PartialEnds(toks[1..], units, vals);
    }
  }

  lemma OneStep(toks: seq<Token>, units: seq<set<char>>, vals: seq<string>, j: nat, phase: nat)
    requires AllProper(toks, units) && Still(toks, units, j, phase) && DollarFree(vals) && |vals| == |units|
    requires 1 <= j <= |vals| && phase <= 2
    ensures ReplaceOne(Partial(toks, vals, j, phase), j, phase, units[j - 1], vals[j - 1]) == Partial(toks, vals, j, phase + 1)
  {
    if phase < 2 && PhaseQuote(phase)[0] !in units[j - 1] {
      SkipStep(toks, units, vals, j, phase);
    } else {
      ReplaceStep(toks, units, vals, j, phase);
    }
  }

  /** Replace number `p` of argument `a` is still to come at replace number `phase` of argument `j`. */
  predicate Due(a: nat, p: nat, j: nat, phase: nat) {
    1 <= a && p <= 2 && (a < j || (a == j && p >= phase))
  }

  /** No replace from the first time up to the second one finds anything but holes. */
  ghost predicate StillBetween(toks: seq<Token>, units: seq<set<char>>, j: nat, phase: nat, j': nat, phase': nat) {
    forall a: nat, p: nat | Due(a, p, j, phase) && !Due(a, p, j', phase') :: Still(toks, units, a, p)
  }

  lemma BetweenTail(toks: seq<Token>, units: seq<set<char>>, j: nat, phase: nat, i: nat, p: nat, j': nat, phase': nat)
    requires StillBetween(toks, units, j, phase, j', phase')
    requires (i == j && p == phase + 1) || (i + 1 == j && p == 0 && phase == 3)
    ensures StillBetween(toks, units, i, p, j', phase')
  {
    assert forall a: nat, r: nat | Due(a, r, i, p) :: Due(a, r, j, phase);
  }

  lemma StillNow(toks: seq<Token>, units: seq<set<char>>, j: nat, phase: nat, j': nat, phase': nat)
    requires StillBetween(toks, units, j, phase, j', phase') && 1 <= j && phase <= 2
    requires j' < j || (j' == j && phase < phase')
    ensures Still(toks, units, j, phase)
  {
    assert Due(j, phase, j, phase) && !Due(j, phase, j', phase');
  }

  /** The same, replace by replace. */
  predicate StillUntil(toks: seq<Token>, units: seq<set<char>>, j: nat, phase: nat, j': nat, phase': nat)
    requires phase <= 3
    decreases j, 3 - phase
  {
    if j == 0 || (j == j' && phase == phase') then true
    else if phase == 3 then StillUntil(toks, units, j - 1, 0, j', phase')
    else Still(toks, units, j, phase) && StillUntil(toks, units, j, phase + 1, j', phase')
  }

  lemma {:induction false} Unroll(toks: seq<Token>, units: seq<set<char>>, j: nat, phase: nat, j': nat, phase': nat)
    requires j' <= j && phase <= 3 && phase' <= 3 && (j == j' ==> phase <= phase')
    requires StillBetween(toks, units, j, phase, j', phase')
    ensures StillUntil(toks, units, j, phase, j', phase')
    decreases j, 3 - phase
  {
    if j == 0 || (j == j' && phase == phase') {
    } else if phase == 3 {
      BetweenTail(toks, units, j, 3, j - 1, 0, j', phase');
      Unroll(toks, units, j - 1, 0, j', phase');
    } else {
      StillNow(toks, units, j, phase, j', phase');
      BetweenTail(toks, units, j, phase, j, phase + 1, j', phase');
      Unroll(toks, units, j, phase + 1, j', phase');
    }
  }

  /** The text from replace number `phase` of argument `j` on ends as `s`. */
  predicate EndsAs(toks: seq<Token>, units: seq<set<char>>, vals: seq<string>, j: nat, phase: nat, s: string)
    requires |vals| == |units| && j <= |vals| && phase <= 3
  {
    From(Partial(toks, vals, j, phase), units, vals, j, phase) == s
  }

  lemma EndsOne(toks: seq<Token>, units: seq<set<char>>, vals: seq<string>, j: nat, phase: nat, s: string)
    requires AllProper(toks, units) && DollarFree(vals) && |vals| == |units| && 1 <= j <= |vals| && phase <= 2
    requires Still(toks, units, j, phase) && EndsAs(toks, units, vals, j, phase + 1, s)
    ensures EndsAs(toks, units, vals, j, phase, s)
  {
    OneStep(toks, units, vals, j, phase);
    FromStep(Partial(toks, vals, j, phase), units, vals, j, phase);
  }

  lemma EndsArg(toks: seq<Token>, units: seq<set<char>>, vals: seq<string>, j: nat, s: string)
    requires |vals| == |units| && 1 <= j <= |vals| && EndsAs(toks, units, vals, j - 1, 0, s)
    ensures EndsAs(toks, units, vals, j, 3, s)
  {
    NextArg(toks, vals, j);
    FromStep(Partial(toks, vals, j, 3), units, vals, j, 3);
  }

  lemma {:induction false} ProgressTo(toks: seq<Token>, units: seq<set<char>>, vals: seq<string>,
                                      j: nat, phase: nat, j': nat, phase': nat, s: string)
    requires AllProper(toks, units) && DollarFree(vals) && |vals| == |units|
    requires j' <= j <= |vals| && phase <= 3 && phase' <= 3 && (j == j' ==> phase <= phase')
    requires StillUntil(toks, units, j, phase, j', phase') && EndsAs(toks, units, vals, j', phase', s)
    ensures EndsAs(toks, units, vals, j, phase, s)
    decreases j, 3 - phase
  {
    if j == j' && phase == phase' {
    } else if j == 0 {
      DoneForZero(toks, units, vals, phase, phase');
    } else if phase == 3 {
      ProgressTo(toks, units, vals, j - 1, 0, j', phase', s);
      EndsArg(toks, units, vals, j, s);
    } else {
      ProgressTo(toks, units, vals, j, phase + 1, j', phase', s);
      EndsOne(toks, units, vals, j, phase, s);
    }
  }

  /** Those replaces do the holes due. */
  lemma Progress(toks: seq<Token>, units: seq<set<char>>, vals: seq<string>, j: nat, phase: nat, j': nat, phase': nat)
    requires AllProper(toks, units) && DollarFree(vals) && |vals| == |units|
    requires j' <= j <= |vals| && phase <= 3 && phase' <= 3 && (j == j' ==> phase <= phase')
    requires StillBetween(toks, units, j, phase, j', phase')
    ensures From(Partial(toks, vals, j, phase), units, vals, j, phase)
         == From(Partial(toks, vals, j', phase'), units, vals, j', phase')
  {
    Unroll(toks, units, j, phase, j', phase');
    ProgressTo(toks, units, vals, j, phase, j', phase', From(Partial(toks, vals, j', phase'), units, vals, j', phase'));
  }

  lemma {:induction false} DoneForZero(toks: seq<Token>, units: seq<set<char>>, vals: seq<string>, phase: nat, phase': nat)
    requires AllProper(toks, units)
    ensures Partial(toks, vals, 0, phase) == Partial(toks, vals, 0, phase')
  {
    if toks != [] {
      DoneForZero(toks[1..], units, vals, phase, phase');
    }
  }

  lemma {:induction false} WellFormedProper(toks: seq<Token>, units: seq<set<char>>)
    requires WellFormed(toks, units)
    ensures AllProper(toks, units)
  {
    if toks != [] {
      WellFormedProper(toks[1..], units);
    }
  }

  lemma StillAlways(toks: seq<Token>, units: seq<set<char>>, j: nat, phase: nat, j': nat, phase': nat)
    requires WellFormed(toks, units) && j <= |units|
    ensures StillBetween(toks, units, j, phase, j', phase')
  {
    forall a: nat, p: nat | Due(a, p, j, phase) && !Due(a, p, j', phase')
      ensures Still(toks, units, a, p)
    {
      WellFormedStill(toks, units, a, p);
    }
  }

  /** On a well-formed template the descending replaces are one simultaneous substitution. */
  lemma ReplacedAtOnce(toks: seq<Token>, units: seq<set<char>>, vals: seq<string>)
    requires WellFormed(toks, units) && DollarFree(vals) && |vals| == |units|
    ensures Replaced(Source(toks), units, vals) == Fill(toks, vals)
  {
    WellFormedProper(toks, units);
    StillAlways(toks, units, |vals|, 0, 0, 0);
    Progress(toks, units, vals, |vals|, 0, 0, 0);
    PartialEnds(toks, units, vals);
  }

  // ------------------------------------------------------------ a second pass

  /** No `$` of `s` is followed by a digit that is an argument's number. */
  predicate Inert(s: string, n: nat) {
    forall i | 0 <= i < |s| - 1 && s[i] == '$' && IsDigit(s[i + 1]) :: !(1 <= DigitValue(s[i + 1]) <= n)
  }

  lemma MatchAt(s: string, j: nat, phase: nat, i: nat)
    requires i <= |s| && Pattern(j, phase) <= s[i..]
    ensures var k := i + |PhaseQuote(phase)|; k + 1 < |s| && s[k] == '$' && s[k + 1] == Itoa(j)[0]
  {
    var p, w := Pattern(j, phase), PhaseQuote(phase);
    assert p[|w|] == '$' && p[|w| + 1] == Itoa(j)[0];
    assert s[i..][|w|] == s[i + |w|] && s[i..][|w| + 1] == s[i + |w| + 1];
  }

  /** No placeholder can be read in an inert text. */
  lemma InertOne(s: string, n: nat, j: nat, phase: nat, unit: set<char>, v: string)
    requires Inert(s, n) && 1 <= j <= n && phase <= 2
    ensures ReplaceOne(s, j, phase, unit, v) == s
  {
    var p := Pattern(j, phase);
    assert s + "" == s;
    LeadingDigit(j);
    forall i | 0 <= i < |s|
      ensures !(p <= (s + "")[i..])
    {
      if p <= s[i..] {
        MatchAt(s, j, phase, i);
      }
    }
    ReplaceSkip(s, "", p, v);
  }

  lemma {:induction false} InertFrom(s: string, units: seq<set<char>>, vals: seq<string>, j: nat, phase: nat)
    requires |units| == |vals| && j <= |vals| && phase <= 3 && Inert(s, |vals|)
    ensures From(s, units, vals, j, phase) == s
    decreases j, 3 - phase
  {
    if j == 0 {
    } else if phase == 3 {
      InertFrom(s, units, vals, j - 1, 0);
    } else {
      InertOne(s, |vals|, j, phase, units[j - 1], vals[j - 1]);
      InertFrom(s, units, vals, j, phase + 1);
    }
  }

  /** No `$` stands before a placeholder. */
  predicate NoDollarBefore(toks: seq<Token>) {
    forall i | 0 < i < |toks| && toks[i].Hole? :: toks[i - 1] != Ch('$')
  }

  lemma InertConcat(a: string, b: string, n: nat)
    requires Lacks(a, '$') && Inert(b, n)
    ensures Inert(a + b, n)
  {
    var s := a + b;
    forall i | 0 <= i < |s| - 1 && s[i] == '$' && IsDigit(s[i + 1])
      ensures !(1 <= DigitValue(s[i + 1]) <= n)
    {
      assert i >= |a|;
      assert b[i - |a|] == s[i] && b[i - |a| + 1] == s[i + 1];
    }
  }

  /** In a filled template no placeholder can be read. */
  lemma {:induction false} FillInert(toks: seq<Token>, units: seq<set<char>>, vals: seq<string>)
    requires WellFormed(toks, units) && DollarFree(vals) && NoDollarBefore(toks)
    ensures Inert(Fill(toks, vals), |units|)
  {
    if toks != [] {
      assert forall i | 0 < i < |toks[1..]| :: toks[1..][i] == toks[i + 1] && toks[1..][i - 1] == toks[i];
      FillInert(toks[1..], units, vals);
      var rest := Fill(toks[1..], vals);
      if toks[0] == Ch('$') {
        assert |toks| > 1 ==> toks[1].Ch? && rest[0] == toks[1].c;
        InertDollar(rest, |units|);
      } else {
        ArgDollarFree(vals, if toks[0].Hole? then toks[0].arg else 0);
        InertConcat(if toks[0].Hole? then Arg(vals, toks[0].arg) else [toks[0].c], rest, |units|);
      }
    }
  }

  lemma InertDollar(rest: string, n: nat)
    requires Inert(rest, n) && (rest != "" && IsDigit(rest[0]) ==> !(1 <= DigitValue(rest[0]) <= n))
    ensures Inert(['$'] + rest, n)
  {
    var s := ['$'] + rest;
    assert forall i | 0 < i < |s| :: s[i] == rest[i - 1];
  }

  // ------------------------------------------------- the three source loops

  function Formatted(args: seq<Value>, driver: Driver): (vals: seq<string>)
    requires driver != MongoDB
    ensures |vals| == |args|
    ensures forall i | 0 <= i < |args| :: vals[i] == SQLFormatValue(args[i], driver)
  {
    seq(|args|, i requires 0 <= i < |args| => SQLFormatValue(args[i], driver))
  }

  /** The quotes that go away with the placeholder of each argument. */
  function Units(args: seq<Value>, plain: set<char>, raw: set<char>): (units: seq<set<char>>)
    ensures |units| == |args|
    ensures forall i | 0 <= i < |args| :: units[i] == if args[i].Raw? then raw else plain
  {
    seq(|args|, i requires 0 <= i < |args| => if args[i].Raw? then raw else plain)
  }

  /** `query` with all placeholders substituted at once. */
  ghost function Substituted(query: string, units: seq<set<char>>, vals: seq<string>): string {
    Fill(Tokenize(query, units), vals)
  }

  /** The conditions under which the replaces amount to one substitution. */
  ghost predicate Substitutable(query: string, units: seq<set<char>>, vals: seq<string>) {
    WellFormed(Tokenize(query, units), units) && DollarFree(vals) && |vals| == |units|
  }

  lemma SubstitutedAtOnce(query: string, units: seq<set<char>>, vals: seq<string>)
    requires Substitutable(query, units, vals)
    ensures Replaced(query, units, vals) == Substituted(query, units, vals)
  {
    SourceTokenize(query, units);
    ReplacedAtOnce(Tokenize(query, units), units, vals);
  }

  lemma Patterns(j: nat)
    ensures Pattern(j, 0) == "'" + Placeholder(j) + "'" && Pattern(j, 1) == "\"" + Placeholder(j) + "\""
    ensures Pattern(j, 2) == Placeholder(j)
  {
  }

  /** The replaces of argument number `k`: of the placeholder in the quotes that go away with it, if the
      value is not raw, and of the bare placeholder. */
  method InlineOne(query0: string, k: nat, arg: Value, driver: Driver, double: bool) returns (query: string)
    requires driver != MongoDB
    ensures var unit := if arg.Raw? then {} else if double then {'\'', '"'} else {'\''};
      query == ReplaceArg(query0, k, unit, SQLFormatValue(arg, driver))
  {
    query := query0;
    var placeholder := Placeholder(k);
    var formatted := SQLFormatValue(arg, driver);
    Patterns(k);
    if !arg.Raw? {
      query := ReplaceAll(query, "'" + placeholder + "'", formatted);
    }
    if !arg.Raw? && double {
      query := ReplaceAll(query, "\"" + placeholder + "\"", formatted);
    }
    query := ReplaceAll(query, placeholder, formatted);
  }

  /** The loop of `inlineArgs`, and with `double` that of `runSection`, over the arguments from the last to
      the first. */
  method InlineAll(query0: string, args: seq<Value>, driver: Driver, double: bool) returns (query: string)
    requires driver != MongoDB
    ensures var units := Units(args, if double then {'\'', '"'} else {'\''}, {});
      query == Replaced(query0, units, Formatted(args, driver))
  {
    ghost var units, vals := Units(args, if double then {'\'', '"'} else {'\''}, {}), Formatted(args, driver);
    query := query0;
    for j := |args| downto 0
      invariant From(query, units, vals, j, 0) == Replaced(query0, units, vals)
    {
      FromArg(query, units, vals, j + 1);
      query := InlineOne(query, j + 1, args[j], driver, double);
    }
  }

  /** `inlineArgs`, outside mongodb */
  method InlineArgs(query0: string, args: seq<Value>, driver: Driver) returns (query: string)
    requires driver != MongoDB
    ensures var units, vals := Units(args, {'\''}, {}), Formatted(args, driver);
      && query == Replaced(query0, units, vals)
      && (Substitutable(query0, units, vals) ==> query == Substituted(query0, units, vals))
  {
    query := InlineAll(query0, args, driver, false);
    if Substitutable(query0, Units(args, {'\''}, {}), Formatted(args, driver)) {
      SubstitutedAtOnce(query0, Units(args, {'\''}, {}), Formatted(args, driver));
    }
  }

  /** The token `__values__` is replaced in the text inlined, if the first argument is raw. */
  function WithValues(s: string, args: seq<Value>): string {
    if args != [] && args[0].Raw? then ReplaceValues(s, args[0].sql) else s
  }

  /** The inlining of `runSection`, outside mongodb */
  method InlineForRun(query0: string, args: seq<Value>, driver: Driver) returns (inlined: string)
    requires driver != MongoDB
    ensures var units, vals := Units(args, {'\'', '"'}, {}), Formatted(args, driver);
      && inlined == WithValues(Replaced(query0, units, vals), args)
      && (Substitutable(query0, units, vals) ==> inlined == WithValues(Substituted(query0, units, vals), args))
  {
    inlined := InlineAll(query0, args, driver, true);
    if Substitutable(query0, Units(args, {'\'', '"'}, {}), Formatted(args, driver)) {
      SubstitutedAtOnce(query0, Units(args, {'\'', '"'}, {}), Formatted(args, driver));
    }
    if args != [] && args[0].Raw? {
      inlined := ReplaceValues(inlined, args[0].sql);
    }
  }

  /** `resolveArgs`, outside mongodb: raw values, too, take single quotes along. */
  method ResolveArgs(query0: string, args: seq<Value>, driver: Driver) returns (query: string)
    requires driver != MongoDB
    ensures var units, vals := Units(args, {'\''}, {'\''}), Formatted(args, driver);
      && query == Replaced(query0, units, vals)
      && (Substitutable(query0, units, vals) ==> query == Substituted(query0, units, vals))
    ensures Inert(query0, |args|) ==> query == query0
  {
    ghost var units, vals := Units(args, {'\''}, {'\''}), Formatted(args, driver);
    query := query0;
    for i := |args| downto 0
      invariant From(query, units, vals, i, 0) == Replaced(query0, units, vals)
    {
      FromArg(query, units, vals, i + 1);
      Patterns(i + 1);
      var formatted := SQLFormatValue(args[i], driver);
      query := ReplaceAll(query, "'" + Placeholder(i + 1) + "'", formatted);
      query := ReplaceAll(query, Placeholder(i + 1), formatted);
    }
    if Substitutable(query0, units, vals) {
      SubstitutedAtOnce(query0, units, vals);
    }
    if Inert(query0, |args|) {
      InertFrom(query0, units, vals, |args|, 0);
    }
  }

  /**
   `captureOutput` hands an inlined query to the SQL writer, which resolves the
   same arguments once more. Unless a `$` stands before a placeholder, the
   second pass changes nothing.
   */
  method CaptureAndWrite(query: string, args: seq<Value>, driver: Driver) returns (stmt: string)
    requires driver != MongoDB
    ensures var units, vals := Units(args, {'\''}, {}), Formatted(args, driver);
      Substitutable(query, units, vals) && NoDollarBefore(Tokenize(query, units)) ==>
        stmt == Substituted(query, units, vals)
  {
    stmt := InlineArgs(query, args, driver);
    ghost var units, vals := Units(args, {'\''}, {}), Formatted(args, driver);
    if Substitutable(query, units, vals) && NoDollarBefore(Tokenize(query, units)) {
      FillInert(Tokenize(query, units), units, vals);
    }
    stmt := ResolveArgs(stmt, args, driver);
  }
}
