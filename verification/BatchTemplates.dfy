/**
 Which queries are batch templates: placeholders between any two of the twelve
 delimiters, in a text without quotes. Behind any other character a placeholder
 takes that character along into the first row.
 */
module BatchTemplates {
  import opened Strings
  import opened Inline
  import opened Batch
  import opened BatchPipeline

  const DELIMITERS := ",:()[]{} \t\n\r"

  /** `$k`, `$k+1` and so on, each between two of the characters of `seps`. */
  function Placeholders(seps: string, k: nat): string
    requires seps != ""
  {
    if |seps| == 1 then seps else [seps[0]] + (Placeholder(k) + Placeholders(seps[1..], k + 1))
  }

  /** A character that means nothing to the pipeline. */
  predicate Ordinary(c: char) {
    c != '$' && c != SEP && !IsQuote(c)
  }

  function Chars(s: string): seq<Token> {
    if s == "" then [] else [Ch(s[0])] + Chars(s[1..])
  }

  /** The tokens of such a list. */
  function ListTokens(seps: string, k: nat): seq<Token>
    requires seps != ""
  {
    if |seps| == 1 then [Ch(seps[0])] else [Ch(seps[0])] + ([Hole(k, "")] + ListTokens(seps[1..], k + 1))
  }

  lemma NextPlain(c: char, rest: string, n: nat)
    requires Ordinary(c)
    ensures Tokenize([c] + rest, NoUnits(n)) == [Ch(c)] + Tokenize(rest, NoUnits(n))
  {
    var s := [c] + rest;
    forall k: nat
      ensures !StartsWith(s, k)
    {
      assert Placeholder(k)[0] == '$';
    }
    assert NextToken(s, NoUnits(n)) == Ch(c);
    TokenizeNext(s, NoUnits(n), Ch(c));
    assert s[1..] == rest;
  }

  lemma NextPlaceholder(k: nat, d: char, rest: string, n: nat)
    requires 1 <= k <= n && !IsDigit(d)
    ensures Tokenize(Placeholder(k) + ([d] + rest), NoUnits(n)) == [Hole(k, "")] + Tokenize([d] + rest, NoUnits(n))
  {
    var s := Placeholder(k) + ([d] + rest);
    assert s[|Placeholder(k)|] == d;
    assert Placeholder(k) <= s && StartsWith(s, k);
    NextHole(s, NoUnits(n), k);
    TokenizeNext(s, NoUnits(n), Hole(k, ""));
    BareWritten(k);
    assert s[|Placeholder(k)|..] == [d] + rest;
  }

  predicate AllDelimiters(seps: string) {
    forall i | 0 <= i < |seps| :: IsGroupDelim(seps[i])
  }

  lemma Delimiter(c: char)
    requires IsGroupDelim(c)
    ensures Ordinary(c) && !IsDigit(c)
  {
  }

  /** The delimiters of the scanner. */
  lemma TwelveDelimiters(c: char)
    ensures IsGroupDelim(c) <==> c in DELIMITERS
  {
    assert DELIMITERS == [',', ':', '(', ')', '[', ']', '{', '}', ' ', '\t', '\n', '\r'];
    if IsGroupDelim(c) {
      assert DELIMITERS[0] == ',' && DELIMITERS[1] == ':' && DELIMITERS[2] == '(' && DELIMITERS[3] == ')';
      assert DELIMITERS[4] == '[' && DELIMITERS[5] == ']' && DELIMITERS[6] == '{' && DELIMITERS[7] == '}';
      assert DELIMITERS[8] == ' ' && DELIMITERS[9] == '\t' && DELIMITERS[10] == '\n' && DELIMITERS[11] == '\r';
    }
  }

  // ------------------------------------------------------ the query as tokens

  lemma Regroup(s: string, rest: string, a: seq<Token>, b: seq<Token>)
    requires s != ""
    ensures s + rest == [s[0]] + (s[1..] + rest) && [Ch(s[0])] + (a + b) == ([Ch(s[0])] + a) + b
  {
  }

  lemma AllInFront(c: char, p: string, tail: string, after: string)
    ensures ([c] + (p + tail)) + after == [c] + (p + (tail + after))
  {
  }

  lemma TokensInFront(a: Token, b: Token, x: seq<Token>, y: seq<Token>)
    ensures ([a] + ([b] + x)) + y == [a] + ([b] + (x + y))
  {
  }

  lemma ListHead(seps: string, k: nat, after: string)
    requires seps != ""
    ensures var s := Placeholders(seps, k) + after; s == [seps[0]] + s[1..]
  {
  }

  /** Reading `s` for `n` arguments gives those tokens. */
  ghost predicate ReadAs(s: string, n: nat, toks: seq<Token>) {
    Tokenize(s, NoUnits(n)) == toks
  }

  lemma CharInFront(c: char, rest: string, n: nat, toks: seq<Token>)
    requires Ordinary(c) && ReadAs(rest, n, toks)
    ensures ReadAs([c] + rest, n, [Ch(c)] + toks)
  {
    NextPlain(c, rest, n);
  }

  lemma HoleInFront(k: nat, rest: string, n: nat, toks: seq<Token>)
    requires 1 <= k <= n && rest != "" && !IsDigit(rest[0]) && ReadAs(rest, n, toks)
    ensures ReadAs(Placeholder(k) + rest, n, [Hole(k, "")] + toks)
  {
    assert rest == [rest[0]] + rest[1..];
    NextPlaceholder(k, rest[0], rest[1..], n);
  }

  lemma {:induction false} ListReadAs(seps: string, k: nat, after: string, n: nat, toks: seq<Token>)
    requires seps != "" && k >= 1 && k + |seps| - 1 <= n + 1 && AllDelimiters(seps) && ReadAs(after, n, toks)
    ensures ReadAs(Placeholders(seps, k) + after, n, ListTokens(seps, k) + toks)
    decreases |seps|
  {
    Delimiter(seps[0]);
    if |seps| == 1 {
      assert seps == [seps[0]];
      CharInFront(seps[0], after, n, toks);
    } else {
      var tail, tailToks := Placeholders(seps[1..], k + 1) + after, ListTokens(seps[1..], k + 1) + toks;
      ListReadAs(seps[1..], k + 1, after, n, toks);
      ListHead(seps[1..], k + 1, after);
      Delimiter(seps[1]);
      HoleInFront(k, tail, n, tailToks);
      CharInFront(seps[0], Placeholder(k) + tail, n, [Hole(k, "")] + tailToks);
      AllInFront(seps[0], Placeholder(k), Placeholders(seps[1..], k + 1), after);
      TokensInFront(Ch(seps[0]), Hole(k, ""), ListTokens(seps[1..], k + 1), toks);
    }
  }

  lemma {:induction false} TextReadAs(s: string, rest: string, n: nat, toks: seq<Token>)
    requires (forall i | 0 <= i < |s| :: Ordinary(s[i])) && ReadAs(rest, n, toks)
    ensures ReadAs(s + rest, n, Chars(s) + toks)
  {
    if s == "" {
      assert s + rest == rest && Chars(s) + toks == toks;
    } else {
      TextReadAs(s[1..], rest, n, toks);
      CharInFront(s[0], s[1..] + rest, n, Chars(s[1..]) + toks);
      Regroup(s, rest, Chars(s[1..]), toks);
    }
  }

  // --------------------------------------------------- they are of a template

  /** Read from a place outside quotes, the tokens are those of a batch template. */
  predicate Fits(toks: seq<Token>, n: nat, begins: bool) {
    WellFormed(toks, NoUnits(n)) && Slotted(toks, Plain, begins)
  }

  lemma FitsChar(c: char, toks: seq<Token>, n: nat, begins: bool)
    requires Ordinary(c) && Fits(toks, n, IsGroupDelim(c))
    ensures Fits([Ch(c)] + toks, n, begins) && Holes([Ch(c)] + toks) == Holes(toks)
  {
    assert ([Ch(c)] + toks)[1..] == toks;
    assert HeadOk(Ch(c), toks, NoUnits(n));
    assert NextMode(Plain, c) == Plain;
  }

  lemma FitsHole(k: nat, toks: seq<Token>, n: nat)
    requires 1 <= k <= n && Fits(toks, n, false) && toks != [] && toks[0].Ch?
    requires IsGroupDelim(toks[0].c) && !IsDigit(toks[0].c)
    ensures Fits([Hole(k, "")] + toks, n, true) && Holes([Hole(k, "")] + toks) != []
  {
    assert ([Hole(k, "")] + toks)[1..] == toks;
    assert HeadOk(Hole(k, ""), toks, NoUnits(n));
  }

  lemma {:induction false} FitsChars(s: string, toks: seq<Token>, n: nat, begins: bool)
    requires forall i | 0 <= i < |s| :: Ordinary(s[i])
    requires Fits(toks, n, false) && Fits(toks, n, true)
    ensures Fits(Chars(s) + toks, n, begins) && Holes(Chars(s) + toks) == Holes(toks)
  {
    if s == "" {
      assert Chars(s) + toks == toks;
    } else {
      FitsChars(s[1..], toks, n, IsGroupDelim(s[0]));
      FitsChar(s[0], Chars(s[1..]) + toks, n, begins);
      Regroup(s, "", Chars(s[1..]), toks);
    }
  }

  lemma {:induction false} FitsList(seps: string, k: nat, after: seq<Token>, n: nat, begins: bool)
    requires seps != "" && k >= 1 && k + |seps| - 1 <= n + 1 && AllDelimiters(seps)
    requires Fits(after, n, true)
    ensures Fits(ListTokens(seps, k) + after, n, begins)
    ensures |seps| > 1 ==> Holes(ListTokens(seps, k) + after) != []
    decreases |seps|
  {
    Delimiter(seps[0]);
    if |seps| == 1 {
      FitsChar(seps[0], after, n, begins);
    } else {
      var tail := ListTokens(seps[1..], k + 1) + after;
      FitsList(seps[1..], k + 1, after, n, false);
      Delimiter(seps[1]);
      assert tail[0] == Ch(seps[1]);
      FitsHole(k, tail, n);
      FitsChar(seps[0], [Hole(k, "")] + tail, n, begins);
      TokensInFront(Ch(seps[0]), Hole(k, ""), ListTokens(seps[1..], k + 1), after);
    }
  }

  lemma DelimitedReadAs(before: string, seps: string, after: string, n: nat)
    requires n + 1 == |seps| && AllDelimiters(seps)
    requires (forall i | 0 <= i < |before| :: Ordinary(before[i])) && (forall i | 0 <= i < |after| :: Ordinary(after[i]))
    ensures ReadAs(before + (Placeholders(seps, 1) + after), n, Chars(before) + (ListTokens(seps, 1) + Chars(after)))
  {
    assert ReadAs("", n, []);
    TextReadAs(after, "", n, []);
    assert after + "" == after && Chars(after) + [] == Chars(after);
    ListReadAs(seps, 1, after, n, Chars(after));
    TextReadAs(before, Placeholders(seps, 1) + after, n, ListTokens(seps, 1) + Chars(after));
  }

  lemma FitsDelimited(before: string, seps: string, after: string, n: nat)
    requires n + 1 == |seps| >= 2 && AllDelimiters(seps)
    requires (forall i | 0 <= i < |before| :: Ordinary(before[i])) && (forall i | 0 <= i < |after| :: Ordinary(after[i]))
    ensures var toks := Chars(before) + (ListTokens(seps, 1) + Chars(after)); Fits(toks, n, true) && Holes(toks) != []
  {
    FitsChars(after, [], n, true);
    assert Chars(after) + [] == Chars(after);
    FitsList(seps, 1, Chars(after), n, false);
    FitsList(seps, 1, Chars(after), n, true);
    FitsChars(before, ListTokens(seps, 1) + Chars(after), n, true);
  }

  lemma TemplateOf(query: string, n: nat, toks: seq<Token>)
    requires ReadAs(query, n, toks) && Fits(toks, n, true) && Holes(toks) != []
    ensures BatchTemplate(query, n)
  {
  }

  /**
   Placeholders in their order, with any delimiters around and between them and
   ordinary text in front and behind, such as `INSERT INTO t VALUES ($1,$2)`, are a
   batch template.
   */
  lemma DelimitedTemplate(before: string, seps: string, after: string)
    requires |seps| >= 2 && AllDelimiters(seps)
    requires (forall i | 0 <= i < |before| :: Ordinary(before[i])) && (forall i | 0 <= i < |after| :: Ordinary(after[i]))
    ensures BatchTemplate(before + (Placeholders(seps, 1) + after), |seps| - 1)
  {
    var n := |seps| - 1;
    DelimitedReadAs(before, seps, after, n);
    FitsDelimited(before, seps, after, n);
    TemplateOf(before + (Placeholders(seps, 1) + after), n, Chars(before) + (ListTokens(seps, 1) + Chars(after)));
  }

  lemma GluedAtomic(c: char)
    requires !IsGroupDelim(c) && Ordinary(c)
    ensures Atomic([c] + "1") && Atomic("2")
  {
    var s, t := [c] + "1", "2";
    assert s[1..] == "1" && s[1..][1..] == "" && t[1..] == "";
    assert Quiet(Plain, s[1..]) && Quiet(Plain, t);
    assert Run(Plain, s[1..]) == Plain && Run(Plain, t) == Plain;
  }

  /** A placeholder behind any other character is not one of a template: the first row takes the character along. */
  lemma GluedSlot(c: char)
    requires c !in DELIMITERS && Ordinary(c)
    ensures NoPanic([c] + ("1" + ([SEP] + "2")))
    ensures Expanded([c] + ("1" + ([SEP] + "2"))) == [[c] + "1", "2"]
  {
    TwelveDelimiters(c);
    var toks, cols := [Hole(1, "")], [[[c] + "1", "2"]];
    assert toks[1..] == [];
    GluedAtomic(c);
    ExpandRoundTrip(toks, cols, 2);
    assert cols[0][1..] == ["2"];
    assert Join(cols[0], SEP) == [c] + ("1" + ([SEP] + "2"));
    forall vals: seq<string>
      ensures Fill(toks, vals) == Arg(vals, 1)
    {
      assert Fill(toks, vals) == Arg(vals, 1) + "";
    }
    assert Row(cols, 0) == [[c] + "1"] && Row(cols, 1) == ["2"];
  }
}
