/** Translating `$N` placeholders to the form of a driver, before a statement is prepared (pkg/env/env_query.go). */
module Prepare {
  import opened Strings
  import opened Convert
  import opened Inline
  import opened Wrappers
  import Literals

  /** `strings.Contains` */
  predicate Contains(s: string, p: string) {
    exists i | 0 <= i <= |s| :: p <= s[i..]
  }

  /** `strings.Replace(s, old, new, 1)` */
  function ReplaceFirst(s: string, old': string, new': string): string
    requires old' != ""
    decreases |s|
  {
    if s == "" then ""
    else if old' <= s then new' + s[|old'|..]
    else [s[0]] + ReplaceFirst(s[1..], old', new')
  }

  /** `replaceFn`; `None` for the drivers that understand `$N` themselves. */
  function DriverForm(driver: Driver, i: nat): (form: Option<string>)
    ensures form.Some? ==> Lacks(form.value, '$')
  {
    match driver
    case MySQL | Cassandra => Some("?")
    case Oracle => Some(":" + Itoa(i))
    case MSSQL | Spanner => Some("@p" + Itoa(i))
    case Pgx | Dsql | MongoDB => None
  }

  /** Number of `$` left. */
  function Dollars(s: string): nat {
    if s == "" then 0 else (if s[0] == '$' then 1 else 0) + Dollars(s[1..])
  }

  lemma {:induction false} DollarsConcat(a: string, b: string)
    ensures Dollars(a + b) == Dollars(a) + Dollars(b)
  {
    if a == "" {
      assert a + b == b;
    } else {
      assert (a + b)[1..] == a[1..] + b;
      DollarsConcat(a[1..], b);
    }
  }

  lemma {:induction false} NoDollars(s: string)
    requires Lacks(s, '$')
    ensures Dollars(s) == 0
  {
    if s != "" {
      NoDollars(s[1..]);
    }
  }

  /** Replacing a placeholder that occurs takes one `$` away. */
  lemma {:induction false} OneDollarLess(s: string, k: nat, form: string)
    requires Contains(s, Placeholder(k)) && Lacks(form, '$')
    ensures Dollars(ReplaceFirst(s, Placeholder(k), form)) == Dollars(s) - 1
    decreases |s|
  {
    var p := Placeholder(k);
    var i :| 0 <= i <= |s| && p <= s[i..];
    if p <= s {
      assert s == p + s[|p|..];
      DollarsConcat(p, s[|p|..]);
      DollarsConcat(form, s[|p|..]);
      NoDollars(form);
      NoDollars(Itoa(k));
      assert p[1..] == Itoa(k);
    } else {
      assert s[i..] == s[1..][i - 1..];
      OneDollarLess(s[1..], k, form);
      var rest := ReplaceFirst(s[1..], p, form);
      assert ([s[0]] + rest)[1..] == rest;
    }
  }

  /** A prefix without `$` is passed over. */
  lemma {:induction false} PassOver(a: string, t: string, p: string, form: string)
    requires Lacks(a, '$') && p != "" && p[0] == '$'
    ensures ReplaceFirst(a + t, p, form) == a + ReplaceFirst(t, p, form)
  {
    var s := a + t;
    if a == "" {
      assert s == t;
    } else {
      assert s[0] == a[0] && s[1..] == a[1..] + t;
      PassOver(a[1..], t, p, form);
      assert [a[0]] + (a[1..] + ReplaceFirst(t, p, form)) == a + ReplaceFirst(t, p, form);
    }
  }

  lemma ContainsBehind(a: string, t: string, p: string)
    requires Contains(t, p)
    ensures Contains(a + t, p)
  {
    var i :| 0 <= i <= |t| && p <= t[i..];
    assert (a + t)[|a| + i..] == t[i..];
  }

  lemma HitFirst(p: string, b: string, form: string)
    requires p != ""
    ensures ReplaceFirst(p + b, p, form) == form + b
    ensures Contains(p + b, p)
  {
    assert (p + b)[|p|..] == b;
    assert (p + b)[0..] == p + b;
  }

  /** Tokens without quoted units, whose holes are for arguments 1..n. */
  predicate Bare(toks: seq<Token>, n: nat) {
    toks == [] || (BareToken(toks[0], n) && Bare(toks[1..], n))
  }

  predicate BareToken(t: Token, n: nat) {
    match t
    case Ch(c) => c != '$'
    case Hole(k, quote) => quote == "" && 1 <= k <= n
  }

  lemma {:induction false} BareAt(toks: seq<Token>, n: nat, q: nat)
    requires Bare(toks, n) && q < |toks|
    ensures BareToken(toks[q], n)
  {
    if q > 0 {
      BareAt(toks[1..], n, q - 1);
    }
  }

  /** How many holes argument `k` has. */
  function Count(toks: seq<Token>, k: nat): nat {
    if toks == [] then 0 else (if toks[0].Hole? && toks[0].arg == k then 1 else 0) + Count(toks[1..], k)
  }

  /** A template in which each of the placeholders 1..n stands once, in any order. */
  predicate Template(toks: seq<Token>, n: nat) {
    Bare(toks, n) && forall k | 1 <= k <= n :: Count(toks, k) == 1
  }

  /** No digit continues a placeholder. */
  predicate Separate(toks: seq<Token>) {
    forall p | 0 < p < |toks| && toks[p].Ch? && toks[p - 1].Hole? :: !IsDigit(toks[p].c)
  }

  /** A placeholder stands behind one whose numeral begins with its own. */
  predicate Overtaken(toks: seq<Token>) {
    exists p, q | 0 <= p < q < |toks| && toks[p].Hole? && toks[q].Hole? ::
      toks[p].arg != toks[q].arg && Itoa(toks[q].arg) <= Itoa(toks[p].arg)
  }

  /** Placeholder `i` cannot be read where a greater one stands before it. */
  predicate Free(toks: seq<Token>, i: nat) {
    toks == [] || toks[0] == Hole(i, "")
    || ((toks[0].Hole? && toks[0].arg > i ==> !(Placeholder(i) <= Source(toks))) && Free(toks[1..], i))
  }

  /** The forms of placeholders 1..n. */
  function Forms(driver: Driver, n: nat): (forms: seq<string>)
    requires DriverForm(driver, 1).Some?
    ensures |forms| == n
  {
    seq(n, i requires 0 <= i < n => match DriverForm(driver, i + 1) case Some(f) => f case None => "")
  }

  predicate FormsFit(forms: seq<string>) {
    forall f | f in forms :: f != "" && !IsDigit(f[0]) && Lacks(f, '$')
  }

  lemma FormsOk(driver: Driver, n: nat)
    requires DriverForm(driver, 1).Some?
    ensures FormsFit(Forms(driver, n))
  {
    forall i | 0 <= i < n
      ensures var f := Forms(driver, n)[i]; f != "" && !IsDigit(f[0]) && Lacks(f, '$')
    {
      assert DriverForm(driver, i + 1).Some?;
    }
  }

  /** One token when the placeholders below `i` are translated. */
  function TokenText(t: Token, forms: seq<string>, i: nat): string {
    match t
    case Ch(c) => [c]
    case Hole(k, _) => if k < i then Arg(forms, k) else Written(t)
  }

  /** The query when the placeholders below `i` are translated. */
  function Translated(toks: seq<Token>, forms: seq<string>, i: nat): string {
    if toks == [] then "" else TokenText(toks[0], forms, i) + Translated(toks[1..], forms, i)
  }

  // ------------------------------------------------------- digits behind a `$`

  /** The digits `s` begins with. */
  function Leading(s: string): (d: string)
    ensures d <= s && Lacks(d, '$')
  {
    if s == "" || !IsDigit(s[0]) then "" else [s[0]] + Leading(s[1..])
  }

  lemma {:induction false} LeadingConcat(d: string, t: string)
    requires forall i | 0 <= i < |d| :: IsDigit(d[i])
    ensures Leading(d + t) == d + Leading(t)
  {
    if d == "" {
      assert d + t == t;
    } else {
      assert (d + t)[1..] == d[1..] + t;
      LeadingConcat(d[1..], t);
    }
  }

  lemma {:induction false} DigitsPrefix(d: string, s: string)
    requires forall i | 0 <= i < |d| :: IsDigit(d[i])
    ensures d <= s <==> d <= Leading(s)
  {
    if d != "" && s != "" && d[0] == s[0] {
      DigitsPrefix(d[1..], s[1..]);
      assert d <= s <==> d[1..] <= s[1..];
      assert d <= Leading(s) <==> d[1..] <= Leading(s[1..]);
    }
  }

  /** Where placeholder `i` can be read. */
  lemma Reads(i: nat, t: string)
    ensures Placeholder(i) <= "$" + t <==> Itoa(i) <= Leading(t)
  {
    DigitsPrefix(Itoa(i), t);
    assert Placeholder(i)[1..] == Itoa(i) && ("$" + t)[1..] == t;
  }

  /** Translating does not touch the digits behind a placeholder. */
  lemma {:induction false} LeadingTranslated(toks: seq<Token>, forms: seq<string>, i: nat)
    requires Bare(toks, |forms|) && FormsFit(forms)
    ensures Leading(Translated(toks, forms, i)) == Leading(Source(toks))
  {
    if toks != [] {
      var t := toks[0];
      if t.Hole? {
        assert Arg(forms, t.arg) in forms;
      } else {
        LeadingTranslated(toks[1..], forms, i);
        assert ([t.c] + Translated(toks[1..], forms, i))[1..] == Translated(toks[1..], forms, i);
        assert ([t.c] + Source(toks[1..]))[1..] == Source(toks[1..]);
      }
    }
  }

  lemma NothingBehind(toks: seq<Token>, forms: seq<string>, i: nat)
    requires Bare(toks, |forms|) && FormsFit(forms) && Separate(toks) && toks != [] && toks[0].Hole?
    ensures Leading(Translated(toks[1..], forms, i)) == "" == Leading(Source(toks[1..]))
  {
    LeadingTranslated(toks[1..], forms, i);
  }

  lemma HoleWritten(k: nat, t: string)
    ensures Written(Hole(k, "")) + t == "$" + (Itoa(k) + t)
  {
    WrittenBare(k, t);
    assert Placeholder(k) + t == "$" + (Itoa(k) + t);
  }

  /** A placeholder not yet translated, as text. */
  lemma HoleText(toks: seq<Token>, forms: seq<string>, i: nat)
    requires Bare(toks, |forms|) && toks != [] && toks[0].Hole? && toks[0].arg >= i
    ensures Translated(toks, forms, i) == "$" + (Itoa(toks[0].arg) + Translated(toks[1..], forms, i))
    ensures Source(toks) == "$" + (Itoa(toks[0].arg) + Source(toks[1..]))
  {
    var k := toks[0].arg;
    assert toks[0] == Hole(k, "");
    HoleWritten(k, Translated(toks[1..], forms, i));
    HoleWritten(k, Source(toks[1..]));
  }

  /** What can be read at a placeholder does not depend on the placeholders translated. */
  lemma HoleReads(toks: seq<Token>, forms: seq<string>, i: nat)
    requires Bare(toks, |forms|) && FormsFit(forms) && toks != [] && toks[0].Hole? && toks[0].arg >= i
    ensures Placeholder(i) <= Translated(toks, forms, i) <==> Placeholder(i) <= Source(toks)
  {
    var k, rest, source := toks[0].arg, Translated(toks[1..], forms, i), Source(toks[1..]);
    HoleText(toks, forms, i);
    LeadingTranslated(toks[1..], forms, i);
    LeadingConcat(Itoa(k), rest);
    LeadingConcat(Itoa(k), source);
    Reads(i, Itoa(k) + rest);
    Reads(i, Itoa(k) + source);
  }

  lemma HoleLeading(toks: seq<Token>)
    requires toks != [] && toks[0].Hole? && toks[0].quote == ""
    ensures Leading(Source(toks)) == ""
  {
    HoleWritten(toks[0].arg, Source(toks[1..]));
    assert toks[0] == Hole(toks[0].arg, "");
  }

  lemma SourceBehind(toks: seq<Token>, n: nat)
    requires Bare(toks, n) && Separate(toks) && toks != [] && toks[0].Hole?
    ensures Leading(Source(toks[1..])) == ""
  {
    if |toks| > 1 {
      if toks[1].Hole? {
        HoleLeading(toks[1..]);
      } else {
        assert Source(toks[1..]) == [toks[1].c] + Source(toks[1..][1..]);
      }
    }
  }

  lemma ReadsNumeral(i: nat, k: nat, t: string)
    requires Leading(t) == ""
    ensures Placeholder(i) <= "$" + (Itoa(k) + t) <==> Itoa(i) <= Itoa(k)
  {
    LeadingConcat(Itoa(k), t);
    Reads(i, Itoa(k) + t);
    assert Itoa(k) + "" == Itoa(k);
  }

  /** Where no digit follows, placeholder `i` can be read at `$k` if its numeral begins that of `k`. */
  lemma SeparateReads(toks: seq<Token>, i: nat, n: nat)
    requires Bare(toks, n) && Separate(toks) && toks != [] && toks[0].Hole?
    ensures Placeholder(i) <= Source(toks) <==> Itoa(i) <= Itoa(toks[0].arg)
  {
    var k := toks[0].arg;
    assert toks[0] == Hole(k, "");
    HoleWritten(k, Source(toks[1..]));
    SourceBehind(toks, n);
    ReadsNumeral(i, k, Source(toks[1..]));
  }

  // ------------------------------------------------------------------ a round

  lemma {:induction false} CountAt(toks: seq<Token>, q: nat)
    requires q < |toks| && toks[q].Hole?
    ensures Count(toks, toks[q].arg) >= 1
  {
    if q > 0 {
      CountAt(toks[1..], q - 1);
    }
  }

  /** Nothing changes where argument `i` has no hole. */
  lemma {:induction false} NoHole(toks: seq<Token>, forms: seq<string>, i: nat)
    requires Count(toks, i) == 0
    ensures Translated(toks, forms, i) == Translated(toks, forms, i + 1)
  {
    if toks != [] {
      NoHole(toks[1..], forms, i);
    }
  }

  /** A placeholder that does not match is passed over. */
  lemma PassHole(k: nat, t: string, p: string, form: string)
    requires p != "" && p[0] == '$' && !(p <= "$" + (Itoa(k) + t))
    ensures ReplaceFirst("$" + (Itoa(k) + t), p, form) == "$" + (Itoa(k) + ReplaceFirst(t, p, form))
  {
    var s := "$" + (Itoa(k) + t);
    assert s[1..] == Itoa(k) + t;
    PassOver(Itoa(k), t, p, form);
  }

  lemma {:induction false} HoleContained(toks: seq<Token>, forms: seq<string>, i: nat)
    requires Bare(toks, |forms|) && Count(toks, i) >= 1
    ensures Contains(Translated(toks, forms, i), Placeholder(i))
  {
    var rest := Translated(toks[1..], forms, i);
    if toks[0].Hole? && toks[0].arg == i {
      WrittenBare(i, rest);
      HitFirst(Placeholder(i), rest, "");
    } else {
      HoleContained(toks[1..], forms, i);
      ContainsBehind(TokenText(toks[0], forms, i), rest, Placeholder(i));
    }
  }

  lemma PastHole(toks: seq<Token>, forms: seq<string>, i: nat)
    requires Bare(toks, |forms|) && FormsFit(forms) && toks != [] && toks[0].Hole? && toks[0].arg > i >= 1
    requires !(Placeholder(i) <= Source(toks)) && i <= |forms|
    requires ReplaceFirst(Translated(toks[1..], forms, i), Placeholder(i), forms[i - 1]) == Translated(toks[1..], forms, i + 1)
    ensures ReplaceFirst(Translated(toks, forms, i), Placeholder(i), forms[i - 1]) == Translated(toks, forms, i + 1)
  {
    HoleText(toks, forms, i);
    HoleText(toks, forms, i + 1);
    HoleReads(toks, forms, i);
    PassHole(toks[0].arg, Translated(toks[1..], forms, i), Placeholder(i), forms[i - 1]);
  }

  lemma PastText(toks: seq<Token>, forms: seq<string>, i: nat)
    requires Bare(toks, |forms|) && FormsFit(forms) && toks != [] && (toks[0].Ch? || toks[0].arg < i) && 1 <= i <= |forms|
    requires ReplaceFirst(Translated(toks[1..], forms, i), Placeholder(i), forms[i - 1]) == Translated(toks[1..], forms, i + 1)
    ensures ReplaceFirst(Translated(toks, forms, i), Placeholder(i), forms[i - 1]) == Translated(toks, forms, i + 1)
  {
    var head := TokenText(toks[0], forms, i);
    assert TokenText(toks[0], forms, i + 1) == head;
    assert toks[0].Hole? ==> Arg(forms, toks[0].arg) in forms;
    PassOver(head, Translated(toks[1..], forms, i), Placeholder(i), forms[i - 1]);
  }

  lemma HitHole(toks: seq<Token>, forms: seq<string>, i: nat)
    requires toks != [] && toks[0] == Hole(i, "") && Count(toks[1..], i) == 0 && 1 <= i <= |forms|
    ensures ReplaceFirst(Translated(toks, forms, i), Placeholder(i), forms[i - 1]) == Translated(toks, forms, i + 1)
  {
    var rest := Translated(toks[1..], forms, i);
    WrittenBare(i, rest);
    HitFirst(Placeholder(i), rest, forms[i - 1]);
    NoHole(toks[1..], forms, i);
  }

  /** One round translates one placeholder, the first one left, if it cannot be read before its place. */
  lemma {:induction false} OneRound(toks: seq<Token>, forms: seq<string>, i: nat)
    requires Bare(toks, |forms|) && FormsFit(forms) && Count(toks, i) == 1 && 1 <= i <= |forms| && Free(toks, i)
    ensures ReplaceFirst(Translated(toks, forms, i), Placeholder(i), forms[i - 1]) == Translated(toks, forms, i + 1)
  {
    if toks[0] == Hole(i, "") {
      HitHole(toks, forms, i);
    } else {
      OneRound(toks[1..], forms, i);
      if toks[0].Hole? && toks[0].arg > i {
        PastHole(toks, forms, i);
      } else {
        PastText(toks, forms, i);
      }
    }
  }

  /** Before the first round and after the last one. */
  lemma {:induction false} Rounds(toks: seq<Token>, forms: seq<string>)
    requires Bare(toks, |forms|) && FormsFit(forms)
    ensures Translated(toks, forms, 1) == Source(toks)
    ensures Translated(toks, forms, |forms| + 1) == Fill(toks, forms)
    ensures Lacks(Fill(toks, forms), '$')
  {
    if toks != [] {
      Rounds(toks[1..], forms);
      assert toks[0].Hole? ==> Arg(forms, toks[0].arg) in forms;
    }
  }

  // ---------------------------------------------------- a round that goes wrong

  /** How many digits stand behind all the `$` together. */
  function Runs(s: string): nat {
    if s == "" then 0 else (if s[0] == '$' then |Leading(s[1..])| else 0) + Runs(s[1..])
  }

  lemma {:induction false} RunsBehind(a: string, t: string)
    requires Lacks(a, '$')
    ensures Runs(a + t) == Runs(t)
  {
    if a == "" {
      assert a + t == t;
    } else {
      assert (a + t)[1..] == a[1..] + t;
      RunsBehind(a[1..], t);
    }
  }

  lemma RunsOfHole(k: nat, t: string)
    ensures Runs("$" + (Itoa(k) + t)) == |Itoa(k)| + |Leading(t)| + Runs(t)
  {
    assert ("$" + (Itoa(k) + t))[1..] == Itoa(k) + t;
    LeadingConcat(Itoa(k), t);
    RunsBehind(Itoa(k), t);
  }

  lemma {:induction false} LeadingKept(t: string, p: string, form: string)
    requires p != "" && p[0] == '$' && form != "" && !IsDigit(form[0])
    ensures Leading(ReplaceFirst(t, p, form)) == Leading(t)
  {
    if t != "" && !(p <= t) {
      LeadingKept(t[1..], p, form);
      assert ReplaceFirst(t, p, form)[1..] == ReplaceFirst(t[1..], p, form);
    }
  }

  /** A round takes at least the digits of its number. */
  lemma {:induction false} RunsLess(s: string, i: nat, form: string)
    requires Contains(s, Placeholder(i)) && form != "" && !IsDigit(form[0]) && Lacks(form, '$')
    ensures Runs(ReplaceFirst(s, Placeholder(i), form)) + |Itoa(i)| <= Runs(s)
    decreases |s|
  {
    var p := Placeholder(i);
    var j :| 0 <= j <= |s| && p <= s[j..];
    if p <= s {
      var b := s[|p|..];
      assert s == "$" + (Itoa(i) + b);
      RunsOfHole(i, b);
      RunsBehind(form, b);
    } else {
      assert s[j..] == s[1..][j - 1..];
      RunsLess(s[1..], i, form);
      LeadingKept(s[1..], p, form);
      assert ReplaceFirst(s, p, form)[1..] == ReplaceFirst(s[1..], p, form);
    }
  }

  lemma LongerNumeral(i: nat, k: nat)
    requires Itoa(i) <= Itoa(k) && i != k
    ensures |Itoa(i)| < |Itoa(k)|
  {
    if |Itoa(i)| == |Itoa(k)| {
      NumeralPrefix(i, k);
      NumeralPrefix(k, i);
    }
  }

  /** What is left when the front of `$k` is hit. */
  lemma FrontHit(k: nat, t: string, i: nat, form: string) returns (left: string)
    requires Itoa(i) <= Itoa(k)
    ensures Itoa(k) == Itoa(i) + left
    ensures ReplaceFirst("$" + (Itoa(k) + t), Placeholder(i), form) == form + (left + t)
  {
    left := Itoa(k)[|Itoa(i)|..];
    var p := Placeholder(i);
    assert Itoa(k) + t == Itoa(i) + (left + t);
    assert "$" + (Itoa(i) + (left + t)) == p + (left + t);
    HitFirst(p, left + t, form);
  }

  /** A hit on the front of `$k` takes all its digits. */
  lemma WrongHit(k: nat, t: string, i: nat, form: string)
    requires i != k && Itoa(i) <= Itoa(k) && Leading(t) == "" && Lacks(form, '$')
    ensures var s := "$" + (Itoa(k) + t); Runs(ReplaceFirst(s, Placeholder(i), form)) + |Itoa(i)| < Runs(s)
  {
    LongerNumeral(i, k);
    RunsOfHole(k, t);
    var left := FrontHit(k, t, i, form);
    assert Lacks(left, '$') by {
      assert Lacks(Itoa(k), '$');
      assert forall c | c in left :: c in Itoa(k);
    }
    RunsBehind(left, t);
    RunsBehind(form, left + t);
  }

  /** A round whose number can be read before its place takes more digits than its number has. */
  lemma {:induction false} WrongRound(toks: seq<Token>, forms: seq<string>, i: nat)
    requires Bare(toks, |forms|) && FormsFit(forms) && Separate(toks) && 1 <= i <= |forms| && !Free(toks, i)
    ensures Runs(ReplaceFirst(Translated(toks, forms, i), Placeholder(i), forms[i - 1])) + |Itoa(i)|
         < Runs(Translated(toks, forms, i))
  {
    var rest := Translated(toks[1..], forms, i);
    var p, form := Placeholder(i), forms[i - 1];
    var head := TokenText(toks[0], forms, i);
    if toks[0].Hole? && toks[0].arg > i {
      var k := toks[0].arg;
      HoleText(toks, forms, i);
      HoleReads(toks, forms, i);
      SeparateReads(toks, i, |forms|);
      NothingBehind(toks, forms, i);
      if Itoa(i) <= Itoa(k) {
        WrongHit(k, rest, i, form);
      } else {
        WrongRound(toks[1..], forms, i);
        PassHole(k, rest, p, form);
        LeadingKept(rest, p, form);
        RunsOfHole(k, rest);
        RunsOfHole(k, ReplaceFirst(rest, p, form));
      }
    } else {
      WrongRound(toks[1..], forms, i);
      assert toks[0].Hole? ==> Arg(forms, toks[0].arg) in forms;
      PassOver(head, rest, p, form);
      RunsBehind(head, rest);
      RunsBehind(head, ReplaceFirst(rest, p, form));
    }
  }

  /** A placeholder not yet translated. */
  predicate IsLeft(t: Token, i: nat) { t.Hole? && t.arg >= i }

  /** The digits behind the `$` of the first token. */
  lemma HeadRuns(toks: seq<Token>, forms: seq<string>, i: nat)
    requires Bare(toks, |forms|) && FormsFit(forms) && Separate(toks) && toks != []
    ensures Runs(Translated(toks, forms, i))
         == Runs(Translated(toks[1..], forms, i)) + if IsLeft(toks[0], i) then |Itoa(toks[0].arg)| else 0
  {
    var rest := Translated(toks[1..], forms, i);
    if IsLeft(toks[0], i) {
      HoleText(toks, forms, i);
      NothingBehind(toks, forms, i);
      RunsOfHole(toks[0].arg, rest);
    } else {
      assert toks[0].Hole? ==> Arg(forms, toks[0].arg) in forms;
      RunsBehind(TokenText(toks[0], forms, i), rest);
    }
  }

  lemma DollarsOfHole(k: nat, t: string)
    ensures Dollars("$" + (Itoa(k) + t)) == 1 + Dollars(t)
  {
    NoDollars(Itoa(k));
    DollarsConcat(Itoa(k), t);
    assert ("$" + (Itoa(k) + t))[1..] == Itoa(k) + t;
  }

  /** Its `$`. */
  lemma HeadDollars(toks: seq<Token>, forms: seq<string>, i: nat)
    requires Bare(toks, |forms|) && FormsFit(forms) && toks != []
    ensures Dollars(Translated(toks, forms, i))
         == Dollars(Translated(toks[1..], forms, i)) + if IsLeft(toks[0], i) then 1 else 0
  {
    var rest := Translated(toks[1..], forms, i);
    if IsLeft(toks[0], i) {
      HoleText(toks, forms, i);
      DollarsOfHole(toks[0].arg, rest);
    } else {
      assert toks[0].Hole? ==> Arg(forms, toks[0].arg) in forms;
      NoDollars(TokenText(toks[0], forms, i));
      DollarsConcat(TokenText(toks[0], forms, i), rest);
    }
  }

  /** Translating argument `i` rightly takes just its digits. */
  lemma {:induction false} RunsStep(toks: seq<Token>, forms: seq<string>, i: nat)
    requires Bare(toks, |forms|) && FormsFit(forms) && Separate(toks) && Count(toks, i) <= 1
    ensures Runs(Translated(toks, forms, i))
         == Runs(Translated(toks, forms, i + 1)) + if Count(toks, i) == 1 then |Itoa(i)| else 0
  {
    if toks != [] {
      RunsStep(toks[1..], forms, i);
      HeadRuns(toks, forms, i);
      HeadRuns(toks, forms, i + 1);
    }
  }

  lemma {:induction false} DollarsStep(toks: seq<Token>, forms: seq<string>, i: nat)
    requires Bare(toks, |forms|) && FormsFit(forms)
    ensures Dollars(Translated(toks, forms, i)) == Dollars(Translated(toks, forms, i + 1)) + Count(toks, i)
  {
    if toks != [] {
      DollarsStep(toks[1..], forms, i);
      HeadDollars(toks, forms, i);
      HeadDollars(toks, forms, i + 1);
    }
  }

  // ---------------------------------------------------------------- the rounds

  lemma {:induction false} FreeMeans(toks: seq<Token>, i: nat, n: nat, p: nat, q: nat)
    requires Bare(toks, n) && Separate(toks) && Count(toks, i) == 1 && Free(toks, i)
    requires p < q < |toks| && toks[q] == Hole(i, "") && toks[p].Hole? && toks[p].arg != i
    ensures !(Itoa(i) <= Itoa(toks[p].arg))
  {
    CountAt(toks[1..], q - 1);
    if p > 0 {
      FreeMeans(toks[1..], i, n, p - 1, q - 1);
    } else {
      SeparateReads(toks, i, n);
      if Itoa(i) <= Itoa(toks[0].arg) {
        NumeralPrefix(i, toks[0].arg);
      }
    }
  }

  lemma {:induction false} HoleAt(toks: seq<Token>, i: nat, n: nat) returns (q: nat)
    requires Bare(toks, n) && Count(toks, i) >= 1
    ensures q < |toks| && toks[q] == Hole(i, "")
  {
    if toks[0].Hole? && toks[0].arg == i {
      q := 0;
    } else {
      q := HoleAt(toks[1..], i, n);
      q := q + 1;
    }
  }

  lemma {:induction false} NotFree(toks: seq<Token>, i: nat, n: nat) returns (p: nat, q: nat)
    requires Bare(toks, n) && Separate(toks) && Count(toks, i) == 1 && !Free(toks, i)
    ensures p < q < |toks| && toks[q] == Hole(i, "") && toks[p].Hole? && toks[p].arg != i
    ensures Itoa(i) <= Itoa(toks[p].arg)
  {
    if toks[0].Hole? && toks[0].arg > i && Placeholder(i) <= Source(toks) {
      SeparateReads(toks, i, n);
      p := 0;
      q := HoleAt(toks[1..], i, n);
      q := q + 1;
    } else {
      p, q := NotFree(toks[1..], i, n);
      p, q := p + 1, q + 1;
    }
  }

  predicate AllFree(toks: seq<Token>, n: nat, i: nat) {
    forall j | 1 <= j < i && j <= n :: Free(toks, j)
  }

  /** The two ways to say that no placeholder can be read before its place. */
  lemma FreeExactly(toks: seq<Token>, n: nat)
    requires Template(toks, n) && Separate(toks)
    ensures AllFree(toks, n, n + 1) <==> !Overtaken(toks)
  {
    if AllFree(toks, n, n + 1) && Overtaken(toks) {
      var p, q :| 0 <= p < q < |toks| && toks[p].Hole? && toks[q].Hole?
                  && toks[p].arg != toks[q].arg && Itoa(toks[q].arg) <= Itoa(toks[p].arg);
      BareAt(toks, n, q);
      FreeMeans(toks, toks[q].arg, n, p, q);
    }
    if !AllFree(toks, n, n + 1) {
      var i :| 1 <= i <= n && !Free(toks, i);
      var p, q := NotFree(toks, i, n);
    }
  }

  /** The query is `toks` with the placeholders below `i` translated. */
  ghost predicate InRound(query: string, toks: seq<Token>, forms: seq<string>, i: nat) {
    1 <= i <= |forms| + 1 && query == Translated(toks, forms, i)
  }

  /** A round before has gone wrong: there are as many `$` as there should be, but too few digits behind them. */
  ghost predicate Derailed(query: string, toks: seq<Token>, forms: seq<string>, i: nat) {
    && 1 <= i <= |forms|
    && Dollars(query) == Dollars(Translated(toks, forms, i))
    && Runs(query) < Runs(Translated(toks, forms, i))
  }

  lemma StillLeft(toks: seq<Token>, forms: seq<string>, query: string, i: nat)
    requires Template(toks, |forms|) && FormsFit(forms)
    requires InRound(query, toks, forms, i)
    ensures Contains(query, Placeholder(i)) <==> i <= |forms|
  {
    Rounds(toks, forms);
    NothingLeft(query, i);
    if i <= |forms| {
      HoleContained(toks, forms, i);
    }
  }

  lemma {:induction false} LacksNoRuns(s: string)
    requires Lacks(s, '$')
    ensures Runs(s) == 0
  {
    assert s + "" == s;
    RunsBehind(s, "");
  }

  /** Once there are too few digits they do not suffice for the rounds to come. */
  lemma DerailedNext(query: string, toks: seq<Token>, forms: seq<string>, i: nat, next: string)
    requires Template(toks, |forms|) && FormsFit(forms) && Separate(toks) && 1 <= i <= |forms|
    requires Dollars(next) + 1 == Dollars(Translated(toks, forms, i))
    requires Runs(next) + |Itoa(i)| < Runs(Translated(toks, forms, i))
    ensures Derailed(next, toks, forms, i + 1)
  {
    RunsStep(toks, forms, i);
    DollarsStep(toks, forms, i);
    NoRunsAtEnd(toks, forms);
  }

  lemma NoRunsAtEnd(toks: seq<Token>, forms: seq<string>)
    requires Bare(toks, |forms|) && FormsFit(forms)
    ensures Runs(Translated(toks, forms, |forms| + 1)) == 0
  {
    Rounds(toks, forms);
    LacksNoRuns(Fill(toks, forms));
  }

  lemma DerailedLeft(query: string, toks: seq<Token>, forms: seq<string>, i: nat)
    requires Template(toks, |forms|) && FormsFit(forms) && Separate(toks) && Derailed(query, toks, forms, i)
    ensures query != Fill(toks, forms)
  {
    DollarsStep(toks, forms, i);
    Rounds(toks, forms);
    NoDollars(Fill(toks, forms));
  }

  /** What is known of the query before round `i`. */
  ghost predicate Known(query: string, toks: seq<Token>, forms: seq<string>, i: nat) {
    && (AllFree(toks, |forms|, i) ==> InRound(query, toks, forms, i))
    && (Separate(toks) && !AllFree(toks, |forms|, i) ==> Derailed(query, toks, forms, i))
  }

  lemma RoundKept(query: string, toks: seq<Token>, forms: seq<string>, i: nat, form: string)
    requires Template(toks, |forms|) && FormsFit(forms)
    requires i >= 1 && Known(query, toks, forms, i) && Contains(query, Placeholder(i))
    requires i <= |forms| ==> form == forms[i - 1]
    ensures Known(ReplaceFirst(query, Placeholder(i), form), toks, forms, i + 1)
  {
    var next := ReplaceFirst(query, Placeholder(i), form);
    if AllFree(toks, |forms|, i) {
      StillLeft(toks, forms, query, i);
      assert form in forms;
      if Free(toks, i) {
        OneRound(toks, forms, i);
        assert AllFree(toks, |forms|, i + 1);
      } else if Separate(toks) {
        OneDollarLess(query, i, form);
        WrongRound(toks, forms, i);
        DerailedNext(query, toks, forms, i, next);
      }
    } else if Separate(toks) {
      assert form in forms;
      OneDollarLess(query, i, form);
      RunsLess(query, i, form);
      DerailedNext(query, toks, forms, i, next);
    }
  }

  lemma RoundsOver(query: string, toks: seq<Token>, forms: seq<string>, i: nat)
    requires Template(toks, |forms|) && FormsFit(forms)
    requires i >= 1 && Known(query, toks, forms, i) && !Contains(query, Placeholder(i))
    ensures AllFree(toks, |forms|, |forms| + 1) ==> query == Fill(toks, forms)
    ensures Separate(toks) ==> (query == Fill(toks, forms) <==> !Overtaken(toks))
  {
    Rounds(toks, forms);
    if AllFree(toks, |forms|, i) {
      StillLeft(toks, forms, query, i);
    } else if Separate(toks) {
      DerailedLeft(query, toks, forms, i);
    }
    if Separate(toks) {
      FreeExactly(toks, |forms|);
    }
  }

  /** Before round `i`, if `toks` is a reading of the query. */
  ghost predicate Running(query0: string, query: string, toks: seq<Token>, driver: Driver, n: nat, i: nat)
    requires DriverForm(driver, 1).Some?
  {
    Template(toks, n) && Source(toks) == query0 ==> i >= 1 && Known(query, toks, Forms(driver, n), i)
  }

  lemma Begin(query0: string, toks: seq<Token>, driver: Driver, n: nat)
    requires DriverForm(driver, 1).Some?
    ensures Running(query0, query0, toks, driver, n, 1)
  {
    if Template(toks, n) && Source(toks) == query0 {
      FormsOk(driver, n);
      Rounds(toks, Forms(driver, n));
    }
  }

  lemma FormIs(driver: Driver, n: nat, i: nat)
    requires DriverForm(driver, 1).Some? && i >= 1
    ensures DriverForm(driver, i).Some?
    ensures i <= n ==> Forms(driver, n)[i - 1] == DriverForm(driver, i).value
  {
  }

  lemma Continue(query0: string, query: string, toks: seq<Token>, driver: Driver, n: nat, i: nat, form: string)
    requires DriverForm(driver, 1).Some? && i >= 1 && DriverForm(driver, i) == Some(form)
    requires Running(query0, query, toks, driver, n, i) && Contains(query, Placeholder(i))
    ensures Running(query0, ReplaceFirst(query, Placeholder(i), form), toks, driver, n, i + 1)
  {
    if Template(toks, n) && Source(toks) == query0 {
      FormsOk(driver, n);
      FormIs(driver, n, i);
      RoundKept(query, toks, Forms(driver, n), i, form);
    }
  }

  lemma Finish(query0: string, query: string, toks: seq<Token>, driver: Driver, n: nat, i: nat)
    requires DriverForm(driver, 1).Some? && i >= 1
    requires Running(query0, query, toks, driver, n, i) && !Contains(query, Placeholder(i))
    ensures Template(toks, n) && Source(toks) == query0 ==>
      && (Separate(toks) ==> (query == Fill(toks, Forms(driver, n)) <==> !Overtaken(toks)))
      && (AllFree(toks, n, n + 1) ==> query == Fill(toks, Forms(driver, n)))
  {
    if Template(toks, n) && Source(toks) == query0 {
      FormsOk(driver, n);
      RoundsOver(query, toks, Forms(driver, n), i);
    }
  }

  /** Placeholders in ascending order come out right, whatever follows them. */
  predicate Ascending(toks: seq<Token>) {
    forall p, q | 0 <= p < q < |toks| && toks[p].Hole? && toks[q].Hole? :: toks[p].arg < toks[q].arg
  }

  lemma {:induction false} AscendingFree(toks: seq<Token>, i: nat, n: nat)
    requires Bare(toks, n) && Ascending(toks)
    ensures Count(toks, i) == 1 ==> Free(toks, i)
  {
    if toks != [] {
      AscendingFree(toks[1..], i, n);
      if toks[0].Hole? && Count(toks[1..], i) >= 1 {
        var q := HoleAt(toks[1..], i, n);
        assert toks[q + 1] == Hole(i, "");
      }
    }
  }

  // --------------------------------------------- what the translated query binds

  /** How the drivers write a parameter: as `$N`, by a question mark, or by a numeral behind `:` or `@p`. */
  datatype Style = Native | Question | Colon | AtP

  function StyleOf(driver: Driver): Style {
    match driver
    case Pgx => Native
    case Dsql => Native
    case MongoDB => Native
    case MySQL => Question
    case Cassandra => Question
    case Oracle => Colon
    case MSSQL => AtP
    case Spanner => AtP
  }

  /** The drivers whose parameters do not name their arguments: the j-th `?` takes argument j. */
  predicate Positional(driver: Driver) {
    StyleOf(driver) == Question
  }

  /** The number of digits that `s` begins with. */
  function DigitsAhead(s: string): (k: nat)
    ensures k <= |s| && Literals.AllDigits(s[..k]) && (k < |s| ==> !('0' <= s[k] <= '9'))
  {
    if s == "" || !('0' <= s[0] <= '9') then 0 else 1 + DigitsAhead(s[1..])
  }

  /** A numeral without leading zeros behind `mark`: its number, and what follows it. */
  function ReadNumbered(s: string, mark: string): Option<(nat, string)> {
    if !(mark <= s) || DigitsAhead(s[|mark|..]) == 0 || s[|mark|] == '0' then None
    else
      var t := s[|mark|..];
      Some((Literals.Horner(t[..DigitsAhead(t)], 0), t[DigitsAhead(t)..]))
  }

  /**
   The parameter that a text begins with, `j` being the number of the next
   question mark: the argument that it takes, and what follows it.
   */
  function ReadParameter(s: string, style: Style, j: nat): (r: Option<(nat, string)>)
    ensures r.Some? ==> |r.value.1| < |s|
  {
    match style
    case Native => None
    case Question => if s != "" && s[0] == '?' then Some((j, s[1..])) else None
    case Colon => ReadNumbered(s, ":")
    case AtP => ReadNumbered(s, "@p")
  }

  /** The arguments that the parameters of a text take, from left to right. */
  function Taken(s: string, style: Style, j: nat): seq<nat>
    decreases |s|
  {
    if s == "" then []
    else
      match ReadParameter(s, style, j)
      case Some((k, rest)) => [k] + Taken(rest, style, j + 1)
      case None => Taken(s[1..], style, j)
  }

  /** The arguments taken by the parameters in the places of the holes, if the text is such a template. */
  function TakenAt(s: string, toks: seq<Token>, style: Style, j: nat): Option<seq<nat>> {
    if toks == [] then (if s == "" then Some([]) else None)
    else if toks[0].Ch? then
      if s != "" && s[0] == toks[0].c then TakenAt(s[1..], toks[1..], style, j) else None
    else
      match ReadParameter(s, style, j)
      case None => None
      case Some((k, rest)) =>
        match TakenAt(rest, toks[1..], style, j + 1)
        case None => None
        case Some(args) => Some([k] + args)
  }

  /** The arguments that the forms of a translated template take, in textual order, the first form being number `i`. */
  function Bound(driver: Driver, toks: seq<Token>, i: nat): seq<nat> {
    if toks == [] then []
    else
      match toks[0]
      case Ch(_) => Bound(driver, toks[1..], i)
      case Hole(k, _) => [if Positional(driver) then i else k] + Bound(driver, toks[1..], i + 1)
  }

  /** The query is the template with a parameter of the driver in each place, and each takes the argument of its placeholder. */
  predicate OwnArguments(query: string, toks: seq<Token>, driver: Driver) {
    TakenAt(query, toks, StyleOf(driver), 1) == Some(Holes(toks))
  }

  // ------------------------------------------------ the forms are read as meant

  lemma StyleForm(driver: Driver)
    ensures DriverForm(driver, 1).Some? <==> StyleOf(driver) != Native
  {
  }

  lemma {:induction false} RunOfDigits(a: string, rest: string)
    requires Literals.AllDigits(a) && (rest != "" ==> !IsDigit(rest[0]))
    ensures DigitsAhead(a + rest) == |a|
  {
    if a == "" {
      assert a + rest == rest;
    } else {
      assert (a + rest)[1..] == a[1..] + rest;
      RunOfDigits(a[1..], rest);
    }
  }

  lemma NumberedReads(mark: string, k: nat, rest: string)
    requires k >= 1 && (rest != "" ==> !IsDigit(rest[0]))
    ensures ReadNumbered(mark + Itoa(k) + rest, mark) == Some((k, rest))
  {
    var s, a := mark + Itoa(k) + rest, Itoa(k);
    Literals.NumeralReads(k);
    RunOfDigits(a, rest);
    LeadingDigit(k);
    assert s[|mark|] == a[0];
    assert s[|mark|..] == a + rest && mark <= s;
    assert (a + rest)[..|a|] == a && (a + rest)[|a|..] == rest;
  }

  /** The form that is written for placeholder `k` is read as that parameter, if no digit follows. */
  lemma FormReads(driver: Driver, k: nat, rest: string, j: nat)
    requires DriverForm(driver, k).Some? && k >= 1 && (rest != "" ==> !IsDigit(rest[0]))
    ensures ReadParameter(DriverForm(driver, k).value + rest, StyleOf(driver), j)
         == Some((if Positional(driver) then j else k, rest))
  {
    match StyleOf(driver)
    case Native =>
    case Question => assert ("?" + rest)[1..] == rest;
    case Colon => NumberedReads(":", k, rest);
    case AtP => NumberedReads("@p", k, rest);
  }

  /** What stands behind a hole in a translated template begins with no digit. */
  lemma NoDigitBehind(toks: seq<Token>, driver: Driver, n: nat)
    requires Bare(toks, n) && Separate(toks) && toks != [] && toks[0].Hole? && DriverForm(driver, 1).Some?
    ensures var rest := Fill(toks[1..], Forms(driver, n)); rest != "" ==> !IsDigit(rest[0])
  {
    FormsOk(driver, n);
    if |toks| > 1 && toks[1].Hole? {
      BareAt(toks, n, 1);
      assert toks[1..][0] == toks[1] && Arg(Forms(driver, n), toks[1].arg) in Forms(driver, n);
    } else if |toks| > 1 {
      assert toks[1..][0] == toks[1] && toks[1 - 1].Hole?;
    }
  }

  lemma SeparateTail(toks: seq<Token>)
    requires Separate(toks) && toks != []
    ensures Separate(toks[1..])
  {
    assert forall p | 0 <= p < |toks[1..]| :: toks[1..][p] == toks[p + 1];
  }

  lemma HoleForm(toks: seq<Token>, driver: Driver, n: nat)
    requires Bare(toks, n) && toks != [] && toks[0].Hole? && DriverForm(driver, 1).Some?
    ensures DriverForm(driver, toks[0].arg).Some?
    ensures Fill(toks, Forms(driver, n)) == DriverForm(driver, toks[0].arg).value + Fill(toks[1..], Forms(driver, n))
  {
    FormIs(driver, n, toks[0].arg);
  }

  /** In the places of the holes the forms are read as the parameters meant. */
  lemma {:induction false} FillTakenAt(toks: seq<Token>, driver: Driver, n: nat, j: nat)
    requires Bare(toks, n) && Separate(toks) && DriverForm(driver, 1).Some?
    ensures TakenAt(Fill(toks, Forms(driver, n)), toks, StyleOf(driver), j) == Some(Bound(driver, toks, j))
  {
    if toks != [] {
      var rest := Fill(toks[1..], Forms(driver, n));
      SeparateTail(toks);
      if toks[0].Ch? {
        FillTakenAt(toks[1..], driver, n, j);
        assert ([toks[0].c] + rest)[1..] == rest;
      } else {
        FillTakenAt(toks[1..], driver, n, j + 1);
        NoDigitBehind(toks, driver, n);
        HoleForm(toks, driver, n);
        FormReads(driver, toks[0].arg, rest, j);
      }
    }
  }

  /** A numeral without leading zeros is the numeral of its number. */
  lemma {:induction false} Canonical(d: string)
    requires Literals.Digits(d) && d[0] != '0'
    ensures Literals.Horner(d, 0) >= 1 && Itoa(Literals.Horner(d, 0)) == d
    decreases |d|
  {
    var a, c := d[..|d| - 1], d[|d| - 1];
    assert d == a + [c];
    Literals.HornerSnoc(a, c, 0);
    if a != "" {
      Canonical(a);
      ItoaSnoc(Literals.Horner(a, 0), c);
    } else {
      assert Literals.Horner(d, 0) == DigitValue(c);
    }
  }

  lemma NumberedIs(s: string, mark: string)
    requires ReadNumbered(s, mark).Some?
    ensures var (k, rest) := ReadNumbered(s, mark).value; s == mark + Itoa(k) + rest
  {
    var t := s[|mark|..];
    var m := DigitsAhead(t);
    assert t[..m][0] == t[0] == s[|mark|];
    Canonical(t[..m]);
    assert t == t[..m] + t[m..] && s == mark + t;
  }

  lemma ReadIsForm(driver: Driver, s: string, j: nat, k: nat, rest: string)
    requires StyleOf(driver) != Native && !Positional(driver) && ReadParameter(s, StyleOf(driver), j) == Some((k, rest))
    ensures DriverForm(driver, k).Some? && s == DriverForm(driver, k).value + rest
  {
    NumberedIs(s, if StyleOf(driver) == Colon then ":" else "@p");
  }

  /** A text in which every hole is read as a parameter for its own argument is the template in the driver's forms. */
  lemma {:induction false} TakenAtFill(s: string, toks: seq<Token>, driver: Driver, n: nat, j: nat)
    requires Bare(toks, n) && DriverForm(driver, 1).Some?
    requires TakenAt(s, toks, StyleOf(driver), j) == Some(Holes(toks))
    ensures s == Fill(toks, Forms(driver, n))
    decreases |toks|
  {
    if toks == [] {
    } else if toks[0].Ch? {
      assert [] + Holes(toks[1..]) == Holes(toks[1..]);
      TakenAtFill(s[1..], toks[1..], driver, n, j);
      assert s == [s[0]] + s[1..];
    } else {
      var (k, rest) := ReadParameter(s, StyleOf(driver), j).value;
      assert Holes(toks) == [toks[0].arg] + Holes(toks[1..]);
      assert Holes(toks)[0] == toks[0].arg && Holes(toks)[1..] == Holes(toks[1..]);
      var args := TakenAt(rest, toks[1..], StyleOf(driver), j + 1).value;
      assert ([k] + args)[0] == k && ([k] + args)[1..] == args;
      TakenAtFill(rest, toks[1..], driver, n, j + 1);
      HoleForm(toks, driver, n);
      if Positional(driver) {
        assert s == "?" + rest;
      } else {
        ReadIsForm(driver, s, j, k, rest);
      }
    }
  }

  /** The first character of every parameter. */
  function Mark(style: Style): char {
    match style
    case Native => '$'
    case Question => '?'
    case Colon => ':'
    case AtP => '@'
  }

  lemma ParameterMark(s: string, style: Style, j: nat)
    requires ReadParameter(s, style, j).Some?
    ensures s != "" && s[0] == Mark(style)
  {
  }

  /** A text without marks in front holds no parameter. */
  lemma {:induction false} TakenBehind(a: string, s: string, style: Style, j: nat)
    requires Lacks(a, Mark(style))
    ensures Taken(a + s, style, j) == Taken(s, style, j)
  {
    if a == "" {
      assert a + s == s;
    } else {
      assert (a + s)[1..] == a[1..] + s;
      assert a[0] in a;
      if ReadParameter(a + s, style, j).Some? {
        ParameterMark(a + s, style, j);
      }
      TakenBehind(a[1..], s, style, j);
    }
  }

  /** Whether a text begins with a parameter is seen from three characters. */
  lemma ThreeCharacters(s: string, t: string, style: Style, j: nat)
    requires s != "" && t != "" && s[0] == t[0] && ReadParameter(s, style, j).None?
    requires |t| > 1 && (IsDigit(t[1]) || t[1] == 'p') ==> |s| > 1 && s[1] == t[1]
    requires |t| > 2 && t[1] == 'p' && IsDigit(t[2]) ==> |s| > 2 && s[2] == t[2]
    ensures ReadParameter(t, style, j).None?
  {
  }

  /** The template in the drivers' forms begins, up to what counts for a parameter, as the query does. */
  lemma SameStart(toks: seq<Token>, driver: Driver, n: nat)
    requires Bare(toks, n) && DriverForm(driver, 1).Some?
    ensures var t, s := Fill(toks, Forms(driver, n)), Source(toks);
      && (t != "" && (IsDigit(t[0]) || t[0] == 'p') ==> s != "" && s[0] == t[0])
      && (|t| > 1 && t[0] == 'p' && IsDigit(t[1]) ==> |s| > 1 && s[1] == t[1])
  {
    if toks != [] {
      SameFirst(toks, driver, n);
      if toks[0].Ch? {
        SameFirst(toks[1..], driver, n);
      }
    }
  }

  lemma SameFirst(toks: seq<Token>, driver: Driver, n: nat)
    requires Bare(toks, n) && DriverForm(driver, 1).Some?
    ensures var t, s := Fill(toks, Forms(driver, n)), Source(toks);
      && (t != "" && (IsDigit(t[0]) || t[0] == 'p') ==> s != "" && s[0] == t[0] && toks != [] && toks[0].Ch?)
  {
    if toks != [] && toks[0].Hole? {
      HoleForm(toks, driver, n);
      assert DriverForm(driver, toks[0].arg).value[0] == Mark(StyleOf(driver));
    }
  }

  /** So a query without parameters of its own has, translated, those of its holes alone. */
  lemma {:induction false} FillTaken(toks: seq<Token>, driver: Driver, n: nat, j: nat, i: nat)
    requires Bare(toks, n) && Separate(toks) && DriverForm(driver, 1).Some?
    requires Taken(Source(toks), StyleOf(driver), i) == []
    ensures Taken(Fill(toks, Forms(driver, n)), StyleOf(driver), j) == Bound(driver, toks, j)
  {
    if toks != [] {
      var style, s, t := StyleOf(driver), Source(toks), Fill(toks, Forms(driver, n));
      var rest := Fill(toks[1..], Forms(driver, n));
      SeparateTail(toks);
      if toks[0].Ch? {
        assert s[1..] == Source(toks[1..]) && t[1..] == rest;
        SameStart(toks[1..], driver, n);
        NoneHere(s, style, i);
        NoParameter(s, style, i, j);
        ThreeCharacters(s, t, style, j);
        FillTaken(toks[1..], driver, n, j, i);
      } else {
        BareWritten(toks[0].arg);
        PlaceholderMarks(toks[0].arg, style);
        TakenBehind(Placeholder(toks[0].arg), Source(toks[1..]), style, i);
        FillTaken(toks[1..], driver, n, j + 1, i);
        NoDigitBehind(toks, driver, n);
        HoleForm(toks, driver, n);
        FormReads(driver, toks[0].arg, rest, j);
      }
    }
  }

  lemma NoneHere(s: string, style: Style, i: nat)
    requires s != "" && Taken(s, style, i) == []
    ensures ReadParameter(s, style, i).None? && Taken(s[1..], style, i) == []
  {
  }

  lemma NoParameter(s: string, style: Style, i: nat, j: nat)
    ensures ReadParameter(s, style, i).None? <==> ReadParameter(s, style, j).None?
  {
  }

  lemma PlaceholderMarks(k: nat, style: Style)
    requires style != Native
    ensures Lacks(Placeholder(k), Mark(style))
  {
    forall i | 0 <= i < |Placeholder(k)|
      ensures Placeholder(k)[i] != Mark(style)
    {
      assert i > 0 ==> Placeholder(k)[i] == Itoa(k)[i - 1];
    }
  }

  lemma {:induction false} NumberedBound(driver: Driver, toks: seq<Token>, i: nat)
    requires !Positional(driver)
    ensures Bound(driver, toks, i) == Holes(toks)
  {
    if toks != [] {
      NumberedBound(driver, toks[1..], if toks[0].Hole? then i + 1 else i);
    }
  }

  lemma AscendingTail(toks: seq<Token>)
    requires toks != []
    ensures Ascending(toks) <==>
      Ascending(toks[1..])
      && (toks[0].Hole? ==> forall q | 0 < q < |toks| && toks[q].Hole? :: toks[0].arg < toks[q].arg)
  {
    assert forall q | 0 < q < |toks| :: toks[q] == toks[1..][q - 1];
    if Ascending(toks[1..]) && (toks[0].Hole? ==> forall q | 0 < q < |toks| && toks[q].Hole? :: toks[0].arg < toks[q].arg) {
      forall p, q | 0 <= p < q < |toks| && toks[p].Hole? && toks[q].Hole?
        ensures toks[p].arg < toks[q].arg
      {
        assert p > 0 ==> toks[1..][p - 1].arg < toks[1..][q - 1].arg;
      }
    }
  }

  /** A template of arguments i..n. */
  ghost predicate Remaining(toks: seq<Token>, i: nat, n: nat) {
    Bare(toks, n) && forall k: nat :: Count(toks, k) == if i <= k <= n then 1 else 0
  }

  lemma RemainingAt(toks: seq<Token>, i: nat, n: nat, q: nat)
    requires Remaining(toks, i, n) && q < |toks| && toks[q].Hole?
    ensures i <= toks[q].arg <= n
  {
    CountAt(toks, q);
  }

  /** The first argument left stands first. */
  lemma FirstInPlace(toks: seq<Token>, i: nat, n: nat)
    requires Remaining(toks, i, n) && toks != [] && toks[0] == Hole(i, "")
    ensures Remaining(toks[1..], i + 1, n) && (Ascending(toks) <==> Ascending(toks[1..]))
  {
    forall k: nat
      ensures Count(toks[1..], k) == if i + 1 <= k <= n then 1 else 0
    {
      assert Count(toks, k) == (if k == i then 1 else 0) + Count(toks[1..], k);
    }
    AscendingTail(toks);
    forall q | 0 < q < |toks| && toks[q].Hole?
      ensures i < toks[q].arg
    {
      assert toks[1..][q - 1] == toks[q];
      RemainingAt(toks[1..], i + 1, n, q - 1);
    }
  }

  /** Another one does, so the first one left comes later. */
  lemma OutOfPlace(toks: seq<Token>, i: nat, n: nat)
    requires Remaining(toks, i, n) && toks != [] && toks[0].Hole? && toks[0].arg != i
    ensures !Ascending(toks)
  {
    RemainingAt(toks, i, n, 0);
    assert Count(toks, i) == 1;
    var q := HoleAt(toks, i, n);
    assert toks[0].arg > toks[q].arg;
  }

  lemma {:induction false} PositionalBound(driver: Driver, toks: seq<Token>, i: nat, n: nat)
    requires Positional(driver) && Remaining(toks, i, n)
    ensures Bound(driver, toks, i) == Holes(toks) <==> Ascending(toks)
    decreases |toks|
  {
    if toks == [] {
    } else if toks[0].Ch? {
      AscendingTail(toks);
      assert Remaining(toks[1..], i, n) by {
        assert forall k: nat :: Count(toks, k) == Count(toks[1..], k);
      }
      PositionalBound(driver, toks[1..], i, n);
    } else if toks[0].arg == i {
      FirstInPlace(toks, i, n);
      PositionalBound(driver, toks[1..], i + 1, n);
      assert Bound(driver, toks, i) == [i] + Bound(driver, toks[1..], i + 1);
      assert Holes(toks) == [i] + Holes(toks[1..]);
      assert Bound(driver, toks[1..], i + 1) == Bound(driver, toks, i)[1..] && Holes(toks[1..]) == Holes(toks)[1..];
    } else {
      OutOfPlace(toks, i, n);
      assert Bound(driver, toks, i)[0] == i && Holes(toks)[0] == toks[0].arg;
    }
  }

  lemma {:induction false} NoOtherHole(toks: seq<Token>, n: nat, k: nat)
    requires Bare(toks, n) && !(1 <= k <= n)
    ensures Count(toks, k) == 0
  {
    if toks != [] {
      NoOtherHole(toks[1..], n, k);
    }
  }

  /**
   Each form takes the argument of its placeholder: always if it names it, and if
   it does not, when the placeholders ascend.
   */
  lemma BoundExactly(driver: Driver, toks: seq<Token>, n: nat)
    requires Template(toks, n)
    ensures Bound(driver, toks, 1) == Holes(toks) <==> (Positional(driver) ==> Ascending(toks))
  {
    if Positional(driver) {
      forall k: nat
        ensures Count(toks, k) == if 1 <= k <= n then 1 else 0
      {
        if !(1 <= k <= n) {
          NoOtherHole(toks, n, k);
        }
      }
      PositionalBound(driver, toks, 1, n);
    } else {
      NumberedBound(driver, toks, 1);
    }
  }

  /** And so it is read. */
  lemma ReadExactly(driver: Driver, toks: seq<Token>, n: nat)
    requires Template(toks, n) && Separate(toks) && DriverForm(driver, 1).Some?
    ensures OwnArguments(Fill(toks, Forms(driver, n)), toks, driver) <==> (Positional(driver) ==> Ascending(toks))
  {
    BoundExactly(driver, toks, n);
    FillTakenAt(toks, driver, n, 1);
  }

  /** The two queries `$1 $2` and `$2 $1` become the same text for a driver with `?`, so one of them swaps its arguments. */
  lemma SwappedArguments(driver: Driver)
    requires Positional(driver)
    ensures var toks := [Hole(2, ""), Ch(' '), Hole(1, "")];
      && Template(toks, 2) && Separate(toks) && !Overtaken(toks)
      && Fill(toks, Forms(driver, 2)) == Fill([Hole(1, ""), Ch(' '), Hole(2, "")], Forms(driver, 2))
      && !OwnArguments(Fill(toks, Forms(driver, 2)), toks, driver)
  {
    var toks := [Hole(2, ""), Ch(' '), Hole(1, "")];
    assert toks[1..] == [Ch(' '), Hole(1, "")] && [Ch(' '), Hole(1, "")][1..] == [Hole(1, "")] && [Hole(1, "")][1..] == [];
    assert Itoa(1) == "1" && Itoa(2) == "2";
    assert Itoa(1)[0] != Itoa(2)[0];
    assert Forms(driver, 2) == ["?", "?"];
    TwoForms(2, 1, Forms(driver, 2));
    TwoForms(1, 2, Forms(driver, 2));
    assert toks[0].arg > toks[2].arg;
    ReadExactly(driver, toks, 2);
  }

  lemma TwoForms(a: nat, b: nat, forms: seq<string>)
    requires 1 <= a <= 2 && 1 <= b <= 2 && forms == ["?", "?"]
    ensures Fill([Hole(a, ""), Ch(' '), Hole(b, "")], forms) == "? ?"
  {
    var toks := [Hole(a, ""), Ch(' '), Hole(b, "")];
    assert toks[1..] == [Ch(' '), Hole(b, "")] && [Ch(' '), Hole(b, "")][1..] == [Hole(b, "")] && [Hole(b, "")][1..] == [];
    assert Fill([Hole(b, "")], forms) == "?";
    assert Fill([Ch(' '), Hole(b, "")], forms) == " ?";
  }

  /**
   `translatePlaceholders`. It ends on every query, because each round takes
   one `$` away. A query in which each of the placeholders 1..n stands once, in
   any order, becomes the query with each of them in the form of the driver if
   and only if none stands behind one whose numeral begins with its own; and
   each takes its own argument if and only if, besides, they ascend where the
   driver counts its forms. (A reading of the query in which digits follow a
   placeholder comes out right if none can be read before its place.)
   */
  method TranslatePlaceholders(query0: string, driver: Driver, ghost toks: seq<Token>, ghost n: nat)
    returns (query: string)
    ensures StyleOf(driver) == Native ==> query == query0
    ensures DriverForm(driver, 1).Some? <==> StyleOf(driver) != Native
    ensures StyleOf(driver) != Native && Template(toks, n) && Source(toks) == query0 ==>
      && (Separate(toks) ==> (query == Fill(toks, Forms(driver, n)) <==> !Overtaken(toks)))
      && (Separate(toks) ==>
            (OwnArguments(query, toks, driver) <==> !Overtaken(toks) && (Positional(driver) ==> Ascending(toks))))
      && (Separate(toks) && !Overtaken(toks) && Taken(query0, StyleOf(driver), 1) == [] ==>
            (Taken(query, StyleOf(driver), 1) == Holes(toks) <==> (Positional(driver) ==> Ascending(toks))))
      && (AllFree(toks, n, n + 1) ==> query == Fill(toks, Forms(driver, n)))
  {
    StyleForm(driver);
    query := query0;
    if DriverForm(driver, 1).None? {
      return;
    }
    Begin(query0, toks, driver, n);
    var i := 1;
    while Contains(query, Placeholder(i))
      invariant i >= 1
      invariant Running(query0, query, toks, driver, n, i)
      decreases Dollars(query)
    {
      var form := DriverForm(driver, i).value;
      OneDollarLess(query, i, form);
      Continue(query0, query, toks, driver, n, i, form);
      query := ReplaceFirst(query, Placeholder(i), form);
      i := i + 1;
    }
    Finish(query0, query, toks, driver, n, i);
    if Template(toks, n) && Source(toks) == query0 && Separate(toks) {
      ReadBack(query, query0, toks, driver, n);
    }
  }

  /** What is read from the query when it is translated. */
  lemma ReadBack(query: string, query0: string, toks: seq<Token>, driver: Driver, n: nat)
    requires DriverForm(driver, 1).Some? && Template(toks, n) && Source(toks) == query0 && Separate(toks)
    requires query == Fill(toks, Forms(driver, n)) <==> !Overtaken(toks)
    ensures OwnArguments(query, toks, driver) <==> !Overtaken(toks) && (Positional(driver) ==> Ascending(toks))
    ensures !Overtaken(toks) && Taken(query0, StyleOf(driver), 1) == [] ==>
      (Taken(query, StyleOf(driver), 1) == Holes(toks) <==> (Positional(driver) ==> Ascending(toks)))
  {
    BoundExactly(driver, toks, n);
    ReadExactly(driver, toks, n);
    if OwnArguments(query, toks, driver) {
      TakenAtFill(query, toks, driver, n, 1);
    }
    if Taken(query0, StyleOf(driver), 1) == [] {
      FillTaken(toks, driver, n, 1, 1);
    }
  }

  lemma NothingLeft(s: string, k: nat)
    ensures Contains(s, Placeholder(k)) ==> '$' in s
  {
    if Contains(s, Placeholder(k)) {
      var i :| 0 <= i <= |s| && Placeholder(k) <= s[i..];
      assert s[i] == Placeholder(k)[0];
    }
  }

  /**
   Order matters: where `$10` is written before `$1`, the first round
   translates the front of `$10`.
   */
  lemma OutOfOrder()
    ensures ReplaceFirst("$10 $1", Placeholder(1), "?") == "?0 $1"
  {
    assert Itoa(1) == "1";
    assert Placeholder(1) == "$1";
    assert "$1" <= "$10 $1";
    assert "$10 $1"[2..] == "0 $1";
  }
}
