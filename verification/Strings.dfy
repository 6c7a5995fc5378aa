/**
 The string functions of the Go standard library that edg leans on
 (`strings.ReplaceAll`, `strings.Split`, `strings.Join`, decimal formatting),
 together with the laws the rest of the project needs.
 */
module Strings {

  /** The ASCII unit separator, char 31, that joins the rows of a batch column. */
  const SEP: char := '\U{1F}'

  predicate IsDigit(c: char) {
    '0' <= c <= '9'
  }

  predicate Lacks(s: string, c: char) {
    c !in s
  }

  // ---------------------------------------------------------------- numerals

  function Digit(d: nat): (c: char)
    requires d < 10
  {
    (48 + d) as char
  }

  /** The decimal numeral of `n`, as `fmt.Sprintf("%d", n)` writes it. */
  function Itoa(n: nat): (s: string)
    ensures s != ""
    ensures forall i | 0 <= i < |s| :: IsDigit(s[i])
  {
    if n < 10 then [Digit(n)] else Itoa(n / 10) + [Digit(n % 10)]
  }

  /** `fmt.Sprint` of a signed integer. */
  function IntText(n: int): string {
    if n < 0 then "-" + Itoa(-n) else Itoa(n)
  }

  /** A numeral that is a prefix of another one denotes no larger a number. */
  lemma {:induction false} NumeralPrefix(j: nat, k: nat)
    requires Itoa(j) <= Itoa(k)
    ensures j <= k
  {
    if k < 10 {
      assert Itoa(j)[0] == Itoa(k)[0];
    } else if |Itoa(j)| == |Itoa(k)| {
      assert |Itoa(k / 10)| >= 1;
      assert j >= 10;
      assert Itoa(j) == Itoa(k);
      assert Itoa(j)[..|Itoa(j)| - 1] == Itoa(j / 10);
      assert Itoa(k)[..|Itoa(k)| - 1] == Itoa(k / 10);
      assert Itoa(j)[|Itoa(j)| - 1] == Itoa(k)[|Itoa(k)| - 1];
      NumeralPrefix(j / 10, k / 10);
    } else {
      assert Itoa(j) == Itoa(k)[..|Itoa(j)|] == Itoa(k / 10)[..|Itoa(j)|];
      NumeralPrefix(j, k / 10);
    }
  }

  /**
   In a text where both numerals end at a non-digit, one numeral can only be
   read as another one when they are the same number.
   */
  lemma NumeralMatch(j: nat, k: nat, rest: string)
    requires rest == "" || !IsDigit(rest[0])
    requires Itoa(j) <= Itoa(k) + rest
    ensures j <= k
    ensures Itoa(j) <= Itoa(k)
  {
    assert rest != "" ==> (Itoa(k) + rest)[|Itoa(k)|] == rest[0];
    assert |Itoa(j)| <= |Itoa(k)|;
    assert Itoa(j) == (Itoa(k) + rest)[..|Itoa(j)|] == Itoa(k)[..|Itoa(j)|];
    NumeralPrefix(j, k);
  }

  // -------------------------------------------------------------- ReplaceAll

  /** `strings.ReplaceAll(s, old, new)`: leftmost matches first, no overlap. */
  function ReplaceAll(s: string, old': string, new': string): string
    requires old' != ""
    decreases |s|
  {
    if s == "" then ""
    else if old' <= s then new' + ReplaceAll(s[|old'|..], old', new')
    else [s[0]] + ReplaceAll(s[1..], old', new')
  }

  /** A prefix in which no match starts is copied. */
  lemma {:induction false} ReplaceSkip(a: string, b: string, old': string, new': string)
    requires old' != ""
    requires forall i | 0 <= i < |a| :: !(old' <= (a + b)[i..])
    ensures ReplaceAll(a + b, old', new') == a + ReplaceAll(b, old', new')
  {
    if a == "" {
      assert a + b == b;
    } else {
      assert (a + b)[0..] == a + b;
      assert (a + b)[1..] == a[1..] + b;
      forall i | 0 <= i < |a[1..]|
        ensures !(old' <= (a[1..] + b)[i..])
      {
        assert (a[1..] + b)[i..] == (a + b)[i + 1..];
      }
      ReplaceSkip(a[1..], b, old', new');
      assert [a[0]] + (a[1..] + ReplaceAll(b, old', new')) == a + ReplaceAll(b, old', new');
    }
  }

  lemma ReplaceHit(old': string, b: string, new': string)
    requires old' != ""
    ensures ReplaceAll(old' + b, old', new') == new' + ReplaceAll(b, old', new')
  {
    assert (old' + b)[|old'|..] == b;
  }

  /** Nothing happens when the first character of the pattern does not occur. */
  lemma ReplaceAbsent(s: string, old': string, new': string, i: nat)
    requires i < |old'| && old'[i] !in s
    ensures ReplaceAll(s, old', new') == s
  {
    forall k | 0 <= k < |s|
      ensures !(old' <= (s + "")[k..])
    {
      assert s + "" == s;
      assert k + i < |s| ==> s[k..][i] == s[k + i];
    }
    ReplaceSkip(s, "", old', new');
    assert s + "" == s;
  }

  // ---------------------------------------------------------- Split and Join

  /** `strings.Split(s, sep)` for a one-character separator. */
  function Split(s: string, sep: char): (parts: seq<string>)
    ensures |parts| >= 1
  {
    if s == "" then [""]
    else
      var rest := Split(s[1..], sep);
      if s[0] == sep then [""] + rest else [[s[0]] + rest[0]] + rest[1..]
  }

  /** `strings.Join(parts, sep)` for a one-character separator. */
  function Join(parts: seq<string>, sep: char): string {
    if parts == [] then ""
    else if |parts| == 1 then parts[0]
    else parts[0] + [sep] + Join(parts[1..], sep)
  }

  lemma {:induction false} SplitHead(a: string, b: string, sep: char)
    requires Lacks(a, sep)
    ensures Split(a + [sep] + b, sep) == [a] + Split(b, sep)
    ensures Split(a, sep) == [a]
  {
    if a == "" {
      assert a + [sep] + b == [sep] + b;
      assert ([sep] + b)[1..] == b;
    } else {
      assert (a + [sep] + b)[1..] == a[1..] + [sep] + b;
      SplitHead(a[1..], b, sep);
      assert [a[0]] + a[1..] == a;
    }
  }

  /** Splitting undoes joining for every non-empty list of separator-free parts. */
  lemma {:induction false} SplitJoin(parts: seq<string>, sep: char)
    requires parts != []
    requires forall p | p in parts :: Lacks(p, sep)
    ensures Split(Join(parts, sep), sep) == parts
  {
    if |parts| == 1 {
      SplitHead(parts[0], "", sep);
    } else {
      SplitHead(parts[0], Join(parts[1..], sep), sep);
      SplitJoin(parts[1..], sep);
      assert [parts[0]] + parts[1..] == parts;
    }
  }

  /** Joining undoes splitting for every string. */
  lemma {:induction false} JoinSplit(s: string, sep: char)
    ensures Join(Split(s, sep), sep) == s
  {
    if s != "" {
      JoinSplit(s[1..], sep);
      var rest := Split(s[1..], sep);
      var parts := Split(s, sep);
      if s[0] == sep {
        assert parts[1..] == rest;
      } else if |rest| > 1 {
        assert parts[1..] == rest[1..];
      }
    }
  }
}
