/** The token `__values__` in a query, which stands for the first argument if that is raw SQL (pkg/env/env_args.go). */
module ValuesToken {
  import opened Strings

  const TOKEN := "__values__"

  predicate IsWord(c: char) {
    IsDigit(c) || 'a' <= c <= 'z' || 'A' <= c <= 'Z' || c == '_'
  }

  /** How many word characters `s` begins with. */
  function Word(s: string): (n: nat)
    ensures n <= |s|
  {
    if s == "" || !IsWord(s[0]) then 0 else 1 + Word(s[1..])
  }

  /** How many characters stand before the first `)` of `s`. */
  function Inside(s: string): (n: nat)
    ensures n <= |s|
  {
    if s == "" || s[0] == ')' then 0 else 1 + Inside(s[1..])
  }

  /** The length of the parameters behind the token, `(word(text))`, if there are any. */
  function Parameters(s: string): (n: nat)
    ensures n <= |s|
  {
    if s == "" || s[0] != '(' then 0
    else
      var word := Word(s[1..]);
      if word == 0 || 1 + word == |s| || s[1 + word] != '(' then 0
      else
        var text := Inside(s[2 + word..]);
        if text == 0 || !("))" <= s[2 + word + text..]) then 0 else 4 + word + text
  }

  /** The text begins with `(word(text))`. */
  predicate BeginsWith(s: string, word: string, text: string) {
    && word != "" && (forall i | 0 <= i < |word| :: IsWord(word[i]))
    && text != "" && Lacks(text, ')')
    && "(" + word + "(" + text + "))" <= s
  }

  lemma {:induction false} WordIs(word: string, c: char, rest: string)
    requires (forall i | 0 <= i < |word| :: IsWord(word[i])) && !IsWord(c)
    ensures Word(word + ([c] + rest)) == |word|
  {
    if word == "" {
      assert word + ([c] + rest) == [c] + rest;
    } else {
      assert (word + ([c] + rest))[1..] == word[1..] + ([c] + rest);
      WordIs(word[1..], c, rest);
    }
  }

  lemma {:induction false} InsideIs(text: string, rest: string)
    requires Lacks(text, ')')
    ensures Inside(text + ([')'] + rest)) == |text|
  {
    if text == "" {
      assert text + ([')'] + rest) == [')'] + rest;
    } else {
      assert (text + ([')'] + rest))[1..] == text[1..] + ([')'] + rest);
      assert text[0] in text;
      InsideIs(text[1..], rest);
    }
  }

  lemma {:induction false} WordOf(s: string)
    ensures forall i | 0 <= i < Word(s) :: IsWord(s[i])
  {
    if s != "" && IsWord(s[0]) {
      WordOf(s[1..]);
      assert forall i | 0 < i < Word(s) :: s[i] == s[1..][i - 1];
    }
  }

  lemma {:induction false} InsideOf(s: string)
    ensures Lacks(s[..Inside(s)], ')')
  {
    if s != "" && s[0] != ')' {
      InsideOf(s[1..]);
      assert s[..Inside(s)] == [s[0]] + s[1..][..Inside(s[1..])];
    }
  }

  /** Where there are parameters, they are of that form... */
  lemma ParametersOf(s: string) returns (word: string, text: string)
    requires Parameters(s) > 0
    ensures BeginsWith(s, word, text) && Parameters(s) == |word| + |text| + 4
  {
    var w := Word(s[1..]);
    var t := Inside(s[2 + w..]);
    word, text := s[1..][..w], s[2 + w..][..t];
    WordOf(s[1..]);
    InsideOf(s[2 + w..]);
    assert s[..4 + w + t] == "(" + word + "(" + text + "))";
  }

  lemma ParametersText(s: string, word: string, text: string, rest: string)
    requires s == "(" + word + "(" + text + "))" + rest
    ensures s[0] == '(' && s[1..] == word + (['('] + (text + ([')'] + ([')'] + rest))))
    ensures s[1 + |word|] == '(' && s[2 + |word|..] == text + ([')'] + ([')'] + rest))
    ensures "))" <= s[2 + |word| + |text|..]
  {
    assert s[2 + |word| + |text|..] == "))" + rest;
  }

  /** ...and there are if a text of that form follows. */
  lemma ParametersAre(s: string, word: string, text: string)
    requires BeginsWith(s, word, text)
    ensures Parameters(s) == |word| + |text| + 4
  {
    var rest := s[|word| + |text| + 4..];
    assert s == "(" + word + "(" + text + "))" + rest;
    ParametersText(s, word, text, rest);
    WordIs(word, '(', text + ([')'] + ([')'] + rest)));
    InsideIs(text, [')'] + rest);
  }

  /** `valuesTokenRe.ReplaceAllLiteralString` */
  function ReplaceValues(s: string, raw: string): string
    decreases |s|
  {
    if s == "" then ""
    else if TOKEN <= s then
      var rest := s[|TOKEN|..];
      raw + ReplaceValues(rest[Parameters(rest)..], raw)
    else [s[0]] + ReplaceValues(s[1..], raw)
  }

  /** The token does not occur. */
  predicate NoToken(s: string) {
    forall i | 0 <= i <= |s| :: !(TOKEN <= s[i..])
  }

  lemma NoTokenTail(s: string, i: nat)
    requires NoToken(s) && i <= |s|
    ensures NoToken(s[i..])
  {
    assert forall k | 0 <= k <= |s[i..]| :: s[i..][k..] == s[i + k..];
  }

  lemma {:induction false} NothingReplaced(s: string, raw: string)
    requires NoToken(s)
    ensures ReplaceValues(s, raw) == s
  {
    if s != "" {
      assert s[0..] == s;
      NoTokenTail(s, 1);
      NothingReplaced(s[1..], raw);
    }
  }

  /** A token in front of text that is not parameters. */
  lemma TokenReplaced(rest: string, raw: string)
    requires rest == "" || rest[0] != '('
    ensures ReplaceValues(TOKEN + rest, raw) == raw + ReplaceValues(rest, raw)
  {
    assert (TOKEN + rest)[|TOKEN|..] == rest;
  }

  /** A token with parameters, which go away with it. */
  lemma ParametersReplaced(word: string, text: string, rest: string, raw: string)
    requires word != "" && (forall i | 0 <= i < |word| :: IsWord(word[i])) && text != "" && Lacks(text, ')')
    ensures ReplaceValues(TOKEN + ("(" + word + "(" + text + "))" + rest), raw) == raw + ReplaceValues(rest, raw)
  {
    var s := "(" + word + "(" + text + "))" + rest;
    ParametersAre(s, word, text);
    assert (TOKEN + s)[|TOKEN|..] == s;
    assert s[|word| + |text| + 4..] == rest;
  }

  lemma CharPassed(c: char, rest: string, raw: string)
    requires c != '_'
    ensures ReplaceValues([c] + rest, raw) == [c] + ReplaceValues(rest, raw)
  {
    assert ([c] + rest)[0] == c && TOKEN[0] == '_';
    assert ([c] + rest)[1..] == rest;
  }

  /** The token does not reach across a character that is not a word character. */
  lemma TokenBefore(a: string, c: char, b: string)
    requires !IsWord(c) && TOKEN <= a + [c] + b
    ensures TOKEN <= a
  {
    var s := a + [c] + b;
    assert s[|a|] == c;
    assert forall i | 0 <= i < |TOKEN| :: IsWord(TOKEN[i]);
    assert forall i | 0 <= i < |TOKEN| :: s[i] == TOKEN[i];
    assert |TOKEN| <= |a|;
    assert s[..|TOKEN|] == a[..|TOKEN|];
  }

  lemma NoTokenApart(a: string, c: char, b: string)
    requires NoToken(a) && NoToken(b) && !IsWord(c)
    ensures NoToken(a + [c] + b)
  {
    var s := a + [c] + b;
    forall i | 0 <= i <= |s|
      ensures !(TOKEN <= s[i..])
    {
      if i <= |a| {
        assert s[i..] == a[i..] + [c] + b;
        if TOKEN <= s[i..] {
          TokenBefore(a[i..], c, b);
        }
      } else {
        assert s[i..] == b[i - |a| - 1..];
      }
    }
  }

  lemma {:induction false} JoinNoToken(parts: seq<string>, sep: char)
    requires (forall p | p in parts :: NoToken(p)) && !IsWord(sep)
    ensures NoToken(Join(parts, sep))
  {
    if |parts| > 1 {
      JoinNoToken(parts[1..], sep);
      NoTokenApart(parts[0], sep, Join(parts[1..], sep));
    }
  }
}
