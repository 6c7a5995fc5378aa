/** Formatting of generated values as SQL literals (pkg/convert/convert.go). */
module Convert {
  import opened Strings
  import opened Wrappers

  datatype Driver = Pgx | Dsql | MySQL | Oracle | MSSQL | Spanner | Cassandra | MongoDB

  type Byte = b: int | 0 <= b < 256

  /** The decimals after the point of a non-integral number. */
  type Decimals = s: string | s != "" && forall i | 0 <= i < |s| :: IsDigit(s[i]) witness "0"

  /**
   The values that reach the formatter. `Raw` is SQL text that is already
   formatted; `Str` stands for every type printed by `fmt.Sprint`.
   */
  datatype Value =
    | Null
    | Raw(sql: string)
    | ObjectID(id: seq<Byte>)
    | Int(n: int)
    | Whole(w: int)
    | Fraction(negative: bool, whole: nat, decimals: Decimals)
    | Bytes(bytes: seq<Byte>)
    | Str(s: string)

  function HexDigit(d: nat): (c: char)
    requires d < 16
    ensures IsDigit(c) || 'a' <= c <= 'f'
  {
    if d < 10 then Digit(d) else (87 + d) as char
  }

  function Hex(bytes: seq<Byte>): (s: string)
    ensures forall i | 0 <= i < |s| :: IsDigit(s[i]) || 'a' <= s[i] <= 'f'
  {
    if bytes == [] then ""
    else [HexDigit(bytes[0] / 16), HexDigit(bytes[0] % 16)] + Hex(bytes[1..])
  }

  predicate IsHexDigit(c: char) {
    IsDigit(c) || 'a' <= c <= 'f' || 'A' <= c <= 'F'
  }

  /** `uuidPattern`: 8-4-4-4-12 hexadecimal digits. */
  predicate IsUuid(s: string) {
    && |s| == 36
    && forall i | 0 <= i < 36 :: if i in {8, 13, 18, 23} then s[i] == '-' else IsHexDigit(s[i])
  }

  function DoubleQuotes(s: string): string {
    ReplaceAll(s, "'", "''")
  }

  function Quote(s: string): string {
    "'" + DoubleQuotes(s) + "'"
  }

  /** `SQLFormatValue`; the base64 form of bytes for mongodb is not modelled. */
  function SQLFormatValue(v: Value, driver: Driver): string
    requires driver != MongoDB
  {
    match v
    case Null => "NULL"
    case Raw(sql) => sql
    case ObjectID(id) => "'" + Hex(id) + "'"
    case Int(n) => IntText(n)
    case Whole(w) => IntText(w)
    case Fraction(negative, whole, decimals) => (if negative then "-" else "") + Itoa(whole) + "." + decimals
    case Bytes(bytes) => if driver in {MSSQL, Cassandra} then "0x" + Hex(bytes) else "X'" + Hex(bytes) + "'"
    case Str(s) => if driver == Cassandra && IsUuid(s) then s else Quote(s)
  }

  // ------------------------------------------------ quoting can be read back

  /**
   Reads the rest of a character string literal after its opening quote
   (section 5.3 of ISO/IEC 9075-2): the characters it denotes and the text
   behind its closing quote.
   */
  function ReadLiteral(s: string): Option<(string, string)>
    decreases |s|
  {
    if s == "" then None
    else if s[0] != '\'' then
      match ReadLiteral(s[1..])
      case None => None
      case Some((body, rest)) => Some(([s[0]] + body, rest))
    else if |s| > 1 && s[1] == '\'' then
      match ReadLiteral(s[2..])
      case None => None
      case Some((body, rest)) => Some((['\''] + body, rest))
    else Some(("", s[1..]))
  }

  lemma DoubleQuotesStep(s: string)
    requires s != ""
    ensures DoubleQuotes(s) == (if s[0] == '\'' then "''" else [s[0]]) + DoubleQuotes(s[1..])
  {
    assert "'" <= s <==> s[0] == '\'';
  }

  lemma ReadOne(c: char, s: string)
    requires c != '\'' && ReadLiteral(s).Some?
    ensures var (body, rest) := ReadLiteral(s).value; ReadLiteral([c] + s) == Some(([c] + body, rest))
  {
    assert ([c] + s)[1..] == s;
  }

  lemma ReadDoubled(s: string)
    requires ReadLiteral(s).Some?
    ensures var (body, rest) := ReadLiteral(s).value; ReadLiteral("''" + s) == Some((['\''] + body, rest))
  {
    assert ("''" + s)[2..] == s;
  }

  lemma ReadEnd(rest: string)
    requires rest == "" || rest[0] != '\''
    ensures ReadLiteral("'" + rest) == Some(("", rest))
  {
    assert ("'" + rest)[1..] == rest;
  }

  /** Doubled quotes up to a closing quote are read back. */
  lemma {:induction false} DoubledRoundTrip(s: string, rest: string)
    requires rest == "" || rest[0] != '\''
    ensures ReadLiteral(DoubleQuotes(s) + ("'" + rest)) == Some((s, rest))
    decreases |s|
  {
    var end := "'" + rest;
    if s == "" {
      assert DoubleQuotes(s) + end == end;
      ReadEnd(rest);
    } else {
      DoubleQuotesStep(s);
      DoubledRoundTrip(s[1..], rest);
      var tail := DoubleQuotes(s[1..]) + end;
      if s[0] == '\'' {
        assert DoubleQuotes(s) + end == "''" + tail;
        ReadDoubled(tail);
      } else {
        assert DoubleQuotes(s) + end == [s[0]] + tail;
        ReadOne(s[0], tail);
      }
      assert [s[0]] + s[1..] == s;
    }
  }

  /** A quoted text is read back as itself, whatever follows but another quote. */
  lemma QuoteRoundTrip(s: string, rest: string)
    requires rest == "" || rest[0] != '\''
    ensures Quote(s)[0] == '\''
    ensures ReadLiteral(Quote(s)[1..] + rest) == Some((s, rest))
  {
    assert Quote(s)[1..] + rest == DoubleQuotes(s) + ("'" + rest);
    DoubledRoundTrip(s, rest);
  }
}
