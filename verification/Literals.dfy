/**
 Reading SQL literals back, by the rules of the literals alone: signs and
 decimal digits, pairs of hexadecimal digits, quoted text, UUIDs and NULL. What
 `Convert.SQLFormatValue` writes for a value reads as that value.
 */
module Literals {
  import opened Strings
  import opened Convert
  import opened Wrappers

  datatype Literal =
    | NoValue
    | Integer(i: int)
    | Decimal(negative: bool, integral: nat, places: string)
    | Binary(octets: seq<Byte>)
    | Text(text: string)
    | Uuid(uuid: string)

  // ---------------------------------------------------------------- numbers

  predicate AllDigits(s: string) {
    forall i | 0 <= i < |s| :: '0' <= s[i] <= '9'
  }

  /** Digits, at least one. */
  predicate Digits(s: string) {
    s != "" && AllDigits(s)
  }

  /** Their number, the digits of `acc` standing in front. */
  function Horner(s: string, acc: nat): nat
    requires AllDigits(s)
  {
    if s == "" then acc else Horner(s[1..], 10 * acc + (s[0] as int - '0' as int))
  }

  function Signed(negative: bool, n: int): int {
    if negative then -n else n
  }

  function ReadNumber(s: string): Option<Literal> {
    var negative := s != "" && s[0] == '-';
    var t := if negative then s[1..] else s;
    var parts := Split(t, '.');
    if |parts| == 1 && Digits(t) then
      Some(Integer(Signed(negative, Horner(t, 0))))
    else if |parts| == 2 && Digits(parts[0]) && Digits(parts[1]) then
      Some(Decimal(negative, Horner(parts[0], 0), parts[1]))
    else None
  }

  lemma {:induction false} HornerSnoc(s: string, c: char, acc: nat)
    requires AllDigits(s) && '0' <= c <= '9'
    ensures AllDigits(s + [c])
    ensures Horner(s + [c], acc) == 10 * Horner(s, acc) + (c as int - '0' as int)
  {
    if s == "" {
      assert s + [c] == [c] && [c][1..] == "";
    } else {
      assert (s + [c])[1..] == s[1..] + [c];
      HornerSnoc(s[1..], c, 10 * acc + (s[0] as int - '0' as int));
    }
  }

  lemma ItoaDigits(n: nat)
    ensures Digits(Itoa(n))
  {
  }

  /** A numeral is read as its number. */
  lemma {:induction false} NumeralReads(n: nat)
    ensures Digits(Itoa(n)) && Horner(Itoa(n), 0) == n
  {
    if n >= 10 {
      NumeralReads(n / 10);
      ItoaDigits(n);
      HornerSnoc(Itoa(n / 10), Digit(n % 10), 0);
    } else {
      assert Itoa(n) == [Digit(n)] && [Digit(n)][1..] == "";
    }
  }

  lemma IntegerReads(n: int)
    ensures ReadNumber(IntText(n)) == Some(Integer(n))
  {
    var t := Itoa(if n < 0 then -n else n);
    NumeralReads(if n < 0 then -n else n);
    SplitHead(t, "", '.');
    if n < 0 {
      assert ("-" + t)[1..] == t;
    }
  }

  lemma Parts(whole: string, decimals: string)
    requires Digits(whole) && Digits(decimals)
    ensures Split(whole + "." + decimals, '.') == [whole, decimals]
  {
    SplitHead(whole, decimals, '.');
    SplitHead(decimals, "", '.');
  }

  lemma UnsignedReads(whole: string, decimals: string)
    requires Digits(whole) && Digits(decimals)
    ensures ReadNumber(whole + "." + decimals) == Some(Decimal(false, Horner(whole, 0), decimals))
    ensures ReadNumber("-" + (whole + "." + decimals)) == Some(Decimal(true, Horner(whole, 0), decimals))
  {
    var t := whole + "." + decimals;
    Parts(whole, decimals);
    assert t[0] == whole[0];
    assert ("-" + t)[1..] == t;
  }

  lemma SignInFront(sign: string, whole: string, decimals: string)
    ensures sign + whole + "." + decimals == sign + (whole + "." + decimals)
    ensures "" + (whole + "." + decimals) == whole + "." + decimals
  {
  }

  lemma DecimalReads(negative: bool, whole: nat, decimals: Decimals)
    ensures ReadNumber((if negative then "-" else "") + Itoa(whole) + "." + decimals)
         == Some(Decimal(negative, whole, decimals))
  {
    NumeralReads(whole);
    UnsignedReads(Itoa(whole), decimals);
    SignInFront(if negative then "-" else "", Itoa(whole), decimals);
  }

  // ------------------------------------------------------ hexadecimal digits

  function HexValue(c: char): (d: nat)
    requires IsHexDigit(c)
    ensures d < 16
  {
    if c <= '9' then c as int - '0' as int
    else if c <= 'F' then c as int - 'A' as int + 10
    else c as int - 'a' as int + 10
  }

  function ReadHex(s: string): Option<seq<Byte>> {
    if s == "" then Some([])
    else if |s| == 1 || !IsHexDigit(s[0]) || !IsHexDigit(s[1]) then None
    else
      match ReadHex(s[2..])
      case None => None
      case Some(rest) => Some([16 * HexValue(s[0]) + HexValue(s[1])] + rest)
  }

  lemma {:induction false} HexReads(bytes: seq<Byte>)
    ensures ReadHex(Hex(bytes)) == Some(bytes)
  {
    if bytes != [] {
      HexReads(bytes[1..]);
      assert Hex(bytes)[2..] == Hex(bytes[1..]);
      assert bytes == [bytes[0]] + bytes[1..];
    }
  }

  // ------------------------------------------------------------------- UUIDs

  predicate HexGroup(s: string, n: nat) {
    |s| == n && forall c | c in s :: IsHexDigit(c)
  }

  /** Groups of 8, 4, 4, 4 and 12 hexadecimal digits with hyphens between them. */
  predicate UuidText(s: string) {
    var groups := Split(s, '-');
    && |groups| == 5 && HexGroup(groups[0], 8) && HexGroup(groups[1], 4) && HexGroup(groups[2], 4)
    && HexGroup(groups[3], 4) && HexGroup(groups[4], 12)
  }

  lemma GroupLacks(s: string, n: nat)
    requires HexGroup(s, n)
    ensures Lacks(s, '-')
  {
  }

  lemma TwoGroups(a: string, rest: string)
    requires Lacks(a, '-')
    ensures Split(a + ['-'] + rest, '-') == [a] + Split(rest, '-')
  {
    SplitHead(a, rest, '-');
  }

  lemma FiveGroups(a: string, b: string, c: string, d: string, e: string)
    requires Lacks(a, '-') && Lacks(b, '-') && Lacks(c, '-') && Lacks(d, '-') && Lacks(e, '-')
    ensures Split(a + ['-'] + (b + ['-'] + (c + ['-'] + (d + ['-'] + e))), '-') == [a, b, c, d, e]
  {
    var de := d + ['-'] + e;
    var ce := c + ['-'] + de;
    SplitHead(e, "", '-');
    TwoGroups(d, e);
    TwoGroups(c, de);
    TwoGroups(b, ce);
    TwoGroups(a, b + ['-'] + ce);
  }

  lemma UuidGroups(s: string)
    requires IsUuid(s)
    ensures UuidText(s)
  {
    var a, b, c, d, e := s[..8], s[9..13], s[14..18], s[19..23], s[24..];
    assert s == a + ['-'] + (b + ['-'] + (c + ['-'] + (d + ['-'] + e)));
    assert HexGroup(a, 8) && HexGroup(b, 4) && HexGroup(c, 4) && HexGroup(d, 4) && HexGroup(e, 12);
    FiveGroups(a, b, c, d, e);
  }

  lemma JoinFive(g: seq<string>)
    requires |g| == 5
    ensures Join(g, '-') == g[0] + ['-'] + (g[1] + ['-'] + (g[2] + ['-'] + (g[3] + ['-'] + g[4])))
  {
    assert g[1..][1..] == g[2..] && g[2..][1..] == g[3..] && g[3..][1..] == g[4..];
    assert Join(g[4..], '-') == g[4];
    assert Join(g[3..], '-') == g[3] + ['-'] + g[4];
    assert Join(g[2..], '-') == g[2] + ['-'] + (g[3] + ['-'] + g[4]);
    assert Join(g[1..], '-') == g[1] + ['-'] + (g[2] + ['-'] + (g[3] + ['-'] + g[4]));
  }

  lemma GroupsUuid(s: string)
    requires UuidText(s)
    ensures IsUuid(s)
  {
    var g := Split(s, '-');
    JoinSplit(s, '-');
    JoinFive(g);
    forall i | 0 <= i < 36
      ensures if i in {8, 13, 18, 23} then s[i] == '-' else IsHexDigit(s[i])
    {
      if i < 8 { assert s[i] == g[0][i]; }
      else if 8 < i < 13 { assert s[i] == g[1][i - 9]; }
      else if 13 < i < 18 { assert s[i] == g[2][i - 14]; }
      else if 18 < i < 23 { assert s[i] == g[3][i - 19]; }
      else if 23 < i { assert s[i] == g[4][i - 24]; }
    }
  }

  /** The pattern of the formatter is that of the groups. */
  lemma UuidExact(s: string)
    ensures IsUuid(s) <==> UuidText(s)
  {
    if IsUuid(s) {
      UuidGroups(s);
    }
    if UuidText(s) {
      GroupsUuid(s);
    }
  }

  // -------------------------------------------------------------- every literal

  function Hexadecimal(s: string): Option<Literal> {
    match ReadHex(s)
    case None => None
    case Some(bytes) => Some(Binary(bytes))
  }

  /** The literal that the text `s` is for a driver. */
  function ReadValue(s: string, driver: Driver): Option<Literal> {
    if s == "NULL" then Some(NoValue)
    else if s != "" && s[0] == '\'' then
      match ReadLiteral(s[1..])
      case None => None
      case Some((body, rest)) => if rest == "" then Some(Text(body)) else None
    else if driver == Cassandra && UuidText(s) then Some(Uuid(s))
    else if driver in {MSSQL, Cassandra} && "0x" <= s then Hexadecimal(s[2..])
    else if driver !in {MSSQL, Cassandra} && "X'" <= s && |s| > 2 && s[|s| - 1] == '\'' then Hexadecimal(s[2..|s| - 1])
    else ReadNumber(s)
  }

  /** The literal says what the value is: an ObjectID by its digits, and a text that has the form of a UUID, for cassandra, as one. */
  predicate Says(l: Literal, v: Value, driver: Driver) {
    match v
    case Null => l == NoValue
    case Raw(_) => false
    case ObjectID(id) => l.Text? && ReadHex(l.text) == Some(id)
    case Int(n) => l == Integer(n)
    case Whole(w) => l == Integer(w)
    case Fraction(negative, whole, decimals) => l == Decimal(negative, whole, decimals)
    case Bytes(bytes) => l == Binary(bytes)
    case Str(s) => l == if driver == Cassandra && UuidText(s) then Uuid(s) else Text(s)
  }

  /** `s` is a literal for `v`. */
  predicate LiteralFor(s: string, v: Value, driver: Driver) {
    ReadValue(s, driver).Some? && Says(ReadValue(s, driver).value, v, driver)
  }

  /** A text that begins with a digit or a sign, and has no hyphen further behind, is read as a number. */
  lemma NumberFirst(s: string, driver: Driver)
    requires s != "" && (s[0] == '-' || IsDigit(s[0]))
    requires forall i | 1 <= i < |s| :: IsDigit(s[i]) || s[i] == '.'
    ensures ReadValue(s, driver) == ReadNumber(s)
  {
    UuidExact(s);
    assert |s| > 8 ==> s[8] != '-';
    assert |s| > 1 ==> s[1] != 'x';
  }

  lemma IntReads(n: int, driver: Driver)
    ensures ReadValue(IntText(n), driver) == Some(Integer(n))
  {
    NumberFirst(IntText(n), driver);
    IntegerReads(n);
  }

  lemma FractionReads(negative: bool, whole: nat, decimals: Decimals, driver: Driver)
    ensures ReadValue((if negative then "-" else "") + Itoa(whole) + "." + decimals, driver)
         == Some(Decimal(negative, whole, decimals))
  {
    var s := (if negative then "-" else "") + Itoa(whole) + "." + decimals;
    var sign := if negative then 1 else 0;
    forall i | 0 <= i < |s|
      ensures IsDigit(s[i]) || s[i] == '.' || (i == 0 && s[i] == '-')
    {
      if sign <= i < sign + |Itoa(whole)| {
        assert s[i] == Itoa(whole)[i - sign];
      } else if i > sign + |Itoa(whole)| {
        assert s[i] == decimals[i - sign - |Itoa(whole)| - 1];
      }
    }
    assert s[0] == if negative then '-' else Itoa(whole)[0];
    NumberFirst(s, driver);
    DecimalReads(negative, whole, decimals);
  }

  lemma BytesRead(bytes: seq<Byte>, driver: Driver)
    ensures ReadValue(if driver in {MSSQL, Cassandra} then "0x" + Hex(bytes) else "X'" + Hex(bytes) + "'", driver)
         == Some(Binary(bytes))
  {
    var hex := Hex(bytes);
    HexReads(bytes);
    if driver in {MSSQL, Cassandra} {
      UuidExact("0x" + hex);
      assert ("0x" + hex)[1] == 'x' && ("0x" + hex)[2..] == hex;
    } else {
      var s := "X'" + hex + "'";
      assert s[2..|s| - 1] == hex && "X'" <= s;
    }
  }

  lemma QuotedReads(s: string, driver: Driver)
    ensures ReadValue(Quote(s), driver) == Some(Text(s))
  {
    QuoteRoundTrip(s, "");
    assert Quote(s)[1..] + "" == Quote(s)[1..];
  }

  lemma {:induction false} HexPlain(hex: string)
    requires forall i | 0 <= i < |hex| :: hex[i] != '\''
    ensures ReadLiteral(hex + "'") == Some((hex, ""))
  {
    if hex == "" {
      assert hex + "'" == "'" + "";
      ReadEnd("");
    } else {
      HexPlain(hex[1..]);
      assert hex + "'" == [hex[0]] + (hex[1..] + "'") && hex == [hex[0]] + hex[1..];
      ReadOne(hex[0], hex[1..] + "'");
    }
  }

  lemma QuotedHex(hex: string, driver: Driver)
    requires forall i | 0 <= i < |hex| :: hex[i] != '\''
    ensures ReadValue("'" + hex + "'", driver) == Some(Text(hex))
  {
    HexPlain(hex);
    assert ("'" + hex + "'")[1..] == hex + "'";
  }

  lemma ObjectIDReads(id: seq<Byte>, driver: Driver)
    ensures ReadValue("'" + Hex(id) + "'", driver) == Some(Text(Hex(id))) && ReadHex(Hex(id)) == Some(id)
  {
    HexReads(id);
    QuotedHex(Hex(id), driver);
  }

  /** Every value that is not SQL text already is written as a literal that says what it is. */
  lemma FormattedReads(v: Value, driver: Driver)
    requires driver != MongoDB && !v.Raw?
    ensures LiteralFor(SQLFormatValue(v, driver), v, driver)
  {
    match v
    case Null =>
    case ObjectID(id) => ObjectIDReads(id, driver);
    case Int(n) => IntReads(n, driver);
    case Whole(w) => IntReads(w, driver);
    case Fraction(negative, whole, decimals) => FractionReads(negative, whole, decimals, driver);
    case Bytes(bytes) => BytesRead(bytes, driver);
    case Str(s) =>
      UuidExact(s);
      if driver == Cassandra && IsUuid(s) {
        assert s[0] != '\'' && |s| == 36;
      } else {
        QuotedReads(s, driver);
      }
  }

  /** One value per driver is written in one way only: a literal never says two values of one kind. */
  lemma SaysOne(l: Literal, v: Value, v': Value, driver: Driver)
    requires Says(l, v, driver) && Says(l, v', driver)
    ensures v == v' || (v.Int? && v'.Whole? && v.n == v'.w) || (v.Whole? && v'.Int? && v.w == v'.n)
         || (v.ObjectID? && v'.Str?) || (v.Str? && v'.ObjectID?)
  {
  }
}
