/** The text form of bytecode: how programs are printed and read back. */
module BytecodeText {
  import opened Bytecode
  import opened OpCodeNames
  import opened Machine
  import opened Records

  const INT_MAX: int := 0x7fff_ffff
  const INT_MIN: int := -0x8000_0000
  const UINT32_MAX: int := 0xffff_ffff
  const TWO_64: int := 0x1_0000_0000_0000_0000

  // ---------------------------------------------------------------------------------------------
  // Quoted strings
  // ---------------------------------------------------------------------------------------------

  function EscapeChar(c: char): string {
    if c == '\\' then "\\\\"
    else if c == '"' then "\\\""
    else if c == '\n' then "\\n"
    else if c == '\r' then "\\r"
    else if c == '\t' then "\\t"
    else [c]
  }

  function Escape(s: string): string {
    if s == "" then "" else EscapeChar(s[0]) + Escape(s[1..])
  }

  function UnescapeChar(e: char): Option<char> {
    if e == '\\' then Some('\\')
    else if e == '"' then Some('"')
    else if e == 'n' then Some('\n')
    else if e == 'r' then Some('\r')
    else if e == 't' then Some('\t')
    else None
  }

  function PutFront(c: char, rest: Option<string>): Option<string> {
    if rest.None? then None else Some([c] + rest.value)
  }

  /** The text between the quotes; nothing when an escape is unknown or cut short. */
  function Unescape(b: string): Option<string> {
    if b == "" then Some("")
    else if b[0] != '\\' then PutFront(b[0], Unescape(b[1..]))
    else if |b| == 1 || UnescapeChar(b[1]).None? then None
    else PutFront(UnescapeChar(b[1]).value, Unescape(b[2..]))
  }

  predicate Quoted(token: string) {
    |token| >= 2 && token[0] == '"' && token[|token| - 1] == '"'
  }

  /** A token without surrounding quotes is taken as it is. */
  function Unquote(token: string): Option<string> {
    if Quoted(token) then Unescape(token[1..|token| - 1]) else Some(token)
  }

  function Quote(s: string): string {
    "\"" + Escape(s) + "\""
  }

  lemma {:induction false} UnescapeEscape(s: string)
    ensures Unescape(Escape(s)) == Some(s)
  {
    hide EscapeChar, UnescapeChar;
    if s != "" {
      UnescapeEscape(s[1..]);
      var e := EscapeChar(s[0]);
      EscapeUndone(s[0]);
      assert Escape(s)[|e|..] == Escape(s[1..]) && Escape(s)[0] == e[0];
      assert |e| == 2 ==> Escape(s)[1] == e[1];
      assert s == [s[0]] + s[1..];
    }
  }

  lemma EscapeUndone(c: char)
    ensures var e := EscapeChar(c);
            (|e| == 1 && e[0] == c && c != '\\') || (|e| == 2 && e[0] == '\\' && UnescapeChar(e[1]) == Some(c))
  {
  }

  /** Every string survives quoting. */
  lemma UnquoteQuote(s: string)
    ensures Quoted(Quote(s)) && Unquote(Quote(s)) == Some(s)
  {
    var q := Quote(s);
    assert q[1..|q| - 1] == Escape(s);
    UnescapeEscape(s);
  }

  /** Reading a quoted token never gives the token itself: it gives something shorter. */
  lemma {:induction false} UnescapeShorter(b: string)
    ensures Unescape(b).Some? ==> |Unescape(b).value| <= |b|
    decreases |b|
  {
    if b != "" {
      if b[0] != '\\' {
        UnescapeShorter(b[1..]);
      } else if |b| > 1 {
        UnescapeShorter(b[2..]);
      }
    }
  }

  lemma {:induction false} EscapeOneLine(s: string)
    ensures '\n' !in Escape(s)
  {
    if s != "" {
      EscapeOneLine(s[1..]);
    }
  }

  method EscapeQuoted(input: string) returns (out: string)
    ensures out == Escape(input)
  {
    out := "";
    assert input[0..] == input;
    for i := 0 to |input|
      invariant out + Escape(input[i..]) == Escape(input)
    {
      assert input[i..][0] == input[i] && input[i..][1..] == input[i + 1..];
      out := out + EscapeChar(input[i]);
    }
    assert out + "" == out;
  }

  function Before(out: string, rest: Option<string>): Option<string> {
    if rest.None? then None else Some(out + rest.value)
  }

  lemma BeforeNothing(rest: Option<string>)
    ensures Before("", rest) == rest
  {
    if rest.Some? {
      assert "" + rest.value == rest.value;
    }
  }

  lemma BeforeEmpty(out: string)
    ensures Before(out, Some("")) == Some(out) && Unescape("") == Some("")
  {
    assert out + "" == out;
  }

  lemma BeforePut(out: string, c: char, rest: Option<string>)
    ensures Before(out, PutFront(c, rest)) == Before(out + [c], rest)
  {
    if rest.Some? {
      assert out + ([c] + rest.value) == out + [c] + rest.value;
    }
  }

  method ParseQuotedString(token: string) returns (r: Option<string>)
    ensures r == Unquote(token)
  {
    if |token| < 2 || token[0] != '"' || token[|token| - 1] != '"' {
      return Some(token);
    }
    hide UnescapeChar, PutFront, Before;
    var out := "";
    var i := 1;
    ghost var body := token[1..|token| - 1];
    assert body[0..] == body;
    BeforeNothing(Unescape(body));
    while i + 1 < |token|
      invariant 1 <= i <= |token| - 1
      invariant Before(out, Unescape(body[i - 1..])) == Unescape(body)
      decreases |token| - i
    {
      ghost var rest := body[i - 1..];
      assert rest[0] == token[i];
      var c := token[i];
      if c != '\\' {
        assert rest[1..] == body[i..];
        BeforePut(out, c, Unescape(body[i..]));
        out := out + [c];
        i := i + 1;
      } else {
        if i + 1 >= |token| - 1 {
          return None;
        }
        assert rest[1] == token[i + 1];
        var e := UnescapeChar(token[i + 1]);
        if e.None? {
          return None;
        }
        assert rest[2..] == body[i + 1..];
        BeforePut(out, e.value, Unescape(body[i + 1..]));
        out := out + [e.value];
        i := i + 2;
      }
    }
    assert body[i - 1..] == "";
    BeforeEmpty(out);
    return Some(out);
  }

  // ---------------------------------------------------------------------------------------------
  // The label scanner
  // ---------------------------------------------------------------------------------------------

  function Shift(o: Option<nat>, n: nat): Option<nat> {
    if o.None? then None else Some(o.value + n)
  }

  /** Position of the first colon outside double quotes. */
  function FindColon(t: string, inQuotes: bool): (r: Option<nat>)
    ensures r.Some? ==> r.value < |t| && t[r.value] == ':'
    decreases |t|
  {
    if t == "" then None
    else if inQuotes then
      if t[0] == '\\' && |t| > 1 then Shift(FindColon(t[2..], true), 2)
      else Shift(FindColon(t[1..], t[0] != '"'), 1)
    else if t[0] == '"' then Shift(FindColon(t[1..], true), 1)
    else if t[0] == ':' then Some(0)
    else Shift(FindColon(t[1..], false), 1)
  }

  /** One character, or one escape, of the scan. */
  lemma ScanStep(line: string, i: nat, inQuotes: bool)
    requires i < |line|
    ensures var c := line[i];
            FindColon(line[i..], inQuotes) ==
            if inQuotes && c == '\\' && i + 1 < |line| then Shift(FindColon(line[i + 2..], true), 2)
            else if inQuotes then Shift(FindColon(line[i + 1..], c != '"'), 1)
            else if c == '"' then Shift(FindColon(line[i + 1..], true), 1)
            else if c == ':' then Some(0)
            else Shift(FindColon(line[i + 1..], false), 1)
  {
    var t := line[i..];
    assert t[0] == line[i] && t[1..] == line[i + 1..];
    if i + 1 < |line| {
      assert t[2..] == line[i + 2..];
    }
  }

  method ScanLabel(line: string) returns (colon: Option<nat>)
    ensures colon == FindColon(line, false)
  {
    hide FindColon;
    var inQuotes := false;
    var i := 0;
    assert line[0..] == line;
    while i < |line|
      invariant 0 <= i <= |line|
      invariant Shift(FindColon(line[i..], inQuotes), i) == FindColon(line, false)
    {
      ScanStep(line, i, inQuotes);
      var c := line[i];
      if inQuotes {
        if c == '\\' && i + 1 < |line| {
          i := i + 2;
          continue;
        }
        if c == '"' {
          inQuotes := false;
        }
      } else if c == '"' {
        inQuotes := true;
      } else if c == ':' {
        return Some(i);
      }
      i := i + 1;
    }
    assert line[i..] == "";
    NothingToScan(inQuotes);
    return None;
  }

  lemma NothingToScan(inQuotes: bool)
    ensures FindColon("", inQuotes).None?
  {
  }

  /** The scanner passes over the escape of any character and stays inside the quotes. */
  lemma PassEscape(c: char, rest: string)
    ensures FindColon(EscapeChar(c) + rest, true) == Shift(FindColon(rest, true), |EscapeChar(c)|)
  {
    hide EscapeChar, FindColon;
    var e := EscapeChar(c);
    var t := e + rest;
    EscapeShape(c);
    assert t[0..] == t && t[0] == e[0] && t[|e|..] == rest;
    ScanStep(t, 0, true);
  }

  lemma EscapeShape(c: char)
    ensures var e := EscapeChar(c);
            (|e| == 1 && e[0] == c && c != '\\' && c != '"') || (|e| == 2 && e[0] == '\\')
  {
  }

  /** Whatever characters a string holds, the scanner finds no colon inside its quoted form. */
  lemma {:induction false} NoColonInEscape(s: string)
    ensures FindColon(Escape(s) + "\"", true).None?
  {
    if s == "" {
      assert "\""[1..] == "";
      assert "" + "\"" == "\"";
    } else {
      hide FindColon, EscapeChar;
      NoColonInEscape(s[1..]);
      var rest := Escape(s[1..]) + "\"";
      PassEscape(s[0], rest);
      assert Escape(s) + "\"" == EscapeChar(s[0]) + rest;
    }
  }

  lemma NoColonInQuote(s: string)
    ensures FindColon(Quote(s), false).None?
  {
    NoColonInEscape(s);
    assert Quote(s)[1..] == Escape(s) + "\"";
  }

  /** A word and a blank before the text only shift the answer. */
  lemma {:induction false} ColonAfterWord(w: string, t: string)
    requires forall i | 0 <= i < |w| :: w[i] != '"' && w[i] != ':'
    ensures FindColon(w + t, false) == Shift(FindColon(t, false), |w|)
    decreases |w|
  {
    if w == "" {
      assert w + t == t;
    } else {
      ColonAfterWord(w[1..], t);
      assert (w + t)[1..] == w[1..] + t;
    }
  }

  // ---------------------------------------------------------------------------------------------
  // Numbers
  // ---------------------------------------------------------------------------------------------

  predicate IsDigit(c: char) {
    '0' <= c <= '9'
  }

  function DigitOf(d: nat): char
    requires d < 10
  {
    '0' + d as char
  }

  function Decimal(n: nat): (r: string) {
    if n < 10 then [DigitOf(n)] else Decimal(n / 10) + [DigitOf(n % 10)]
  }

  function IntText(n: int): string {
    if n < 0 then "-" + Decimal(-n) else Decimal(n)
  }

  /** The number spelled by a string of digits. */
  function Value(s: string): nat
    requires forall i | 0 <= i < |s| :: IsDigit(s[i])
  {
    if s == "" then 0
    else
      assert IsDigit(s[|s| - 1]);
      10 * Value(s[..|s| - 1]) + (s[|s| - 1] - '0') as nat
  }

  function LeadingDigits(s: string): (k: nat)
    ensures k <= |s| && forall i | 0 <= i < k :: IsDigit(s[i])
  {
    if s != "" && IsDigit(s[0]) then 1 + LeadingDigits(s[1..]) else 0
  }

  predicate IsSpace(c: char) {
    IsBlank(c) || c == '\U{0B}' || c == '\U{0C}'
  }

  function LeadingSpaces(s: string): (k: nat)
    ensures k <= |s|
  {
    if s != "" && IsSpace(s[0]) then 1 + LeadingSpaces(s[1..]) else 0
  }

  /** A number at the start of a text, as the C library reads it: its sign, its magnitude and how many
      characters it took. */
  datatype Number = Number(negative: bool, magnitude: nat, used: nat)

  function ReadNumber(s: string): Option<Number> {
    var a := LeadingSpaces(s);
    var signed := a < |s| && (s[a] == '-' || s[a] == '+');
    var b := if signed then a + 1 else a;
    var k := LeadingDigits(s[b..]);
    if k == 0 then None else Some(Number(signed && s[a] == '-', Value(s[b..][..k]), b + k))
  }

  function Signed(n: Number): int {
    if n.negative then -(n.magnitude as int) else n.magnitude
  }

  /** `stoi`: what follows the number is ignored. */
  function ReadInt(s: string): Option<int> {
    match ReadNumber(s)
    case None => None
    case Some(n) => if INT_MIN <= Signed(n) <= INT_MAX then Some(Signed(n)) else None
  }

  function ReadNonNegative(s: string): Option<int> {
    match ReadNumber(s)
    case None => None
    case Some(n) => if n.used == |s| && 0 <= Signed(n) <= INT_MAX then Some(Signed(n)) else None
  }

  /** `stoull` negates modulo 2^64. */
  function ReadUint32(s: string): Option<nat> {
    match ReadNumber(s)
    case None => None
    case Some(n) =>
      var v := if n.negative && n.magnitude > 0 then TWO_64 - n.magnitude else n.magnitude;
      if n.used == |s| && n.magnitude < TWO_64 && v <= UINT32_MAX then Some(v) else None
  }

  lemma {:induction false} DecimalReads(n: nat)
    ensures |Decimal(n)| > 0 && (forall i | 0 <= i < |Decimal(n)| :: IsDigit(Decimal(n)[i])) && Value(Decimal(n)) == n
  {
    if n >= 10 {
      DecimalReads(n / 10);
      var d := Decimal(n);
      assert d[..|d| - 1] == Decimal(n / 10);
    } else {
      assert Decimal(n)[..0] == "";
    }
  }

  lemma {:induction false} AllDigits(s: string)
    requires forall i | 0 <= i < |s| :: IsDigit(s[i])
    ensures LeadingDigits(s) == |s|
  {
    if s != "" {
      AllDigits(s[1..]);
    }
  }

  lemma DecimalNumber(n: nat)
    ensures ReadNumber(Decimal(n)) == Some(Number(false, n, |Decimal(n)|))
    ensures ReadNumber("-" + Decimal(n)) == Some(Number(true, n, |Decimal(n)| + 1))
  {
    hide Decimal, Value;
    var d := Decimal(n);
    DecimalReads(n);
    AllDigits(d);
    assert d[0..] == d && d[..|d|] == d;
    assert IsDigit(d[0]);
    var m := "-" + d;
    assert m[0] == '-' && m[1..] == d;
  }

  /** Printed integers read back, within the range of the reader. */
  lemma IntTextReads(n: int)
    ensures ReadInt(IntText(n)) == if INT_MIN <= n <= INT_MAX then Some(n) else None
    ensures ReadNonNegative(IntText(n)) == if 0 <= n <= INT_MAX then Some(n) else None
    ensures 0 <= n ==> ReadUint32(IntText(n)) == if n <= UINT32_MAX then Some(n) else None
  {
    hide Decimal, ReadNumber;
    DecimalNumber(if n < 0 then -n else n);
  }

  predicate NumberChar(c: char) {
    IsDigit(c) || c == '-'
  }

  lemma IntTextPlain(n: int)
    ensures IntText(n) != "" && forall i | 0 <= i < |IntText(n)| :: NumberChar(IntText(n)[i])
  {
    hide Decimal, Value;
    DecimalReads(if n < 0 then -n else n);
  }
}
