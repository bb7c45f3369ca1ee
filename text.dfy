/** The text renderings the operand lists use: `"%x"` and `"%02x"` of a
    non-negative integer, and Python's `repr` of a `str` and of a `bytes`
    value.  Each rendering comes with a parser that reads it back, so the
    rendering loses nothing. */
module Text {
  import opened Bytes
  import opened Wrappers

  // ---- hexadecimal digits ----

  predicate IsHexDigit(c: char) {
    '0' <= c <= '9' || 'a' <= c <= 'f'
  }

  /** The lower-case digit `%x` writes for `d`. */
  function HexDigit(d: nat): (c: char)
    requires d < 16
    ensures IsHexDigit(c)
    ensures d == 0 <==> c == '0'
  {
    if d < 10 then ('0' as int + d) as char else ('a' as int + d - 10) as char
  }

  /** The value of one hexadecimal digit. */
  function DigitValue(c: char): (r: Option<nat>)
    ensures r.Some? <==> IsHexDigit(c)
    ensures r.Some? ==> r.value < 16
  {
    if '0' <= c <= '9' then Some(c as int - '0' as int)
    else if 'a' <= c <= 'f' then Some(c as int - 'a' as int + 10)
    else None
  }

  lemma DigitValueOfHexDigit(d: nat)
    requires d < 16
    ensures DigitValue(HexDigit(d)) == Some(d)
  {
  }

  /** `"%x" % n`: lower-case hexadecimal without leading zeros. */
  function Hex(n: nat): (s: string)
    ensures |s| >= 1
    ensures forall i :: 0 <= i < |s| ==> IsHexDigit(s[i])
    ensures s[0] == '0' ==> n == 0
  {
    if n < 16 then [HexDigit(n)] else Hex(n / 16) + [HexDigit(n % 16)]
  }

  /** `"%02x" % n` for a byte value. */
  function Hex2(n: nat): (s: string)
    requires n < 0x100
    ensures |s| == 2 && IsHexDigit(s[0]) && IsHexDigit(s[1])
  {
    [HexDigit(n / 16), HexDigit(n % 16)]
  }

  /** The value of a non-empty string of hexadecimal digits. */
  function HexValue(s: string): (r: Option<nat>)
    decreases |s|
  {
    if |s| == 0 then None
    else if |s| == 1 then DigitValue(s[0])
    else
      match (HexValue(s[..|s| - 1]), DigitValue(s[|s| - 1]))
      case (Some(v), Some(d)) => Some(16 * v + d)
      case _ => None
  }

  /** Reading `%x` back gives the number. */
  lemma {:induction false} HexValueOfHex(n: nat)
    ensures HexValue(Hex(n)) == Some(n)
    decreases n
  {
    if n < 16 {
      DigitValueOfHexDigit(n);
    } else {
      var s := Hex(n);
      HexValueOfHex(n / 16);
      DigitValueOfHexDigit(n % 16);
      assert s[..|s| - 1] == Hex(n / 16);
    }
  }

  /** Different numbers are written differently. */
  lemma HexInjective(m: nat, n: nat)
    requires Hex(m) == Hex(n)
    ensures m == n
  {
    HexValueOfHex(m);
    HexValueOfHex(n);
  }

  lemma Hex2Value(n: nat)
    requires n < 0x100
    ensures DigitValue(Hex2(n)[0]) == Some(n / 16)
    ensures DigitValue(Hex2(n)[1]) == Some(n % 16)
  {
    DigitValueOfHexDigit(n / 16);
    DigitValueOfHexDigit(n % 16);
  }

  // ---- repr of a str ----

  /** The quote `repr` chooses: double quotes only when the text holds a
      single quote and no double quote. */
  function QuoteFor(hasSingle: bool, hasDouble: bool): (q: char)
    ensures q == '\'' || q == '"'
  {
    if hasSingle && !hasDouble then '"' else '\''
  }

  /** What `repr` writes for one character of a `str` quoted with `q`. */
  function EscapeChar(c: char, q: char): (r: string)
    ensures |r| >= 1
  {
    if c == '\\' then "\\\\"
    else if c == q then ['\\', q]
    else if c == '\t' then "\\t"
    else if c == '\n' then "\\n"
    else if c == '\r' then "\\r"
    else if c < ' ' || c as int == 0x7f then "\\x" + Hex2(c as int)
    else [c]
  }

  function EscapeStr(s: string, q: char): string {
    if s == [] then [] else EscapeChar(s[0], q) + EscapeStr(s[1..], q)
  }

  /** `repr(s)` for a `str`. */
  function ReprStr(s: string): (r: string)
    ensures |r| >= 2 && (r[0] == '\'' || r[0] == '"') && r[|r| - 1] == r[0]
  {
    var q := QuoteFor('\'' in s, '"' in s);
    [q] + EscapeStr(s, q) + [q]
  }

  /** The character a two-character escape `\c` stands for inside quotes `q`. */
  function SimpleEscape(c: char, q: char): Option<char> {
    if c == '\\' then Some('\\')
    else if c == q then Some(q)
    else if c == 't' then Some('\t')
    else if c == 'n' then Some('\n')
    else if c == 'r' then Some('\r')
    else None
  }

  /** Reads the inside of a quoted `str` rendering back. */
  function UnescapeStr(t: string, q: char): Option<string>
    decreases |t|
  {
    if t == [] then Some([])
    else if t[0] == q then None
    else if t[0] != '\\' then
      match UnescapeStr(t[1..], q)
      case Some(r) => Some([t[0]] + r)
      case None => None
    else if |t| < 2 then None
    else if t[1] == 'x' then
      if |t| < 4 then None
      else
        match (DigitValue(t[2]), DigitValue(t[3]), UnescapeStr(t[4..], q))
        case (Some(hi), Some(lo), Some(r)) => Some([(16 * hi + lo) as char] + r)
        case _ => None
    else
      match (SimpleEscape(t[1], q), UnescapeStr(t[2..], q))
      case (Some(c), Some(r)) => Some([c] + r)
      case _ => None
  }

  /** Reads a `repr` of a `str` back. */
  function ParseReprStr(t: string): Option<string> {
    if |t| >= 2 && (t[0] == '\'' || t[0] == '"') && t[|t| - 1] == t[0] then
      UnescapeStr(t[1..|t| - 1], t[0])
    else None
  }

  /** One escaped character is read back ahead of whatever follows it. */
  lemma UnescapeChar(c: char, q: char, rest: string, r: string)
    requires q == '\'' || q == '"'
    requires UnescapeStr(rest, q) == Some(r)
    ensures UnescapeStr(EscapeChar(c, q) + rest, q) == Some([c] + r)
  {
    var t := EscapeChar(c, q) + rest;
    if c == '\\' || c == q || c == '\t' || c == '\n' || c == '\r' {
      assert t[2..] == rest;
    } else if c < ' ' || c as int == 0x7f {
      Hex2Value(c as int);
      assert t[4..] == rest;
    } else {
      assert t[1..] == rest;
    }
  }

  lemma {:induction false} UnescapeEscapeStr(s: string, q: char)
    requires q == '\'' || q == '"'
    ensures UnescapeStr(EscapeStr(s, q), q) == Some(s)
    decreases |s|
  {
    if s != [] {
      UnescapeEscapeStr(s[1..], q);
      UnescapeChar(s[0], q, EscapeStr(s[1..], q), s[1..]);
      assert [s[0]] + s[1..] == s;
    }
  }

  /** `repr` of a `str` loses nothing: the string can be read back from it. */
  lemma ParseReprStrOfReprStr(s: string)
    ensures ParseReprStr(ReprStr(s)) == Some(s)
  {
    var q := QuoteFor('\'' in s, '"' in s);
    var r := ReprStr(s);
    assert r[1..|r| - 1] == EscapeStr(s, q);
    UnescapeEscapeStr(s, q);
  }

  // ---- repr of a bytes value ----

  /** What `repr` writes for one byte of a `bytes` value quoted with `q`. */
  function EscapeByte(x: byte, q: char): (r: string)
    ensures |r| >= 1
  {
    if x == '\\' as int then "\\\\"
    else if x == q as int then ['\\', q]
    else if x == 9 then "\\t"
    else if x == 10 then "\\n"
    else if x == 13 then "\\r"
    else if x < 0x20 || x >= 0x7f then "\\x" + Hex2(x)
    else [x as char]
  }

  function EscapeBytes(b: seq<byte>, q: char): string {
    if b == [] then [] else EscapeByte(b[0], q) + EscapeBytes(b[1..], q)
  }

  /** `repr(b)` for a `bytes` value: `b` and the quoted escaped bytes. */
  function ReprBytes(b: seq<byte>): (r: string)
    ensures |r| >= 3 && r[0] == 'b' && (r[1] == '\'' || r[1] == '"') && r[|r| - 1] == r[1]
  {
    var q := QuoteFor('\'' as int in b, '"' as int in b);
    ['b', q] + EscapeBytes(b, q) + [q]
  }

  /** Reads the inside of a quoted `bytes` rendering back. */
  function UnescapeBytes(t: string, q: char): Option<seq<byte>>
    decreases |t|
  {
    if t == [] then Some([])
    else if t[0] == q || t[0] as int >= 0x100 then None
    else if t[0] != '\\' then
      match UnescapeBytes(t[1..], q)
      case Some(r) => Some([t[0] as int as byte] + r)
      case None => None
    else if |t| < 2 then None
    else if t[1] == 'x' then
      if |t| < 4 then None
      else
        match (DigitValue(t[2]), DigitValue(t[3]), UnescapeBytes(t[4..], q))
        case (Some(hi), Some(lo), Some(r)) => Some([16 * hi + lo] + r)
        case _ => None
    else
      match (SimpleEscape(t[1], q), UnescapeBytes(t[2..], q))
      case (Some(c), Some(r)) => if c as int < 0x100 then Some([c as int] + r) else None
      case _ => None
  }

  /** Reads a `repr` of a `bytes` value back. */
  function ParseReprBytes(t: string): Option<seq<byte>> {
    if |t| >= 3 && t[0] == 'b' && (t[1] == '\'' || t[1] == '"') && t[|t| - 1] == t[1] then
      UnescapeBytes(t[2..|t| - 1], t[1])
    else None
  }

  lemma UnescapeByte(x: byte, q: char, rest: string, r: seq<byte>)
    requires q == '\'' || q == '"'
    requires UnescapeBytes(rest, q) == Some(r)
    ensures UnescapeBytes(EscapeByte(x, q) + rest, q) == Some([x] + r)
  {
    var t := EscapeByte(x, q) + rest;
    if x == '\\' as int || x == q as int || x == 9 || x == 10 || x == 13 {
      assert t[2..] == rest;
    } else if x < 0x20 || x >= 0x7f {
      Hex2Value(x);
      assert t[4..] == rest;
    } else {
      assert t[1..] == rest;
    }
  }

  lemma {:induction false} UnescapeEscapeBytes(b: seq<byte>, q: char)
    requires q == '\'' || q == '"'
    ensures UnescapeBytes(EscapeBytes(b, q), q) == Some(b)
    decreases |b|
  {
    if b != [] {
      UnescapeEscapeBytes(b[1..], q);
      UnescapeByte(b[0], q, EscapeBytes(b[1..], q), b[1..]);
      assert [b[0]] + b[1..] == b;
    }
  }

  /** `repr` of a `bytes` value loses nothing: the bytes can be read back from it. */
  lemma ParseReprBytesOfReprBytes(b: seq<byte>)
    ensures ParseReprBytes(ReprBytes(b)) == Some(b)
  {
    var q := QuoteFor('\'' as int in b, '"' as int in b);
    var r := ReprBytes(b);
    assert r[2..|r| - 1] == EscapeBytes(b, q);
    UnescapeEscapeBytes(b, q);
  }
}
