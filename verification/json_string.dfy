/** Plain text as a compact JSON string literal (section 7 of RFC 8259), the
    way Python's `json.dumps` writes it when non-ASCII output is allowed,
    together with a decoder for JSON string literals against which the
    encoding is checked. */
module JsonString {
  import opened Wrappers

  /** A lower-case hexadecimal digit. */
  function HexDigit(v: nat): (r: char)
    requires v < 16
    ensures HexValue(r) == Some(v)
    ensures !('A' <= r <= 'F')
  {
    if v < 10 then ('0' as int + v) as char else ('a' as int + v - 10) as char
  }

  /** The text `json.dumps` writes for one character: a two-character
      escape for the quote, the backslash and the five control characters
      that have one, a `\u00XX` escape for the other control characters,
      and the character itself otherwise. */
  function EscapeChar(c: char): (r: string)
    ensures r == [c] <==> IsPlain(c)
    ensures r != [c] ==> |r| >= 2 && r[0] == '\\'
  {
    if c == '"' then "\\\""
    else if c == '\\' then "\\\\"
    else if c == '\n' then "\\n"
    else if c == '\r' then "\\r"
    else if c == '\t' then "\\t"
    else if c as int == 0x08 then "\\b"
    else if c as int == 0x0c then "\\f"
    else if c < ' ' then "\\u00" + [HexDigit(c as int / 16), HexDigit(c as int % 16)]
    else [c]
  }

  function EscapeString(s: string): string {
    if |s| == 0 then [] else EscapeChar(s[0]) + EscapeString(s[1..])
  }

  /** The message as a JSON string literal: quoted, with only the quote,
      the backslash and control characters escaped. */
  function FormatMessage(message: string): (r: string)
    ensures |r| >= 2 && r[0] == '"' && r[|r| - 1] == '"'
  {
    "\"" + EscapeString(message) + "\""
  }

  // ---------------------------------------------------------------------
  // Decoding a JSON string literal
  // ---------------------------------------------------------------------

  function HexValue(c: char): Option<nat> {
    if '0' <= c <= '9' then Some(c as int - '0' as int)
    else if 'a' <= c <= 'f' then Some(c as int - 'a' as int + 10)
    else if 'A' <= c <= 'F' then Some(c as int - 'A' as int + 10)
    else None
  }

  /** The value of four hexadecimal digits. */
  function Hex4(h: string): (r: Option<nat>)
    requires |h| == 4
    ensures r.Some? ==> r.value < 0x10000
  {
    match (HexValue(h[0]), HexValue(h[1]), HexValue(h[2]), HexValue(h[3]))
    case (Some(a), Some(b), Some(c), Some(d)) =>
      if a < 16 && b < 16 && c < 16 && d < 16 then Some(((a * 16 + b) * 16 + c) * 16 + d) else None
    case _ => None
  }

  /** The character a two-character escape `\e` stands for. */
  function ShortEscape(e: char): Option<char> {
    if e == '"' then Some('"')
    else if e == '\\' then Some('\\')
    else if e == '/' then Some('/')
    else if e == 'b' then Some(0x08 as char)
    else if e == 'f' then Some(0x0c as char)
    else if e == 'n' then Some('\n')
    else if e == 'r' then Some('\r')
    else if e == 't' then Some('\t')
    else None
  }

  function Prepend(c: char, rest: Option<string>): Option<string> {
    match rest
    case None => None
    case Some(t) => Some([c] + t)
  }

  /** The characters between the quotes of a JSON string literal. A `\u`
      escape of a surrogate half is refused: a pair of them would stand for
      one character beyond the basic plane, which this decoder does not
      combine. */
  function DecodeBody(b: string): Option<string>
    decreases |b|
  {
    if |b| == 0 then Some([])
    else if b[0] == '\\' then
      if |b| < 2 then None
      else if b[1] == 'u' then
        if |b| < 6 then None
        else
          match Hex4(b[2..6])
          case None => None
          case Some(v) =>
            if 0xd800 <= v < 0xe000 then None
            else Prepend(v as char, DecodeBody(b[6..]))
      else
        match ShortEscape(b[1])
        case None => None
        case Some(c) => Prepend(c, DecodeBody(b[2..]))
    else if b[0] == '"' || b[0] < ' ' then None
    else Prepend(b[0], DecodeBody(b[1..]))
  }

  /** The text a JSON string literal stands for, or `None` when `t` is not
      one. */
  function DecodeJsonString(t: string): Option<string> {
    if |t| < 2 || t[0] != '"' || t[|t| - 1] != '"' then None
    else DecodeBody(t[1..|t| - 1])
  }

  // ---------------------------------------------------------------------
  // The round trip
  // ---------------------------------------------------------------------

  lemma HexEscapeValue(c: char)
    requires c < ' '
    ensures Hex4("00" + [HexDigit(c as int / 16), HexDigit(c as int % 16)]) == Some(c as int)
  {
    var h := "00" + [HexDigit(c as int / 16), HexDigit(c as int % 16)];
    assert h[0] == '0' && h[1] == '0';
  }

  /** Decoding the escape of one character gives that character back, and
      then carries on with whatever follows. */
  lemma DecodeEscapeChar(c: char, rest: string)
    ensures DecodeBody(EscapeChar(c) + rest) == Prepend(c, DecodeBody(rest))
  {
    if IsPlain(c) {
      DecodePlain(c, rest);
    } else if |EscapeChar(c)| == 2 {
      DecodeShortEscape(c, rest);
    } else {
      DecodeHexEscape(c, rest);
    }
  }

  lemma DecodePlain(c: char, rest: string)
    requires IsPlain(c)
    ensures DecodeBody([c] + rest) == Prepend(c, DecodeBody(rest))
  {
    assert ([c] + rest)[1..] == rest;
  }

  lemma DecodeShortEscape(c: char, rest: string)
    requires !IsPlain(c) && |EscapeChar(c)| == 2
    ensures DecodeBody(EscapeChar(c) + rest) == Prepend(c, DecodeBody(rest))
  {
    var e := EscapeChar(c);
    var b := e + rest;
    assert b[0] == '\\' && b[1] == e[1] && b[2..] == rest;
    assert e[1] != 'u';
  }

  lemma DecodeHexEscape(c: char, rest: string)
    requires !IsPlain(c) && |EscapeChar(c)| != 2
    ensures DecodeBody(EscapeChar(c) + rest) == Prepend(c, DecodeBody(rest))
  {
    var h := "00" + [HexDigit(c as int / 16), HexDigit(c as int % 16)];
    assert EscapeChar(c) == "\\u" + h;
    var b := "\\u" + h + rest;
    HexEscapeValue(c);
    assert b[0] == '\\' && b[1] == 'u' && b[2..6] == h && b[6..] == rest;
  }

  lemma {:induction false} DecodeEscapeString(s: string)
    ensures DecodeBody(EscapeString(s)) == Some(s)
  {
    if |s| > 0 {
      DecodeEscapeString(s[1..]);
      DecodeEscapeChar(s[0], EscapeString(s[1..]));
      assert [s[0]] + s[1..] == s;
    }
  }

  /** Decoding the formatted message as a JSON string literal gives the
      message back. */
  lemma FormatMessageRoundTrip(message: string)
    ensures DecodeJsonString(FormatMessage(message)) == Some(message)
  {
    var t := FormatMessage(message);
    assert t[1..|t| - 1] == EscapeString(message);
    DecodeEscapeString(message);
  }

  /** A character `json.dumps` writes as it is. Every character outside
      ASCII is one. */
  predicate IsPlain(c: char) {
    ' ' <= c && c != '"' && c != '\\'
  }

  lemma {:induction false} EscapeStringLength(s: string)
    ensures |EscapeString(s)| >= |s|
  {
    if |s| > 0 {
      EscapeStringLength(s[1..]);
    }
  }

  /** Escaping leaves a string as it is exactly when all its characters are
      plain: only the quote, the backslash and control characters are ever
      escaped. */
  lemma {:induction false} EscapeStringIdentity(s: string)
    ensures EscapeString(s) == s <==> forall i :: 0 <= i < |s| ==> IsPlain(s[i])
  {
    if |s| > 0 {
      EscapeStringIdentity(s[1..]);
      EscapeStringLength(s[1..]);
      assert s == [s[0]] + s[1..];
      if IsPlain(s[0]) {
        assert (forall i :: 0 <= i < |s| ==> IsPlain(s[i])) <==> (forall i :: 0 <= i < |s[1..]| ==> IsPlain(s[1..][i]));
      } else {
        assert |EscapeString(s)| > |s|;
      }
    }
  }

  /** A message of plain characters, any non-ASCII text included, is
      written between quotes exactly as it is. */
  lemma FormatPlainMessage(message: string)
    requires forall i :: 0 <= i < |message| ==> IsPlain(message[i])
    ensures FormatMessage(message) == "\"" + message + "\""
  {
    EscapeStringIdentity(message);
  }
}
