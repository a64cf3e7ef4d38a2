/**
 * The text `json.Marshal` produces for a Go string, used when `UpdateModule` and
 * `CreateModule` wrap a plain-text `detailed_content` as `{"content": s}`
 * (backend/internal/handlers/education.go:292, :406).
 *
 * `json.Marshal` escapes HTML-significant characters: besides the quote, the backslash and
 * the named control escapes, it writes `<`, `>`, `&`, U+2028, U+2029 and every other
 * control character as `\u` and four lowercase hex digits. A reader of JSON string literals
 * (section 7 of RFC 8259) is the partner: it recovers the original string.
 */
module JsonText {
  import opened Wrappers

  const HEX: string := "0123456789abcdef"

  /** Four lowercase hex digits of `n`, most significant first. */
  function Hex4(n: nat): (h: string)
    requires n < 0x1_0000
    ensures |h| == 4
  {
    var low12 := n % 0x1000;
    var low8 := low12 % 0x100;
    [HEX[n / 0x1000], HEX[low12 / 0x100], HEX[low8 / 0x10], HEX[low8 % 0x10]]
  }

  /** The characters written as a `\u` escape rather than a named one or themselves. */
  predicate UnicodeEscaped(c: char) {
    && (c < ' ' || c == '<' || c == '>' || c == '&' || c == '\U{2028}' || c == '\U{2029}')
    && c !in "\n\r\t\U{0008}\U{000C}"
  }

  /** How one character of the string appears between the quotes. */
  function EscapeChar(c: char): (e: string)
    ensures |e| >= 1
  {
    if c == '"' then "\\\""
    else if c == '\\' then "\\\\"
    else if c == '\n' then "\\n"
    else if c == '\r' then "\\r"
    else if c == '\t' then "\\t"
    else if c == '\U{0008}' then "\\b"
    else if c == '\U{000C}' then "\\f"
    else if UnicodeEscaped(c) then "\\u" + Hex4(c as int)
    else [c]
  }

  /** The body of the quoted string `json.Marshal` writes for `s`. */
  function Escape(s: string): (e: string)
    ensures |e| >= |s|
  {
    if s == [] then "" else EscapeChar(s[0]) + Escape(s[1..])
  }

  function HexValue(c: char): Option<nat> {
    if '0' <= c <= '9' then Some(c as int - '0' as int)
    else if 'a' <= c <= 'f' then Some(c as int - 'a' as int + 10)
    else if 'A' <= c <= 'F' then Some(c as int - 'A' as int + 10)
    else None
  }

  /** The code unit four hex digits denote. */
  function ParseHex4(h: string): (r: Option<nat>)
    requires |h| == 4
    ensures r.Some? ==> r.value < 0x1_0000
  {
    match (HexValue(h[0]), HexValue(h[1]), HexValue(h[2]), HexValue(h[3]))
    case (Some(a), Some(b), Some(c), Some(d)) =>
      if a < 16 && b < 16 && c < 16 && d < 16 then Some(0x1000 * a + 0x100 * b + 0x10 * c + d) else None
    case _ => None
  }

  /** The character a single-letter escape stands for. */
  function NamedEscape(c: char): Option<char> {
    if c == '"' then Some('"')
    else if c == '\\' then Some('\\')
    else if c == '/' then Some('/')
    else if c == 'n' then Some('\n')
    else if c == 'r' then Some('\r')
    else if c == 't' then Some('\t')
    else if c == 'b' then Some('\U{0008}')
    else if c == 'f' then Some('\U{000C}')
    else None
  }

  function Prepend(c: char, rest: Option<string>): (r: Option<string>)
    ensures rest.Some? <==> r.Some?
    ensures r.Some? ==> r.value == [c] + rest.value
  {
    match rest
    case None => None
    case Some(s) => Some([c] + s)
  }

  /**
   * Reads the body of a JSON string literal back into the string. Escapes of UTF-16
   * surrogates are refused; `json.Marshal` never writes one for a well-formed string.
   */
  function Unescape(e: string): (r: Option<string>)
    decreases |e|
  {
    if e == [] then Some([])
    else if e[0] == '"' || e[0] < ' ' then None
    else if e[0] != '\\' then Prepend(e[0], Unescape(e[1..]))
    else if |e| < 2 then None
    else if e[1] == 'u' then
      if |e| < 6 then None
      else match ParseHex4(e[2..6])
        case None => None
        case Some(n) =>
          if 0xD800 <= n < 0xE000 then None else Prepend(n as char, Unescape(e[6..]))
    else match NamedEscape(e[1])
      case None => None
      case Some(c) => Prepend(c, Unescape(e[2..]))
  }

  lemma HexDigitRoundTrip(d: nat)
    requires d < 16
    ensures HexValue(HEX[d]) == Some(d)
  {
  }

  lemma Hex4RoundTrip(n: nat)
    requires n < 0x1_0000
    ensures ParseHex4(Hex4(n)) == Some(n)
  {
    var low12 := n % 0x1000;
    var low8 := low12 % 0x100;
    HexDigitRoundTrip(n / 0x1000);
    HexDigitRoundTrip(low12 / 0x100);
    HexDigitRoundTrip(low8 / 0x10);
    HexDigitRoundTrip(low8 % 0x10);
    assert n == 0x1000 * (n / 0x1000) + low12;
    assert low12 == 0x100 * (low12 / 0x100) + low8;
    assert low8 == 0x10 * (low8 / 0x10) + low8 % 0x10;
  }

  /** Reading back the escape of one character yields that character, whatever follows. */
  lemma UnescapeEscapeChar(c: char, rest: string)
    ensures Unescape(EscapeChar(c) + rest) == Prepend(c, Unescape(rest))
  {
    var e := EscapeChar(c) + rest;
    if UnicodeEscaped(c) && c !in "\"\\" {
      Hex4RoundTrip(c as int);
      assert e[2..6] == Hex4(c as int);
      assert e[6..] == rest;
    } else if |EscapeChar(c)| == 2 {
      assert e[2..] == rest;
    } else {
      assert e[1..] == rest;
    }
  }

  /** The round trip: reading the escaped text gives back the original string. */
  lemma {:induction false} EscapeRoundTrip(s: string)
    ensures Unescape(Escape(s)) == Some(s)
  {
    if s != [] {
      EscapeRoundTrip(s[1..]);
      UnescapeEscapeChar(s[0], Escape(s[1..]));
      assert [s[0]] + s[1..] == s;
    }
  }

  /** Escaping is injective: different strings never produce the same JSON text. */
  lemma EscapeInjective(s: string, t: string)
    requires Escape(s) == Escape(t)
    ensures s == t
  {
    EscapeRoundTrip(s);
    EscapeRoundTrip(t);
  }

  const CONTENT_OPEN: string := "{\"content\":\""
  const CONTENT_CLOSE: string := "\"}"

  /** `json.Marshal(map[string]string{"content": s})` as text. */
  function WrapContent(s: string): (w: string)
    ensures |w| == |CONTENT_OPEN| + |Escape(s)| + |CONTENT_CLOSE|
    ensures w[..|CONTENT_OPEN|] == CONTENT_OPEN
    ensures w[|w| - |CONTENT_CLOSE|..] == CONTENT_CLOSE
  {
    CONTENT_OPEN + Escape(s) + CONTENT_CLOSE
  }

  /** Reads the `content` string back out of a wrapped object. */
  function UnwrapContent(w: string): Option<string> {
    if |w| >= |CONTENT_OPEN| + |CONTENT_CLOSE|
       && w[..|CONTENT_OPEN|] == CONTENT_OPEN
       && w[|w| - |CONTENT_CLOSE|..] == CONTENT_CLOSE
    then Unescape(w[|CONTENT_OPEN|..|w| - |CONTENT_CLOSE|])
    else None
  }

  /** No content is lost in wrapping: unwrapping recovers it exactly. */
  lemma WrapContentRoundTrip(s: string)
    ensures UnwrapContent(WrapContent(s)) == Some(s)
  {
    var w := WrapContent(s);
    assert w[|CONTENT_OPEN|..|w| - |CONTENT_CLOSE|] == Escape(s);
    EscapeRoundTrip(s);
  }
}
