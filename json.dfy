/**
  The part of Python's `json` module the modelled code depends on: `json.dumps(..., ensure_ascii=False)`
  quoting of strings, and `json.loads` reading a string literal back.
*/
module Json {
  import opened Outcomes
  import opened Text

  /** Lower-case hexadecimal digit, as `'{0:04x}'.format` writes it. */
  function HexDigit(d: nat): (c: char)
    requires d < 16
  {
    if d < 10 then DigitChar(d) else ('a' as int + d - 10) as char
  }

  /** Value of a hexadecimal digit of either case, as `json.loads` reads `\uXXXX`. */
  function HexValue(c: char): (r: Option<nat>)
    ensures r.Some? ==> r.value < 16
  {
    if '0' <= c <= '9' then Some(c as int - '0' as int)
    else if 'a' <= c <= 'f' then Some(c as int - 'a' as int + 10)
    else if 'A' <= c <= 'F' then Some(c as int - 'A' as int + 10)
    else None
  }

  lemma HexRoundTrip(d: nat)
    requires d < 16
    ensures HexValue(HexDigit(d)) == Some(d)
  {
  }

  /** The characters `json.dumps` escapes: quote, backslash and the control characters below U+0020. */
  predicate NeedsEscape(c: char) {
    c == '"' || c == '\\' || c as int < 0x20
  }

  /** `json.dumps` escaping of one character. */
  function EscapeChar(c: char): string {
    if c == '"' then "\\\""
    else if c == '\\' then "\\\\"
    else if c == '\n' then "\\n"
    else if c == '\r' then "\\r"
    else if c == '\t' then "\\t"
    else if c as int == 8 then "\\b"
    else if c as int == 12 then "\\f"
    else if c as int < 0x20 then "\\u00" + [HexDigit(c as int / 16), HexDigit(c as int % 16)]
    else [c]
  }

  /** The body of a JSON string literal for `s`. */
  function Escape(s: string): string {
    if |s| == 0 then "" else EscapeChar(s[0]) + Escape(s[1..])
  }

  /** `json.dumps(s, ensure_ascii=False)` for a string `s`. */
  function Quote(s: string): string {
    "\"" + Escape(s) + "\""
  }

  /** Escaping works character by character, so it distributes over concatenation. */
  lemma {:induction false} EscapeConcat(a: string, b: string)
    ensures Escape(a + b) == Escape(a) + Escape(b)
  {
    if |a| > 0 {
      assert (a + b)[1..] == a[1..] + b;
      EscapeConcat(a[1..], b);
    } else {
      assert a + b == b;
    }
  }

  /** Text without quotes, backslashes or control characters is written unchanged. */
  lemma {:induction false} EscapePlain(s: string)
    requires forall k :: 0 <= k < |s| ==> !NeedsEscape(s[k])
    ensures Escape(s) == s
  {
    if |s| > 0 {
      EscapePlain(s[1..]);
      assert [s[0]] + s[1..] == s;
    }
  }

  /** Escaping never introduces a character from outside `a..f`, digits and the escape letters; in particular no `E`. */
  lemma {:induction false} EscapeKeepsOut(s: string, c: char)
    requires c !in s && c !in "\\\"nrtbfu0123456789abcdef"
    ensures c !in Escape(s)
  {
    if |s| > 0 {
      EscapeKeepsOut(s[1..], c);
      var e := EscapeChar(s[0]);
      if s[0] as int < 0x20 && !(s[0] == '\n' || s[0] == '\r' || s[0] == '\t' || s[0] as int == 8 || s[0] as int == 12) {
        assert e == "\\u00" + [HexDigit(s[0] as int / 16), HexDigit(s[0] as int % 16)];
      }
      assert c !in e;
    }
  }

  // ---------------------------------------------------------------------------
  // reading a string literal back

  function Prepend(c: char, r: Option<(string, string)>): Option<(string, string)> {
    match r
    case None => None
    case Some((v, rest)) => Some(([c] + v, rest))
  }

  /** The character a simple escape `\x` stands for, if `x` is one of JSON's simple escapes. */
  function SimpleEscape(x: char): Option<char> {
    if x == '"' then Some('"')
    else if x == '\\' then Some('\\')
    else if x == '/' then Some('/')
    else if x == 'n' then Some('\n')
    else if x == 'r' then Some('\r')
    else if x == 't' then Some('\t')
    else if x == 'b' then Some(8 as char)
    else if x == 'f' then Some(12 as char)
    else None
  }

  /** The code point written by four hexadecimal digits. */
  function Hex4(t: string): (r: Option<nat>)
    requires |t| == 4
    ensures r.Some? ==> r.value < 0x10000
  {
    match (HexValue(t[0]), HexValue(t[1]), HexValue(t[2]), HexValue(t[3]))
    case (Some(a), Some(b), Some(c), Some(d)) => Some(((a * 16 + b) * 16 + c) * 16 + d)
    case _ => None
  }

  /**
    Reads the body of a JSON string literal (after its opening quote) up to the closing quote, as
    `json.loads` does in strict mode: the decoded text and the input after the closing quote.
  */
  function ParseStringBody(t: string): Option<(string, string)>
    decreases |t|
  {
    if |t| == 0 then None
    else if t[0] == '"' then Some(("", t[1..]))
    else if t[0] == '\\' then
      if |t| < 2 then None
      else if SimpleEscape(t[1]).Some? then Prepend(SimpleEscape(t[1]).value, ParseStringBody(t[2..]))
      else if t[1] == 'u' && |t| >= 6 then
        match Hex4(t[2..6])
        case Some(n) =>
          if n < 0xD800 || 0xE000 <= n then Prepend(n as char, ParseStringBody(t[6..])) else None
        case None => None
      else None
    else if t[0] as int < 0x20 then None
    else Prepend(t[0], ParseStringBody(t[1..]))
  }

  /** `json.loads` reading one string literal at the start of `t`: its value and the rest of the input. */
  function DecodeString(t: string): Option<(string, string)> {
    if |t| > 0 && t[0] == '"' then ParseStringBody(t[1..]) else None
  }

  lemma SimpleEscapeRead(c: char, u: string)
    requires c == '"' || c == '\\' || c == '\n' || c == '\r' || c == '\t' || c as int == 8 || c as int == 12
    ensures ParseStringBody(EscapeChar(c) + u) == Prepend(c, ParseStringBody(u))
  {
    var t := EscapeChar(c) + u;
    assert |EscapeChar(c)| == 2 && t[0] == '\\';
    assert SimpleEscape(t[1]) == Some(c);
    assert t[2..] == u;
  }

  lemma UnicodeEscapeRead(c: char, u: string)
    requires c as int < 0x20 && !(c == '\n' || c == '\r' || c == '\t' || c as int == 8 || c as int == 12)
    ensures ParseStringBody(EscapeChar(c) + u) == Prepend(c, ParseStringBody(u))
  {
    var n := c as int;
    var h := [HexDigit(n / 16), HexDigit(n % 16)];
    assert EscapeChar(c) == "\\u00" + h;
    var t := EscapeChar(c) + u;
    HexRoundTrip(n / 16);
    HexRoundTrip(n % 16);
    assert t[0] == '\\' && t[1] == 'u';
    assert SimpleEscape(t[1]).None?;
    assert t[2..6] == ['0', '0'] + h;
    assert t[6..] == u;
    assert Hex4(t[2..6]) == Some(n);
  }

  lemma EscapeCharRead(c: char, u: string)
    ensures ParseStringBody(EscapeChar(c) + u) == Prepend(c, ParseStringBody(u))
  {
    if c == '"' || c == '\\' || c == '\n' || c == '\r' || c == '\t' || c as int == 8 || c as int == 12 {
      SimpleEscapeRead(c, u);
    } else if c as int < 0x20 {
      UnicodeEscapeRead(c, u);
    } else {
      var t := EscapeChar(c) + u;
      assert t[1..] == u;
    }
  }

  /** Reading back an escaped body followed by the closing quote yields the original text. */
  lemma {:induction false} EscapeRoundTrip(s: string, rest: string)
    ensures ParseStringBody(Escape(s) + "\"" + rest) == Some((s, rest))
  {
    if |s| == 0 {
      assert Escape(s) + "\"" + rest == "\"" + rest;
      assert ("\"" + rest)[1..] == rest;
    } else {
      EscapeRoundTrip(s[1..], rest);
      assert Escape(s) + "\"" + rest == EscapeChar(s[0]) + (Escape(s[1..]) + "\"" + rest);
      EscapeCharRead(s[0], Escape(s[1..]) + "\"" + rest);
      assert [s[0]] + s[1..] == s;
    }
  }

  /** `json.loads` gives back the string that `json.dumps` wrote, and stops right after it. */
  lemma QuoteRoundTrip(s: string, rest: string)
    ensures DecodeString(Quote(s) + rest) == Some((s, rest))
  {
    var t := Quote(s) + rest;
    assert t[1..] == Escape(s) + "\"" + rest;
    EscapeRoundTrip(s, rest);
  }

  // ---------------------------------------------------------------------------
  // objects with two string members

  /** `json.dumps({k1: v1, k2: v2}, ensure_ascii=False)` for string keys and values. */
  function Object2(k1: string, v1: string, k2: string, v2: string): string {
    "{" + Quote(k1) + ": " + Quote(v1) + ", " + Quote(k2) + ": " + Quote(v2) + "}"
  }

  /** Skips the text `p` and reads the string literal that follows it: its value and the rest. */
  function ReadAfter(t: string, p: string): Option<(string, string)> {
    if p <= t then DecodeString(t[|p|..]) else None
  }

  /** Reads `{"k1": v1, "k2": v2}` written with the default separators; the two values, if the keys match. */
  function ReadObject2(t: string, k1: string, k2: string): Option<(string, string)> {
    match ReadAfter(t, "{" + Quote(k1) + ": ")
    case None => None
    case Some((v1, r1)) =>
      match ReadAfter(r1, ", " + Quote(k2) + ": ")
      case None => None
      case Some((v2, r2)) => if r2 == "}" then Some((v1, v2)) else None
  }

  lemma ReadAfterQuote(p: string, v: string, rest: string)
    ensures ReadAfter(p + Quote(v) + rest, p) == Some((v, rest))
  {
    var t := p + Quote(v) + rest;
    assert t == p + (Quote(v) + rest);
    assert t[|p|..] == Quote(v) + rest;
    QuoteRoundTrip(v, rest);
  }

  /** Reading back a two-member object gives the two values written into it. */
  lemma Object2RoundTrip(k1: string, v1: string, k2: string, v2: string)
    ensures ReadObject2(Object2(k1, v1, k2, v2), k1, k2) == Some((v1, v2))
  {
    var open := "{" + Quote(k1) + ": ";
    var mid := ", " + Quote(k2) + ": ";
    var r1 := mid + Quote(v2) + "}";
    assert Object2(k1, v1, k2, v2) == open + Quote(v1) + r1;
    ReadAfterQuote(open, v1, r1);
    ReadAfterQuote(mid, v2, "}");
  }

  /** A character that is in none of the four texts and that escaping cannot introduce is not in the object. */
  lemma Object2Without(c: char, k1: string, v1: string, k2: string, v2: string)
    requires c !in k1 && c !in v1 && c !in k2 && c !in v2
    requires c !in "\\\"nrtbfu0123456789abcdef{}:, "
    ensures c !in Object2(k1, v1, k2, v2)
  {
    EscapeKeepsOut(k1, c);
    EscapeKeepsOut(v1, c);
    EscapeKeepsOut(k2, c);
    EscapeKeepsOut(v2, c);
  }

  /** Escaping three consecutive pieces escapes each of them. */
  lemma {:induction false} EscapeConcat3(a: string, t: string, b: string)
    ensures Escape(a + t + b) == Escape(a) + Escape(t) + Escape(b)
  {
    if |a| == 0 {
      assert a + t + b == t + b;
      EscapeConcat(t, b);
    } else {
      assert (a + t + b)[1..] == a[1..] + t + b;
      EscapeConcat3(a[1..], t, b);
    }
  }

  /** Text that escaping leaves alone stays whole inside an escaped string. */
  lemma EscapeMiddle(a: string, t: string, b: string)
    requires Escape(t) == t
    ensures Escape(a + t + b) == Escape(a) + t + Escape(b)
  {
    EscapeConcat3(a, t, b);
  }

  /** Everything of a two-member object up to the opening quote of its second value. */
  function Object2Head(k1: string, v1: string, k2: string): string {
    "{" + Quote(k1) + ": " + Quote(v1) + ", " + Quote(k2) + ": " + "\""
  }

  lemma Object2Shape(k1: string, v1: string, k2: string, v: string)
    ensures Object2(k1, v1, k2, v) == Object2Head(k1, v1, k2) + Escape(v) + "\"}"
  {
  }

  lemma Regroup(h: string, a: string, t: string, b: string, e: string)
    requires e == a + t + b
    ensures h + e + "\"}" == (h + a) + t + (b + "\"}")
  {
  }

  /** Text that needs no escaping and occurs in the second value occurs in the object as well. */
  lemma Object2KeepsText(k1: string, v1: string, k2: string, a: string, t: string, b: string)
    requires Escape(t) == t
    ensures Contains(Object2(k1, v1, k2, a + t + b), t)
  {
    EscapeMiddle(a, t, b);
    Object2Shape(k1, v1, k2, a + t + b);
    Regroup(Object2Head(k1, v1, k2), Escape(a), t, Escape(b), Escape(a + t + b));
    ContainsMiddle(Object2Head(k1, v1, k2) + Escape(a), t, Escape(b) + "\"}");
  }
}
