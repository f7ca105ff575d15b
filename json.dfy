/**
 * The part of JSON (RFC 8259) that the relay writes and the client reads back:
 * string literals, escaped the way JSON.stringify escapes them (ECMA-262,
 * QuoteJSONString), and non-negative integers written in decimal.
 */
module Json {
  import opened Wrappers

  predicate IsDigit(c: char)
  {
    '0' <= c <= '9'
  }

  /** No control character: section 7 of RFC 8259 requires U+0000..U+001F to be escaped. */
  predicate Printable(s: string)
  {
    forall i :: 0 <= i < |s| ==> ' ' <= s[i]
  }

  lemma PrintableAppend(a: string, b: string)
    requires Printable(a) && Printable(b)
    ensures Printable(a + b)
  {
  }

  /** Value of a hexadecimal digit in either case. */
  function HexValue(c: char): (v: Option<nat>)
    ensures v.Some? ==> v.value < 16
  {
    if '0' <= c <= '9' then Some(c as int - '0' as int)
    else if 'a' <= c <= 'f' then Some(c as int - 'a' as int + 10)
    else if 'A' <= c <= 'F' then Some(c as int - 'A' as int + 10)
    else None
  }

  /** The lower-case hexadecimal digit JSON.stringify writes in a \u escape. */
  function HexDigit(d: nat): (c: char)
    requires d < 16
    ensures HexValue(c) == Some(d)
    ensures '0' <= c <= 'f'
  {
    if d < 10 then ('0' as int + d) as char else ('a' as int + d - 10) as char
  }

  /** What JSON.stringify writes for one character of a string. */
  function EscapeChar(c: char): string
  {
    if c == '\U{8}' then "\\b"
    else if c == '\t' then "\\t"
    else if c == '\n' then "\\n"
    else if c == '\U{C}' then "\\f"
    else if c == '\r' then "\\r"
    else if c == '"' then "\\\""
    else if c == '\\' then "\\\\"
    else if c < ' ' then "\\u00" + [HexDigit(c as int / 16), HexDigit(c as int % 16)]
    else [c]
  }

  /** The body of a string literal as JSON.stringify writes it: never a control character. */
  function Escape(s: string): (r: string)
    ensures Printable(r)
  {
    if s == [] then [] else EscapeChar(s[0]) + Escape(s[1..])
  }

  /** JSON.stringify of a string. */
  function Quote(s: string): string
  {
    "\"" + Escape(s) + "\""
  }

  lemma QuotePrintable(s: string)
    ensures Printable(Quote(s))
  {
    PrintableAppend("\"", Escape(s));
    PrintableAppend("\"" + Escape(s), "\"");
  }

  /** The character a two-character escape `\e` stands for. */
  function ShortEscape(e: char): Option<char>
  {
    if e == '"' then Some('"')
    else if e == '\\' then Some('\\')
    else if e == '/' then Some('/')
    else if e == 'b' then Some('\U{8}')
    else if e == 'f' then Some('\U{C}')
    else if e == 'n' then Some('\n')
    else if e == 'r' then Some('\r')
    else if e == 't' then Some('\t')
    else None
  }

  /** The code unit of the four hexadecimal digits of a \u escape. */
  function Hex4(s: string): (v: Option<nat>)
    requires |s| == 4
    ensures v.Some? ==> v.value < 0x10000
  {
    var a, b, c, d := HexValue(s[0]), HexValue(s[1]), HexValue(s[2]), HexValue(s[3]);
    if a.Some? && b.Some? && c.Some? && d.Some?
    then Some(((a.value * 16 + b.value) * 16 + c.value) * 16 + d.value)
    else None
  }

  /** A code unit that stands for a character on its own (not half of a surrogate pair). */
  predicate IsScalar(n: nat)
  {
    n < 0xD800 || 0xE000 <= n < 0x11_0000
  }

  function Cons(c: char, r: Option<(string, string)>): Option<(string, string)>
  {
    match r
    case None => None
    case Some((v, rest)) => Some(([c] + v, rest))
  }

  /**
   * Reads the body of a string literal up to and including its closing quote.
   * Gives the decoded value and the text after the quote, or None when the
   * text is not a string literal body.
   */
  function ParseStringBody(s: string): Option<(string, string)>
    decreases |s|
  {
    if s == [] then None
    else if s[0] == '"' then Some(([], s[1..]))
    else if s[0] < ' ' then None
    else if s[0] != '\\' then Cons(s[0], ParseStringBody(s[1..]))
    else if |s| >= 2 && ShortEscape(s[1]).Some? then Cons(ShortEscape(s[1]).value, ParseStringBody(s[2..]))
    else if |s| >= 6 && s[1] == 'u' && Hex4(s[2..6]).Some? && IsScalar(Hex4(s[2..6]).value)
    then Cons(Hex4(s[2..6]).value as char, ParseStringBody(s[6..]))
    else None
  }

  /** Reads one string literal at the start of `s`. */
  function ParseString(s: string): Option<(string, string)>
  {
    if s != [] && s[0] == '"' then ParseStringBody(s[1..]) else None
  }

  lemma ParseEscapedChar(c: char, rest: string)
    ensures ParseStringBody(EscapeChar(c) + rest) == Cons(c, ParseStringBody(rest))
  {
    var s := EscapeChar(c) + rest;
    if c < ' ' && c != '\U{8}' && c != '\t' && c != '\n' && c != '\U{C}' && c != '\r' {
      ParseControlChar(c, rest);
    } else if |EscapeChar(c)| == 2 {
      assert s[2..] == rest;
    } else {
      assert s[1..] == rest;
    }
  }

  lemma ParseControlChar(c: char, rest: string)
    requires c < ' ' && c != '\U{8}' && c != '\t' && c != '\n' && c != '\U{C}' && c != '\r'
    ensures ParseStringBody(EscapeChar(c) + rest) == Cons(c, ParseStringBody(rest))
  {
    var s := EscapeChar(c) + rest;
    var n := c as int;
    assert s[2..6] == "00" + [HexDigit(n / 16), HexDigit(n % 16)];
    assert Hex4(s[2..6]) == Some(n);
    assert s[6..] == rest;
  }

  /** Reading back what JSON.stringify wrote gives the original string and leaves what follows. */
  lemma {:induction false} ParseQuoted(s: string, tail: string)
    ensures ParseString(Quote(s) + tail) == Some((s, tail))
  {
    assert (Quote(s) + tail)[1..] == Escape(s) + "\"" + tail;
    ParseEscaped(s, tail);
  }

  lemma {:induction false} ParseEscaped(s: string, tail: string)
    ensures ParseStringBody(Escape(s) + "\"" + tail) == Some((s, tail))
  {
    if s == [] {
      assert Escape(s) + "\"" + tail == "\"" + tail;
    } else {
      var rest := Escape(s[1..]) + "\"" + tail;
      assert Escape(s) + "\"" + tail == EscapeChar(s[0]) + rest;
      ParseEscapedChar(s[0], rest);
      ParseEscaped(s[1..], tail);
      assert [s[0]] + s[1..] == s;
    }
  }

  /** A parse that succeeds reads the same when more text follows: the extra text lands after it. */
  lemma {:induction false} ParseStringBodyExtend(a: string, b: string)
    requires ParseStringBody(a).Some?
    ensures ParseStringBody(a + b) == Some((ParseStringBody(a).value.0, ParseStringBody(a).value.1 + b))
    decreases |a|
  {
    if a[0] == '"' {
      assert (a + b)[1..] == a[1..] + b;
    } else if a[0] != '\\' {
      assert (a + b)[1..] == a[1..] + b;
      ParseStringBodyExtend(a[1..], b);
    } else if |a| >= 2 && ShortEscape(a[1]).Some? {
      assert (a + b)[2..] == a[2..] + b;
      ParseStringBodyExtend(a[2..], b);
    } else {
      assert (a + b)[2..6] == a[2..6];
      assert (a + b)[6..] == a[6..] + b;
      ParseStringBodyExtend(a[6..], b);
    }
  }

  lemma ParseStringExtend(a: string, b: string)
    requires ParseString(a).Some?
    ensures ParseString(a + b) == Some((ParseString(a).value.0, ParseString(a).value.1 + b))
  {
    assert (a + b)[1..] == a[1..] + b;
    ParseStringBodyExtend(a[1..], b);
  }

  /** No proper prefix of a written string literal and its tail parses as the literal followed by that tail. */
  lemma ParseCutQuoted(s: string, tail: string, m: nat)
    requires m < |Quote(s) + tail|
    ensures ParseString((Quote(s) + tail)[..m]).Some? ==> ParseString((Quote(s) + tail)[..m]).value.1 != tail
  {
    var w := Quote(s) + tail;
    if ParseString(w[..m]).Some? {
      var rest := ParseString(w[..m]).value.1;
      ParseStringExtend(w[..m], w[m..]);
      assert w[..m] + w[m..] == w;
      ParseQuoted(s, tail);
      assert rest + w[m..] == tail;
      assert |rest| < |tail|;
    }
  }

  /** In what JSON.stringify writes for one character, a quote only ever follows a backslash. */
  lemma EscapeCharQuote(c: char, i: nat)
    requires i < |EscapeChar(c)| && EscapeChar(c)[i] == '"'
    ensures i == 1 && EscapeChar(c)[0] == '\\'
  {
    if c < ' ' && c != '\U{8}' && c != '\t' && c != '\n' && c != '\U{C}' && c != '\r' {
      var n := c as int;
      assert EscapeChar(c) == "\\u00" + [HexDigit(n / 16), HexDigit(n % 16)];
    }
  }

  /** In an escaped string body, every quote follows a backslash. */
  lemma {:induction false} EscapeQuotes(s: string)
    ensures forall i :: 0 <= i < |Escape(s)| && Escape(s)[i] == '"' ==> 0 < i && Escape(s)[i - 1] == '\\'
    decreases |s|
  {
    if s != [] {
      var head, rest := EscapeChar(s[0]), Escape(s[1..]);
      EscapeQuotes(s[1..]);
      assert Escape(s) == head + rest;
      forall i | 0 <= i < |Escape(s)| && Escape(s)[i] == '"'
        ensures 0 < i && Escape(s)[i - 1] == '\\'
      {
        if i < |head| {
          EscapeCharQuote(s[0], i);
        } else {
          assert rest[i - |head|] == '"';
          assert head != [];
        }
      }
    }
  }

  function Digit(d: nat): (c: char)
    requires d < 10
    ensures IsDigit(c) && DigitValue(c) == d
  {
    ('0' as int + d) as char
  }

  /** The decimal text JavaScript writes for a non-negative integer: digits, no leading zero. */
  function NatToString(n: nat): (r: string)
    ensures r != [] && forall i :: 0 <= i < |r| ==> IsDigit(r[i])
    ensures r[0] == '0' ==> r == "0"
    decreases n
  {
    if n < 10 then [Digit(n)] else NatToString(n / 10) + [Digit(n % 10)]
  }

  function DigitsValue(ds: string): nat
    requires forall i :: 0 <= i < |ds| ==> IsDigit(ds[i])
  {
    if ds == [] then 0 else DigitsValue(ds[..|ds| - 1]) * 10 + DigitValue(ds[|ds| - 1])
  }

  function DigitValue(c: char): nat
    requires IsDigit(c)
  {
    c as int - '0' as int
  }

  lemma {:induction false} DigitsValueOfNatToString(n: nat)
    ensures DigitsValue(NatToString(n)) == n
    decreases n
  {
    if n >= 10 {
      var r := NatToString(n);
      assert r[..|r| - 1] == NatToString(n / 10);
      DigitsValueOfNatToString(n / 10);
    }
  }

  /** Length of the run of digits at the start of `s`. */
  function DigitRun(s: string): (k: nat)
    ensures k <= |s|
    ensures forall i :: 0 <= i < k ==> IsDigit(s[i])
    ensures k < |s| ==> !IsDigit(s[k])
  {
    if s != [] && IsDigit(s[0]) then 1 + DigitRun(s[1..]) else 0
  }

  /** Reads one non-negative integer (no sign, fraction or exponent) at the start of `s`. */
  function ParseNat(s: string): Option<(nat, string)>
  {
    var k := DigitRun(s);
    if k == 0 || (k > 1 && s[0] == '0') then None
    else Some((DigitsValue(s[..k]), s[k..]))
  }

  lemma {:induction false} DigitRunOfDigits(r: string, tail: string)
    requires forall i :: 0 <= i < |r| ==> IsDigit(r[i])
    requires tail == [] || !IsDigit(tail[0])
    ensures DigitRun(r + tail) == |r|
  {
    if r != [] {
      assert (r + tail)[1..] == r[1..] + tail;
      DigitRunOfDigits(r[1..], tail);
    } else {
      assert r + tail == tail;
    }
  }

  /** Reading back a written integer gives it back and leaves what follows. */
  lemma ParseNatToString(n: nat, tail: string)
    requires tail == [] || !IsDigit(tail[0])
    ensures ParseNat(NatToString(n) + tail) == Some((n, tail))
  {
    var r := NatToString(n);
    DigitRunOfDigits(r, tail);
    assert (r + tail)[..|r|] == r;
    assert (r + tail)[|r|..] == tail;
    DigitsValueOfNatToString(n);
  }
}
