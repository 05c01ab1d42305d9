// JSON strings as encoding/json writes them with HTML escaping off: section 7 of
// RFC 8259, with the short escapes for backspace, form feed, newline, carriage
// return and tab, and the six-character escape for the other control characters and
// for U+2028 and U+2029.
module Json {
  import opened Decimal

  function HexDigit(n: nat): (c: char)
    requires n < 16
  {
    if n < 10 then '0' + n as char else 'a' + (n - 10) as char
  }

  function HexValue(c: char): Option<nat> {
    if '0' <= c <= '9' then Some(c as int - '0' as int)
    else if 'a' <= c <= 'f' then Some(c as int - 'a' as int + 10)
    else None
  }

  /** The characters written for c inside a JSON string. */
  function EscapeChar(c: char): (s: string)
    ensures s != []
  {
    if c == '"' then "\\\""
    else if c == '\\' then "\\\\"
    else if c == '\U{8}' then "\\b"
    else if c == '\U{C}' then "\\f"
    else if c == '\n' then "\\n"
    else if c == '\r' then "\\r"
    else if c == '\t' then "\\t"
    else if c < ' ' then "\\u00" + [HexDigit(c as int / 16), HexDigit(c as int % 16)]
    else if c == '\U{2028}' then "\\u2028"
    else if c == '\U{2029}' then "\\u2029"
    else [c]
  }

  function Escape(s: string): string {
    if s == [] then [] else EscapeChar(s[0]) + Escape(s[1..])
  }

  /** The JSON string of s followed by rest. */
  function Quoted(s: string, rest: string): string { "\"" + (Escape(s) + ("\"" + rest)) }

  /** The character four hex digits denote, unless it is a surrogate. */
  function CodePoint(s: string): Option<char>
    requires |s| == 4
  {
    var a :- HexValue(s[0]);
    var b :- HexValue(s[1]);
    var c :- HexValue(s[2]);
    var d :- HexValue(s[3]);
    var n := ((a * 16 + b) * 16 + c) * 16 + d;
    if 0xD800 <= n < 0xE000 || n > 0xFFFF then None else Some(n as char)
  }

  /** Reads one, possibly escaped, character; fails on an unescaped quote. */
  function ReadChar(s: string): (r: Option<(char, string)>)
    ensures r.Some? ==> |r.value.1| < |s|
  {
    if s == [] || s[0] == '"' then None
    else if s[0] != '\\' then Some((s[0], s[1..]))
    else if |s| < 2 then None
    else if s[1] == 'u' then
      if |s| < 6 then None else
      var c :- CodePoint(s[2..6]);
      Some((c, s[6..]))
    else
      var c :- ShortEscape(s[1]);
      Some((c, s[2..]))
  }

  function ShortEscape(c: char): Option<char> {
    if c == '"' || c == '\\' then Some(c)
    else if c == 'b' then Some('\U{8}')
    else if c == 'f' then Some('\U{C}')
    else if c == 'n' then Some('\n')
    else if c == 'r' then Some('\r')
    else if c == 't' then Some('\t')
    else None
  }

  /** Reads the rest of a string after its opening quote. */
  function ReadTail(s: string): (r: Option<(string, string)>)
    ensures r.Some? ==> |r.value.1| < |s|
    decreases |s|
  {
    if s != [] && s[0] == '"' then Some(("", s[1..])) else
    var (c, after) :- ReadChar(s);
    var (text, rest) :- ReadTail(after);
    Some(([c] + text, rest))
  }

  function ReadString(s: string): (r: Option<(string, string)>)
    ensures r.Some? ==> |r.value.1| < |s|
  {
    if s == [] || s[0] != '"' then None else ReadTail(s[1..])
  }

  lemma ReadEscapedControl(c: char, rest: string)
    requires c < ' '
    ensures CodePoint(['0', '0', HexDigit(c as int / 16), HexDigit(c as int % 16)]) == Some(c)
  {
    assert HexValue('0') == Some(0);
    assert HexValue(HexDigit(c as int / 16)) == Some(c as int / 16);
    assert HexValue(HexDigit(c as int % 16)) == Some(c as int % 16);
  }

  lemma ReadEscapedChar(c: char, rest: string)
    ensures ReadChar(EscapeChar(c) + rest) == Some((c, rest))
    ensures (EscapeChar(c) + rest)[0] != '"'
  {
    var e := EscapeChar(c);
    var s := e + rest;
    assert s[|e|..] == rest;
    if |e| == 6 {
      assert s[2..6] == e[2..6];
      if c < ' ' {
        assert e[2..6] == ['0', '0', HexDigit(c as int / 16), HexDigit(c as int % 16)];
        ReadEscapedControl(c, rest);
      } else {
        assert e[2..6] == ['2', '0', '2', if c == '\U{2028}' then '8' else '9'];
      }
    }
  }

  lemma {:induction false} ReadEscaped(s: string, rest: string)
    ensures ReadTail(Escape(s) + ("\"" + rest)) == Some((s, rest))
  {
    var closing := "\"" + rest;
    if s == [] {
      assert Escape(s) + closing == closing;
      assert closing[1..] == rest;
    } else {
      var after := Escape(s[1..]) + closing;
      assert Escape(s) + closing == EscapeChar(s[0]) + after;
      ReadEscapedChar(s[0], after);
      ReadEscaped(s[1..], rest);
      assert [s[0]] + s[1..] == s;
    }
  }

  /** Every string survives escaping: reading it back gives it and what followed. */
  lemma ReadStringRoundTrip(s: string, rest: string)
    ensures ReadString(Quoted(s, rest)) == Some((s, rest))
  {
    ReadEscaped(s, rest);
    assert Quoted(s, rest)[1..] == Escape(s) + ("\"" + rest);
  }

  /** Reads a literal. */
  function Expect(lit: string, s: string): (r: Option<string>)
    ensures r.Some? ==> |r.value| == |s| - |lit|
  {
    if lit <= s then Some(s[|lit|..]) else None
  }

  lemma ExpectRoundTrip(lit: string, rest: string)
    ensures Expect(lit, lit + rest) == Some(rest)
  {
  }
}
