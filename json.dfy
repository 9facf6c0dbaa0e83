/** The dynamic values that attribute queries and document attributes carry, and Go's
    `json.Marshal` of them: the encoding `AttrQuery.ToFilter` writes into a filter string.
    Strings are escaped as `encoding/json` does with HTML escaping on. `Unquote` is an
    independent reading of a JSON string body, and `UnquoteQuote` shows the encoding is
    read back unchanged. */
module Json {
  import opened Wrappers
  import GoStrings

  /** A value held in an `interface{}` field. A pointer is always non-nil where one is
      stored, and `reflect.DeepEqual` compares pointers by what they point to, so a
      pointer is represented by its target and `==` on `Value` is `reflect.DeepEqual`. */
  datatype Value =
    | VString(s: string)            // string
    | VInt(n: int)                  // int64
    | VIntRef(n: int)               // *int64
    | VBoolRef(b: bool)             // *bool
    | VStrings(ss: seq<string>)     // []string

  const HexDigits := "0123456789abcdef"

  function Hex(d: nat): char
    requires d < 16
  {
    HexDigits[d]
  }

  /** The escape of one character inside a quoted string. */
  function EscapeChar(c: char): string
  {
    var n := c as int;
    if c == '"' then "\\\""
    else if c == '\\' then "\\\\"
    else if n == 8 then "\\b"
    else if n == 12 then "\\f"
    else if c == '\n' then "\\n"
    else if c == '\r' then "\\r"
    else if c == '\t' then "\\t"
    else if n < 0x20 || c == '<' || c == '>' || c == '&' then ['\\', 'u', '0', '0', Hex(n / 16), Hex(n % 16)]
    else if n == 0x2028 || n == 0x2029 then ['\\', 'u', '2', '0', '2', Hex(n % 16)]
    else [c]
  }

  function EscapeBody(s: string): string
  {
    if s == [] then [] else EscapeChar(s[0]) + EscapeBody(s[1..])
  }

  /** A string as a JSON string literal. */
  function Quote(s: string): string
  {
    "\"" + EscapeBody(s) + "\""
  }

  function QuoteAll(ss: seq<string>): seq<string>
  {
    if ss == [] then [] else [Quote(ss[0])] + QuoteAll(ss[1..])
  }

  /** json.Marshal of a value. */
  function Encode(v: Value): string
  {
    match v
    case VString(s) => Quote(s)
    case VInt(n) => GoStrings.FormatInt(n)
    case VIntRef(n) => GoStrings.FormatInt(n)
    case VBoolRef(b) => if b then "true" else "false"
    case VStrings(ss) => "[" + GoStrings.Join(QuoteAll(ss), ",") + "]"
  }

  // ---------------------------------------------------------------------------------------
  // Reading a JSON string body back (section 7 of RFC 8259)

  function HexValue(c: char): Option<nat>
  {
    if '0' <= c <= '9' then Some(c as int - '0' as int)
    else if 'a' <= c <= 'f' then Some(c as int - 'a' as int + 10)
    else if 'A' <= c <= 'F' then Some(c as int - 'A' as int + 10)
    else None
  }

  function Prepend(c: char, r: Option<string>): Option<string>
  {
    if r.Some? then Some([c] + r.value) else None
  }

  /** The code point of a `\uXXXX` escape whose four digits start at `t[2]`, when they
      are hex digits and name a character. */
  function Code4(t: string): Option<char>
    requires |t| >= 6
  {
    var a, b, c, d := HexValue(t[2]), HexValue(t[3]), HexValue(t[4]), HexValue(t[5]);
    if a.Some? && b.Some? && c.Some? && d.Some? then
      var n := ((a.value * 16 + b.value) * 16 + c.value) * 16 + d.value;
      if 0xD800 <= n < 0xE000 then None else Some(n as char)
    else None
  }

  /** The text a JSON string body stands for, or None when it is not a valid body: an
      unescaped quote or control character, or an unknown escape. */
  function Unquote(t: string): Option<string>
    decreases |t|
  {
    if t == [] then Some([])
    else if t[0] == '"' || (t[0] as int) < 0x20 then None
    else if t[0] != '\\' then Prepend(t[0], Unquote(t[1..]))
    else if |t| < 2 then None
    else if t[1] == '"' || t[1] == '\\' || t[1] == '/' then Prepend(t[1], Unquote(t[2..]))
    else if t[1] == 'b' then Prepend(8 as char, Unquote(t[2..]))
    else if t[1] == 'f' then Prepend(12 as char, Unquote(t[2..]))
    else if t[1] == 'n' then Prepend('\n', Unquote(t[2..]))
    else if t[1] == 'r' then Prepend('\r', Unquote(t[2..]))
    else if t[1] == 't' then Prepend('\t', Unquote(t[2..]))
    else if t[1] == 'u' && |t| >= 6 && Code4(t).Some? then Prepend(Code4(t).value, Unquote(t[6..]))
    else None
  }

  lemma HexValueHex(d: nat)
    requires d < 16
    ensures HexValue(Hex(d)) == Some(d)
  {
  }

  /** One escaped character is read back as that character. */
  lemma UnquoteEscapeChar(c: char, rest: string)
    ensures Unquote(EscapeChar(c) + rest) == Prepend(c, Unquote(rest))
  {
    var n := c as int;
    var e := EscapeChar(c) + rest;
    if |EscapeChar(c)| == 6 {
      if n < 0x20 || c == '<' || c == '>' || c == '&' {
        HexValueHex(n / 16);
      }
      HexValueHex(n % 16);
      assert e[6..] == rest;
      assert Code4(e) == Some(c);
    } else if |EscapeChar(c)| == 2 {
      assert e[2..] == rest;
    } else {
      assert e[1..] == rest;
    }
  }

  /** The escaped body of a string is read back as the string. */
  lemma {:induction false} UnquoteEscapeBody(s: string)
    ensures Unquote(EscapeBody(s)) == Some(s)
  {
    if s != [] {
      UnquoteEscapeBody(s[1..]);
      UnquoteEscapeChar(s[0], EscapeBody(s[1..]));
      assert [s[0]] + s[1..] == s;
    }
  }

  /** A quoted string is a quote, a valid body for exactly that string, and a quote. */
  lemma UnquoteQuote(s: string)
    ensures var q := Quote(s);
      |q| >= 2 && q[0] == '"' && q[|q| - 1] == '"' && Unquote(q[1..|q| - 1]) == Some(s)
  {
    var q := Quote(s);
    assert q[1..|q| - 1] == EscapeBody(s);
    UnquoteEscapeBody(s);
  }

  /** Different strings have different encodings. */
  lemma QuoteInjective(s: string, t: string)
    requires Quote(s) == Quote(t)
    ensures s == t
  {
    UnquoteQuote(s);
    UnquoteQuote(t);
  }

  /** The encoding of a string never contains a raw `<`, `>`, `&` or control character,
      so a filter string never carries one from a value. */
  lemma {:induction false} EscapeBodyHtmlSafe(s: string)
    ensures forall k :: 0 <= k < |EscapeBody(s)| ==>
      var c := EscapeBody(s)[k]; c != '<' && c != '>' && c != '&' && (c as int) >= 0x20
  {
    if s != [] {
      EscapeBodyHtmlSafe(s[1..]);
      var e, rest := EscapeChar(s[0]), EscapeBody(s[1..]);
      EscapeCharSafe(s[0]);
      assert EscapeBody(s) == e + rest;
      forall k | 0 <= k < |e + rest|
        ensures var c := (e + rest)[k]; c != '<' && c != '>' && c != '&' && (c as int) >= 0x20
      {
        if k < |e| { assert (e + rest)[k] == e[k]; } else { assert (e + rest)[k] == rest[k - |e|]; }
      }
    }
  }

  /** The escape of one character has no raw `<`, `>`, `&` or control character. */
  lemma EscapeCharSafe(c: char)
    ensures forall k :: 0 <= k < |EscapeChar(c)| ==>
      var x := EscapeChar(c)[k]; x != '<' && x != '>' && x != '&' && (x as int) >= 0x20
  {
  }
}
