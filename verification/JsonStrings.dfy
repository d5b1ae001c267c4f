/** JSON string literals as `json.dumps(item, ensure_ascii=False)` writes them, and a reader for them. */
module JsonStrings {
  import opened Base

  /** What a reader consumed, and the text that follows. */
  datatype Read<+T> = Read(value: T, rest: string)

  function HexDigit(d: nat): char
    requires d < 16
  {
    if d < 10 then ('0' as int + d) as char else ('a' as int + d - 10) as char
  }

  function HexValue(c: char): Option<nat> {
    if '0' <= c <= '9' then Some(c as int - '0' as int)
    else if 'a' <= c <= 'f' then Some(c as int - 'a' as int + 10)
    else if 'A' <= c <= 'F' then Some(c as int - 'A' as int + 10)
    else None
  }

  function EscapeChar(c: char): string {
    if c == '"' then ['\\', '"']
    else if c == '\\' then ['\\', '\\']
    else if c as int == 8 then ['\\', 'b']
    else if c as int == 12 then ['\\', 'f']
    else if c == '\n' then ['\\', 'n']
    else if c == '\r' then ['\\', 'r']
    else if c == '\t' then ['\\', 't']
    else if c as int < 0x20 then ['\\', 'u', '0', '0', HexDigit(c as int / 16), HexDigit(c as int % 16)]
    else [c]
  }

  function Escaped(s: string): string {
    if s == "" then "" else EscapeChar(s[0]) + Escaped(s[1..])
  }

  function Quoted(s: string): string {
    ['"'] + Escaped(s) + ['"']
  }

  /** The character behind a one-letter escape. */
  function Unescaped(c: char): Option<char> {
    if c == '"' || c == '\\' || c == '/' then Some(c)
    else if c == 'b' then Some(8 as char)
    else if c == 'f' then Some(12 as char)
    else if c == 'n' then Some('\n')
    else if c == 'r' then Some('\r')
    else if c == 't' then Some('\t')
    else None
  }

  /** Four hexadecimal digits that name a character. */
  function ReadHex(s: string): Option<char>
    requires |s| == 4
  {
    var a, b, c, d := HexValue(s[0]), HexValue(s[1]), HexValue(s[2]), HexValue(s[3]);
    if a.None? || b.None? || c.None? || d.None? then None
    else
      var code := 0x1000 * a.value + 0x100 * b.value + 0x10 * c.value + d.value;
      if code < 0xD800 then Some(code as char)
      else if 0xE000 <= code < 0x10000 then Some(code as char)
      else None
  }

  /** One character of a literal, escaped or not. */
  function ReadChar(s: string): (r: Option<Read<char>>)
    ensures r.Some? ==> |r.value.rest| < |s|
  {
    if s == "" || s[0] == '"' || (s[0] as int) < 0x20 then None
    else if s[0] != '\\' then Some(Read(s[0], s[1..]))
    else if |s| < 2 then None
    else if s[1] == 'u' then
      if |s| < 6 then None
      else
        var c := ReadHex(s[2..6]);
        if c.None? then None else Some(Read(c.value, s[6..]))
    else
      var c := Unescaped(s[1]);
      if c.None? then None else Some(Read(c.value, s[2..]))
  }

  /** The characters up to the closing quote, which is consumed. */
  function ReadChars(s: string): (r: Option<Read<string>>)
    ensures r.Some? ==> |r.value.rest| < |s|
    decreases |s|
  {
    if s != "" && s[0] == '"' then Some(Read("", s[1..]))
    else
      match ReadChar(s)
      case None => None
      case Some(first) =>
        match ReadChars(first.rest)
        case None => None
        case Some(others) => Some(Read([first.value] + others.value, others.rest))
  }

  lemma EscapeReadsBack(c: char, rest: string)
    ensures EscapeChar(c)[0] != '"'
    ensures ReadChar(EscapeChar(c) + rest) == Some(Read(c, rest))
  {
    var e := EscapeChar(c);
    var s := e + rest;
    assert s[|e|..] == rest;
    assert s[..|e|] == e;
    if |e| == 6 {
      ControlReadsBack(c);
      assert s[2..6] == e[2..6];
    }
  }

  lemma ControlReadsBack(c: char)
    requires (c as int) < 0x20
    ensures ReadHex(['0', '0', HexDigit(c as int / 16), HexDigit(c as int % 16)]) == Some(c)
  {
    var h, l := c as int / 16, c as int % 16;
    assert HexValue(HexDigit(h)) == Some(h) && HexValue(HexDigit(l)) == Some(l);
    assert 0x10 * h + l == c as int;
  }

  /** Reading a literal gives the string that was written, and stops right behind it. */
  lemma {:induction false} StringReadsBack(s: string, rest: string)
    ensures ReadChars(Escaped(s) + ['"'] + rest) == Some(Read(s, rest))
  {
    var text := Escaped(s) + ['"'] + rest;
    if s == "" {
      assert text[1..] == rest;
    } else {
      var tail := Escaped(s[1..]) + ['"'] + rest;
      assert text == EscapeChar(s[0]) + tail;
      EscapeReadsBack(s[0], tail);
      StringReadsBack(s[1..], rest);
      assert s == [s[0]] + s[1..];
    }
  }

  // ---------------------------------------------------------------- the shortest literal

  /** No way of writing a character is shorter than the escape. */
  lemma EscapeIsShortest(text: string, c: char, rest: string)
    requires ReadChar(text) == Some(Read(c, rest))
    ensures |EscapeChar(c)| + |rest| <= |text|
  {
    hide ReadHex;
  }

  /**
   Section 3.2.2.2 of RFC 8785: every literal that reads back to the string is at least as long as the one written.
   */
  lemma {:induction false} LiteralIsShortest(text: string, s: string, rest: string)
    requires ReadChars(text) == Some(Read(s, rest))
    ensures |Escaped(s)| + 1 + |rest| <= |text|
    decreases |text|
  {
    if text == "" || text[0] != '"' {
      hide ReadChar, EscapeChar;
      var first := ReadChar(text).value;
      var others := ReadChars(first.rest).value;
      assert s == [first.value] + others.value && s[0] == first.value && s[1..] == others.value;
      EscapeIsShortest(text, first.value, first.rest);
      LiteralIsShortest(first.rest, others.value, rest);
    }
  }

  /** The same for the text between the quotes. */
  lemma EscapedIsShortest(t: string, s: string, rest: string)
    requires ReadChars(t + ['"'] + rest) == Some(Read(s, rest))
    ensures |Escaped(s)| <= |t|
  {
    LiteralIsShortest(t + ['"'] + rest, s, rest);
  }

  /** A character is written as itself, as a backslash and one character, or in hexadecimal with lower-case letters. */
  lemma EscapeForms(c: char)
    ensures var e := EscapeChar(c);
      || e == [c]
      || (|e| == 2 && e[0] == '\\')
      || (|e| == 6 && e[..4] == "\\u00" && ReadHex(e[2..]) == Some(c) &&
          forall i | 4 <= i < 6 :: '0' <= e[i] <= '9' || 'a' <= e[i] <= 'f')
  {
    if |EscapeChar(c)| == 6 {
      ControlReadsBack(c);
      assert EscapeChar(c)[2..] == ['0', '0', HexDigit(c as int / 16), HexDigit(c as int % 16)];
    }
  }
}
