/** Go's double-quoted strings: what `%q` writes and strconv.Unquote reads back. */
module Strconv {
  import opened Wrappers
  import opened Text

  /** Which characters Go's tables call printable; a line feed is not one. */
  type Printable = p: char -> bool | !p('\n') witness c => c != '\n'

  function HexDigit(n: nat): char
    requires n < 16
  {
    "0123456789abcdef"[n]
  }

  function HexValue(c: char): Option<nat> {
    if '0' <= c <= '9' then Some(c as int - '0' as int)
    else if 'a' <= c <= 'f' then Some(c as int - 'a' as int + 10)
    else if 'A' <= c <= 'F' then Some(c as int - 'A' as int + 10)
    else None
  }

  function Pow16(d: nat): nat {
    if d == 0 then 1 else 16 * Pow16(d - 1)
  }

  /** `n` in `d` lower-case hexadecimal digits. */
  function Hex(n: nat, d: nat): (r: string)
    ensures |r| == d
    ensures forall c :: c in r ==> HexValue(c).Some? && c != BACKSLASH && c != DOUBLE
  {
    if d == 0 then "" else Hex(n / 16, d - 1) + [HexDigit(n % 16)]
  }

  function ParseHex(s: string): Option<nat> {
    if s == "" then Some(0)
    else
      var high, low := ParseHex(s[..|s| - 1]), HexValue(s[|s| - 1]);
      if high.Some? && low.Some? then Some(16 * high.value + low.value) else None
  }

  lemma HexDigitValue(n: nat)
    requires n < 16
    ensures HexValue(HexDigit(n)) == Some(n)
  {
  }

  lemma {:induction false} ParseHexHex(n: nat, d: nat)
    requires n < Pow16(d)
    ensures ParseHex(Hex(n, d)) == Some(n)
  {
    if d > 0 {
      ParseHexHex(n / 16, d - 1);
      HexDigitValue(n % 16);
      var s := Hex(n, d);
      assert s[..|s| - 1] == Hex(n / 16, d - 1);
    }
  }

  /** One character inside the quotes, as `%q` writes it. */
  function EscapeChar(c: char, printable: Printable): (r: string)
    ensures r != "" && (r[0] != BACKSLASH ==> r == [c] && c != DOUBLE)
    ensures r[0] == BACKSLASH ==> |r| >= 2 && forall k :: 2 <= k < |r| ==> HexValue(r[k]).Some?
  {
    if c == DOUBLE || c == BACKSLASH then [BACKSLASH, c]
    else if printable(c) then [c]
    else if c == '\U{07}' then [BACKSLASH, 'a']
    else if c == '\U{08}' then [BACKSLASH, 'b']
    else if c == '\U{0C}' then [BACKSLASH, 'f']
    else if c == '\n' then [BACKSLASH, 'n']
    else if c == '\r' then [BACKSLASH, 'r']
    else if c == '\t' then [BACKSLASH, 't']
    else if c == '\U{0B}' then [BACKSLASH, 'v']
    else if c < ' ' || c == '\U{7F}' then [BACKSLASH, 'x'] + Hex(c as int, 2)
    else if c as int < 0x1_0000 then [BACKSLASH, 'u'] + Hex(c as int, 4)
    else [BACKSLASH, 'U'] + Hex(c as int, 8)
  }

  function EscapeAll(s: string, printable: Printable): string {
    if s == "" then "" else EscapeChar(s[0], printable) + EscapeAll(s[1..], printable)
  }

  /** strconv.Quote, `%q`. */
  function Quote(s: string, printable: Printable): string {
    [DOUBLE] + EscapeAll(s, printable) + [DOUBLE]
  }

  predicate IsScalar(n: nat) {
    n < 0xD800 || 0xE000 <= n < 0x11_0000
  }

  /** One escape after its backslash: the character and how much text it took. A `\x` or octal
      escape of 0x80 and up names a byte that is no character on its own, and reads as None here. */
  function UnescapeChar(s: string): (r: Option<(char, nat)>)
    ensures r.Some? ==> 0 < r.value.1 <= |s|
  {
    if s == "" then None
    else match s[0]
      case 'a' => Some(('\U{07}', 1))
      case 'b' => Some(('\U{08}', 1))
      case 'f' => Some(('\U{0C}', 1))
      case 'n' => Some(('\n', 1))
      case 'r' => Some(('\r', 1))
      case 't' => Some(('\t', 1))
      case 'v' => Some(('\U{0B}', 1))
      case '\\' => Some((BACKSLASH, 1))
      case '\"' => Some((DOUBLE, 1))
      case 'x' => UnescapeHex(s, 2, 0x80)
      case 'u' => UnescapeHex(s, 4, 0x11_0000)
      case 'U' => UnescapeHex(s, 8, 0x11_0000)
      case c =>
        if |s| >= 3 && forall k :: 0 <= k < 3 ==> '0' <= s[k] <= '7' then
          var n := 64 * (s[0] as int - '0' as int) + 8 * (s[1] as int - '0' as int) + (s[2] as int - '0' as int);
          if n < 0x80 then Some((n as char, 3)) else None
        else None
  }

  function UnescapeHex(s: string, digits: nat, limit: nat): (r: Option<(char, nat)>)
    ensures r.Some? ==> 0 < r.value.1 <= |s|
  {
    if |s| < 1 + digits then None
    else
      var n := ParseHex(s[1..1 + digits]);
      if n.Some? && n.value < limit && IsScalar(n.value) then Some((n.value as char, 1 + digits)) else None
  }

  function UnescapeAll(s: string): Option<string>
    decreases |s|
  {
    if s == "" then Some("")
    else if s[0] == DOUBLE || s[0] == '\n' then None
    else if s[0] != BACKSLASH then
      var rest := UnescapeAll(s[1..]);
      if rest.Some? then Some([s[0]] + rest.value) else None
    else
      var e := UnescapeChar(s[1..]);
      if e.None? then None
      else
        var rest := UnescapeAll(s[1 + e.value.1..]);
        if rest.Some? then Some([e.value.0] + rest.value) else None
  }

  /** strconv.Unquote of a double-quoted word. */
  function Unquote(w: string): Option<string> {
    if |w| >= 2 && w[0] == DOUBLE && w[|w| - 1] == DOUBLE then UnescapeAll(w[1..|w| - 1]) else None
  }

  lemma HexReads(x: char, c: char, d: nat, limit: nat, rest: string)
    requires c as int < Pow16(d) && c as int < limit
    ensures UnescapeHex([x] + Hex(c as int, d) + rest, d, limit) == Some((c, 1 + d))
  {
    var t := [x] + Hex(c as int, d) + rest;
    assert t[1..1 + d] == Hex(c as int, d);
    ParseHexHex(c as int, d);
  }

  lemma Powers()
    ensures Pow16(2) == 256 && Pow16(4) == 0x1_0000 && Pow16(8) == 0x1_0000_0000
  {
  }

  /** After its backslash, an escape reads as its character. */
  lemma EscapeReads(c: char, rest: string, printable: Printable)
    requires EscapeChar(c, printable)[0] == BACKSLASH
    ensures UnescapeChar(EscapeChar(c, printable)[1..] + rest) == Some((c, |EscapeChar(c, printable)| - 1))
  {
    var e := EscapeChar(c, printable);
    if |e| > 2 {
      var d := |e| - 2;
      Powers();
      assert e[1..] == [e[1]] + Hex(c as int, d);
      HexReads(e[1], c, d, if d == 2 then 0x80 else 0x11_0000, rest);
    } else {
      assert e[1..] == [e[1]] && ([e[1]] + rest)[0] == e[1];
    }
  }

  lemma UnescapeEscapeChar(c: char, rest: string, printable: Printable)
    ensures UnescapeAll(EscapeChar(c, printable) + rest) ==
            (var r := UnescapeAll(rest); if r.Some? then Some([c] + r.value) else None)
  {
    var e := EscapeChar(c, printable);
    var s := e + rest;
    assert s[|e|..] == rest;
    if e[0] == BACKSLASH {
      assert s[1..] == e[1..] + rest;
      EscapeReads(c, rest, printable);
    }
  }

  lemma {:induction false} UnescapeEscapeAll(s: string, printable: Printable)
    ensures UnescapeAll(EscapeAll(s, printable)) == Some(s)
  {
    if s != "" {
      UnescapeEscapeAll(s[1..], printable);
      assert s == [s[0]] + s[1..];
      UnescapeEscapeChar(s[0], EscapeAll(s[1..], printable), printable);
    }
  }

  lemma {:induction false} PlainUnescaped(s: string)
    requires forall k :: 0 <= k < |s| ==> s[k] != DOUBLE && s[k] != BACKSLASH && s[k] != '\n'
    ensures UnescapeAll(s) == Some(s)
  {
    if s != "" {
      PlainUnescaped(s[1..]);
      assert s == [s[0]] + s[1..];
    }
  }

  /** Reading back what `%q` wrote. */
  lemma UnquoteQuote(s: string, printable: Printable)
    ensures Unquote(Quote(s, printable)) == Some(s)
  {
    var w := Quote(s, printable);
    assert w[1..|w| - 1] == EscapeAll(s, printable);
    UnescapeEscapeAll(s, printable);
  }
}
