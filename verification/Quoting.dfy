/** The quoted form of a string that the verb %q prints, and how it is read back. */
module Quoting {

  const HEX_DIGITS := "0123456789abcdef"

  /** The last digits of a number in base 16. */
  function Hex(n: nat, digits: nat): (s: string)
    ensures |s| == digits
  {
    if digits == 0 then "" else Hex(n / 16, digits - 1) + [HEX_DIGITS[n % 16]]
  }

  function Power16(digits: nat): nat { if digits == 0 then 1 else 16 * Power16(digits - 1) }

  lemma {:induction false} HexInjective(m: nat, n: nat, digits: nat)
    requires m < Power16(digits) && n < Power16(digits) && Hex(m, digits) == Hex(n, digits)
    ensures m == n
  {
    if digits > 0 {
      var s, t := Hex(m, digits), Hex(n, digits);
      assert s[..digits - 1] == Hex(m / 16, digits - 1) && t[..digits - 1] == Hex(n / 16, digits - 1);
      HexInjective(m / 16, n / 16, digits - 1);
      assert s[digits - 1] == HEX_DIGITS[m % 16] && t[digits - 1] == HEX_DIGITS[n % 16];
      DigitsDiffer(m % 16, n % 16);
    }
  }

  lemma DigitsDiffer(i: nat, j: nat)
    requires i < 16 && j < 16 && HEX_DIGITS[i] == HEX_DIGITS[j]
    ensures i == j
  {
  }

  /** The letter of a control character with an escape of its own. */
  function ControlLetter(c: char): string {
    if c == '\U{07}' then "a"
    else if c == '\U{08}' then "b"
    else if c == '\U{0C}' then "f"
    else if c == '\n' then "n"
    else if c == '\r' then "r"
    else if c == '\t' then "t"
    else if c == '\U{0B}' then "v"
    else ""
  }

  /** What follows the backslash of an escaped character. */
  function EscapeBody(c: char): (s: string)
    ensures s != ""
  {
    var n := c as int;
    if c == '"' || c == '\\' then [c]
    else if ControlLetter(c) != "" then ControlLetter(c)
    else if n < 0x20 || n == 0x7F then "x" + Hex(n, 2)
    else if n < 0x10000 then "u" + Hex(n, 4)
    else "U" + Hex(n, 8)
  }

  predicate IsRaw(printable: char -> bool, c: char) { c != '"' && c != '\\' && printable(c) }

  function QuoteChar(printable: char -> bool, c: char): (s: string)
    ensures s != "" && s[0] != '"'
  {
    if IsRaw(printable, c) then [c] else ['\\'] + EscapeBody(c)
  }

  function QuoteBody(printable: char -> bool, s: string): string {
    if s == "" then "" else QuoteChar(printable, s[0]) + QuoteBody(printable, s[1..])
  }

  function Quote(printable: char -> bool, s: string): string {
    "\"" + QuoteBody(printable, s) + "\""
  }

  lemma PowersOf16()
    ensures Power16(2) == 0x100 && Power16(4) == 0x10000 && Power16(8) == 0x1_0000_0000
  {
  }

  /** No escape is the beginning of another one. */
  lemma EscapesArePrefixFree(c: char, d: char, x: string, y: string)
    requires EscapeBody(c) + x == EscapeBody(d) + y
    ensures c == d && x == y
  {
    var s, t := EscapeBody(c), EscapeBody(d);
    assert (s + x)[0] == s[0] && (t + y)[0] == t[0];
    assert |s| == |t|;
    assert s == (s + x)[..|s|] && t == (t + y)[..|s|];
    assert x == (s + x)[|s|..] && y == (t + y)[|s|..];
    if |s| > 1 {
      assert s[1..] == t[1..];
      PowersOf16();
      HexInjective(c as int, d as int, |s| - 1);
    }
  }

  lemma CharsArePrefixFree(printable: char -> bool, c: char, d: char, x: string, y: string)
    requires QuoteChar(printable, c) + x == QuoteChar(printable, d) + y
    ensures c == d && x == y
  {
    hide EscapeBody;
    var s, t := QuoteChar(printable, c), QuoteChar(printable, d);
    assert (s + x)[0] == s[0] && (t + y)[0] == t[0];
    if IsRaw(printable, c) {
      assert x == (s + x)[1..] && y == (t + y)[1..];
    } else {
      assert EscapeBody(c) + x == (s + x)[1..] && EscapeBody(d) + y == (t + y)[1..];
      EscapesArePrefixFree(c, d, x, y);
    }
  }

  /** The rest of a quoted text with what follows it. */
  function Tail(printable: char -> bool, v: string, x: string): string {
    QuoteBody(printable, v) + ("\"" + x)
  }

  lemma TailStep(printable: char -> bool, v: string, x: string)
    ensures v == "" ==> Tail(printable, v, x) == "\"" + x
    ensures v != "" ==> Tail(printable, v, x) == QuoteChar(printable, v[0]) + Tail(printable, v[1..], x)
    ensures Tail(printable, v, x) != "" && (v == "" <==> Tail(printable, v, x)[0] == '"')
  {
  }

  /** A quoted text can be read back whatever follows it. */
  lemma {:induction false} QuoteIsReadBack(printable: char -> bool, v: string, w: string, x: string, y: string)
    requires Tail(printable, v, x) == Tail(printable, w, y)
    ensures v == w && x == y
  {
    TailStep(printable, v, x);
    TailStep(printable, w, y);
    hide Tail, QuoteChar;
    if v == "" {
      assert x == ("\"" + x)[1..] && y == ("\"" + y)[1..];
    } else {
      CharsArePrefixFree(printable, v[0], w[0], Tail(printable, v[1..], x), Tail(printable, w[1..], y));
      QuoteIsReadBack(printable, v[1..], w[1..], x, y);
      assert v == [v[0]] + v[1..] && w == [w[0]] + w[1..];
    }
  }

  lemma EscapeHasOneQuote(c: char, i: nat)
    requires i < |EscapeBody(c)| && EscapeBody(c)[i] == '"'
    ensures i == 0
  {
    if i > 0 {
      HexHasNoQuote(c as int, |EscapeBody(c)| - 1, i - 1);
    }
  }

  lemma {:induction false} HexHasNoQuote(n: nat, digits: nat, i: nat)
    requires i < digits
    ensures Hex(n, digits)[i] != '"'
  {
    if i < digits - 1 {
      HexHasNoQuote(n / 16, digits - 1, i);
    }
  }

  /** Inside a quoted text, a quote follows a backslash. */
  lemma {:induction false} InnerQuotesAreEscaped(printable: char -> bool, v: string, i: nat)
    requires i < |QuoteBody(printable, v)| && QuoteBody(printable, v)[i] == '"'
    ensures i > 0 && QuoteBody(printable, v)[i - 1] == '\\'
  {
    var s := QuoteChar(printable, v[0]);
    if i >= |s| {
      InnerQuotesAreEscaped(printable, v[1..], i - |s|);
    } else {
      assert s[i] == '"' && i > 0;
      EscapeHasOneQuote(v[0], i - 1);
    }
  }
}
