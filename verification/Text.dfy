/** String operations of Go's standard library that the modelled code relies on. */
module Text {

  datatype Option<+T> = None | Some(value: T)

  /** The class `\s` of Go's regular expressions; `\S` is its complement. */
  predicate IsSpace(c: char) {
    c == ' ' || c == '\t' || c == '\n' || c == '\r' || c == '\U{00000C}'
  }

  /** A non-empty run of non-space characters: what `\S+` matches in full. */
  predicate IsWord(w: string) {
    w != "" && forall i :: 0 <= i < |w| ==> !IsSpace(w[i])
  }

  predicate AllWords(ws: seq<string>) {
    forall i :: 0 <= i < |ws| ==> IsWord(ws[i])
  }

  /** Length of the run of non-space characters that `s` starts with. */
  function WordLength(s: string): (n: nat)
    ensures n <= |s|
    ensures forall i :: 0 <= i < n ==> !IsSpace(s[i])
    ensures n < |s| ==> IsSpace(s[n])
  {
    if s == "" || IsSpace(s[0]) then 0 else 1 + WordLength(s[1..])
  }

  /** All maximal words of `s`, left to right: `FindAllString` with `\S+`. */
  function Fields(s: string): (ws: seq<string>)
    ensures AllWords(ws)
    decreases |s|
  {
    if s == "" then []
    else if IsSpace(s[0]) then Fields(s[1..])
    else var n := WordLength(s); [s[..n]] + Fields(s[n..])
  }

  /** A word followed by the end of the text or by a space is the first field. */
  lemma FieldsOfWord(w: string, rest: string)
    requires IsWord(w) && (rest == "" || IsSpace(rest[0]))
    ensures Fields(w + rest) == [w] + Fields(rest)
  {
    var s := w + rest;
    var n := WordLength(s);
    assert forall i :: 0 <= i < |w| ==> s[i] == w[i];
    assert rest != "" ==> s[|w|] == rest[0];
    assert n == |w|;
    assert s[..n] == w && s[n..] == rest;
  }

  /** Leading spaces do not change the fields. */
  lemma FieldsSkipSpaces(sp: string, rest: string)
    requires forall i :: 0 <= i < |sp| ==> IsSpace(sp[i])
    ensures Fields(sp + rest) == Fields(rest)
  {
    if sp == "" {
      assert sp + rest == rest;
    } else {
      assert (sp + rest)[1..] == sp[1..] + rest;
      FieldsSkipSpaces(sp[1..], rest);
    }
  }

  /** `strings.ReplaceAll` for a one-character pattern. */
  function ReplaceChar(s: string, c: char, replacement: string): string {
    if s == "" then "" else (if s[0] == c then replacement else [s[0]]) + ReplaceChar(s[1..], c, replacement)
  }

  lemma {:induction false} ReplaceAbsent(s: string, c: char, replacement: string)
    requires c !in s
    ensures ReplaceChar(s, c, replacement) == s
  {
    if s != "" {
      assert forall d :: d in s[1..] ==> d in s;
      ReplaceAbsent(s[1..], c, replacement);
    }
  }

  lemma {:induction false} ReplaceConcat(s: string, t: string, c: char, replacement: string)
    ensures ReplaceChar(s + t, c, replacement) == ReplaceChar(s, c, replacement) + ReplaceChar(t, c, replacement)
  {
    if s == "" {
      assert s + t == t;
    } else {
      assert (s + t)[1..] == s[1..] + t;
      ReplaceConcat(s[1..], t, c, replacement);
    }
  }

  /** `strings.Join`. */
  function Join(ws: seq<string>, sep: string): string {
    if ws == [] then ""
    else if |ws| == 1 then ws[0]
    else ws[0] + sep + Join(ws[1..], sep)
  }

  /** A word ends at the first space. */
  lemma FirstWord(v: string, x: string, w: string, y: string)
    requires IsWord(v) && IsWord(w) && v + (" " + x) == w + (" " + y)
    ensures v == w && x == y
  {
    var s := v + (" " + x);
    assert s[|v|] == ' ' && s[|w|] == ' ';
    assert (forall i :: 0 <= i < |v| ==> s[i] == v[i]) && forall i :: 0 <= i < |w| ==> s[i] == w[i];
    assert v == s[..|v|] && w == s[..|w|] && x == s[|v| + 1..] && y == s[|w| + 1..];
  }

  /** Two sequences of words of the same length with the same single-spaced text are the same. */
  lemma {:induction false} JoinInjective(a: seq<string>, b: seq<string>)
    requires AllWords(a) && AllWords(b) && |a| == |b|
    requires Join(a, " ") == Join(b, " ")
    ensures a == b
  {
    if |a| > 1 {
      var x, y := Join(a[1..], " "), Join(b[1..], " ");
      assert Join(a, " ") == a[0] + (" " + x) && Join(b, " ") == b[0] + (" " + y);
      FirstWord(a[0], x, b[0], y);
      JoinInjective(a[1..], b[1..]);
      assert a == [a[0]] + a[1..] && b == [b[0]] + b[1..];
    }
  }

  const DIGITS := "0123456789"

  predicate IsDigit(c: char) { '0' <= c <= '9' }

  /** `strconv.Itoa` on naturals. */
  function Itoa(n: nat): (s: string)
    ensures s != "" && forall i :: 0 <= i < |s| ==> IsDigit(s[i])
  {
    if n < 10 then [DIGITS[n]] else Itoa(n / 10) + [DIGITS[n % 10]]
  }

  /** The number that a text of decimal digits stands for. */
  function Atoi(s: string): nat {
    if s == "" then 0
    else
      var d := s[|s| - 1] as int - '0' as int;
      10 * Atoi(s[..|s| - 1]) + (if 0 <= d < 10 then d else 0)
  }

  /** Reading back a printed number gives the number. */
  lemma {:induction false} AtoiItoa(n: nat)
    ensures Atoi(Itoa(n)) == n
  {
    if n >= 10 {
      AtoiItoa(n / 10);
      assert Itoa(n)[..|Itoa(n)| - 1] == Itoa(n / 10);
    } else {
      assert Itoa(n)[..0] == "";
    }
  }

  /** White space as `strings.TrimSpace` and the `fmt` package see it. */
  predicate IsUnicodeSpace(c: char) {
    || '\t' <= c <= '\r' || c == ' ' || c == '\U{85}' || c == '\U{A0}' || c == '\U{1680}'
       || '\U{2000}' <= c <= '\U{200A}'
    || c == '\U{2028}' || c == '\U{2029}' || c == '\U{202F}' || c == '\U{205F}' || c == '\U{3000}'
  }

  /** `fmt.Sscanf` with the verb %d: white space without line breaks, a sign, digits, and then anything at all. */
  function ScanInt(s: string): Option<int> {
    if s == "" || s[0] == '\n' then None
    else if IsUnicodeSpace(s[0]) then ScanInt(s[1..])
    else if s[0] == '-' then Negated(ScanDigits(s[1..]))
    else if s[0] == '+' then ScanDigits(s[1..])
    else ScanDigits(s)
  }

  function ScanDigits(s: string): Option<int> {
    var n := DigitsAhead(s);
    if n == 0 then None else Some(Atoi(s[..n]))
  }

  function DigitsAhead(s: string): (n: nat)
    ensures n <= |s|
  {
    if s == "" || !IsDigit(s[0]) then 0 else 1 + DigitsAhead(s[1..])
  }

  function Negated(n: Option<int>): Option<int> { if n.None? then None else Some(-n.value) }

  lemma {:induction false} ScanWholeNumber(digits: string, rest: string)
    requires digits != "" && forall i :: 0 <= i < |digits| ==> IsDigit(digits[i])
    requires rest == "" || !IsDigit(rest[0])
    ensures DigitsAhead(digits + rest) == |digits| && ScanDigits(digits + rest) == Some(Atoi(digits))
  {
    var s := digits + rest;
    assert s[..|digits|] == digits;
    if |digits| == 1 {
      assert s[1..] == rest;
    } else {
      assert s[1..] == digits[1..] + rest;
      ScanWholeNumber(digits[1..], rest);
    }
  }

  lemma {:induction false} ScanSkipsSpace(space: string, s: string)
    requires forall i :: 0 <= i < |space| ==> IsUnicodeSpace(space[i]) && space[i] != '\n'
    ensures ScanInt(space + s) == ScanInt(s)
  {
    if space == "" {
      assert space + s == s;
    } else {
      assert (space + s)[1..] == space[1..] + s;
      ScanSkipsSpace(space[1..], s);
    }
  }

  predicate AllDigits(s: string) { s != "" && forall i :: 0 <= i < |s| ==> IsDigit(s[i]) }

  predicate IsBlankInLine(s: string) { forall i :: 0 <= i < |s| ==> IsUnicodeSpace(s[i]) && s[i] != '\n' }

  predicate EndsNumber(rest: string) { rest == "" || !IsDigit(rest[0]) }

  /** White space in one line, perhaps a sign, all digits up to some other character or the end, and their value. */
  ghost predicate ReadsAsNumber(s: string, value: int) {
    exists space, sign, digits, rest :: IsNumberText(s, space, sign, digits, rest, value)
  }

  predicate IsNumberText(s: string, space: string, sign: string, digits: string, rest: string, value: int) {
    && s == space + (sign + (digits + rest))
    && IsBlankInLine(space) && sign in ["", "+", "-"] && AllDigits(digits) && EndsNumber(rest)
    && value == if sign == "-" then -(Atoi(digits) as int) else Atoi(digits)
  }

  lemma ScanNumber(s: string, space: string, sign: string, digits: string, rest: string, value: int)
    requires IsNumberText(s, space, sign, digits, rest, value)
    ensures ScanInt(s) == Some(value)
  {
    ScanWholeNumber(digits, rest);
    ScanSkipsSpace(space, sign + (digits + rest));
    ScanBare(digits + rest);
    hide ScanDigits, IsUnicodeSpace;
    assert sign == "" ==> sign + (digits + rest) == digits + rest;
  }

  lemma ScanBare(s: string)
    requires s != "" && IsDigit(s[0])
    ensures ScanInt(s) == ScanInt("+" + s) == ScanDigits(s) && ScanInt("-" + s) == Negated(ScanDigits(s))
  {
    hide ScanDigits;
    assert ("-" + s)[1..] == s == ("+" + s)[1..];
  }

  lemma {:induction false} DigitsAheadAre(s: string)
    ensures var n := DigitsAhead(s); (n > 0 ==> AllDigits(s[..n])) && EndsNumber(s[n..])
  {
    if s != "" && IsDigit(s[0]) {
      var n := DigitsAhead(s[1..]);
      DigitsAheadAre(s[1..]);
      assert s[..n + 1] == [s[0]] + s[1..][..n];
      assert s[n + 1..] == s[1..][n..];
    }
  }

  lemma SignedParts(s: string) returns (sign: string, digits: string, rest: string)
    requires s != "" && !IsUnicodeSpace(s[0]) && ScanInt(s).Some?
    ensures IsNumberText(s, "", sign, digits, rest, ScanInt(s).value)
  {
    sign := if s[0] == '-' then "-" else if s[0] == '+' then "+" else "";
    var t := s[|sign|..];
    assert ScanInt(s) == if sign == "-" then Negated(ScanDigits(t)) else ScanDigits(t) by {
      assert s[0..] == s;
    }
    hide ScanInt;
    digits, rest := DigitParts(t);
    hide ScanDigits, Atoi, AllDigits;
    assert s == sign + t && s == "" + s;
  }

  lemma DigitParts(t: string) returns (digits: string, rest: string)
    requires ScanDigits(t).Some?
    ensures t == digits + rest && AllDigits(digits) && EndsNumber(rest) && ScanDigits(t) == Some(Atoi(digits))
  {
    hide Atoi;
    var n := DigitsAhead(t);
    digits, rest := t[..n], t[n..];
    DigitsAheadAre(t);
  }

  lemma SpaceInFront(c: char, s: string, space: string, sign: string, digits: string, rest: string, value: int)
    requires IsUnicodeSpace(c) && c != '\n' && IsNumberText(s, space, sign, digits, rest, value)
    ensures IsNumberText([c] + s, [c] + space, sign, digits, rest, value)
  {
    hide IsUnicodeSpace, Atoi, AllDigits;
    assert [c] + (space + (sign + (digits + rest))) == ([c] + space) + (sign + (digits + rest));
  }

  /** What is scanned has the parts of a number. */
  lemma {:induction false} ScannedParts(s: string) returns (space: string, sign: string, digits: string, rest: string)
    requires ScanInt(s).Some?
    ensures IsNumberText(s, space, sign, digits, rest, ScanInt(s).value)
  {
    hide IsNumberText, IsUnicodeSpace;
    if IsUnicodeSpace(s[0]) {
      space, sign, digits, rest := ScannedParts(s[1..]);
      SpaceInFront(s[0], s[1..], space, sign, digits, rest, ScanInt(s).value);
      space := [s[0]] + space;
      assert s == [s[0]] + s[1..];
    } else {
      space := "";
      sign, digits, rest := SignedParts(s);
    }
  }

  /** Exactly the texts that start with a number are scanned, to its value. */
  lemma ScanIff(s: string, value: int)
    ensures ScanInt(s) == Some(value) <==> ReadsAsNumber(s, value)
  {
    if ScanInt(s) == Some(value) {
      var space, sign, digits, rest := ScannedParts(s);
    }
    if ReadsAsNumber(s, value) {
      var space, sign, digits, rest :| IsNumberText(s, space, sign, digits, rest, value);
      ScanNumber(s, space, sign, digits, rest, value);
    }
  }

  /** A printed number is read back. */
  lemma ScanItoa(n: nat)
    ensures ScanInt(Itoa(n)) == Some(n)
  {
    AtoiItoa(n);
    assert "" + ("" + (Itoa(n) + "")) == Itoa(n);
    ScanNumber(Itoa(n), "", "", Itoa(n), "", n);
  }
}
