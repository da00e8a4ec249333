/** Generated rules: from a template to an anchored regular expression, and what that matches. */
module Rules {
  import opened Text
  import opened Tokenizer

  // The generated text

  const SPECIAL := ['\\', '.', '+', '*', '?', '(', ')', '[', ']', '{', '}', '^', '$', '|']

  function EscapeChar(c: char, special: seq<char>): string {
    if c in special then ['\\', c] else [c]
  }

  /** A backslash before each of the given characters. */
  function Escape(s: string, special: seq<char>): string {
    if s == "" then "" else EscapeChar(s[0], special) + Escape(s[1..], special)
  }

  lemma EscapeOneMore(d: char, special: seq<char>, c: char)
    requires c !in special && (special == [] || c != '\\')
    ensures ReplaceChar(EscapeChar(d, special), c, ['\\', c]) == EscapeChar(d, special + [c])
  {
    if d == c {
      assert EscapeChar(d, special) == [c] && ReplaceChar([c][1..], c, ['\\', c]) == "";
    } else {
      ReplaceAbsent(EscapeChar(d, special), c, ['\\', c]);
    }
  }

  /** One more pass of ReplaceAll escapes one more character, when the backslash went first. */
  lemma {:induction false} EscapePass(s: string, special: seq<char>, c: char)
    requires c !in special && (special == [] || c != '\\')
    ensures ReplaceChar(Escape(s, special), c, ['\\', c]) == Escape(s, special + [c])
  {
    if s != "" {
      ReplaceConcat(EscapeChar(s[0], special), Escape(s[1..], special), c, ['\\', c]);
      EscapePass(s[1..], special, c);
      EscapeOneMore(s[0], special, c);
    }
  }

  method EscapeRegex(s: string) returns (result: string)
    ensures result == Escape(s, SPECIAL)
  {
    result := s;
    NothingEscaped(s);
    for i := 0 to |SPECIAL|
      invariant result == Escape(s, SPECIAL[..i])
    {
      EscapePass(s, SPECIAL[..i], SPECIAL[i]);
      result := ReplaceChar(result, SPECIAL[i], ['\\', SPECIAL[i]]);
      assert SPECIAL[..i + 1] == SPECIAL[..i] + [SPECIAL[i]];
    }
    assert SPECIAL[..|SPECIAL|] == SPECIAL;
  }

  lemma {:induction false} NothingEscaped(s: string)
    ensures Escape(s, []) == s
  {
    if s != "" {
      NothingEscaped(s[1..]);
    }
  }

  function RulePart(token: string): string {
    if IsHole(token) then "\\S+" else Escape(token, SPECIAL)
  }

  function RuleParts(template: Tokens): seq<string> {
    seq(|template|, i requires 0 <= i < |template| => RulePart(template[i]))
  }

  function Rule(template: Tokens): string {
    "^" + Join(RuleParts(template), "\\s+") + "$"
  }

  method TemplateToRegex(template: Tokens) returns (rule: string)
    ensures rule == Rule(template)
  {
    var parts := [];
    for i := 0 to |template|
      invariant parts == RuleParts(template[..i])
    {
      if IsHole(template[i]) {
        parts := parts + ["\\S+"];
      } else {
        var escaped := EscapeRegex(template[i]);
        parts := parts + [escaped];
      }
      assert template[..i + 1] == template[..i] + [template[i]];
    }
    assert template[..|template|] == template;
    rule := "^" + Join(parts, "\\s+") + "$";
  }

  // The meaning of the regular expressions that occur

  /** A literal character, one or more non-spaces, or one or more spaces. */
  datatype Item = Lit(c: char) | NonSpaces | Spaces

  /** Reads the part of an expression behind its leading anchor, up to the final one. */
  function ParseTail(r: string): Option<seq<Item>>
    decreases |r|
  {
    if r == "" then None
    else if r == "$" then Some([])
    else if r[0] == '\\' then
      if |r| >= 3 && r[1] == 'S' && r[2] == '+' then Prepend([NonSpaces], ParseTail(r[3..]))
      else if |r| >= 3 && r[1] == 's' && r[2] == '+' then Prepend([Spaces], ParseTail(r[3..]))
      else if |r| >= 2 && r[1] in SPECIAL then Prepend([Lit(r[1])], ParseTail(r[2..]))
      else None
    else if r[0] in SPECIAL then None
    else Prepend([Lit(r[0])], ParseTail(r[1..]))
  }

  function Prepend(items: seq<Item>, rest: Option<seq<Item>>): Option<seq<Item>> {
    if rest.None? then None else Some(items + rest.value)
  }

  function Parse(r: string): Option<seq<Item>> {
    if r != "" && r[0] == '^' then ParseTail(r[1..]) else None
  }

  predicate AllSpaces(s: string) { forall i :: 0 <= i < |s| ==> IsSpace(s[i]) }

  predicate NoSpaces(s: string) { forall i :: 0 <= i < |s| ==> !IsSpace(s[i]) }

  /** An anchored match: the items in turn use up the whole line. */
  ghost predicate Matches(items: seq<Item>, line: string)
    decreases |items|
  {
    if items == [] then line == ""
    else
      match items[0]
      case Lit(c) => line != "" && line[0] == c && Matches(items[1..], line[1..])
      case NonSpaces => exists n :: 1 <= n <= |line| && NoSpaces(line[..n]) && Matches(items[1..], line[n..])
      case Spaces => exists n :: 1 <= n <= |line| && AllSpaces(line[..n]) && Matches(items[1..], line[n..])
  }

  /** A line is matched by a rule. */
  ghost predicate RuleMatches(rule: string, line: string) {
    Parse(rule).Some? && Matches(Parse(rule).value, line)
  }

  // From text to items

  function Lits(w: string): seq<Item> {
    seq(|w|, i requires 0 <= i < |w| => Lit(w[i]))
  }

  function Head(token: string): seq<Item> {
    if IsHole(token) then [NonSpaces] else Lits(token)
  }

  function Items(template: Tokens): seq<Item>
    requires template != []
  {
    Head(template[0]) + (if |template| == 1 then [] else [Spaces] + Items(template[1..]))
  }

  /** An escaped text is read back as its characters, literally. */
  lemma {:induction false} ParseEscaped(w: string, rest: string)
    requires ParseTail(rest).Some?
    ensures ParseTail(Escape(w, SPECIAL) + rest) == Prepend(Lits(w), ParseTail(rest))
  {
    if w == "" {
      assert Escape(w, SPECIAL) + rest == rest;
      assert Lits(w) + ParseTail(rest).value == ParseTail(rest).value;
    } else {
      ParseEscaped(w[1..], rest);
      var tail := Escape(w[1..], SPECIAL) + rest;
      var r := Escape(w, SPECIAL) + rest;
      assert ParseTail(tail).Some? && tail != "";
      assert r == EscapeChar(w[0], SPECIAL) + tail;
      if w[0] in SPECIAL {
        assert r[2..] == tail && r[0] == '\\' && r[1] == w[0];
      } else {
        assert r[1..] == tail && r[0] == w[0] && |r| > 1;
      }
      assert Lits(w) == [Lit(w[0])] + Lits(w[1..]);
      assert [Lit(w[0])] + (Lits(w[1..]) + ParseTail(rest).value) == Lits(w) + ParseTail(rest).value;
    }
  }

  /** The text, up to the final anchor, reads as these items. */
  ghost predicate ReadsAs(text: string, items: seq<Item>) { ParseTail(text) == Some(items) }

  lemma ReadPart(token: string, rest: string, items: seq<Item>)
    requires ReadsAs(rest, items)
    ensures ReadsAs(RulePart(token) + rest, Head(token) + items)
  {
    if IsHole(token) {
      var r := "\\S+" + rest;
      assert r[3..] == rest && r[0] == '\\' && r[1] == 'S' && r[2] == '+';
    } else {
      ParseEscaped(token, rest);
    }
  }

  lemma ReadSeparator(tail: string, items: seq<Item>)
    requires ReadsAs(tail, items)
    ensures ReadsAs("\\s+" + tail, [Spaces] + items)
  {
    var r := "\\s+" + tail;
    assert r[3..] == tail && r[0] == '\\' && r[1] == 's' && r[2] == '+';
  }

  /** The text between the anchors of a rule. */
  function Body(template: Tokens): string { Join(RuleParts(template), "\\s+") }

  lemma BodyStep(template: Tokens)
    requires |template| > 1
    ensures Body(template) == RulePart(template[0]) + ("\\s+" + Body(template[1..]))
  {
    hide RulePart;
    assert RuleParts(template)[1..] == RuleParts(template[1..]);
  }

  lemma {:induction false} ReadBody(template: Tokens)
    requires template != []
    ensures ReadsAs(Body(template) + "$", Items(template))
  {
    if |template| == 1 {
      assert Body(template) == RulePart(template[0]);
      assert ReadsAs("$", []);
      ReadPart(template[0], "$", []);
      assert Head(template[0]) + [] == Items(template);
    } else {
      hide ReadsAs, RulePart, Head, Body;
      ReadBody(template[1..]);
      BodyStep(template);
      var tail := Body(template[1..]) + "$";
      ReadSeparator(tail, Items(template[1..]));
      ReadPart(template[0], "\\s+" + tail, [Spaces] + Items(template[1..]));
      assert Body(template) + "$" == RulePart(template[0]) + ("\\s+" + tail);
    }
  }

  lemma ParseRule(template: Tokens)
    requires template != []
    ensures Parse(Rule(template)) == Some(Items(template))
  {
    ReadBody(template);
    var body := Body(template) + "$";
    assert Rule(template) == "^" + body;
    assert Rule(template)[1..] == body;
  }

  // What a rule matches

  predicate NoOuterSpace(line: string) {
    line != "" ==> !IsSpace(line[0]) && !IsSpace(line[|line| - 1])
  }

  /** As many fields as tokens, and each is the token or sits at a hole. */
  predicate FieldsFit(template: Tokens, fields: seq<string>) {
    |fields| == |template| && forall i :: 0 <= i < |template| ==> IsHole(template[i]) || fields[i] == template[i]
  }

  lemma {:induction false} MatchesLits(w: string, items: seq<Item>, line: string)
    ensures Matches(Lits(w) + items, line) <==> w <= line && Matches(items, line[|w|..])
    decreases |w|
  {
    if w == "" {
      assert Lits(w) + items == items && line[0..] == line;
    } else {
      var all := Lits(w) + items;
      assert all[0] == Lit(w[0]) && all[1..] == Lits(w[1..]) + items;
      if line != "" && line[0] == w[0] {
        MatchesLits(w[1..], items, line[1..]);
        assert w <= line <==> w[1..] <= line[1..] by {
          assert w == [w[0]] + w[1..] && line == [line[0]] + line[1..];
        }
        if w <= line {
          assert line[1..][|w| - 1..] == line[|w|..];
        }
      }
    }
  }

  /** The first token takes a word from the line, and the rest of the rule the rest of the line. */
  lemma MatchesHead(token: string, items: seq<Item>, line: string)
    requires IsWord(token)
    ensures Matches(Head(token) + items, line) <==>
      exists n :: 1 <= n <= |line| && NoSpaces(line[..n]) && (IsHole(token) || line[..n] == token)
        && Matches(items, line[n..])
  {
    if IsHole(token) {
      var all := [NonSpaces] + items;
      assert all[0] == NonSpaces && all[1..] == items;
    } else {
      MatchesLits(token, items, line);
      if token <= line {
        assert line[..|token|] == token;
      }
    }
  }

  /** What is behind the first token: nothing, or spaces and the rest of the template. */
  function After(template: Tokens): seq<Item>
    requires template != []
  {
    if |template| == 1 then [] else [Spaces] + Items(template[1..])
  }

  lemma {:induction false} FieldsNotEmpty(s: string)
    requires s != "" && !IsSpace(s[|s| - 1])
    ensures Fields(s) != []
  {
    if IsSpace(s[0]) {
      FieldsNotEmpty(s[1..]);
    }
  }

  function SpaceLength(s: string): (n: nat)
    ensures n <= |s| && AllSpaces(s[..n])
    ensures n < |s| ==> !IsSpace(s[n])
  {
    if s == "" || !IsSpace(s[0]) then 0
    else
      var n := 1 + SpaceLength(s[1..]);
      assert s[..n] == [s[0]] + s[1..][..n - 1];
      n
  }

  /** What the rule for a template should match: no outer space, and field by field the template. */
  predicate Fits(template: Tokens, line: string) {
    line != "" && NoOuterSpace(line) && FieldsFit(template, Fields(line))
  }

  ghost predicate MeansFits(template: Tokens)
    requires template != []
  {
    forall line :: Matches(Items(template), line) <==> Fits(template, line)
  }

  /** The part of a line behind a word fits the part of a template behind its first token. */
  predicate RestFits(template: Tokens, rest: string)
    requires template != []
  {
    (rest == "" || !IsSpace(rest[|rest| - 1])) && FieldsFit(template[1..], Fields(rest))
  }

  lemma SpacesThenFits(template: Tokens, rest: string, n: nat)
    requires template != [] && 1 <= n < |rest| && AllSpaces(rest[..n]) && !IsSpace(rest[n])
    ensures RestFits(template, rest) <==> Fits(template[1..], rest[n..])
  {
    hide FieldsFit, Fields;
    assert rest == rest[..n] + rest[n..];
    FieldsSkipSpaces(rest[..n], rest[n..]);
    assert rest[n..][0] == rest[n] && rest[n..][|rest| - n - 1] == rest[|rest| - 1];
  }

  lemma RestMatched(template: Tokens, rest: string)
    requires |template| > 1 && MeansFits(template[1..]) && Matches(After(template), rest)
    ensures RestFits(template, rest)
  {
    hide RestFits, FieldsFit, Fields, Items;
    var items := After(template);
    assert items[0] == Spaces && items[1..] == Items(template[1..]);
    var n :| 1 <= n <= |rest| && AllSpaces(rest[..n]) && Matches(items[1..], rest[n..]);
    assert Fits(template[1..], rest[n..]);
    assert n < |rest| && rest[n..][0] == rest[n];
    SpacesThenFits(template, rest, n);
  }

  lemma SpacesEnd(template: Tokens, rest: string, n: nat)
    requires template != [] && rest != "" && RestFits(template, rest) && n <= |rest| && AllSpaces(rest[..n])
    ensures n < |rest|
  {
  }

  lemma RestMatching(template: Tokens, rest: string)
    requires |template| > 1 && MeansFits(template[1..]) && RestFits(template, rest)
    requires rest == "" || IsSpace(rest[0])
    ensures Matches(After(template), rest)
  {
    assert rest != "";
    var n := SpaceLength(rest);
    hide FieldsFit, Fields, Items, Fits, RestFits;
    assert n < |rest| by { SpacesEnd(template, rest, n); }
    SpacesThenFits(template, rest, n);
    var items := After(template);
    assert items[0] == Spaces && items[1..] == Items(template[1..]);
    assert Matches(items[1..], rest[n..]);
  }

  /** The rest of a line behind its first word, as the rest of the rule sees it. */
  lemma RestMatches(template: Tokens, rest: string)
    requires template != [] && (rest == "" || IsSpace(rest[0]))
    requires |template| > 1 ==> MeansFits(template[1..])
    ensures Matches(After(template), rest) <==> RestFits(template, rest)
  {
    if |template| == 1 {
      if rest != "" && !IsSpace(rest[|rest| - 1]) {
        FieldsNotEmpty(rest);
      }
    } else {
      hide Matches, RestFits;
      if Matches(After(template), rest) {
        RestMatched(template, rest);
      }
      if RestFits(template, rest) {
        RestMatching(template, rest);
      }
    }
  }

  lemma AfterStartsWithSpace(template: Tokens, rest: string)
    requires template != [] && Matches(After(template), rest)
    ensures rest == "" || IsSpace(rest[0])
  {
  }

  lemma FieldsFitStep(template: Tokens, w: string, rest: seq<string>)
    requires template != []
    ensures FieldsFit(template, [w] + rest)
      <==> (IsHole(template[0]) || w == template[0]) && FieldsFit(template[1..], rest)
  {
  }

  lemma WordThenRest(template: Tokens, line: string, n: nat)
    requires template != [] && 1 <= n <= |line| && NoSpaces(line[..n]) && (n < |line| ==> IsSpace(line[n]))
    ensures Fits(template, line) <==> (IsHole(template[0]) || line[..n] == template[0]) && RestFits(template, line[n..])
  {
    var w, rest := line[..n], line[n..];
    assert line == w + rest;
    FieldsOfWord(w, rest);
    FieldsFitStep(template, w, Fields(rest));
    assert line[0] == w[0];
    if n == |line| {
      assert line[n - 1] == w[n - 1] && rest == "";
    } else {
      assert rest[|rest| - 1] == line[|line| - 1];
    }
    hide IsHole, FieldsFit, Fields, IsSpace;
  }

  /** One line against one template, given what the rest of the template matches. */
  lemma LineMatches(template: Tokens, line: string)
    requires template != [] && AllWords(template)
    requires |template| > 1 ==> MeansFits(template[1..])
    ensures Matches(Items(template), line) <==> Fits(template, line)
  {
    MatchesHead(template[0], After(template), line);
    assert Items(template) == Head(template[0]) + After(template);
    var fits := Fits(template, line);
    hide Matches, Items, After, Head, FieldsFit, RestFits, IsHole;
    if Matches(Items(template), line) {
      var n :| 1 <= n <= |line| && NoSpaces(line[..n]) && (IsHole(template[0]) || line[..n] == template[0])
        && Matches(After(template), line[n..]);
      AfterStartsWithSpace(template, line[n..]);
      WordThenRest(template, line, n);
      RestMatches(template, line[n..]);
    }
    if fits {
      var n := WordLength(line);
      assert NoSpaces(line[..n]);
      WordThenRest(template, line, n);
      RestMatches(template, line[n..]);
    }
  }

  lemma {:induction false} ItemsMeaning(template: Tokens)
    requires template != [] && AllWords(template)
    ensures MeansFits(template)
  {
    hide Matches, Fits, Items;
    if |template| > 1 {
      ItemsMeaning(template[1..]);
    }
    forall line ensures Matches(Items(template), line) <==> Fits(template, line) {
      LineMatches(template, line);
    }
  }

  /** The generated rule matches exactly the lines that fit the template, field by field. */
  lemma RuleMeaning(template: Tokens, line: string)
    requires template != [] && AllWords(template)
    ensures RuleMatches(Rule(template), line) <==> Fits(template, line)
  {
    ParseRule(template);
    ItemsMeaning(template);
  }
}
