/** How Drain3 turns a message into tokens: delimiters, words, masks. */
module Tokenizer {
  import opened Text

  type Tokens = seq<string>

  const WILDCARD := "<*>"

  /** A masking rule: an arbitrary test on a token, and the mask's name. */
  datatype MaskingRule = MaskingRule(matches: string -> bool, mask: string)

  datatype RawConfig = TokenizerConfig(delimiters: seq<char>, rules: seq<MaskingRule>, parametrizeNumeric: bool)

  /** Mask names are words, as IP, NUM, UUID and HEX are. */
  predicate ValidConfig(cfg: RawConfig) {
    forall i :: 0 <= i < |cfg.rules| ==> IsWord(cfg.rules[i].mask)
  }

  type TokenizerConfig = cfg: RawConfig | ValidConfig(cfg) witness TokenizerConfig([], [], false)

  predicate IsHole(token: string) {
    token == WILDCARD || (|token| > 0 && token[0] == '<' && token[|token| - 1] == '>')
  }

  function ReplaceDelimiters(delimiters: seq<char>, message: string): string {
    if delimiters == [] then message
    else ReplaceDelimiters(delimiters[1..], ReplaceChar(message, delimiters[0], " "))
  }

  function FirstMask(rules: seq<MaskingRule>, token: string): Option<string> {
    if rules == [] then None
    else if rules[0].matches(token) then Some(rules[0].mask)
    else FirstMask(rules[1..], token)
  }

  predicate IsNumeric(token: string) {
    token != "" && forall i :: 0 <= i < |token| ==> IsDigit(token[i])
  }

  function ApplyMasking(cfg: TokenizerConfig, token: string): string {
    match FirstMask(cfg.rules, token)
    case Some(mask) => "<" + mask + ">"
    case None => if cfg.parametrizeNumeric && IsNumeric(token) then "<NUM>" else token
  }

  function Tokenize(cfg: TokenizerConfig, message: string): (tokens: Tokens) {
    var fields := Fields(ReplaceDelimiters(cfg.delimiters, message));
    seq(|fields|, i requires 0 <= i < |fields| => ApplyMasking(cfg, fields[i]))
  }

  lemma {:induction false} FirstMaskIsAMask(rules: seq<MaskingRule>, token: string)
    requires FirstMask(rules, token).Some?
    ensures exists i :: 0 <= i < |rules| && rules[i].mask == FirstMask(rules, token).value
  {
    if !rules[0].matches(token) {
      FirstMaskIsAMask(rules[1..], token);
      var i :| 0 <= i < |rules[1..]| && rules[1..][i].mask == FirstMask(rules, token).value;
      assert rules[i + 1].mask == FirstMask(rules, token).value;
    }
  }

  /** A masked token is a word; it is the token itself, or a hole of a generated rule. */
  lemma MaskingKeepsWords(cfg: TokenizerConfig, token: string)
    requires IsWord(token)
    ensures IsWord(ApplyMasking(cfg, token))
    ensures ApplyMasking(cfg, token) == token || IsHole(ApplyMasking(cfg, token))
  {
    match FirstMask(cfg.rules, token) {
      case Some(mask) =>
        FirstMaskIsAMask(cfg.rules, token);
        var masked := "<" + mask + ">";
        assert forall i :: 0 < i < |masked| - 1 ==> masked[i] == mask[i - 1];
      case None =>
    }
  }

  predicate IsFirstMatch(rules: seq<MaskingRule>, token: string, k: nat) {
    k < |rules| && rules[k].matches(token) && forall i :: 0 <= i < k ==> !rules[i].matches(token)
  }

  /** The first rule that matches gives its mask, whatever later rules say. */
  lemma {:induction false} FirstMatchingRule(rules: seq<MaskingRule>, token: string, k: nat)
    requires IsFirstMatch(rules, token, k)
    ensures FirstMask(rules, token) == Some(rules[k].mask)
  {
    if k > 0 {
      FirstMatchingRule(rules[1..], token, k - 1);
    }
  }

  lemma {:induction false} NoMatchingRule(rules: seq<MaskingRule>, token: string)
    requires forall i :: 0 <= i < |rules| ==> !rules[i].matches(token)
    ensures FirstMask(rules, token).None?
  {
    if rules != [] {
      NoMatchingRule(rules[1..], token);
    }
  }

  /** The first matching rule masks a token; without one, digits are masked on request, and the rest is kept. */
  lemma MaskingIsByFirstRule(cfg: TokenizerConfig, token: string)
    ensures forall k: nat :: IsFirstMatch(cfg.rules, token, k) ==>
      ApplyMasking(cfg, token) == "<" + cfg.rules[k].mask + ">"
    ensures (forall i :: 0 <= i < |cfg.rules| ==> !cfg.rules[i].matches(token)) ==>
      ApplyMasking(cfg, token) ==
        if cfg.parametrizeNumeric && token != "" && forall i :: 0 <= i < |token| ==> '0' <= token[i] <= '9' then "<NUM>"
        else token
  {
    forall k: nat | IsFirstMatch(cfg.rules, token, k)
      ensures FirstMask(cfg.rules, token) == Some(cfg.rules[k].mask)
    {
      FirstMatchingRule(cfg.rules, token, k);
    }
    if forall i :: 0 <= i < |cfg.rules| ==> !cfg.rules[i].matches(token) {
      NoMatchingRule(cfg.rules, token);
    }
  }

  /** Holes are the tokens in angle brackets. */
  lemma HolesAreBracketed(token: string)
    ensures IsHole(token) <==> exists name: string :: token == "<" + name + ">"
  {
    if IsHole(token) {
      var name := token[1..|token| - 1];
      assert token == "<" + name + ">";
    }
  }

  /** The words of the message without its delimiters, each masked by itself. */
  lemma TokensAreMaskedWords(cfg: TokenizerConfig, message: string)
    ensures var words, tokens := Fields(ReplaceDelimiters(cfg.delimiters, message)), Tokenize(cfg, message);
      |tokens| == |words| && forall i :: 0 <= i < |words| ==> tokens[i] == ApplyMasking(cfg, words[i])
  {
  }

  lemma TokensAreWords(cfg: TokenizerConfig, message: string)
    ensures AllWords(Tokenize(cfg, message))
  {
    var fields := Fields(ReplaceDelimiters(cfg.delimiters, message));
    forall i | 0 <= i < |fields| ensures IsWord(ApplyMasking(cfg, fields[i])) {
      MaskingKeepsWords(cfg, fields[i]);
    }
  }

  /** Delimiters that do not occur in a message leave it alone. */
  lemma {:induction false} NoDelimiters(delimiters: seq<char>, message: string)
    requires forall i :: 0 <= i < |delimiters| ==> delimiters[i] !in message
    ensures ReplaceDelimiters(delimiters, message) == message
  {
    if delimiters != [] {
      ReplaceAbsent(message, delimiters[0], " ");
      NoDelimiters(delimiters[1..], message);
    }
  }

  lemma {:induction false} ReplacedByOne(s: string, c: char, d: char)
    ensures var r := ReplaceChar(s, c, [d]);
      |r| == |s| && forall i :: 0 <= i < |s| ==> r[i] == if s[i] == c then d else s[i]
  {
    if s != "" {
      ReplacedByOne(s[1..], c, d);
      assert forall i :: 0 < i < |s| ==> s[1..][i - 1] == s[i];
    }
  }

  /** Every delimiter becomes a space, and nothing else changes. */
  lemma {:induction false} DelimitersBecomeSpaces(delimiters: seq<char>, message: string)
    ensures var r := ReplaceDelimiters(delimiters, message);
      |r| == |message| && forall i :: 0 <= i < |message| ==>
        r[i] == if message[i] in delimiters then ' ' else message[i]
  {
    if delimiters != [] {
      ReplacedByOne(message, delimiters[0], ' ');
      DelimitersBecomeSpaces(delimiters[1..], ReplaceChar(message, delimiters[0], " "));
    }
  }
}
