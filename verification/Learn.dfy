/** The learn command: cluster the lines of a file, and keep rules for the largest clusters. */
module Learn {
  import opened Text
  import opened Sequences
  import opened Tokenizer
  import opened DrainModel
  import opened DrainInvariants
  import opened DrainRuns
  import opened Drain3
  import opened Rules
  import opened Selection

  // The lines that are analysed

  predicate IsBlank(line: string) { forall i :: 0 <= i < |line| ==> IsUnicodeSpace(line[i]) }

  function Analysed(lines: seq<string>): seq<string> {
    if lines == [] then []
    else Analysed(lines[..|lines| - 1]) + (if IsBlank(lines[|lines| - 1]) then [] else [lines[|lines| - 1]])
  }

  ghost function LinesWithText(lines: seq<string>): set<nat> {
    set i: nat | i < |lines| && exists j :: 0 <= j < |lines[i]| && !IsUnicodeSpace(lines[i][j])
  }

  /** The lines that hold more than white space, in their order. */
  lemma {:induction false} AnalysedInOrder(lines: seq<string>)
    ensures Keeps(lines, LinesWithText(lines), Analysed(lines))
  {
    hide IsUnicodeSpace, Keeps;
    if lines == [] {
      assert LinesWithText([]) == {};
      KeepsNothing<string>();
    } else {
      var n := |lines| - 1;
      var init := lines[..n];
      AnalysedInOrder(init);
      KeepsStep(init, LinesWithText(init), Analysed(init), lines[n], !IsBlank(lines[n]));
      assert LinesWithText(lines) == if !IsBlank(lines[n]) then LinesWithText(init) + {n} else LinesWithText(init);
      assert init + [lines[n]] == lines;
    }
  }

  function TokensOf(cfg: TokenizerConfig, lines: seq<string>): (msgs: seq<Tokens>) {
    seq(|lines|, i requires 0 <= i < |lines| => Tokenize(cfg, lines[i]))
  }

  ghost function Learned(cfg: Config, lines: seq<string>): Outcome {
    Run(cfg, TokensOf(cfg.tokenizer, lines))
  }

  /** Without delimiters and without white space at either end. */
  predicate IsPlain(cfg: TokenizerConfig, line: string) {
    line != "" && NoOuterSpace(line) && forall i :: 0 <= i < |cfg.delimiters| ==> cfg.delimiters[i] !in line
  }

  lemma LinesAreTokenized(cfg: TokenizerConfig, lines: seq<string>)
    ensures Tokenized(TokensOf(cfg, lines))
  {
    forall i | 0 <= i < |lines| ensures AllWords(TokensOf(cfg, lines)[i]) {
      TokensAreWords(cfg, lines[i]);
    }
  }

  // Which lines the rule of their cluster matches

  predicate Names(r: Result, ids: seq<nat>) { r.changeType != Nothing && r.clusterID in ids }

  lemma AddNamesCluster(cfg: Config, s: State, m: Tokens)
    requires WellFormed(s)
    ensures Add(cfg, s, m).1.changeType == Nothing <==> m == []
  {
  }

  lemma {:induction false} ResultsNameClusters(cfg: Config, msgs: seq<Tokens>, k: nat)
    requires k < |msgs|
    ensures Run(cfg, msgs).results[k].changeType == Nothing <==> msgs[k] == []
  {
    hide Add, Record, WellFormed, Closed;
    var n := |msgs| - 1;
    var init := msgs[..n];
    if k < n {
      ResultsNameClusters(cfg, init, k);
    } else {
      AddNamesCluster(cfg, Run(cfg, init).state, msgs[n]);
    }
  }

  lemma {:induction false} AssignedHas(msgs: seq<Tokens>, results: seq<Result>, k: nat)
    requires |msgs| == |results| && k < |msgs| && results[k].changeType != Nothing
    ensures msgs[k] in Assigned(msgs, results, results[k].clusterID)
  {
    var n := |msgs| - 1;
    if k < n {
      AssignedHas(msgs[..n], results[..n], k);
    }
  }

  /** The line fits its own tokens: no token is only a part of one of its fields. */
  predicate FitsItself(cfg: TokenizerConfig, line: string) { Fits(Tokenize(cfg, line), line) }

  lemma PlainLinesFitThemselves(cfg: TokenizerConfig, line: string)
    requires IsPlain(cfg, line)
    ensures FitsItself(cfg, line)
  {
    NoDelimiters(cfg.delimiters, line);
    var fields := Fields(line);
    forall i | 0 <= i < |fields| ensures IsHole(Tokenize(cfg, line)[i]) || fields[i] == Tokenize(cfg, line)[i] {
      MaskingKeepsWords(cfg, fields[i]);
    }
  }

  lemma CoveredLineFits(cfg: TokenizerConfig, template: Tokens, line: string)
    requires FitsItself(cfg, line) && Covers(template, Tokenize(cfg, line))
    ensures Fits(template, line) && template != []
  {
    FieldsNotEmpty(line);
    forall i | 0 <= i < |template| ensures IsHole(template[i]) || Fields(line)[i] == template[i] {
      assert Agrees(template, Tokenize(cfg, line), i);
    }
  }

  /** The tokenizer splits at the underscore, and leaves the letters a and b as they are. */
  predicate SplitsAtUnderscore(cfg: TokenizerConfig) {
    '_' in cfg.delimiters && 'a' !in cfg.delimiters && 'b' !in cfg.delimiters
  }

  /** A delimiter inside a word splits it: there are more tokens than fields, and the rule of the cluster can
    * miss the line. */
  lemma InnerDelimiterIsMissed(cfg: Config)
    requires SplitsAtUnderscore(cfg.tokenizer)
    ensures !FitsItself(cfg.tokenizer, "a_b") && !AlwaysMatched(cfg, "a_b")
  {
    var line := "a_b";
    DelimitersBecomeSpaces(cfg.tokenizer.delimiters, line);
    assert ReplaceDelimiters(cfg.tokenizer.delimiters, line) == "a b";
    FieldsOfWord("b", "");
    FieldsSkipSpaces(" ", "b");
    FieldsOfWord("a", " b");
    FieldsOfWord(line, "");
    assert "b" + "" == "b" && " " + "b" == " b" && "a" + " b" == "a b" && line + "" == line;
    assert |Fields("a b")| == 2 && |Fields(line)| == 1;
    AlwaysMatchedIff(cfg, line);
  }

  /** An analysed line went to a cluster, and the final rule of that cluster matches it. */
  ghost predicate IsMatched(cfg: Config, lines: seq<string>, k: nat)
    requires k < |lines|
  {
    var o := Learned(cfg, lines);
    && o.results[k].changeType != Nothing && o.results[k].clusterID in o.state.clusters
    && RuleMatches(Rule(o.state.clusters[o.results[k].clusterID].template), lines[k])
  }

  lemma LearnedLineIsMatched(cfg: Config, lines: seq<string>, k: nat)
    requires k < |lines| && FitsItself(cfg.tokenizer, lines[k])
    ensures IsMatched(cfg, lines, k)
  {
    var msgs := TokensOf(cfg.tokenizer, lines);
    var o := Run(cfg, msgs);
    LinesAreTokenized(cfg.tokenizer, lines);
    CoveredLineFits(cfg.tokenizer, msgs[k], lines[k]);
    ResultsNameClusters(cfg, msgs, k);
    var id := o.results[k].clusterID;
    AssignedHas(msgs, o.results, k);
    HistoryIsAssigned(cfg, msgs, id);
    RunKeepsInv(cfg, msgs);
    TemplatesAreLeastGeneralizations(cfg, msgs, id);
    var template := o.state.clusters[id].template;
    LggWords(Assigned(msgs, o.results, id));
    CoveredLineFits(cfg.tokenizer, template, lines[k]);
    RuleMeaning(template, lines[k]);
  }

  ghost predicate AlwaysMatched(cfg: Config, line: string) {
    forall lines: seq<string>, k: nat :: k < |lines| && lines[k] == line ==> IsMatched(cfg, lines, k)
  }

  /** The lines matched by their cluster's rule whatever else the file holds. */
  lemma AlwaysMatchedIff(cfg: Config, line: string)
    ensures AlwaysMatched(cfg, line) <==> FitsItself(cfg.tokenizer, line)
  {
    if FitsItself(cfg.tokenizer, line) {
      forall lines: seq<string>, k: nat | k < |lines| && lines[k] == line ensures IsMatched(cfg, lines, k) {
        LearnedLineIsMatched(cfg, lines, k);
      }
    }
    if AlwaysMatched(cfg, line) {
      AloneInTheFile(cfg, line);
    }
  }

  lemma AloneInTheFile(cfg: Config, line: string)
    requires IsMatched(cfg, [line], 0)
    ensures FitsItself(cfg.tokenizer, line)
  {
    var msgs := TokensOf(cfg.tokenizer, [line]);
    var o := Run(cfg, msgs);
    var id := o.results[0].clusterID;
    LinesAreTokenized(cfg.tokenizer, [line]);
    TemplatesAreLeastGeneralizations(cfg, msgs, id);
    assert Assigned(msgs, o.results, id) == [msgs[0]];
    assert o.state.clusters[id].template == msgs[0];
    RuleMeaning(msgs[0], line);
  }

  // The selected rules and what they match

  ghost function RulesOf(clusters: Clusters, ids: seq<nat>): seq<string>
    requires Choice(clusters, ids)
  {
    seq(|ids|, i requires 0 <= i < |ids| => Rule(clusters[ids[i]].template))
  }

  ghost predicate AnyMatches(rules: seq<string>, line: string) {
    exists i :: 0 <= i < |rules| && RuleMatches(rules[i], line)
  }

  ghost function MatchedLines(rules: seq<string>, lines: seq<string>): nat {
    if lines == [] then 0
    else MatchedLines(rules, lines[..|lines| - 1]) + (if AnyMatches(rules, lines[|lines| - 1]) then 1 else 0)
  }

  ghost function CountNamed(results: seq<Result>, ids: seq<nat>): nat {
    if results == [] then 0
    else CountNamed(results[..|results| - 1], ids) + (if Names(results[|results| - 1], ids) then 1 else 0)
  }

  lemma {:induction false} CountNamedStep(msgs: seq<Tokens>, results: seq<Result>, ids: seq<nat>, id: nat)
    requires |msgs| == |results| && id !in ids
    ensures CountNamed(results, ids + [id]) == CountNamed(results, ids) + |Assigned(msgs, results, id)|
  {
    if msgs != [] {
      var n := |msgs| - 1;
      CountNamedStep(msgs[..n], results[..n], ids, id);
    }
  }

  /** The sizes of clusters count the messages that went to them. */
  lemma {:induction false} SizesCountMessages(cfg: Config, msgs: seq<Tokens>, ids: seq<nat>)
    requires Tokenized(msgs) && Choice(Run(cfg, msgs).state.clusters, ids)
    ensures SizeSum(Run(cfg, msgs).state.clusters, ids) == CountNamed(Run(cfg, msgs).results, ids)
  {
    var o := Run(cfg, msgs);
    if ids == [] {
      NoneNamed(o.results);
    } else {
      var n := |ids| - 1;
      SizesCountMessages(cfg, msgs, ids[..n]);
      CountNamedStep(msgs, o.results, ids[..n], ids[n]);
      TemplatesAreLeastGeneralizations(cfg, msgs, ids[n]);
      assert ids[..n] + [ids[n]] == ids;
    }
  }

  lemma {:induction false} NoneNamed(results: seq<Result>)
    ensures CountNamed(results, []) == 0
  {
    if results != [] {
      NoneNamed(results[..|results| - 1]);
    }
  }

  lemma {:induction false} NamedAreMatched(results: seq<Result>, ids: seq<nat>, rules: seq<string>, lines: seq<string>)
    requires |results| == |lines|
    requires forall k :: 0 <= k < |lines| && Names(results[k], ids) ==> AnyMatches(rules, lines[k])
    ensures CountNamed(results, ids) <= MatchedLines(rules, lines)
  {
    if lines != [] {
      var n := |lines| - 1;
      NamedAreMatched(results[..n], ids, rules, lines[..n]);
    }
  }

  /** Rules for some clusters match at least as many lines as the clusters hold. */
  lemma RulesMatchTheirLines(cfg: Config, lines: seq<string>, ids: seq<nat>)
    requires forall k :: 0 <= k < |lines| ==> FitsItself(cfg.tokenizer, lines[k])
    requires Choice(Learned(cfg, lines).state.clusters, ids)
    ensures var clusters := Learned(cfg, lines).state.clusters;
      SizeSum(clusters, ids) <= MatchedLines(RulesOf(clusters, ids), lines)
  {
    var o := Learned(cfg, lines);
    var rules := RulesOf(o.state.clusters, ids);
    LinesAreTokenized(cfg.tokenizer, lines);
    SizesCountMessages(cfg, TokensOf(cfg.tokenizer, lines), ids);
    forall k | 0 <= k < |lines| && Names(o.results[k], ids) ensures AnyMatches(rules, lines[k]) {
      LearnedLineIsMatched(cfg, lines, k);
      var i :| 0 <= i < |ids| && ids[i] == o.results[k].clusterID;
      assert RuleMatches(rules[i], lines[k]);
    }
    NamedAreMatched(o.results, ids, rules, lines);
  }

  // The command

  /** Go's conversion to int: the fraction is dropped. */
  function Truncate(x: real): int { if x >= 0.0 then x.Floor else -((-x).Floor) }

  /** The given part of n messages. */
  function PartOf(n: nat, coverage: real): int { Truncate(n as real * coverage) }

  /** The first clusters of a list, until their sizes reach the target. */
  ghost predicate ReachesTarget(clusters: Clusters, top: seq<nat>, k: nat, target: int) {
    && k <= |top|
    && (k < |top| ==> SizeSum(clusters, top[..k]) >= target)
    && forall j :: 0 <= j < k ==> SizeSum(clusters, top[..j]) < target
  }

  method SelectRules(drain: Drain3, topClusters: seq<LogCluster>, targetCoverage: int)
    returns (fingerprintRules: seq<string>, coveredMessages: nat)
    requires drain.Valid() && Objects(drain.clusters, topClusters) && Choice(drain.View().clusters, IdsOf(topClusters))
    ensures ReachesTarget(drain.View().clusters, IdsOf(topClusters), |fingerprintRules|, targetCoverage)
    ensures Choice(drain.View().clusters, IdsOf(topClusters)[..|fingerprintRules|])
    ensures fingerprintRules == RulesOf(drain.View().clusters, IdsOf(topClusters)[..|fingerprintRules|])
    ensures coveredMessages == SizeSum(drain.View().clusters, IdsOf(topClusters)[..|fingerprintRules|])
  {
    hide Rule, Linked, Listed, Choice, Objects;
    fingerprintRules, coveredMessages := [], 0;
    ghost var clusters, ids := drain.View().clusters, IdsOf(topClusters);
    assert ids[..0] == [] && Choice(clusters, []) by { NoChoice(clusters); }
    for i := 0 to |topClusters|
      invariant |fingerprintRules| == i && Choice(clusters, ids[..i]) && fingerprintRules == RulesOf(clusters, ids[..i])
      invariant coveredMessages == SizeSum(clusters, ids[..i])
      invariant forall j :: 0 <= j < i ==> SizeSum(clusters, ids[..j]) < targetCoverage
    {
      if coveredMessages >= targetCoverage {
        return;
      }
      var cluster := topClusters[i];
      StoredAt(drain.clusters, clusters, drain.g.allClusters, topClusters, i);
      SelectionStep(clusters, ids, i);
      var pattern := TemplateToRegex(cluster.logTemplate);
      fingerprintRules := fingerprintRules + [pattern];
      coveredMessages := coveredMessages + cluster.size;
    }
    assert ids[..|ids|] == ids;
  }

  lemma NoChoice(clusters: Clusters)
    ensures Choice(clusters, [])
  {
  }

  lemma StoredAt(clusters: map<nat, LogCluster>, contents: Clusters, all: set<LogCluster>, cs: seq<LogCluster>, i: nat)
    requires Stored(clusters, contents, all) && Objects(clusters, cs) && i < |cs|
    ensures IdsOf(cs)[i] in contents && contents[IdsOf(cs)[i]] == Cluster(cs[i].logTemplate, cs[i].size)
  {
  }

  /** One more of the listed clusters: its rule and its size. */
  lemma SelectionStep(clusters: Clusters, ids: seq<nat>, i: nat)
    requires Choice(clusters, ids) && i < |ids|
    ensures Choice(clusters, ids[..i]) && Choice(clusters, ids[..i + 1]) && ids[i] in clusters
    ensures RulesOf(clusters, ids[..i + 1]) == RulesOf(clusters, ids[..i]) + [Rule(clusters[ids[i]].template)]
    ensures SizeSum(clusters, ids[..i + 1]) == SizeSum(clusters, ids[..i]) + clusters[ids[i]].size
  {
    hide Rule;
    assert ids[..i + 1][..i] == ids[..i];
  }

  lemma AllIdsAreCounted(cfg: Config, msgs: seq<Tokens>, all: seq<nat>)
    requires Tokenized(msgs) && Choice(Run(cfg, msgs).state.clusters, all)
    requires forall id :: id in Run(cfg, msgs).state.clusters ==> id in all
    ensures SizeSum(Run(cfg, msgs).state.clusters, all) == CountNonEmpty(msgs)
  {
    SizesCountMessages(cfg, msgs, all);
    forall k | 0 <= k < |msgs| && msgs[k] != [] ensures Names(Run(cfg, msgs).results[k], all) {
      ResultsNameClusters(cfg, msgs, k);
      AssignedHas(msgs, Run(cfg, msgs).results, k);
      HistoryIsAssigned(cfg, msgs, Run(cfg, msgs).results[k].clusterID);
      RunKeepsInv(cfg, msgs);
    }
    forall k | 0 <= k < |msgs| && msgs[k] == [] ensures !Names(Run(cfg, msgs).results[k], all) {
      ResultsNameClusters(cfg, msgs, k);
    }
    NamedAreNonEmpty(msgs, Run(cfg, msgs).results, all);
  }

  /** How many of the lines have tokens. */
  ghost function MessageCount(cfg: TokenizerConfig, lines: seq<string>): nat {
    CountNonEmpty(TokensOf(cfg, lines))
  }

  /** The sizes of all clusters add up to the lines that have tokens. */
  lemma LearnedSizes(cfg: Config, lines: seq<string>, all: seq<nat>)
    requires AllOf(Learned(cfg, lines).state.clusters, all)
    ensures SizeSum(Learned(cfg, lines).state.clusters, all) == MessageCount(cfg.tokenizer, lines)
  {
    LinesAreTokenized(cfg.tokenizer, lines);
    AllIdsAreCounted(cfg, TokensOf(cfg.tokenizer, lines), all);
  }

  lemma {:induction false} NamedAreNonEmpty(msgs: seq<Tokens>, results: seq<Result>, ids: seq<nat>)
    requires |msgs| == |results| && forall k :: 0 <= k < |msgs| ==> (Names(results[k], ids) <==> msgs[k] != [])
    ensures CountNamed(results, ids) == CountNonEmpty(msgs)
  {
    if msgs != [] {
      var n := |msgs| - 1;
      NamedAreNonEmpty(msgs[..n], results[..n], ids);
    }
  }

  lemma AnalysedStep(lines: seq<string>, i: nat)
    requires i < |lines|
    ensures Analysed(lines[..i + 1]) == Analysed(lines[..i]) + (if IsBlank(lines[i]) then [] else [lines[i]])
  {
    assert lines[..i + 1][..i] == lines[..i];
  }

  lemma LearnedStep(cfg: Config, lines: seq<string>, line: string)
    ensures var o := Learned(cfg, lines);
      var (s, r) := Add(cfg, o.state, Tokenize(cfg.tokenizer, line));
      Learned(cfg, lines + [line]).state == s
  {
    var msgs := TokensOf(cfg.tokenizer, lines);
    RunLast(cfg, msgs, Tokenize(cfg.tokenizer, line));
    assert TokensOf(cfg.tokenizer, lines + [line]) == msgs + [Tokenize(cfg.tokenizer, line)];
  }

  /** Clusters all lines that are not blank. */
  method AnalyseLines(cfg: Config, lines: seq<string>) returns (drain: Drain3)
    ensures fresh(drain) && drain.Valid() && Sound(drain.View()) && drain.config == cfg
    ensures drain.View() == Learned(cfg, Analysed(lines)).state
  {
    hide Run, Add, Tokenize, Sound, IsBlank;
    drain := new Drain3(cfg);
    assert TokensOf(cfg.tokenizer, []) == [];
    RunOfNothing(cfg);
    for i := 0 to |lines|
      invariant fresh(drain) && fresh(drain.g.allNodes) && fresh(drain.g.allClusters)
      invariant drain.Valid() && Sound(drain.View()) && drain.config == cfg
      invariant drain.View() == Learned(cfg, Analysed(lines[..i])).state
    {
      AnalysedStep(lines, i);
      if !IsBlank(lines[i]) {
        LearnedStep(cfg, Analysed(lines[..i]), lines[i]);
        var _ := drain.AddLogMessage(lines[i]);
      } else {
        assert Analysed(lines[..i + 1]) == Analysed(lines[..i]);
      }
    }
    assert lines[..|lines|] == lines;
  }

  lemma RunOfNothing(cfg: Config)
    ensures Run(cfg, []).state == INITIAL
  {
  }

  method CountMessages(drain: Drain3, all: seq<LogCluster>) returns (totalMessages: nat)
    requires drain.Valid() && Objects(drain.clusters, all)
    ensures totalMessages == SizeSum(drain.View().clusters, IdsOf(all))
  {
    totalMessages := 0;
    ghost var clusters, ids := drain.View().clusters, IdsOf(all);
    for i := 0 to |all|
      invariant totalMessages == SizeSum(clusters, ids[..i])
    {
      assert ids[..i + 1][..i] == ids[..i] && clusters[ids[i]] == Cluster(all[i].logTemplate, all[i].size);
      totalMessages := totalMessages + all[i].size;
    }
    assert ids[..|ids|] == ids;
  }

  ghost predicate AllOf(clusters: Clusters, ids: seq<nat>) {
    Choice(clusters, ids) && forall id :: id in clusters ==> id in ids
  }

  /** The rules belong to the first of all clusters ranked by size, up to the target. */
  ghost predicate LearnedFrom(clusters: Clusters, top: seq<nat>, target: int, rules: seq<string>) {
    && Largest(clusters, top) && AllOf(clusters, top)
    && ReachesTarget(clusters, top, |rules|, target)
    && Choice(clusters, top[..|rules|]) && rules == RulesOf(clusters, top[..|rules|])
  }

  method RulesFor(drain: Drain3, coverage: real)
    returns (fingerprintRules: seq<string>, totalMessages: nat)
    requires drain.Valid()
    ensures exists all :: AllOf(drain.View().clusters, all) && totalMessages == SizeSum(drain.View().clusters, all)
    ensures IsLearned(drain.View().clusters, PartOf(totalMessages, coverage), fingerprintRules)
  {
    hide Objects, IdsOf, SizeSum, RulesOf, ReachesTarget, Rule, PartOf;
    var clusters := drain.GetClusters();
    totalMessages := CountMessages(drain, clusters);
    var topClusters := drain.GetTopClusters(0);
    var coveredMessages;
    fingerprintRules, coveredMessages := SelectRules(drain, topClusters, PartOf(totalMessages, coverage));
    assert AllOf(drain.View().clusters, IdsOf(clusters));
    assert LearnedFrom(drain.View().clusters, IdsOf(topClusters), PartOf(totalMessages, coverage), fingerprintRules);
  }

  /** Rules for the largest clusters, as many as the coverage asks for. */
  method LearnRules(cfg: Config, lines: seq<string>, coverage: real) returns (fingerprintRules: seq<string>)
    ensures IsLearned(Learned(cfg, Analysed(lines)).state.clusters,
      TargetFor(cfg.tokenizer, Analysed(lines), coverage), fingerprintRules)
  {
    hide Learned, LearnedFrom, Linked, Listed, Stored, Sound, AllOf, MessageCount, PartOf;
    var drain := AnalyseLines(cfg, lines);
    var totalMessages;
    fingerprintRules, totalMessages := RulesFor(drain, coverage);
    ghost var all :| AllOf(drain.View().clusters, all) && totalMessages == SizeSum(drain.View().clusters, all);
    LearnedSizes(cfg, Analysed(lines), all);
  }

  /** How many messages a coverage of the analysed lines amounts to. */
  ghost function TargetFor(cfg: TokenizerConfig, lines: seq<string>, coverage: real): int {
    PartOf(MessageCount(cfg, lines), coverage)
  }

  ghost predicate IsLearned(clusters: Clusters, target: int, rules: seq<string>) {
    exists top :: LearnedFrom(clusters, top, target, rules)
  }

  /** No choice of fewer clusters holds as many messages. */
  lemma FewestRules(clusters: Clusters, target: int, rules: seq<string>, chosen: seq<nat>)
    requires IsLearned(clusters, target, rules)
    requires Choice(clusters, chosen) && SizeSum(clusters, chosen) >= target
    ensures |rules| <= |chosen|
  {
    var top :| LearnedFrom(clusters, top, target, rules);
    GreedyIsOptimal(clusters, top, |rules|, target, chosen);
  }

  lemma TargetReached(clusters: Clusters, top: seq<nat>, k: nat, target: int)
    requires ReachesTarget(clusters, top, k, target) && target <= SizeSum(clusters, top)
    ensures k <= |top| && SizeSum(clusters, top[..k]) >= target
  {
    if k == |top| {
      assert top[..k] == top;
    }
  }

  lemma RulesReachTarget(cfg: Config, lines: seq<string>, target: int, rules: seq<string>)
    requires forall k :: 0 <= k < |lines| ==> FitsItself(cfg.tokenizer, lines[k])
    requires IsLearned(Learned(cfg, lines).state.clusters, target, rules)
      && target <= MessageCount(cfg.tokenizer, lines)
    ensures MatchedLines(rules, lines) >= target
  {
    hide Learned, FitsItself, ReachesTarget, AllOf, Largest, RulesOf, Choice, MessageCount;
    var clusters := Learned(cfg, lines).state.clusters;
    var top :| LearnedFrom(clusters, top, target, rules);
    LearnedSizes(cfg, lines, top);
    TargetReached(clusters, top, |rules|, target);
    RulesMatchTheirLines(cfg, lines, top[..|rules|]);
  }

  /** The learned rules match as many of the lines as the coverage asks for. */
  lemma LearnedRulesReachCoverage(cfg: Config, lines: seq<string>, coverage: real, rules: seq<string>)
    requires 0.0 <= coverage <= 1.0 && forall k :: 0 <= k < |lines| ==> FitsItself(cfg.tokenizer, lines[k])
    requires IsLearned(Learned(cfg, lines).state.clusters, TargetFor(cfg.tokenizer, lines, coverage), rules)
    ensures MatchedLines(rules, lines) >= PartOf(|lines|, coverage)
  {
    hide Learned, FitsItself, IsLearned, MessageCount, PartOf;
    NoneEmpty(cfg.tokenizer, lines);
    PartIsNoMore(|lines|, coverage);
    RulesReachTarget(cfg, lines, TargetFor(cfg.tokenizer, lines, coverage), rules);
  }

  /** The share without its fraction. */
  lemma PartIsTheWholePart(n: nat, coverage: real)
    ensures coverage >= 0.0 ==>
      PartOf(n, coverage) as real <= n as real * coverage < PartOf(n, coverage) as real + 1.0
    ensures coverage < 0.0 ==>
      PartOf(n, coverage) as real - 1.0 < n as real * coverage <= PartOf(n, coverage) as real
  {
    assert coverage >= 0.0 ==> n as real * coverage >= 0.0;
    assert coverage < 0.0 ==> n as real * coverage <= 0.0;
  }

  lemma PartIsNoMore(n: nat, coverage: real)
    requires 0.0 <= coverage <= 1.0
    ensures PartOf(n, coverage) <= n
  {
    assert n as real * coverage <= n as real;
  }

  lemma {:induction false} NoneEmpty(cfg: TokenizerConfig, lines: seq<string>)
    requires forall k :: 0 <= k < |lines| ==> FitsItself(cfg, lines[k])
    ensures MessageCount(cfg, lines) == |lines|
  {
    if lines != [] {
      var n := |lines| - 1;
      NoneEmpty(cfg, lines[..n]);
      FieldsNotEmpty(lines[n]);
      assert TokensOf(cfg, lines)[..n] == TokensOf(cfg, lines[..n]);
    }
  }
}
