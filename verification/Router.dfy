/** The router: which outputs get an entry, and how a batch is sent to one of them. */
module Router {
  import opened Text
  import opened Entries
  import opened Sequences
  import opened RouterModel

  class CircuitBreaker {
    const maxFailures: int
    const cooldown: int
    var failures: nat
    var openUntil: Option<int>

    function View(): Breaker
      reads this
    {
      Breaker(failures, openUntil)
    }

    predicate Follows(cfg: OutputConfig) { maxFailures == cfg.maxFailures && cooldown == cfg.cooldown }

    constructor (cfg: OutputConfig)
      ensures View() == CLOSED && Follows(cfg)
    {
      maxFailures, cooldown, failures, openUntil := cfg.maxFailures, cfg.cooldown, 0, None;
    }

    method CheckOpen(now: int) returns (open: bool)
      ensures open == IsOpen(View(), now)
    {
      if openUntil.Some? && now < openUntil.value {
        return true;
      }
      return false;
    }

    method OnFailure(now: int, ghost cfg: OutputConfig)
      requires Follows(cfg)
      modifies this
      ensures View() == AfterTry(cfg, old(View()), Try(false, now))
    {
      failures := failures + 1;
      if failures >= maxFailures && maxFailures > 0 {
        openUntil := Some(now + cooldown);
        failures := 0;
      }
    }

    method OnSuccess(now: int, ghost cfg: OutputConfig)
      requires Follows(cfg)
      modifies this
      ensures View() == AfterTry(cfg, old(View()), Try(true, now))
    {
      failures := 0;
    }
  }

  datatype Outcome = NotFound | CircuitOpen | Sent | SendError

  /** The Sends of one call, whether or not there is a breaker. */
  function MadeBy(b: Option<Breaker>, call: Call): seq<Try> {
    match b
    case None => call.tries[..Used(call.tries)]
    case Some(breaker) => Made(breaker, call)
  }

  /** Every Send before the last one failed; the last one succeeded, or no attempt is left. */
  predicate AreAttempts(cfg: OutputConfig, tries: seq<Try>, sends: nat) {
    && 1 <= sends <= |tries|
    && (forall i :: 0 <= i < sends - 1 ==> !tries[i].ok)
    && (tries[sends - 1].ok || sends == (if cfg.retries <= 0 then 1 else cfg.retries))
  }

  /** The first pause is the initial one, and each further pause is twice as long, up to the maximum. */
  predicate AreBackoffs(cfg: OutputConfig, pauses: seq<int>) {
    && (pauses != [] ==> pauses[0] == if cfg.initialBackoff <= 0 then 250_000_000 else cfg.initialBackoff)
    && forall i :: 0 <= i < |pauses| - 1 ==>
         var maximum := if cfg.maxBackoff <= 0 then 5_000_000_000 else cfg.maxBackoff;
         pauses[i + 1] == if 2 * pauses[i] > maximum then maximum else 2 * pauses[i]
  }

  /** The closed form of the pauses is that list. */
  lemma PausesAreBackoffs(cfg: OutputConfig, n: nat)
    ensures AreBackoffs(cfg, Pauses(Initial(cfg), Limit(cfg), n))
  {
    forall i: nat | i < n - 1
      ensures Pause(Initial(cfg), Limit(cfg), i + 1) == Min(2 * Pause(Initial(cfg), Limit(cfg), i), Limit(cfg))
    {
      NextPause(Initial(cfg), Limit(cfg), i);
    }
  }

  lemma PausesStep(cfg: OutputConfig, i: nat)
    ensures var initial, limit := Initial(cfg), Limit(cfg);
      && Pauses(initial, limit, 0) == [] && Pause(initial, limit, 0) == initial
      && Pauses(initial, limit, i + 1) == Pauses(initial, limit, i) + [Pause(initial, limit, i)]
      && (forall n: nat :: |Pauses(initial, limit, n)| == n)
      && var twice := 2 * Pause(initial, limit, i);
         Pause(initial, limit, i + 1) == if twice > limit then limit else twice
  {
    NextPause(Initial(cfg), Limit(cfg), i);
  }

  lemma TriesStep(cfg: OutputConfig, b: Breaker, tries: seq<Try>, i: nat)
    requires i < |tries|
    ensures AfterTries(cfg, b, tries[..i + 1]) == AfterTry(cfg, AfterTries(cfg, b, tries[..i]), tries[i])
  {
    assert tries[..i + 1][..i] == tries[..i];
  }

  lemma UsedFrom(tries: seq<Try>, n: nat)
    requires n <= |tries| && forall i :: 0 <= i < n ==> !tries[i].ok
    ensures Used(tries) >= n
    ensures n < |tries| && tries[n].ok ==> Used(tries) == n + 1
  {
  }

  /**
   * The retry loop. The call says how every attempt would end and when; the result
   * lists the pauses between attempts. The adapter may have been removed; a breaker is present for configured outputs.
   */
  method SendToOutput(adapterExists: bool, cfg: OutputConfig, br: CircuitBreaker?, call: Call)
    returns (outcome: Outcome, sends: nat, pauses: seq<int>)
    requires |call.tries| == Attempts(cfg) && (br != null ==> br.Follows(cfg))
    modifies br
    ensures !adapterExists ==>
      (outcome, sends, pauses) == (NotFound, 0, []) && (br != null ==> br.View() == old(br.View()))
    ensures adapterExists && br != null ==> br.View() == AfterCall(cfg, old(br.View()), call)
    ensures var made := MadeBy(if br == null then None else Some(old(br.View())), call);
      adapterExists ==>
      && sends == |made|
      && pauses == Pauses(Initial(cfg), Limit(cfg), if sends == 0 then 0 else sends - 1)
      && outcome == if made == [] then CircuitOpen else if made[sends - 1].ok then Sent else SendError
    ensures adapterExists ==> sends == 0 || AreAttempts(cfg, call.tries, sends)
    ensures adapterExists && sends == 0 ==>
      br != null && old(br.openUntil).Some? && call.start < old(br.openUntil).value
    ensures |pauses| == (if sends == 0 then 0 else sends - 1) && AreBackoffs(cfg, pauses)
  {
    assert AreBackoffs(cfg, []);
    PausesStep(cfg, 0);
    hide AreBackoffs, Pauses, Pause, Min, AfterTry;
    sends, pauses := 0, [];
    if !adapterExists {
      return NotFound, 0, [];
    }
    if br != null {
      var open := br.CheckOpen(call.start);
      if open {
        return CircuitOpen, 0, [];
      }
    }
    ghost var before := if br == null then CLOSED else br.View();
    var backoff := cfg.initialBackoff;
    if backoff <= 0 { backoff := DEFAULT_BACKOFF; }
    var maxBackoff := cfg.maxBackoff;
    if maxBackoff <= 0 { maxBackoff := DEFAULT_MAX_BACKOFF; }
    var attempts := cfg.retries;
    if attempts <= 0 { attempts := 1; }
    for i := 0 to attempts
      invariant sends == i && forall j :: 0 <= j < i ==> !call.tries[j].ok
      invariant br != null ==> br.View() == AfterTries(cfg, before, call.tries[..i])
      invariant pauses == Pauses(Initial(cfg), Limit(cfg), if i == attempts then i - 1 else i)
      invariant i < attempts ==> backoff == Pause(Initial(cfg), Limit(cfg), i)
    {
      var t := call.tries[i];
      TriesStep(cfg, before, call.tries, i);
      sends := i + 1;
      if t.ok {
        UsedFrom(call.tries, i);
        if br != null { br.OnSuccess(t.at, cfg); }
        PausesAreBackoffs(cfg, |pauses|);
        return Sent, sends, pauses;
      }
      if br != null { br.OnFailure(t.at, cfg); }
      if i < attempts - 1 {
        pauses := pauses + [backoff];
        PausesStep(cfg, i);
        backoff := backoff * 2;
        if backoff > maxBackoff { backoff := maxBackoff; }
      }
    }
    NoSuccessUsesAll(call.tries);
    PausesAreBackoffs(cfg, |pauses|);
    return SendError, sends, pauses;
  }

  // Routing

  /** The entry names an output that exists. */
  predicate IsTargeted(adapters: set<string>, entry: LogEntry) {
    "output" in entry.labels && entry.labels["output"] != "" && entry.labels["output"] in adapters
  }

  predicate GoesTo(adapters: set<string>, entry: LogEntry, name: string) {
    if IsTargeted(adapters, entry) then name == entry.labels["output"] else name in adapters
  }

  ghost function Routed(adapters: set<string>, entries: seq<LogEntry>, name: string): seq<LogEntry> {
    if entries == [] then []
    else
      var n := |entries| - 1;
      Routed(adapters, entries[..n], name) + (if GoesTo(adapters, entries[n], name) then [entries[n]] else [])
  }

  method DetermineOutputs(adapters: set<string>, entry: LogEntry) returns (outputs: seq<string>)
    ensures forall name :: name in outputs <==> GoesTo(adapters, entry, name)
    ensures forall i, j :: 0 <= i < j < |outputs| ==> outputs[i] != outputs[j]
    ensures "output" in entry.labels && entry.labels["output"] in adapters && entry.labels["output"] != "" ==>
      outputs == [entry.labels["output"]]
    ensures !("output" in entry.labels && entry.labels["output"] in adapters && entry.labels["output"] != "") ==>
      forall name :: name in outputs <==> name in adapters
  {
    if "output" in entry.labels && entry.labels["output"] != "" {
      if entry.labels["output"] in adapters {
        return [entry.labels["output"]];
      }
    }
    outputs := [];
    var rest := adapters;
    while rest != {}
      invariant rest <= adapters && forall name :: name in outputs <==> name in adapters - rest
      invariant forall i, j :: 0 <= i < j < |outputs| ==> outputs[i] != outputs[j]
    {
      var name :| name in rest;
      assert name !in outputs;
      outputs := outputs + [name];
      rest := rest - {name};
    }
  }

  function Listed(m: map<string, seq<LogEntry>>, name: string): seq<LogEntry> { if name in m then m[name] else [] }

  ghost predicate IsRouted(m: map<string, seq<LogEntry>>, adapters: set<string>, entries: seq<LogEntry>) {
    forall name :: Listed(m, name) == Routed(adapters, entries, name) && (name in m <==> Listed(m, name) != [])
  }

  ghost predicate AppendedTo(m: map<string, seq<LogEntry>>, m': map<string, seq<LogEntry>>, names: seq<string>,
      entry: LogEntry) {
    forall name :: Listed(m', name) == Listed(m, name) + (if name in names then [entry] else [])
      && (name in m' <==> name in m || name in names)
  }

  lemma AppendStep(m: map<string, seq<LogEntry>>, m': map<string, seq<LogEntry>>, names: seq<string>, name: string,
      entry: LogEntry)
    requires AppendedTo(m, m', names, entry) && name !in names
    ensures AppendedTo(m, m'[name := Listed(m', name) + [entry]], names + [name], entry)
  {
  }

  method AppendToOutputs(routingMap: map<string, seq<LogEntry>>, outputs: seq<string>, entry: LogEntry)
    returns (m: map<string, seq<LogEntry>>)
    requires forall i, j :: 0 <= i < j < |outputs| ==> outputs[i] != outputs[j]
    ensures AppendedTo(routingMap, m, outputs, entry)
  {
    m := routingMap;
    for i := 0 to |outputs|
      invariant AppendedTo(routingMap, m, outputs[..i], entry)
    {
      assert outputs[..i + 1] == outputs[..i] + [outputs[i]];
      AppendStep(routingMap, m, outputs[..i], outputs[i], entry);
      m := m[outputs[i] := (if outputs[i] in m then m[outputs[i]] else []) + [entry]];
    }
    assert outputs[..|outputs|] == outputs;
  }

  lemma RoutedStep(m: map<string, seq<LogEntry>>, m': map<string, seq<LogEntry>>, adapters: set<string>,
                   entries: seq<LogEntry>, entry: LogEntry, outputs: seq<string>)
    requires IsRouted(m, adapters, entries) && AppendedTo(m, m', outputs, entry)
    requires forall name :: name in outputs <==> GoesTo(adapters, entry, name)
    ensures IsRouted(m', adapters, entries + [entry])
  {
  }

  /** For every output the entries that go to it, in the order of the batch. */
  method GroupByOutput(adapters: set<string>, entries: seq<LogEntry>) returns (routingMap: map<string, seq<LogEntry>>)
    ensures forall name :: name in routingMap <==> Routed(adapters, entries, name) != []
    ensures forall name :: name in routingMap ==> routingMap[name] == Routed(adapters, entries, name)
  {
    routingMap := map[];
    for n := 0 to |entries|
      invariant IsRouted(routingMap, adapters, entries[..n])
    {
      hide IsRouted, AppendedTo, GoesTo;
      var outputs := DetermineOutputs(adapters, entries[n]);
      ghost var before := routingMap;
      routingMap := AppendToOutputs(routingMap, outputs, entries[n]);
      RoutedStep(before, routingMap, adapters, entries[..n], entries[n], outputs);
      assert entries[..n + 1] == entries[..n] + [entries[n]];
    }
    assert entries[..|entries|] == entries;
  }

  ghost function PositionsFor(adapters: set<string>, entries: seq<LogEntry>, name: string): set<nat> {
    set i: nat | i < |entries| && GoesTo(adapters, entries[i], name)
  }

  /** The entries that go to an output, in the order of the batch. */
  lemma {:induction false} RoutedInOrder(adapters: set<string>, entries: seq<LogEntry>, name: string)
    ensures Keeps(entries, PositionsFor(adapters, entries, name), Routed(adapters, entries, name))
  {
    hide GoesTo, Keeps;
    if entries == [] {
      assert PositionsFor(adapters, [], name) == {};
      KeepsNothing<LogEntry>();
    } else {
      var n := |entries| - 1;
      var init, more := entries[..n], GoesTo(adapters, entries[n], name);
      RoutedInOrder(adapters, init, name);
      KeepsStep(init, PositionsFor(adapters, init, name), Routed(adapters, init, name), entries[n], more);
      assert PositionsFor(adapters, entries, name)
        == if more then PositionsFor(adapters, init, name) + {n} else PositionsFor(adapters, init, name);
      assert init + [entries[n]] == entries;
    }
  }

  /** With outputs, every entry goes somewhere; a targeted one to exactly one output. */
  lemma EntriesAreRouted(adapters: set<string>, entries: seq<LogEntry>, n: nat)
    requires n < |entries|
    ensures (exists name :: entries[n] in Routed(adapters, entries, name)) <==> adapters != {}
    ensures forall name :: IsTargeted(adapters, entries[n]) && entries[n] in Routed(adapters, entries, name) ==>
      name == entries[n].labels["output"]
  {
    forall name ensures entries[n] in Routed(adapters, entries, name) <==> GoesTo(adapters, entries[n], name) {
      RoutedIff(adapters, entries, name, entries[n]);
    }
    if adapters == {} {
      forall name ensures entries[n] !in Routed(adapters, entries, name) {
        RoutedIff(adapters, entries, name, entries[n]);
      }
    } else if name :| name in adapters {
      var target := if IsTargeted(adapters, entries[n]) then entries[n].labels["output"] else name;
      assert entries[n] in Routed(adapters, entries, target);
    }
  }

  lemma {:induction false} RoutedIff(adapters: set<string>, entries: seq<LogEntry>, name: string, entry: LogEntry)
    ensures entry in Routed(adapters, entries, name) <==> entry in entries && GoesTo(adapters, entry, name)
  {
    if entries != [] {
      var n := |entries| - 1;
      RoutedIff(adapters, entries[..n], name, entry);
      assert entries == entries[..n] + [entries[n]];
    }
  }
}
