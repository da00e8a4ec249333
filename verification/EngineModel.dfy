/** The dedup engine on values: what is emitted over a run of messages and cleanups. */
module EngineModel {
  import opened Text
  import opened Tokenizer
  import opened Entries
  import opened DrainModel
  import opened ContextWindow
  import Fingerprint

  datatype EngineConfig = EngineConfig(
    drain: Config,
    ttl: int,
    contextLines: int,
    hash: string -> string)

  datatype EngineState = EngineState(drain: State, cache: Fingerprint.Cache, history: seq<LogEntry>)

  datatype EngineResult = EngineResult(
    isDuplicate: bool,
    templateID: string,
    fingerprint: string,
    shouldOutput: bool,
    context: seq<LogEntry>)

  /** Two readings of the clock while one entry is processed, or one background cleanup. */
  datatype Event = Process(entry: LogEntry, checkedAt: int, addedAt: int) | Cleanup(at: int)

  /** What became of an event: a cache hit, or a pass through the clustering. */
  datatype Verdict = Maintenance | Hit(result: EngineResult) | Passed(mined: Result, result: EngineResult)

  const NEW_ENGINE := EngineState(INITIAL, map[], [])

  predicate ShouldPreserveContext(entry: LogEntry) {
    entry.level in {"ERROR", "FATAL", "PANIC"}
  }

  /** A template seen before is skipped; an id without a cluster is not. */
  predicate ShouldSkip(drain: State, templateID: string) {
    var template := TemplateOf(drain, templateID);
    template.Some? && template.value.size > 1
  }

  function Step(cfg: EngineConfig, s: EngineState, e: Event): (EngineState, Verdict)
    requires WellFormed(s.drain)
  {
    match e
    case Cleanup(at) => (s.(cache := Fingerprint.Live(s.cache, at)), Maintenance)
    case Process(entry, checkedAt, addedAt) =>
      var f := cfg.hash(entry.message);
      if f in Fingerprint.Live(s.cache, checkedAt) then (s, Hit(EngineResult(true, "", f, false, [])))
      else
        var (drain, mined) := Add(cfg.drain, s.drain, Tokenize(cfg.drain.tokenizer, entry.message));
        var id := Itoa(mined.clusterID);
        var skip := mined.changeType != Created && ShouldSkip(drain, id);
        var error := ShouldPreserveContext(entry);
        var context := if error then LastOf(s.history, cfg.contextLines) + [entry] else [];
        (EngineState(drain, (s.cache - {f})[f := addedAt + cfg.ttl], s.history + [entry]),
         Passed(mined, EngineResult(skip, id, f, !skip || error, context)))
  }

  predicate Suppressed(v: Verdict) {
    !v.Maintenance? && !v.result.shouldOutput
  }

  predicate Emitted(v: Verdict) {
    !v.Maintenance? && v.result.shouldOutput
  }
}
