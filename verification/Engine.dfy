/** The dedup engine as it is: clustering, cache and window behind one method. */
module Engine {
  import opened Text
  import opened Entries
  import opened DrainModel
  import opened DrainInvariants
  import opened EngineModel
  import Drain3
  import Fingerprint
  import ContextWindow

  class Engine {
    const config: EngineConfig
    const drain: Drain3.Drain3
    const fingerprints: Fingerprint.FingerprintCache
    const context: ContextWindow.ContextWindow

    ghost predicate Valid()
      reads drain, drain.g.allNodes, drain.g.allClusters, fingerprints, context
    {
      && drain.Valid() && Sound(drain.View())
      && context.Valid()
      && drain.config == config.drain && fingerprints.ttl == config.ttl && context.contextLines == config.contextLines
    }

    ghost function View(): EngineState
      reads drain, fingerprints, context
    {
      EngineState(drain.View(), fingerprints.fingerprints, context.history)
    }

    constructor (config: EngineConfig)
      ensures Valid() && View() == NEW_ENGINE && this.config == config
      ensures fresh(drain) && fresh(drain.g.allNodes) && fresh(drain.g.allClusters) && fresh(fingerprints)
        && fresh(context)
    {
      this.config := config;
      drain := new Drain3.Drain3(config.drain);
      fingerprints := new Fingerprint.FingerprintCache(config.ttl);
      context := new ContextWindow.ContextWindow(config.contextLines);
    }

    method ShouldSkipBasedOnTemplate(templateID: string) returns (skip: bool)
      requires Valid()
      ensures skip == ShouldSkip(drain.View(), templateID)
    {
      var template := drain.GetTemplate(templateID);
      skip := template.Some? && template.value.size > 1;
    }

    /** Caches the message, collects the context of an error, and moves the window on. */
    method Remember(entry: LogEntry, fingerprint: string, addedAt: int) returns (contextEntries: seq<LogEntry>)
      requires context.Valid() && context.contextLines == config.contextLines && fingerprints.ttl == config.ttl
      modifies fingerprints, context
      ensures context.Valid() && context.history == old(context.history) + [entry]
      ensures fingerprints.fingerprints == old(fingerprints.fingerprints)[fingerprint := addedAt + config.ttl]
      ensures contextEntries == if ShouldPreserveContext(entry)
                                then ContextWindow.LastOf(old(context.history), config.contextLines) + [entry] else []
    {
      contextEntries := [];
      fingerprints.Add(fingerprint, addedAt);
      if ShouldPreserveContext(entry) {
        contextEntries := context.GetContext(entry);
      }
      context.Add(entry);
    }

    method Process(entry: LogEntry, checkedAt: int, addedAt: int) returns (result: EngineResult, ghost verdict: Verdict)
      requires Valid()
      modifies drain, drain.g.allNodes, drain.g.allClusters, fingerprints, context
      ensures Valid()
      ensures (View(), verdict) == Step(config, old(View()), Event.Process(entry, checkedAt, addedAt))
      ensures !verdict.Maintenance? && verdict.result == result
      ensures forall n :: n in drain.g.allNodes && n !in old(drain.g.allNodes) ==> fresh(n)
      ensures forall c :: c in drain.g.allClusters && c !in old(drain.g.allClusters) ==> fresh(c)
    {
      hide Drain3.Drain3.Valid, Drain3.Drain3.View, ContextWindow.ContextWindow.Valid, Sound, Add, ShouldSkip;
      var fingerprint := config.hash(entry.message);
      var seen := fingerprints.Exists(fingerprint, checkedAt);
      if seen {
        result := EngineResult(true, "", fingerprint, false, []);
        verdict := Hit(result);
        return;
      }
      var addRes := drain.AddLogMessage(entry.message);
      var templateID := Itoa(addRes.clusterID);
      var isDuplicate, shouldOutput := false, true;
      if addRes.changeType != Created {
        var skip := ShouldSkipBasedOnTemplate(templateID);
        if skip {
          isDuplicate, shouldOutput := true, false;
        }
      }
      var contextEntries := Remember(entry, fingerprint, addedAt);
      shouldOutput := shouldOutput || ShouldPreserveContext(entry);
      result := EngineResult(isDuplicate, templateID, fingerprint, shouldOutput, contextEntries);
      verdict := Passed(addRes, result);
    }

    method Reset()
      requires Valid()
      modifies drain, fingerprints, context
      ensures Valid() && View() == NEW_ENGINE
    {
      drain.Reset();
      fingerprints.Clear();
      context.Clear();
    }
  }
}
