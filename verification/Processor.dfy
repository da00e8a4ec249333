/** The processor as it is: batches of entries through profiles and the dedup engine. */
module Processor {
  import opened Entries
  import opened EngineModel
  import opened EngineRuns
  import opened ProcessorModel
  import Engine

  class Processor {
    const engine: Engine.Engine
    ghost var arrivals: seq<Arrival>  // everything that happened, in order

    ghost predicate Valid()
      reads this, engine, engine.drain, engine.drain.g.allNodes, engine.drain.g.allClusters, engine.fingerprints,
        engine.context
    {
      engine.Valid() && engine.View() == After(engine.config, arrivals)
    }

    constructor (config: EngineConfig)
      ensures Valid() && arrivals == [] && engine.config == config
      ensures fresh(engine) && fresh(engine.drain) && fresh(engine.drain.g.allNodes)
        && fresh(engine.drain.g.allClusters)
      ensures fresh(engine.fingerprints) && fresh(engine.context)
    {
      engine := new Engine.Engine(config);
      arrivals := [];
    }

    method ProcessEntry(t: Arrival) returns (out: seq<LogEntry>, matched: bool)
      requires Valid() && t.Entry?
      modifies this, engine.drain, engine.drain.g.allNodes, engine.drain.g.allClusters, engine.fingerprints,
        engine.context
      ensures Valid() && arrivals == old(arrivals) + [t]
      ensures out == LastOutput(engine.config, arrivals)
      ensures matched == (t.judgement.Ruled? && t.judgement.matched)
      ensures forall n :: n in engine.drain.g.allNodes && n !in old(engine.drain.g.allNodes) ==> fresh(n)
      ensures forall c :: c in engine.drain.g.allClusters && c !in old(engine.drain.g.allClusters) ==> fresh(c)
    {
      hide Engine.Engine.Valid, Engine.Engine.View, Run, Step, Outputs;
      ArrivalStep(engine.config, arrivals, t);
      arrivals := arrivals + [t];
      if t.judgement.ProfileError? {
        return [t.entry], false;
      }
      if t.judgement.drop {
        return [], t.judgement.matched;
      }
      var result, verdict := engine.Process(t.entry, t.checkedAt, t.addedAt);
      if result.isDuplicate && !result.shouldOutput {
        return [], t.judgement.matched;
      }
      out := [];
      for i := 0 to |result.context|
        invariant out == result.context[..i]
      {
        out := out + [result.context[i]];
      }
      out := out + [t.entry];
      return out, t.judgement.matched;
    }

    /** One batch: what is put out for its entries, in their order, and the counters of every profile. */
    method ProcessBatch(batch: seq<Arrival>)
      returns (outputEntries: seq<LogEntry>, inputByProfile: Counter, outputByProfile: Counter,
        matchedByProfile: Counter)
      requires Valid() && forall i :: 0 <= i < |batch| ==> batch[i].Entry?
      modifies this, engine.drain, engine.drain.g.allNodes, engine.drain.g.allClusters, engine.fingerprints,
        engine.context
      ensures Valid() && arrivals == old(arrivals) + batch
      ensures outputEntries == PutOutFrom(engine.config, arrivals, |old(arrivals)|)
      ensures AreCounts(batch, OutputsFrom(engine.config, arrivals, |old(arrivals)|), inputByProfile, outputByProfile,
        matchedByProfile)
    {
      hide Engine.Engine.Valid, Engine.Engine.View, After, LastOutput, OutputsFrom, PutOutFrom, AreCounts, ProfileOf,
        Increase;
      outputEntries, inputByProfile, outputByProfile, matchedByProfile := [], map[], map[], map[];
      ghost var before := arrivals;
      NothingYet(engine.config, before);
      for i := 0 to |batch|
        invariant Valid()
        invariant arrivals == before + batch[..i]
        invariant outputEntries == PutOutFrom(engine.config, arrivals, |before|)
        invariant AreCounts(batch[..i], OutputsFrom(engine.config, arrivals, |before|), inputByProfile, outputByProfile,
          matchedByProfile)
        invariant forall n :: n in engine.drain.g.allNodes && n !in old(engine.drain.g.allNodes) ==> fresh(n)
        invariant forall c :: c in engine.drain.g.allClusters && c !in old(engine.drain.g.allClusters) ==> fresh(c)
      {
        ghost var now := arrivals;
        var profile := ProfileOf(batch[i].entry);
        var entries, isMatched := ProcessEntry(batch[i]);
        PutOutStep(engine.config, now, |before|, batch[i]);
        assert |entries| == 0 ==> outputEntries + entries == outputEntries;
        if |entries| > 0 {
          outputEntries := outputEntries + entries;
        }
        CountStep(batch[..i], OutputsFrom(engine.config, now, |before|), inputByProfile, outputByProfile,
          matchedByProfile, batch[i], entries);
        inputByProfile := Increase(inputByProfile, profile, 1);
        if |entries| > 0 {
          outputByProfile := Increase(outputByProfile, profile, |entries|);
        }
        if isMatched {
          matchedByProfile := Increase(matchedByProfile, profile, 1);
        }
        assert batch[..i + 1] == batch[..i] + [batch[i]];
        assert before + batch[..i + 1] == now + [batch[i]];
      }
      assert batch[..|batch|] == batch;
    }
  }

  lemma NothingYet(cfg: EngineConfig, arrivals: seq<Arrival>)
    ensures OutputsFrom(cfg, arrivals, |arrivals|) == [] && PutOutFrom(cfg, arrivals, |arrivals|) == []
    ensures AreCounts([], OutputsFrom(cfg, arrivals, |arrivals|), map[], map[], map[])
  {
  }
}
