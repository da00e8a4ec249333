/** What the processor emits for the entries it is given, one after the other. */
module ProcessorModel {
  import opened Entries
  import opened DrainModel
  import opened DrainInvariants
  import opened ContextWindow
  import opened EngineModel
  import opened EngineRuns

  /** What the entry's profile says: an error, or whether it applies and drops the entry. */
  datatype Judgement = ProfileError | Ruled(drop: bool, matched: bool)

  /** An entry with its judgement and two readings of the clock, or a cleanup of the cache. */
  datatype Arrival = Entry(entry: LogEntry, judgement: Judgement, checkedAt: int, addedAt: int) | Cleaning(at: int)

  /** The engine sees the entry. */
  predicate Reaches(t: Arrival) { t.Cleaning? || (t.judgement.Ruled? && !t.judgement.drop) }

  function EventOf(t: Arrival): Event
    requires Reaches(t)
  {
    match t
    case Entry(entry, _, checkedAt, addedAt) => Process(entry, checkedAt, addedAt)
    case Cleaning(at) => Cleanup(at)
  }

  function EventsOf(arrivals: seq<Arrival>): seq<Event> {
    if arrivals == [] then []
    else
      var n := |arrivals| - 1;
      EventsOf(arrivals[..n]) + (if Reaches(arrivals[n]) then [EventOf(arrivals[n])] else [])
  }

  /** The output for an entry that the engine saw: its context, then the entry itself. */
  function OutputOf(v: Verdict, entry: LogEntry): seq<LogEntry>
    requires !v.Maintenance?
  {
    if v.result.isDuplicate && !v.result.shouldOutput then [] else v.result.context + [entry]
  }

  ghost function Output(cfg: EngineConfig, s: EngineState, t: Arrival): seq<LogEntry>
    requires WellFormed(s.drain)
  {
    match t
    case Cleaning(_) => []
    case Entry(entry, judgement, _, _) =>
      if judgement.ProfileError? then [entry]
      else if judgement.drop then []
      else OutputOf(Step(cfg, s, EventOf(t)).1, entry)
  }

  /** The state of the engine after some arrivals. */
  ghost function After(cfg: EngineConfig, arrivals: seq<Arrival>): (s: EngineState)
    ensures Sound(s.drain)
  {
    Run(cfg, EventsOf(arrivals)).state
  }

  ghost function Outputs(cfg: EngineConfig, arrivals: seq<Arrival>): (outs: seq<seq<LogEntry>>)
    ensures |outs| == |arrivals|
  {
    if arrivals == [] then []
    else
      var n := |arrivals| - 1;
      Outputs(cfg, arrivals[..n]) + [Output(cfg, After(cfg, arrivals[..n]), arrivals[n])]
  }

  /** One more arrival: what it does to the engine, and what is put out for it. */
  lemma ArrivalStep(cfg: EngineConfig, arrivals: seq<Arrival>, t: Arrival)
    ensures var s := After(cfg, arrivals);
      && After(cfg, arrivals + [t]) == (if Reaches(t) then Step(cfg, s, EventOf(t)).0 else s)
      && Outputs(cfg, arrivals + [t]) == Outputs(cfg, arrivals) + [Output(cfg, s, t)]
  {
    hide Run, Step, Output;
    assert (arrivals + [t])[..|arrivals|] == arrivals;
    if Reaches(t) {
      RunLast(cfg, EventsOf(arrivals), EventOf(t));
    } else {
      assert EventsOf(arrivals) + [] == EventsOf(arrivals);
    }
  }

  lemma {:induction false} OutputAt(cfg: EngineConfig, arrivals: seq<Arrival>, k: nat)
    requires k < |arrivals|
    ensures Outputs(cfg, arrivals)[k] == Output(cfg, After(cfg, arrivals[..k]), arrivals[k])
  {
    hide Output, After;
    var n := |arrivals| - 1;
    if k < n {
      OutputAt(cfg, arrivals[..n], k);
      assert arrivals[..n][..k] == arrivals[..k];
    }
  }

  // Arrivals and the events of the engine

  function EventIndex(arrivals: seq<Arrival>, k: nat): nat
    requires k <= |arrivals|
  {
    |EventsOf(arrivals[..k])|
  }

  lemma {:induction false} EventsPrefix(arrivals: seq<Arrival>, k: nat)
    requires k <= |arrivals|
    ensures EventIndex(arrivals, k) <= |EventsOf(arrivals)|
      && EventsOf(arrivals)[..EventIndex(arrivals, k)] == EventsOf(arrivals[..k])
  {
    var n := |arrivals| - 1;
    if k <= n {
      EventsPrefix(arrivals[..n], k);
      assert arrivals[..n][..k] == arrivals[..k];
    } else {
      assert arrivals[..k] == arrivals;
    }
  }

  /** An arrival that reaches the engine is the event at its index. */
  lemma ArrivalIsEvent(arrivals: seq<Arrival>, k: nat)
    requires k < |arrivals| && Reaches(arrivals[k])
    ensures EventIndex(arrivals, k) < |EventsOf(arrivals)|
      && EventsOf(arrivals)[EventIndex(arrivals, k)] == EventOf(arrivals[k])
  {
    EventsPrefix(arrivals, k + 1);
    assert arrivals[..k + 1][..k] == arrivals[..k];
    assert EventsOf(arrivals[..k + 1]) == EventsOf(arrivals[..k]) + [EventOf(arrivals[k])];
    assert EventsOf(arrivals)[..EventIndex(arrivals, k + 1)][EventIndex(arrivals, k)] == EventOf(arrivals[k]);
  }

  lemma {:induction false} EventIsArrival(arrivals: seq<Arrival>, j: nat) returns (k: nat)
    requires j < |EventsOf(arrivals)|
    ensures k < |arrivals| && Reaches(arrivals[k]) && EventIndex(arrivals, k) == j
  {
    var n := |arrivals| - 1;
    if j < |EventsOf(arrivals[..n])| {
      k := EventIsArrival(arrivals[..n], j);
      assert arrivals[..n][..k] == arrivals[..k];
    } else {
      k := n;
    }
  }

  lemma {:induction false} IndexGrows(arrivals: seq<Arrival>, j: nat, k: nat)
    requires j <= k <= |arrivals|
    ensures EventIndex(arrivals, j) <= EventIndex(arrivals, k)
    ensures j < k && Reaches(arrivals[j]) ==> EventIndex(arrivals, j) < EventIndex(arrivals, k)
  {
    EventsPrefix(arrivals[..k], j);
    assert arrivals[..k][..j] == arrivals[..j];
    if j < k && Reaches(arrivals[j]) {
      ArrivalIsEvent(arrivals[..k], j);
    }
  }

  /** The output of an arrival is that of the engine's verdict on it. */
  lemma OutputIsVerdict(cfg: EngineConfig, arrivals: seq<Arrival>, k: nat)
    requires k < |arrivals| && arrivals[k].Entry? && Reaches(arrivals[k])
    ensures var i := EventIndex(arrivals, k);
      && i < |EventsOf(arrivals)| && !Run(cfg, EventsOf(arrivals)).verdicts[i].Maintenance?
      && Outputs(cfg, arrivals)[k] == OutputOf(Run(cfg, EventsOf(arrivals)).verdicts[i], arrivals[k].entry)
  {
    hide Run, Step, Outputs, EventsOf;
    var i := EventIndex(arrivals, k);
    ArrivalIsEvent(arrivals, k);
    EventsPrefix(arrivals, k);
    OutputAt(cfg, arrivals, k);
    VerdictOf(cfg, EventsOf(arrivals), i);
    StepOfEntry(cfg, After(cfg, arrivals[..k]), EventOf(arrivals[k]));
  }

  lemma StepOfEntry(cfg: EngineConfig, s: EngineState, e: Event)
    requires WellFormed(s.drain) && e.Process?
    ensures var v := Step(cfg, s, e).1;
      && !v.Maintenance? && (v.result.isDuplicate || v.result.shouldOutput)
  {
  }

  /** An output, unless empty, ends with the entry itself. */
  predicate EndsWith(out: seq<LogEntry>, entry: LogEntry) { out != [] && out[|out| - 1] == entry }

  /** The j-th arrival put out its entry, which has the given text or created a cluster that covers it by now. */
  ghost predicate StandsFor(cfg: EngineConfig, arrivals: seq<Arrival>, j: nat, message: string) {
    var o := Run(cfg, EventsOf(arrivals));
    && j < |arrivals| && arrivals[j].Entry? && EndsWith(Outputs(cfg, arrivals)[j], arrivals[j].entry)
    && (arrivals[j].entry.message == message
        || (EventIndex(arrivals, j) < |o.verdicts|
           && CoversNow(cfg, o.state, o.verdicts[EventIndex(arrivals, j)], message)))
  }

  lemma VerdictsAreVerdicts(cfg: EngineConfig, events: seq<Event>, i: nat)
    requires i < |events| && events[i].Process?
    ensures var v := Run(cfg, events).verdicts[i];
      !v.Maintenance? && (v.result.isDuplicate || v.result.shouldOutput)
  {
    hide Run, Step;
    VerdictOf(cfg, events, i);
    StepOfEntry(cfg, Run(cfg, events[..i]).state, events[i]);
  }

  /** An entry that its profile lets through is put out, or an earlier output stands for it. */
  lemma NothingIsLost(cfg: EngineConfig, arrivals: seq<Arrival>, k: nat)
    requires Injective(cfg.hash) && k < |arrivals| && arrivals[k].Entry?
    ensures arrivals[k].judgement.ProfileError? ==> Outputs(cfg, arrivals)[k] == [arrivals[k].entry]
    ensures Reaches(arrivals[k]) ==>
      EndsWith(Outputs(cfg, arrivals)[k], arrivals[k].entry)
      || (Outputs(cfg, arrivals)[k] == []
         && exists j :: 0 <= j < k && StandsFor(cfg, arrivals, j, arrivals[k].entry.message))
  {
    hide Run, Step, EventsOf, CoversNow;
    OutputAt(cfg, arrivals, k);
    if Reaches(arrivals[k]) {
      var events := EventsOf(arrivals);
      var i := EventIndex(arrivals, k);
      ArrivalIsEvent(arrivals, k);
      OutputIsVerdict(cfg, arrivals, k);
      VerdictsAreVerdicts(cfg, events, i);
      if Suppressed(Run(cfg, events).verdicts[i]) {
        NothingSuppressedWithoutRepresentative(cfg, events, i);
        var m :| 0 <= m < i && Represents(cfg, events, Run(cfg, events), m, arrivals[k].entry.message);
        var j := EventIsArrival(arrivals, m);
        if j >= k {
          IndexGrows(arrivals, k, j);
        }
        ArrivalIsEvent(arrivals, j);
        OutputIsVerdict(cfg, arrivals, j);
        assert StandsFor(cfg, arrivals, j, arrivals[k].entry.message);
      }
    }
  }

  /** An error past the cache brings the last entries that passed it, then itself, twice. */
  lemma ErrorsBringContext(cfg: EngineConfig, init: seq<Arrival>, t: Arrival)
    requires t.Entry? && Reaches(t) && ShouldPreserveContext(t.entry)
    ensures var v := Run(cfg, EventsOf(init) + [EventOf(t)]).verdicts[|EventsOf(init)|];
      v.Passed? ==>
        Outputs(cfg, init + [t])[|init|] ==
          LastOf(PassedEntries(EventsOf(init), Run(cfg, EventsOf(init)).verdicts), cfg.contextLines) + [t.entry]
            + [t.entry]
  {
    hide Run, Step, PassedEntries;
    assert (init + [t])[..|init|] == init;
    ContextIsRecentHistory(cfg, EventsOf(init), EventOf(t));
    RunLast(cfg, EventsOf(init), EventOf(t));
    OutputAt(cfg, init + [t], |init|);
  }

  /** What is put out for an entry, in every case but that of an error past the cache, which has context too. */
  lemma OutputsExactly(cfg: EngineConfig, init: seq<Arrival>, t: Arrival)
    requires t.Entry?
    ensures var out := Outputs(cfg, init + [t])[|init|];
      && (t.judgement.ProfileError? ==> out == [t.entry])
      && (t.judgement.Ruled? && t.judgement.drop ==> out == [])
    ensures Reaches(t) ==>
      var out := Outputs(cfg, init + [t])[|init|];
      var v := Run(cfg, EventsOf(init) + [EventOf(t)]).verdicts[|EventsOf(init)|];
      && (v.Hit? || v.Passed?)
      && (v.Hit? ==> out == [])
      && (v.Passed? && !ShouldPreserveContext(t.entry) ==>
            out == if v.mined.changeType in {TemplateChanged, SizeChanged} then [] else [t.entry])
  {
    hide Run, Step;
    assert (init + [t])[..|init|] == init;
    OutputAt(cfg, init + [t], |init|);
    if Reaches(t) {
      RunLast(cfg, EventsOf(init), EventOf(t));
      EmittedExactly(cfg, EventsOf(init), EventOf(t));
      VerdictBringsContext(cfg, After(cfg, init), EventOf(t));
    }
  }

  lemma VerdictBringsContext(cfg: EngineConfig, s: EngineState, e: Event)
    requires WellFormed(s.drain) && e.Process?
    ensures var v := Step(cfg, s, e).1;
      && (v.Hit? || v.Passed?)
      && (v.Hit? ==> v.result.isDuplicate && !v.result.shouldOutput)
      && (v.Hit? || !ShouldPreserveContext(e.entry) ==> v.result.context == [])
  {
    hide Add;
  }

  // Counters of a batch

  function ProfileOf(entry: LogEntry): string {
    if "profile" in entry.labels then entry.labels["profile"] else "unknown"
  }

  type Counter = map<string, nat>

  function CountFor(m: Counter, profile: string): nat { if profile in m then m[profile] else 0 }

  /** What the entries of one profile came to: how many there were, how many were put out for them, how many matched. */
  datatype Tally = Tally(input: nat, output: nat, matched: nat)

  predicate IsMatched(t: Arrival) { t.Entry? && t.judgement.Ruled? && t.judgement.matched }

  function TallyOf(batch: seq<Arrival>, outs: seq<seq<LogEntry>>, profile: string): (t: Tally)
    requires |outs| == |batch| && forall i :: 0 <= i < |batch| ==> batch[i].Entry?
    ensures t.matched <= t.input <= |batch|
  {
    if batch == [] then Tally(0, 0, 0)
    else
      var n := |batch| - 1;
      var t := TallyOf(batch[..n], outs[..n], profile);
      if ProfileOf(batch[n].entry) != profile then t
      else Tally(t.input + 1, t.output + |outs[n]|, t.matched + (if IsMatched(batch[n]) then 1 else 0))
  }

  ghost predicate AreCounts(batch: seq<Arrival>, outs: seq<seq<LogEntry>>, input: Counter, output: Counter,
      matched: Counter) {
    && |outs| == |batch| && (forall i :: 0 <= i < |batch| ==> batch[i].Entry?)
    && forall p :: Tally(CountFor(input, p), CountFor(output, p), CountFor(matched, p)) == TallyOf(batch, outs, p)
  }

  function Increase(m: Counter, profile: string, n: nat): Counter { m[profile := CountFor(m, profile) + n] }

  lemma TallyStep(batch: seq<Arrival>, outs: seq<seq<LogEntry>>, t: Arrival, out: seq<LogEntry>, profile: string)
    requires |outs| == |batch| && t.Entry? && forall i :: 0 <= i < |batch| ==> batch[i].Entry?
    ensures var tally := TallyOf(batch, outs, profile);
      TallyOf(batch + [t], outs + [out], profile) ==
        if ProfileOf(t.entry) != profile then tally
        else Tally(tally.input + 1, tally.output + |out|, tally.matched + (if IsMatched(t) then 1 else 0))
  {
    hide ProfileOf, IsMatched;
    assert (batch + [t])[..|batch|] == batch && (outs + [out])[..|outs|] == outs;
  }

  /** One more entry and its output, counted for the entry's profile. */
  lemma CountStep(batch: seq<Arrival>, outs: seq<seq<LogEntry>>, input: Counter, output: Counter, matched: Counter,
                  t: Arrival, out: seq<LogEntry>)
    requires AreCounts(batch, outs, input, output, matched) && t.Entry?
    ensures var p := ProfileOf(t.entry);
      AreCounts(batch + [t], outs + [out], Increase(input, p, 1),
                if |out| > 0 then Increase(output, p, |out|) else output,
                if t.judgement.Ruled? && t.judgement.matched then Increase(matched, p, 1) else matched)
  {
    var p := ProfileOf(t.entry);
    var output' := if |out| > 0 then Increase(output, p, |out|) else output;
    var matched' := if IsMatched(t) then Increase(matched, p, 1) else matched;
    hide ProfileOf, IsMatched, TallyOf;
    forall q ensures Tally(CountFor(Increase(input, p, 1), q), CountFor(output', q), CountFor(matched', q))
      == TallyOf(batch + [t], outs + [out], q)
    {
      TallyStep(batch, outs, t, out, q);
      assert Tally(CountFor(input, q), CountFor(output, q), CountFor(matched, q)) == TallyOf(batch, outs, q);
    }
  }

  function Flatten(outs: seq<seq<LogEntry>>): seq<LogEntry> {
    if outs == [] then [] else Flatten(outs[..|outs| - 1]) + outs[|outs| - 1]
  }

  /** Each output comes in the place of its arrival. */
  lemma {:induction false} FlattenInOrder(outs: seq<seq<LogEntry>>, k: nat)
    requires k < |outs|
    ensures Flatten(outs) == Flatten(outs[..k]) + outs[k] + Flatten(outs[k + 1..])
  {
    var n := |outs| - 1;
    if k == n {
      assert outs[k + 1..] == [] && Flatten(outs[..k]) + outs[k] + [] == Flatten(outs[..k]) + outs[k];
    } else {
      FlattenInOrder(outs[..n], k);
      assert outs[..n][..k] == outs[..k] && outs[..n][k + 1..] == outs[k + 1..n];
      assert outs[k + 1..][..n - k - 1] == outs[k + 1..n] && outs[k + 1..][n - k - 1] == outs[n];
      assert Flatten(outs[k + 1..]) == Flatten(outs[k + 1..n]) + outs[n];
    }
  }

  /** The outputs of the arrivals from the n-th on, and what they put out in all. */
  ghost function OutputsFrom(cfg: EngineConfig, arrivals: seq<Arrival>, n: nat): (outs: seq<seq<LogEntry>>)
    requires n <= |arrivals|
    ensures |outs| == |arrivals| - n
  {
    Outputs(cfg, arrivals)[n..]
  }

  ghost function PutOutFrom(cfg: EngineConfig, arrivals: seq<Arrival>, n: nat): seq<LogEntry>
    requires n <= |arrivals|
  {
    Flatten(OutputsFrom(cfg, arrivals, n))
  }

  /** The output for the last arrival. */
  ghost function LastOutput(cfg: EngineConfig, arrivals: seq<Arrival>): seq<LogEntry>
    requires arrivals != []
  {
    Outputs(cfg, arrivals)[|arrivals| - 1]
  }

  lemma PutOutStep(cfg: EngineConfig, arrivals: seq<Arrival>, n: nat, t: Arrival)
    requires n <= |arrivals|
    ensures var out := LastOutput(cfg, arrivals + [t]);
      && OutputsFrom(cfg, arrivals + [t], n) == OutputsFrom(cfg, arrivals, n) + [out]
      && PutOutFrom(cfg, arrivals + [t], n) == PutOutFrom(cfg, arrivals, n) + out
  {
    hide Outputs;
    ArrivalStep(cfg, arrivals, t);
    var outs := OutputsFrom(cfg, arrivals + [t], n);
    assert outs == OutputsFrom(cfg, arrivals, n) + [Outputs(cfg, arrivals + [t])[|arrivals|]];
    assert outs[..|outs| - 1] == OutputsFrom(cfg, arrivals, n);
  }

  /** The entries of a batch that have a profile; without a label it is the unknown one. */
  ghost function OfProfile(batch: seq<Arrival>, profile: string): set<nat> {
    set i: nat | i < |batch| && batch[i].Entry? && profile == LabelOr(batch[i].entry.labels, "profile", "unknown")
  }

  function LabelOr(labels: map<string, string>, key: string, otherwise: string): string {
    if key in labels then labels[key] else otherwise
  }

  ghost function MatchedOfProfile(batch: seq<Arrival>, profile: string): set<nat> {
    set i: nat | i in OfProfile(batch, profile) && batch[i].judgement.Ruled? && batch[i].judgement.matched
  }

  /** The outputs for the entries of the profile, and nothing for the others. */
  ghost function OutputsOfProfile(batch: seq<Arrival>, outs: seq<seq<LogEntry>>, profile: string): seq<seq<LogEntry>> {
    seq(|outs|, i requires 0 <= i < |outs| => if i in OfProfile(batch, profile) then outs[i] else [])
  }

  lemma OfProfileStep(batch: seq<Arrival>, profile: string)
    requires batch != [] && batch[|batch| - 1].Entry?
    ensures var n := |batch| - 1;
      OfProfile(batch, profile) ==
        if ProfileOf(batch[n].entry) == profile then OfProfile(batch[..n], profile) + {n}
        else OfProfile(batch[..n], profile)
  {
  }

  lemma MatchedOfProfileStep(batch: seq<Arrival>, profile: string)
    requires batch != [] && batch[|batch| - 1].Entry?
    ensures var n := |batch| - 1;
      MatchedOfProfile(batch, profile) ==
        if ProfileOf(batch[n].entry) == profile && IsMatched(batch[n]) then MatchedOfProfile(batch[..n], profile) + {n}
        else MatchedOfProfile(batch[..n], profile)
  {
    OfProfileStep(batch, profile);
    hide ProfileOf;
  }

  lemma OutputsOfProfileStep(batch: seq<Arrival>, outs: seq<seq<LogEntry>>, profile: string)
    requires |outs| == |batch| > 0 && batch[|batch| - 1].Entry?
    ensures var n := |batch| - 1;
      OutputsOfProfile(batch, outs, profile) == OutputsOfProfile(batch[..n], outs[..n], profile)
        + [if ProfileOf(batch[n].entry) == profile then outs[n] else []]
  {
    OfProfileStep(batch, profile);
    hide ProfileOf;
  }

  /** The counters of a profile count its entries, the matched ones of these, and what was put out for them. */
  lemma {:induction false} TallyCounts(batch: seq<Arrival>, outs: seq<seq<LogEntry>>, profile: string)
    requires |outs| == |batch| && forall i :: 0 <= i < |batch| ==> batch[i].Entry?
    ensures var t := TallyOf(batch, outs, profile);
      && t.input == |OfProfile(batch, profile)|
      && t.matched == |MatchedOfProfile(batch, profile)|
      && t.output == |Flatten(OutputsOfProfile(batch, outs, profile))|
  {
    if batch == [] {
      assert OfProfile(batch, profile) == {} && MatchedOfProfile(batch, profile) == {};
    } else {
      var n := |batch| - 1;
      TallyCounts(batch[..n], outs[..n], profile);
      OfProfileStep(batch, profile);
      MatchedOfProfileStep(batch, profile);
      OutputsOfProfileStep(batch, outs, profile);
      var before, last := OutputsOfProfile(batch[..n], outs[..n], profile), OutputsOfProfile(batch, outs, profile)[n];
      FlattenOneMore(before, last);
      NotYetCounted(batch[..n], profile);
      hide ProfileOf, OfProfile, MatchedOfProfile, OutputsOfProfile, IsMatched;
    }
  }

  lemma NotYetCounted(batch: seq<Arrival>, profile: string)
    ensures |batch| !in OfProfile(batch, profile) && |batch| !in MatchedOfProfile(batch, profile)
  {
  }

  lemma FlattenOneMore(outs: seq<seq<LogEntry>>, out: seq<LogEntry>)
    ensures Flatten(outs + [out]) == Flatten(outs) + out
  {
    assert (outs + [out])[..|outs|] == outs;
  }

  function Totals(batch: seq<Arrival>, outs: seq<seq<LogEntry>>, profiles: seq<string>): (int, int)
    requires |outs| == |batch| && forall i :: 0 <= i < |batch| ==> batch[i].Entry?
  {
    if profiles == [] then (0, 0)
    else
      var n := |profiles| - 1;
      var (input, output) := Totals(batch, outs, profiles[..n]);
      var t := TallyOf(batch, outs, profiles[n]);
      (input + t.input, output + t.output)
  }

  lemma {:induction false} TotalsStep(batch: seq<Arrival>, outs: seq<seq<LogEntry>>, profiles: seq<string>)
    requires |outs| == |batch| > 0 && forall i :: 0 <= i < |batch| ==> batch[i].Entry?
    requires forall i, j :: 0 <= i < j < |profiles| ==> profiles[i] != profiles[j]
    ensures var n := |batch| - 1;
      var named := ProfileOf(batch[n].entry) in profiles;
      Totals(batch, outs, profiles) ==
        (Totals(batch[..n], outs[..n], profiles).0 + (if named then 1 else 0),
         Totals(batch[..n], outs[..n], profiles).1 + (if named then |outs[n]| else 0))
  {
    hide ProfileOf;
    if profiles != [] {
      TotalsStep(batch, outs, profiles[..|profiles| - 1]);
    }
  }

  /** The counters of all profiles add up to the batch and to its whole output. */
  lemma {:induction false} CountersAddUp(batch: seq<Arrival>, outs: seq<seq<LogEntry>>, profiles: seq<string>)
    requires |outs| == |batch|
      && forall i :: 0 <= i < |batch| ==> batch[i].Entry? && ProfileOf(batch[i].entry) in profiles
    requires forall i, j :: 0 <= i < j < |profiles| ==> profiles[i] != profiles[j]
    ensures Totals(batch, outs, profiles) == (|batch|, |Flatten(outs)|)
  {
    hide ProfileOf;
    if batch == [] {
      NoTotals(profiles);
    } else {
      CountersAddUp(batch[..|batch| - 1], outs[..|batch| - 1], profiles);
      TotalsStep(batch, outs, profiles);
    }
  }

  lemma {:induction false} NoTotals(profiles: seq<string>)
    ensures Totals([], [], profiles) == (0, 0)
  {
    if profiles != [] {
      NoTotals(profiles[..|profiles| - 1]);
    }
  }
}
