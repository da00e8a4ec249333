/** The batching buffer as a transition system of its producers, its one worker and its consumer. */
module BufferModel {

  const MAX_WAITING := 100

  datatype BufferConfig = BufferConfig(bufferSize: nat, maxBatchSize: nat)

  /** A batch that left the worker: into the batch channel, or dropped because that was full. */
  datatype Flushed<T> = Flushed(batch: seq<T>, dropped: bool)

  datatype BufferState<T> = BufferState(
    buffer: seq<T>,               // entries in the channel
    batch: seq<T>,                // entries the worker holds
    batches: seq<seq<T>>,         // batches in the batch channel
    closed: bool,
    done: bool,                   // the worker has returned
    accepted: seq<T>,             // all entries whose Add succeeded
    flushed: seq<Flushed<T>>,     // all batches that left the worker
    consumed: seq<seq<T>>,        // all batches taken from the batch channel
    inside: map<nat, T>,          // threads that found the buffer open, and the entries they are about to send
    panicked: set<nat>)           // threads that sent on the closed channel

  /** One atomic step of some thread; an Add looks whether the buffer is open, and sends in a step of its own. */
  datatype Event<T> =
    | Check(thread: nat, entry: T)
    | Send(thread: nat)
    | HandOver(thread: nat)       // a Send that meets the waiting worker, on a channel without room
    | Receive
    | Tick
    | Consume
    | Close
    | Finish                      // the worker finds the channel closed and empty

  function NewBuffer<T>(): BufferState<T> { BufferState([], [], [], false, false, [], [], [], map[], {}) }

  /** An entry is accepted when the buffer is open and its channel has room. */
  predicate Accepts<T>(cfg: BufferConfig, s: BufferState<T>) { !s.closed && |s.buffer| < cfg.bufferSize }

  function Leave<T>(s: BufferState<T>, thread: nat): BufferState<T> { s.(inside := s.inside - {thread}) }

  /** A send on the open channel. */
  function SendOn<T>(cfg: BufferConfig, s: BufferState<T>, entry: T): BufferState<T> {
    if Accepts(cfg, s) then s.(buffer := s.buffer + [entry], accepted := s.accepted + [entry]) else s
  }

  function Flush<T>(s: BufferState<T>): BufferState<T> {
    if s.batch == [] then s
    else if |s.batches| < MAX_WAITING then
      s.(batches := s.batches + [s.batch], flushed := s.flushed + [Flushed(s.batch, false)], batch := [])
    else
      s.(flushed := s.flushed + [Flushed(s.batch, true)], batch := [])
  }

  function Collect<T>(cfg: BufferConfig, s: BufferState<T>, entry: T): BufferState<T> {
    var s' := s.(batch := s.batch + [entry]);
    if |s'.batch| >= cfg.maxBatchSize then Flush(s') else s'
  }

  predicate Enabled<T>(cfg: BufferConfig, s: BufferState<T>, e: Event<T>) {
    match e
    case Check(thread, _) => thread !in s.inside
    case Send(thread) => thread in s.inside
    case HandOver(thread) => thread in s.inside && cfg.bufferSize == 0 && !s.closed && !s.done
    case Receive => !s.done && s.buffer != []
    case Tick => !s.done
    case Consume => s.batches != []
    case Close => true
    case Finish => !s.done && s.closed && s.buffer == []
  }

  function Step<T>(cfg: BufferConfig, s: BufferState<T>, e: Event<T>): BufferState<T>
    requires Enabled(cfg, s, e)
  {
    match e
    case Check(thread, entry) => if s.closed then s else s.(inside := s.inside[thread := entry])
    case Send(thread) =>
      if s.closed then Leave(s.(panicked := s.panicked + {thread}), thread)
      else Leave(SendOn(cfg, s, s.inside[thread]), thread)
    case HandOver(thread) =>
      var entry := s.inside[thread];
      Collect(cfg, Leave(s.(accepted := s.accepted + [entry]), thread), entry)
    case Receive => Collect(cfg, s.(buffer := s.buffer[1..]), s.buffer[0])
    case Tick => Flush(s)
    case Consume => s.(batches := s.batches[1..], consumed := s.consumed + [s.batches[0]])
    case Close => s.(closed := true)
    case Finish => Flush(s).(done := true)
  }

  // What every run keeps

  function Concat<T>(flushed: seq<Flushed<T>>): seq<T> {
    if flushed == [] then [] else Concat(flushed[..|flushed| - 1]) + flushed[|flushed| - 1].batch
  }

  function Delivered<T>(flushed: seq<Flushed<T>>): seq<seq<T>> {
    if flushed == [] then []
    else
      Delivered(flushed[..|flushed| - 1])
        + (if flushed[|flushed| - 1].dropped then [] else [flushed[|flushed| - 1].batch])
  }

  lemma ConcatStep<T>(flushed: seq<Flushed<T>>, f: Flushed<T>)
    ensures Concat(flushed + [f]) == Concat(flushed) + f.batch
    ensures Delivered(flushed + [f]) == Delivered(flushed) + (if f.dropped then [] else [f.batch])
  {
  }

  function BatchLimit(cfg: BufferConfig): nat { if cfg.maxBatchSize == 0 then 1 else cfg.maxBatchSize }

  /** Every accepted entry is in one place, in order, and batches have a size from 1 to the limit. */
  ghost predicate Inv<T>(cfg: BufferConfig, s: BufferState<T>) {
    && s.accepted == Concat(s.flushed) + s.batch + s.buffer
    && Delivered(s.flushed) == s.consumed + s.batches
    && (forall i :: 0 <= i < |s.flushed| ==> 1 <= |s.flushed[i].batch| <= BatchLimit(cfg))
    && |s.batch| < BatchLimit(cfg)
    && |s.buffer| <= cfg.bufferSize
    && |s.batches| <= MAX_WAITING
    && (s.done ==> s.closed && s.batch == [] && s.buffer == [])
    && (!s.closed ==> s.panicked == {})
    && s.panicked !! s.inside.Keys
  }

  lemma FlushKeeps<T>(cfg: BufferConfig, s: BufferState<T>)
    requires |s.batch| <= BatchLimit(cfg) && Inv(cfg, s.(batch := [], accepted := Concat(s.flushed) + s.buffer))
    requires s.accepted == Concat(s.flushed) + s.batch + s.buffer
    ensures Inv(cfg, Flush(s)) && Flush(s).batch == []
  {
    if s.batch != [] {
      ConcatStep(s.flushed, Flushed(s.batch, |s.batches| >= MAX_WAITING));
      assert Concat(Flush(s).flushed) + [] + s.buffer == s.accepted;
      assert s.consumed + (s.batches + [s.batch]) == s.consumed + s.batches + [s.batch];
    } else {
      assert Concat(s.flushed) + [] + s.buffer == Concat(s.flushed) + s.buffer;
    }
  }

  lemma CollectKeeps<T>(cfg: BufferConfig, s: BufferState<T>, entry: T)
    requires !s.done && Inv(cfg, s.(accepted := Concat(s.flushed) + s.batch + s.buffer))
    requires s.accepted == Concat(s.flushed) + s.batch + [entry] + s.buffer
    ensures Inv(cfg, Collect(cfg, s, entry))
  {
    var s' := s.(batch := s.batch + [entry]);
    assert s'.accepted == Concat(s'.flushed) + s'.batch + s'.buffer;
    if |s'.batch| >= cfg.maxBatchSize {
      FlushKeeps(cfg, s');
    }
  }

  lemma SendKeeps<T>(cfg: BufferConfig, s: BufferState<T>, thread: nat)
    requires Inv(cfg, s) && Enabled(cfg, s, Send(thread))
    ensures Inv(cfg, Step(cfg, s, Send(thread)))
  {
    var entry := s.inside[thread];
    assert s.accepted + [entry] == Concat(s.flushed) + s.batch + (s.buffer + [entry]);
  }

  lemma HandOverKeeps<T>(cfg: BufferConfig, s: BufferState<T>, thread: nat)
    requires Inv(cfg, s) && Enabled(cfg, s, HandOver(thread))
    ensures Inv(cfg, Step(cfg, s, HandOver(thread)))
  {
    var entry := s.inside[thread];
    assert s.accepted + [entry] == Concat(s.flushed) + s.batch + [entry] + s.buffer;
    CollectKeeps(cfg, Leave(s.(accepted := s.accepted + [entry]), thread), entry);
  }

  lemma TakeKeeps<T>(cfg: BufferConfig, s: BufferState<T>)
    requires Inv(cfg, s) && Enabled(cfg, s, Receive)
    ensures Inv(cfg, Step(cfg, s, Receive))
  {
    assert s.buffer == [s.buffer[0]] + s.buffer[1..];
    assert s.accepted == Concat(s.flushed) + s.batch + [s.buffer[0]] + s.buffer[1..];
    CollectKeeps(cfg, s.(buffer := s.buffer[1..]), s.buffer[0]);
  }

  lemma StepKeepsInv<T>(cfg: BufferConfig, s: BufferState<T>, e: Event<T>)
    requires Inv(cfg, s) && Enabled(cfg, s, e)
    ensures Inv(cfg, Step(cfg, s, e))
  {
    hide Collect;
    match e {
      case Check(_, _) =>
      case Send(thread) => SendKeeps(cfg, s, thread);
      case HandOver(thread) => HandOverKeeps(cfg, s, thread);
      case Receive => TakeKeeps(cfg, s);
      case Tick => FlushKeeps(cfg, s);
      case Consume =>
        assert s.batches == [s.batches[0]] + s.batches[1..];
        assert s.consumed + s.batches == s.consumed + [s.batches[0]] + s.batches[1..];
      case Close =>
      case Finish => FlushKeeps(cfg, s);
    }
  }

  lemma ReceiveKeeps<T>(cfg: BufferConfig, s: BufferState<T>)
    requires Enabled(cfg, s, Receive)
    ensures var s' := Step(cfg, s, Receive);
      && s'.buffer == s.buffer[1..] && s'.closed == s.closed && s'.done == s.done
      && s'.accepted == s.accepted && s'.consumed == s.consumed
  {
  }

  // Runs

  predicate IsRun<T>(cfg: BufferConfig, events: seq<Event<T>>)
    decreases |events|, 0
  {
    events == [] ||
    var init := events[..|events| - 1];
    IsRun(cfg, init) && Enabled(cfg, After(cfg, init), events[|events| - 1])
  }

  function After<T>(cfg: BufferConfig, events: seq<Event<T>>): BufferState<T>
    requires IsRun(cfg, events)
    decreases |events|, 1
  {
    if events == [] then NewBuffer()
    else Step(cfg, After(cfg, events[..|events| - 1]), events[|events| - 1])
  }

  /** Conservation and order, in every state of every interleaving. */
  lemma {:induction false} RunKeepsInv<T>(cfg: BufferConfig, events: seq<Event<T>>)
    requires IsRun(cfg, events)
    ensures Inv(cfg, After(cfg, events))
  {
    if events != [] {
      var init := events[..|events| - 1];
      RunKeepsInv(cfg, init);
      StepKeepsInv(cfg, After(cfg, init), events[|events| - 1]);
    }
  }

  /** Once the worker has returned, every accepted entry is in a batch that was delivered or dropped. */
  lemma NothingPendingWhenDone<T>(cfg: BufferConfig, events: seq<Event<T>>)
    requires IsRun(cfg, events) && After(cfg, events).done
    ensures var s := After(cfg, events);
      s.accepted == Concat(s.flushed) && Delivered(s.flushed) == s.consumed + s.batches
  {
    RunKeepsInv(cfg, events);
    var s := After(cfg, events);
    assert Concat(s.flushed) + [] + [] == Concat(s.flushed);
  }

  /** After Close nothing more is accepted. */
  lemma {:induction false} NothingAcceptedAfterClose<T>(cfg: BufferConfig, events: seq<Event<T>>, n: nat)
    requires IsRun(cfg, events) && n <= |events| && IsRun(cfg, events[..n]) && After(cfg, events[..n]).closed
    ensures After(cfg, events).accepted == After(cfg, events[..n]).accepted && After(cfg, events).closed
    decreases |events|
  {
    if n == |events| {
      assert events[..n] == events;
    } else {
      assert events[..|events| - 1][..n] == events[..n];
      NothingAcceptedAfterClose(cfg, events[..|events| - 1], n);
    }
  }

  // Threads caught between the look and the send

  /** A look and a send with nothing in between never panic: the entry is accepted, or nothing happens. */
  lemma WholeAdd<T>(cfg: BufferConfig, s: BufferState<T>, thread: nat, entry: T)
    requires thread !in s.inside
    ensures var s' := Step(cfg, s, Check(thread, entry));
      && (thread in s'.inside <==> !s.closed)
      && (if s.closed then s' else Step(cfg, s', Send(thread))) == SendOn(cfg, s, entry)
  {
    assert s.inside[thread := entry] - {thread} == s.inside;
  }

  /** After Close nobody new gets inside, and whoever is gone from inside has panicked. */
  lemma ClosedStep<T>(cfg: BufferConfig, s: BufferState<T>, e: Event<T>)
    requires s.closed && Enabled(cfg, s, e)
    ensures var s' := Step(cfg, s, e);
      s'.closed && s'.inside.Keys + s'.panicked == s.inside.Keys + s.panicked && s'.panicked >= s.panicked
  {
  }

  /** The threads caught inside by Close are those that panic, each of them once, or are still to send. */
  lemma {:induction false} CaughtThreadsPanic<T>(cfg: BufferConfig, events: seq<Event<T>>, more: seq<Event<T>>)
    requires IsRun(cfg, events + [Close] + more) && IsRun(cfg, events) && !After(cfg, events).closed
    ensures var s := After(cfg, events + [Close] + more);
      s.closed && s.panicked + s.inside.Keys == After(cfg, events).inside.Keys && s.panicked !! s.inside.Keys
    decreases |more|
  {
    var run := events + [Close] + more;
    RunKeepsInv(cfg, events);
    RunKeepsInv(cfg, run);
    if more == [] {
      assert run[..|run| - 1] == events;
    } else {
      assert run[..|run| - 1] == events + [Close] + more[..|more| - 1];
      CaughtThreadsPanic(cfg, events, more[..|more| - 1]);
      ClosedStep(cfg, After(cfg, run[..|run| - 1]), run[|run| - 1]);
    }
  }

  /** Whatever happens after a Close, no Add panics, iff no thread is inside at the Close. */
  lemma NobodyPanicsIff<T>(cfg: BufferConfig, events: seq<Event<T>>)
    requires IsRun(cfg, events) && !After(cfg, events).closed
    ensures After(cfg, events).inside == map[] <==>
      forall more :: IsRun(cfg, events + [Close] + more) ==> After(cfg, events + [Close] + more).panicked == {}
  {
    var s := After(cfg, events);
    if s.inside == map[] {
      forall more | IsRun(cfg, events + [Close] + more)
        ensures After(cfg, events + [Close] + more).panicked == {}
      {
        CaughtThreadsPanic(cfg, events, more);
      }
    } else {
      var thread :| thread in s.inside;
      var closed, run := events + [Close], events + [Close] + [Send(thread)];
      assert closed[..|closed| - 1] == events && run[..|run| - 1] == closed;
      assert thread in After(cfg, run).panicked;
    }
  }

  /** A closed buffer is finished by its worker alone: one Receive per entry, and the last step. */
  lemma {:induction false} WorkerFinishes<T>(cfg: BufferConfig, events: seq<Event<T>>) returns (more: seq<Event<T>>)
    requires IsRun(cfg, events) && After(cfg, events).closed && !After(cfg, events).done
    ensures IsRun(cfg, events + more) && After(cfg, events + more).done
    ensures |more| == |After(cfg, events).buffer| + 1
    decreases |After(cfg, events).buffer|
  {
    var s := After(cfg, events);
    if s.buffer == [] {
      more := [Finish];
      assert (events + more)[..|events|] == events;
    } else {
      var events' := events + [Receive];
      assert events'[..|events|] == events;
      more := WorkerFinishes(cfg, events');
      assert events + ([Receive] + more) == events' + more;
      more := [Receive] + more;
    }
  }

  // Drops

  function DroppedEntries<T>(flushed: seq<Flushed<T>>): nat {
    if flushed == [] then 0 else
      DroppedEntries(flushed[..|flushed| - 1])
        + (if flushed[|flushed| - 1].dropped then |flushed[|flushed| - 1].batch| else 0)
  }

  lemma FlushCounts<T>(flushed: seq<Flushed<T>>, f: Flushed<T>)
    ensures DroppedEntries(flushed + [f]) == DroppedEntries(flushed) + (if f.dropped then |f.batch| else 0)
    ensures |Delivered(flushed + [f])| == |Delivered(flushed)| + (if f.dropped then 0 else 1)
  {
  }

  function Length<T>(batches: seq<seq<T>>): nat {
    if batches == [] then 0 else Length(batches[..|batches| - 1]) + |batches[|batches| - 1]|
  }

  lemma {:induction false} DropsAddUp<T>(flushed: seq<Flushed<T>>)
    ensures |Concat(flushed)| == Length(Delivered(flushed)) + DroppedEntries(flushed)
  {
    if flushed != [] {
      var init := flushed[..|flushed| - 1];
      DropsAddUp(init);
      assert Delivered(flushed) == Delivered(init) || Delivered(flushed)[..|Delivered(flushed)| - 1] == Delivered(init);
    }
  }

  /** The accepted entries, counted: delivered to the batch channel, dropped, or still inside. */
  lemma EntriesAddUp<T>(cfg: BufferConfig, events: seq<Event<T>>)
    requires IsRun(cfg, events)
    ensures var s := After(cfg, events);
      |s.accepted| == Length(s.consumed + s.batches) + DroppedEntries(s.flushed) + |s.batch| + |s.buffer|
  {
    RunKeepsInv(cfg, events);
    DropsAddUp(After(cfg, events).flushed);
  }

  /** What the worker receives is flushed at the maximum and not before: a batch of just that size, or nothing. */
  lemma FlushedWhenFull<T>(cfg: BufferConfig, s: BufferState<T>, e: Event<T>)
    requires Inv(cfg, s) && Enabled(cfg, s, e) && (e.Receive? || e.HandOver?)
    ensures var s', entry := Step(cfg, s, e), if e.Receive? then s.buffer[0] else s.inside[e.thread];
      var full := |s.batch| + 1 >= cfg.maxBatchSize;
      && s'.batch == (if full then [] else s.batch + [entry])
      && |s'.flushed| == |s.flushed| + (if full then 1 else 0)
      && (full ==> s'.flushed[|s.flushed|].batch == s.batch + [entry])
      && (full && cfg.maxBatchSize > 0 ==> |s'.flushed[|s.flushed|].batch| == cfg.maxBatchSize)
  {
  }

  /** A tick and the end of the worker flush whatever is there; nothing else does. */
  lemma FlushedOtherwise<T>(cfg: BufferConfig, s: BufferState<T>, e: Event<T>)
    requires Enabled(cfg, s, e) && !e.Receive? && !e.HandOver?
    ensures var s' := Step(cfg, s, e);
      if e.Tick? || e.Finish? then
        && s'.batch == []
        && |s'.flushed| == |s.flushed| + (if s.batch == [] then 0 else 1)
        && (s.batch != [] ==> s'.flushed[|s.flushed|].batch == s.batch)
      else s'.batch == s.batch && s'.flushed == s.flushed
  {
  }

  /** A flush drops its batch exactly when the batch channel is full: then the consumer is MAX_WAITING batches
    * behind. */
  lemma DropsOnlyWhenFull<T>(cfg: BufferConfig, s: BufferState<T>, e: Event<T>)
    requires Inv(cfg, s) && Enabled(cfg, s, e)
    ensures DroppedEntries(Step(cfg, s, e).flushed) > DroppedEntries(s.flushed) <==>
      |s.batches| == 100 && |Step(cfg, s, e).flushed| > |s.flushed|
  {
  }
}
