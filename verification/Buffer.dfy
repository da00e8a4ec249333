/** The batching buffer as it is; the worker's loop is split into the bodies of its cases. */
module Buffer {
  import opened BufferModel

  datatype SendOutcome = Accepted | Full | Panicked

  class Buffer<T> {
    const config: BufferConfig
    var buffer: seq<T>
    var batch: seq<T>
    var batches: seq<seq<T>>
    var closed: bool
    var done: bool
    var droppedBatches: nat
    var droppedEntries: nat
    ghost var accepted: seq<T>
    ghost var flushed: seq<Flushed<T>>
    ghost var consumed: seq<seq<T>>
    ghost var inside: map<nat, T>
    ghost var panicked: set<nat>

    ghost function View(): BufferState<T>
      reads this
    {
      BufferState(buffer, batch, batches, closed, done, accepted, flushed, consumed, inside, panicked)
    }

    /** The drop counters of the metrics agree with what was dropped. */
    ghost predicate Valid()
      reads this
    {
      Inv(config, View()) && droppedEntries == DroppedEntries(flushed)
        && droppedBatches + |Delivered(flushed)| == |flushed|
    }

    constructor (config: BufferConfig)
      ensures Valid() && View() == NewBuffer() && this.config == config
    {
      this.config := config;
      buffer, batch, batches, closed, done, droppedBatches, droppedEntries := [], [], [], false, false, 0, 0;
      accepted, flushed, consumed, inside, panicked := [], [], [], map[], {};
    }

    /** The section under the lock: whether the buffer is open. */
    method CheckOpen(ghost thread: nat, ghost entry: T) returns (open: bool)
      requires Valid() && thread !in inside
      modifies this`inside
      ensures Valid() && open == !closed
      ensures View() == Step(config, old(View()), Check(thread, entry))
    {
      StepKeepsInv(config, View(), Check(thread, entry));
      open := !closed;
      inside := if closed then inside else inside[thread := entry];
    }

    /** The select: a panic if the channel was closed in the meantime, otherwise a send if there is room. */
    method Send(ghost thread: nat, entry: T) returns (outcome: SendOutcome)
      requires Valid() && thread in inside && inside[thread] == entry
      modifies this
      ensures Valid() && View() == Step(config, old(View()), Event.Send(thread))
      ensures outcome == if closed then Panicked else if |old(buffer)| < config.bufferSize then Accepted else Full
      ensures buffer == if outcome == Accepted then old(buffer) + [entry] else old(buffer)
    {
      StepKeepsInv(config, View(), Event.Send(thread));
      inside := inside - {thread};
      if closed {
        panicked := panicked + {thread};
        return Panicked;
      }
      if |buffer| >= config.bufferSize {
        return Full;
      }
      buffer, accepted := buffer + [entry], accepted + [entry];
      return Accepted;
    }

    /** Both with nothing in between. */
    method Add(ghost thread: nat, entry: T) returns (ok: bool)
      requires Valid() && thread !in inside
      modifies this
      ensures Valid() && View() == SendOn(config, old(View()), entry)
      ensures ok <==> !old(closed) && |old(buffer)| < config.bufferSize
      ensures buffer == if ok then old(buffer) + [entry] else old(buffer)
    {
      WholeAdd(config, View(), thread, entry);
      var open := CheckOpen(thread, entry);
      if !open {
        return false;
      }
      var outcome := Send(thread, entry);
      return outcome == Accepted;
    }

    method FlushBatch()
      requires droppedEntries == DroppedEntries(flushed) && droppedBatches + |Delivered(flushed)| == |flushed|
      modifies this
      ensures View() == Flush(old(View())) && batch == []
      ensures batches == if old(batch) != [] && |old(batches)| < 100 then old(batches) + [old(batch)] else old(batches)
      ensures droppedEntries == DroppedEntries(flushed) && droppedBatches + |Delivered(flushed)| == |flushed|
    {
      if |batch| > 0 {
        FlushCounts(flushed, Flushed(batch, |batches| >= MAX_WAITING));
        if |batches| < MAX_WAITING {
          batches, flushed := batches + [batch], flushed + [Flushed(batch, false)];
        } else {
          droppedBatches, droppedEntries := droppedBatches + 1, droppedEntries + |batch|;
          flushed := flushed + [Flushed(batch, true)];
        }
        batch := [];
      }
    }

    /** The case of the worker's select that takes an entry. */
    method ReceiveEntry()
      requires Valid() && Enabled(config, View(), Receive)
      modifies this
      ensures Valid() && View() == Step(config, old(View()), Receive)
      ensures batch == if |old(batch)| + 1 >= config.maxBatchSize then [] else old(batch) + [old(buffer)[0]]
    {
      StepKeepsInv(config, View(), Receive);
      var entry := buffer[0];
      buffer := buffer[1..];
      batch := batch + [entry];
      if |batch| >= config.maxBatchSize {
        FlushBatch();
      }
    }

    /** The case of the worker's select for the ticker. */
    method TickOnce()
      requires Valid() && !done
      modifies this
      ensures Valid() && View() == Step(config, old(View()), Tick) && batch == []
    {
      StepKeepsInv(config, View(), Tick);
      FlushBatch();
    }

    /** The case of the worker's select that finds the channel closed. */
    method FinishWorker()
      requires Valid() && Enabled(config, View(), Finish)
      modifies this
      ensures Valid() && View() == Step(config, old(View()), Finish)
    {
      StepKeepsInv(config, View(), Finish);
      FlushBatch();
      done := true;
    }

    /** A consumer takes the oldest batch from the channel of GetBatch. */
    method TakeBatch() returns (taken: seq<T>)
      requires Valid() && batches != []
      modifies this
      ensures Valid() && View() == Step(config, old(View()), Consume) && taken == old(batches[0])
    {
      StepKeepsInv(config, View(), Consume);
      taken := batches[0];
      batches, consumed := batches[1..], consumed + [batches[0]];
    }

    /** Closes the channel and waits for the worker, which empties it; a second Close does nothing. */
    method CloseAndWait()
      requires Valid()
      modifies this
      ensures Valid() && closed && accepted == old(accepted) && consumed == old(consumed)
      ensures old(closed) ==> View() == old(View())
      ensures !old(closed) ==> done && buffer == [] && batch == [] && Concat(flushed) == accepted
    {
      if closed {
        return;
      }
      StepKeepsInv(config, View(), Close);
      closed := true;
      while buffer != []
        invariant Valid() && closed && !done && accepted == old(accepted) && consumed == old(consumed)
        decreases |buffer|
      {
        hide Inv, Collect;
        ReceiveKeeps(config, View());
        ReceiveEntry();
      }
      FinishWorker();
      assert Concat(flushed) + batch + buffer == Concat(flushed);
    }
  }
}
