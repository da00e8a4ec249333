/**
 * The bounded blocking queue as a protocol: each step is one critical section of one thread,
 * from taking the mutex to returning or to parking on a condition variable.
 */
module QueueModel {

  /** Threads parked on a condition variable, and threads signalled that have not resumed yet. */
  datatype Cond = Cond(waiting: set<nat>, woken: set<nat>)

  /** What a thread inside the monitor is doing. */
  datatype Call<T> = PushCall(item: T) | PopCall | PopBatchCall(maxSize: int)

  /** The queue's fields, the pending calls of parked and signalled threads, and what went in and out. */
  datatype Monitor<T> = Monitor(
    items: seq<T>,
    capacity: nat,
    closed: bool,
    notEmpty: Cond,
    notFull: Cond,
    calls: map<nat, Call<T>>,
    pushed: seq<T>,
    removed: seq<T>)

  datatype Action<T> =
    | Enter(thread: nat, call: Call<T>)
    | Resume(thread: nat)
    | TryPush(item: T)
    | TryPop
    | Close
    | Clear

  const IDLE := Cond({}, {})

  function New<T>(capacity: nat): Monitor<T> {
    Monitor([], capacity, false, IDLE, IDLE, map[], [], [])
  }

  // Condition variables

  /** Signal wakes one parked thread, if there is any; which one is not specified. */
  ghost predicate Signalled(c: Cond, c': Cond) {
    if c.waiting == {} then c' == c
    else exists t :: t in c.waiting && c' == Cond(c.waiting - {t}, c.woken + {t})
  }

  function Broadcast(c: Cond): Cond { Cond({}, c.woken + c.waiting) }

  function Park(c: Cond, t: nat): Cond { Cond(c.waiting + {t}, c.woken - {t}) }

  function Leave(c: Cond, t: nat): Cond { Cond(c.waiting, c.woken - {t}) }

  function All(c: Cond): set<nat> { c.waiting + c.woken }

  lemma SignalMoves(c: Cond, c': Cond)
    requires c.waiting !! c.woken && Signalled(c, c')
    ensures c'.waiting !! c'.woken && All(c') == All(c) && c'.waiting <= c.waiting
    ensures |c'.woken| == |c.woken| + (if c.waiting == {} then 0 else 1)
  {
  }

  lemma ParkMoves(c: Cond, t: nat)
    requires c.waiting !! c.woken && t !in c.waiting
    ensures Park(c, t).waiting !! Park(c, t).woken && All(Park(c, t)) == All(c) + {t}
    ensures |Park(c, t).woken| == |c.woken| - (if t in c.woken then 1 else 0)
  {
  }

  lemma LeaveMoves(c: Cond, t: nat)
    requires c.waiting !! c.woken && t !in c.waiting
    ensures Leave(c, t).waiting !! Leave(c, t).woken && All(Leave(c, t)) == All(c) - {t}
    ensures |Leave(c, t).woken| == |c.woken| - (if t in c.woken then 1 else 0)
  {
  }

  // Steps

  /** The wait loop of Push and what follows it. */
  ghost predicate AttemptPush<T>(m: Monitor<T>, t: nat, item: T, m': Monitor<T>) {
    if |m.items| >= m.capacity && !m.closed then
      m' == m.(notFull := Park(m.notFull, t), calls := m.calls[t := PushCall(item)])
    else if m.closed then
      m' == m.(notFull := Leave(m.notFull, t), calls := m.calls - {t})
    else
      && Signalled(m.notEmpty, m'.notEmpty)
      && m' == m.(items := m.items + [item], pushed := m.pushed + [item], notEmpty := m'.notEmpty,
                  notFull := Leave(m.notFull, t), calls := m.calls - {t})
  }

  function BatchSize(held: nat, maxSize: int): int {
    if held > maxSize then maxSize else held
  }

  /** The wait loop of Pop and PopBatch and what follows it. */
  ghost predicate AttemptPop<T>(m: Monitor<T>, t: nat, call: Call<T>, m': Monitor<T>)
    requires !call.PushCall? && (call.PopBatchCall? ==> call.maxSize >= 0)
  {
    if m.items == [] && !m.closed then
      m' == m.(notEmpty := Park(m.notEmpty, t), calls := m.calls[t := call])
    else if m.items == [] then
      m' == m.(notEmpty := Leave(m.notEmpty, t), calls := m.calls - {t})
    else if call.PopCall? then
      && Signalled(m.notFull, m'.notFull)
      && m' == m.(items := m.items[1..], removed := m.removed + m.items[..1], notFull := m'.notFull,
                  notEmpty := Leave(m.notEmpty, t), calls := m.calls - {t})
    else
      var n := BatchSize(|m.items|, call.maxSize);
      m' == m.(items := m.items[n..], removed := m.removed + m.items[..n], notFull := Broadcast(m.notFull),
               notEmpty := Leave(m.notEmpty, t), calls := m.calls - {t})
  }

  ghost predicate Attempt<T>(m: Monitor<T>, t: nat, call: Call<T>, m': Monitor<T>)
    requires call.PopBatchCall? ==> call.maxSize >= 0
  {
    match call
    case PushCall(item) => AttemptPush(m, t, item, m')
    case _ => AttemptPop(m, t, call, m')
  }

  /** A thread may enter when it is outside; a batch asks for at least minBatch, and never for a negative number. */
  ghost predicate MayEnter<T>(m: Monitor<T>, t: nat, call: Call<T>, minBatch: nat) {
    t !in m.calls && (call.PopBatchCall? ==> call.maxSize >= minBatch)
  }

  ghost predicate Next<T>(m: Monitor<T>, a: Action<T>, m': Monitor<T>, minBatch: nat) {
    match a
    case Enter(t, call) =>
      MayEnter(m, t, call, minBatch) && if call.PushCall? && m.closed then m' == m else Attempt(m, t, call, m')
    case Resume(t) =>
      && t in m.calls && t in m.notEmpty.woken + m.notFull.woken
      && (m.calls[t].PopBatchCall? ==> m.calls[t].maxSize >= 0)
      && Attempt(m, t, m.calls[t], m')
    case TryPush(item) =>
      if m.closed || |m.items| >= m.capacity then m' == m
      else Signalled(m.notEmpty, m'.notEmpty)
           && m' == m.(items := m.items + [item], pushed := m.pushed + [item], notEmpty := m'.notEmpty)
    case TryPop =>
      if m.items == [] then m' == m
      else Signalled(m.notFull, m'.notFull)
           && m' == m.(items := m.items[1..], removed := m.removed + m.items[..1], notFull := m'.notFull)
    case Close =>
      if m.closed then m' == m
      else m' == m.(closed := true, notEmpty := Broadcast(m.notEmpty), notFull := Broadcast(m.notFull))
    case Clear => m' == m.(items := [], removed := m.removed + m.items, notFull := Broadcast(m.notFull))
  }

  // Invariants

  /** Every thread inside is on one side of one condition variable, the one its call waits on. */
  ghost predicate WellFormed<T>(m: Monitor<T>, minBatch: nat) {
    && m.notEmpty.waiting !! m.notEmpty.woken
    && m.notFull.waiting !! m.notFull.woken
    && Placed(All(m.notEmpty), All(m.notFull), m.calls, minBatch)
  }

  /** Consumers and producers inside, and their calls. */
  ghost predicate Placed<T>(consumers: set<nat>, producers: set<nat>, calls: map<nat, Call<T>>, minBatch: nat) {
    && consumers !! producers
    && (forall t :: t in calls <==> t in consumers || t in producers)
    && (forall t :: t in calls ==>
          (calls[t].PushCall? <==> t in producers) && (calls[t].PopBatchCall? ==> calls[t].maxSize >= minBatch))
  }

  /** Parked consumers: every item has a signalled consumer coming; dually for producers and free slots. */
  ghost predicate NoLostWakeup<T>(m: Monitor<T>) {
    && (m.notEmpty.waiting != {} ==> |m.items| <= |m.notEmpty.woken|)
    && (m.notFull.waiting != {} ==> m.capacity - |m.items| <= |m.notFull.woken|)
    && (m.closed ==> m.notEmpty.waiting == {} && m.notFull.waiting == {})
  }

  ghost predicate Fifo<T>(m: Monitor<T>) {
    m.removed + m.items == m.pushed && |m.items| <= m.capacity
  }

  lemma AttemptPushKeeps<T>(m: Monitor<T>, t: nat, item: T, m': Monitor<T>, minBatch: nat)
    requires WellFormed(m, minBatch) && NoLostWakeup(m) && AttemptPush(m, t, item, m')
    requires t !in m.calls || t in m.notFull.woken
    requires t !in m.calls ==> !m.closed
    ensures WellFormed(m', minBatch) && NoLostWakeup(m')
  {
    hide Leave, Park, Signalled, All;
    assert t !in m.notFull.waiting && t !in All(m.notEmpty) by { NotElsewhere(m, t, minBatch); }
    ParkMoves(m.notFull, t);
    LeaveMoves(m.notFull, t);
    LeaveKeepsWaiting(m.notFull, t);
    if |m.items| < m.capacity && !m.closed {
      SignalMoves(m.notEmpty, m'.notEmpty);
    }
  }

  lemma NotElsewhere<T>(m: Monitor<T>, t: nat, minBatch: nat)
    requires WellFormed(m, minBatch)
    ensures t in m.notFull.woken ==> t !in m.notFull.waiting && t !in All(m.notEmpty)
    ensures t in m.notEmpty.woken ==> t !in m.notEmpty.waiting && t !in All(m.notFull)
    ensures t !in m.calls ==>
      && t !in All(m.notEmpty) && t !in All(m.notFull)
      && t !in m.notEmpty.waiting && t !in m.notFull.waiting
  {
  }

  lemma LeaveKeepsWaiting(c: Cond, t: nat)
    ensures Leave(c, t).waiting == c.waiting
  {
  }

  lemma AttemptPopKeeps<T>(m: Monitor<T>, t: nat, call: Call<T>, m': Monitor<T>, minBatch: nat)
    requires minBatch >= 1 && WellFormed(m, minBatch) && NoLostWakeup(m)
    requires !call.PushCall? && (call.PopBatchCall? ==> call.maxSize >= minBatch) && AttemptPop(m, t, call, m')
    requires t !in m.calls || (t in m.notEmpty.woken && m.calls[t] == call)
    ensures WellFormed(m', minBatch) && NoLostWakeup(m')
  {
    hide Leave, Park, Signalled, All;
    assert t !in m.notEmpty.waiting && t !in All(m.notFull) by { NotElsewhere(m, t, minBatch); }
    ParkMoves(m.notEmpty, t);
    LeaveMoves(m.notEmpty, t);
    LeaveKeepsWaiting(m.notEmpty, t);
    BroadcastMoves(m.notFull);
    if m.items != [] && call.PopCall? {
      SignalMoves(m.notFull, m'.notFull);
    }
  }

  lemma BroadcastMoves(c: Cond)
    ensures Broadcast(c).waiting == {} && Broadcast(c).waiting !! Broadcast(c).woken && All(Broadcast(c)) == All(c)
  {
  }

  lemma TryKeeps<T>(m: Monitor<T>, a: Action<T>, m': Monitor<T>, minBatch: nat)
    requires WellFormed(m, minBatch) && NoLostWakeup(m) && Next(m, a, m', minBatch)
    requires !a.Enter? && !a.Resume?
    ensures WellFormed(m', minBatch) && NoLostWakeup(m')
  {
    hide Signalled, All;
    BroadcastMoves(m.notFull);
    BroadcastMoves(m.notEmpty);
    match a
    case TryPush(_) =>
      if !m.closed && |m.items| < m.capacity {
        SignalMoves(m.notEmpty, m'.notEmpty);
      }
    case TryPop =>
      if m.items != [] {
        SignalMoves(m.notFull, m'.notFull);
      }
    case _ =>
  }

  /** Every step keeps the threads consistent and loses no wakeup, when batches ask for at least one item. */
  lemma NextKeepsWakeups<T>(m: Monitor<T>, a: Action<T>, m': Monitor<T>, minBatch: nat)
    requires minBatch >= 1 && WellFormed(m, minBatch) && NoLostWakeup(m) && Next(m, a, m', minBatch)
    ensures WellFormed(m', minBatch) && NoLostWakeup(m')
  {
    hide AttemptPush, AttemptPop, NoLostWakeup;
    match a
    case Enter(t, call) =>
      if call.PushCall? {
        if !m.closed {
          AttemptPushKeeps(m, t, call.item, m', minBatch);
        }
      } else {
        AttemptPopKeeps(m, t, call, m', minBatch);
      }
    case Resume(t) =>
      if m.calls[t].PushCall? {
        AttemptPushKeeps(m, t, m.calls[t].item, m', minBatch);
      } else {
        AttemptPopKeeps(m, t, m.calls[t], m', minBatch);
      }
    case _ => TryKeeps(m, a, m', minBatch);
  }

  /** Every step keeps the order: what was removed, then what is held, is what was pushed. */
  lemma NextKeepsFifo<T>(m: Monitor<T>, a: Action<T>, m': Monitor<T>, minBatch: nat)
    requires Fifo(m) && Next(m, a, m', minBatch)
    ensures Fifo(m') && m'.capacity == m.capacity
    ensures m.pushed <= m'.pushed && m.removed <= m'.removed
    ensures m.closed ==> m'.closed && m'.pushed == m.pushed
  {
    assert forall n :: 0 <= n <= |m.items| ==> m.items[..n] + m.items[n..] == m.items;
    assert forall n :: 0 <= n <= |m.items| ==>
      (m.removed + m.items[..n]) + m.items[n..] == m.removed + (m.items[..n] + m.items[n..]);
  }

  // Runs

  ghost predicate IsRun<T>(run: seq<Monitor<T>>, actions: seq<Action<T>>, capacity: nat, minBatch: nat) {
    && |run| == |actions| + 1 && run[0] == New(capacity)
    && forall i :: 0 <= i < |actions| ==> Next(run[i], actions[i], run[i + 1], minBatch)
  }

  lemma {:induction false} RunKeepsWakeups<T>(run: seq<Monitor<T>>, actions: seq<Action<T>>, capacity: nat,
      minBatch: nat, i: nat)
    requires IsRun(run, actions, capacity, minBatch) && minBatch >= 1 && i < |run|
    ensures WellFormed(run[i], minBatch) && NoLostWakeup(run[i])
  {
    if i > 0 {
      RunKeepsWakeups(run, actions, capacity, minBatch, i - 1);
      NextKeepsWakeups(run[i - 1], actions[i - 1], run[i], minBatch);
    }
  }

  /** In every run the queue is a bounded first-in first-out list. */
  lemma {:induction false} RunIsFifo<T>(run: seq<Monitor<T>>, actions: seq<Action<T>>, capacity: nat, minBatch: nat,
      i: nat)
    requires IsRun(run, actions, capacity, minBatch) && i < |run|
    ensures run[i].removed + run[i].items == run[i].pushed
    ensures |run[i].items| <= capacity == run[i].capacity
  {
    if i > 0 {
      RunIsFifo(run, actions, capacity, minBatch, i - 1);
      NextKeepsFifo(run[i - 1], actions[i - 1], run[i], minBatch);
    }
  }

  /** Once closed, nothing more is pushed: what is removed and held afterwards is what was held, in order. */
  lemma {:induction false} NothingPushedAfterClose<T>(run: seq<Monitor<T>>, actions: seq<Action<T>>, capacity: nat,
      minBatch: nat, i: nat, j: nat)
    requires IsRun(run, actions, capacity, minBatch) && i <= j < |run| && run[i].closed
    ensures run[j].closed && run[j].pushed == run[i].pushed
    ensures run[i].removed <= run[j].removed
    ensures run[j].removed[|run[i].removed|..] + run[j].items == run[i].items
  {
    hide Next;
    RunIsFifo(run, actions, capacity, minBatch, j);
    if i < j {
      NothingPushedAfterClose(run, actions, capacity, minBatch, i, j - 1);
      RunIsFifo(run, actions, capacity, minBatch, j - 1);
      NextKeepsFifo(run[j - 1], actions[j - 1], run[j], minBatch);
    }
    RunIsFifo(run, actions, capacity, minBatch, i);
    var r, n := run[j].removed, |run[i].removed|;
    assert (r + run[j].items)[n..] == r[n..] + run[j].items;
    assert (run[i].removed + run[i].items)[n..] == run[i].items;
  }

  /** Nobody is stranded: a consumer parked beside items has a signalled consumer whose next step removes some. */
  ghost predicate NobodyStranded<T>(m: Monitor<T>) {
    && (m.notEmpty.waiting != {} && m.items != [] ==> m.notEmpty.woken != {})
    && (m.notFull.waiting != {} && |m.items| < m.capacity ==> m.notFull.woken != {})
    && (m.closed ==> m.notEmpty.waiting + m.notFull.waiting == {})
  }

  lemma StrandedNever<T>(run: seq<Monitor<T>>, actions: seq<Action<T>>, capacity: nat, minBatch: nat, i: nat)
    requires IsRun(run, actions, capacity, minBatch) && minBatch >= 1 && i < |run|
    ensures NobodyStranded(run[i])
  {
    RunKeepsWakeups(run, actions, capacity, minBatch, i);
  }

  /** The next step of a signalled consumer that finds items removes at least one. */
  lemma WokenConsumerProgresses<T>(m: Monitor<T>, t: nat, m': Monitor<T>, minBatch: nat)
    requires minBatch >= 1 && WellFormed(m, minBatch) && t in m.notEmpty.woken && m.items != []
    requires Next(m, Resume(t), m', minBatch)
    ensures |m'.removed| > |m.removed| && t !in m'.calls
  {
  }

  /** The next step of a signalled producer that finds a free slot or a closed queue leaves; with a slot it
    * pushes its item. */
  lemma WokenProducerProgresses<T>(m: Monitor<T>, t: nat, m': Monitor<T>, minBatch: nat)
    requires WellFormed(m, minBatch) && t in m.notFull.woken && (|m.items| < m.capacity || m.closed)
    requires Next(m, Resume(t), m', minBatch)
    ensures t !in m'.calls && m.calls[t].PushCall?
    ensures m'.pushed == m.pushed + (if m.closed then [] else [m.calls[t].item])
  {
  }

  /** Once closed, a thread that enters or resumes does not stay. */
  lemma NobodyStaysAfterClose<T>(m: Monitor<T>, a: Action<T>, m': Monitor<T>, minBatch: nat)
    requires m.closed && Next(m, a, m', minBatch)
    ensures m'.closed && m'.calls == if a.Resume? then m.calls - {a.thread} else m.calls
    ensures a.Resume? ==> a.thread in m.calls
  {
  }

  /** Once closed, every thread inside has been signalled and can resume. */
  lemma EverybodyMayLeave<T>(m: Monitor<T>, t: nat, minBatch: nat) returns (m': Monitor<T>)
    requires WellFormed(m, minBatch) && NoLostWakeup(m) && m.closed && t in m.calls
    ensures Next(m, Resume(t), m', minBatch)
  {
    var call := m.calls[t];
    var gone := m.calls - {t};
    if call.PushCall? {
      m' := m.(notFull := Leave(m.notFull, t), calls := gone);
    } else if m.items == [] {
      m' := m.(notEmpty := Leave(m.notEmpty, t), calls := gone);
    } else if call.PopCall? {
      var notFull := SignalSomebody(m.notFull);
      m' := m.(items := m.items[1..], removed := m.removed + m.items[..1], notFull := notFull,
               notEmpty := Leave(m.notEmpty, t), calls := gone);
    } else {
      var n := BatchSize(|m.items|, call.maxSize);
      m' := m.(items := m.items[n..], removed := m.removed + m.items[..n], notFull := Broadcast(m.notFull),
               notEmpty := Leave(m.notEmpty, t), calls := gone);
    }
  }

  lemma SignalSomebody(c: Cond) returns (c': Cond)
    ensures Signalled(c, c')
  {
    c' := c;
    if t :| t in c.waiting {
      c' := Cond(c.waiting - {t}, c.woken + {t});
    }
  }

  function Resumes<T>(actions: seq<Action<T>>): nat {
    if actions == [] then 0 else Resumes(actions[..|actions| - 1]) + (if actions[|actions| - 1].Resume? then 1 else 0)
  }

  /** After Close, the threads inside leave one by one: as many resumes as there were threads leave nobody. */
  lemma {:induction false} ClosedQueueEmpties<T>(run: seq<Monitor<T>>, actions: seq<Action<T>>, capacity: nat,
      minBatch: nat, i: nat, j: nat)
    requires IsRun(run, actions, capacity, minBatch) && i <= j < |run| && run[i].closed
    ensures run[j].closed && |run[j].calls| + Resumes(actions[i..j]) == |run[i].calls|
  {
    hide Next;
    if i < j {
      ClosedQueueEmpties(run, actions, capacity, minBatch, i, j - 1);
      NobodyStaysAfterClose(run[j - 1], actions[j - 1], run[j], minBatch);
      assert actions[i..j][..j - 1 - i] == actions[i..j - 1];
      if actions[j - 1].Resume? {
        assert run[j - 1].calls == run[j].calls[actions[j - 1].thread := run[j - 1].calls[actions[j - 1].thread]];
      }
    }
  }

  /** When every signalled thread has resumed, consumers wait only on an empty queue and producers on a full one. */
  lemma Quiescence<T>(run: seq<Monitor<T>>, actions: seq<Action<T>>, capacity: nat, minBatch: nat)
    requires IsRun(run, actions, capacity, minBatch) && minBatch >= 1
    requires run[|actions|].notEmpty.woken == {} && run[|actions|].notFull.woken == {}
    ensures var m := run[|actions|];
      && (m.notEmpty.waiting != {} ==> m.items == [] && !m.closed)
      && (m.notFull.waiting != {} ==> |m.items| == capacity && !m.closed)
      && (capacity > 0 ==> m.notEmpty.waiting == {} || m.notFull.waiting == {})
  {
    RunKeepsWakeups(run, actions, capacity, minBatch, |actions|);
    RunIsFifo(run, actions, capacity, minBatch, |actions|);
  }

  // Batches of size zero

  function StrandingActions(): seq<Action<int>> {
    [Enter(0, PopBatchCall(0)), Enter(1, PopCall), TryPush(7), Resume(0)]
  }

  function StrandingRun(): seq<Monitor<int>> {
    var zero, pop := PopBatchCall(0), PopCall;
    [ New(1),
      Monitor([], 1, false, Cond({0}, {}), IDLE, map[0 := zero], [], []),
      Monitor([], 1, false, Cond({0, 1}, {}), IDLE, map[0 := zero, 1 := pop], [], []),
      Monitor([7], 1, false, Cond({1}, {0}), IDLE, map[0 := zero, 1 := pop], [7], []),
      Monitor([7], 1, false, Cond({1}, {}), IDLE, map[1 := pop], [7], []) ]
  }

  /** A batch of size zero consumes a signal and takes nothing: the other consumer stays parked beside an item. */
  lemma ZeroBatchStrands()
    ensures IsRun(StrandingRun(), StrandingActions(), 1, 0)
    ensures !NobodyStranded(StrandingRun()[4])
  {
    var r, a := StrandingRun(), StrandingActions();
    assert Next(r[0], a[0], r[1], 0) by {
      assert {} + {0} - {} == {0};
    }
    assert Next(r[1], a[1], r[2], 0) by {
      assert {0} + {1} == {0, 1};
      assert map[0 := PopBatchCall(0)][1 := PopCall] == r[2].calls;
    }
    assert Next(r[2], a[2], r[3], 0) by {
      assert {0, 1} - {0} == {1} && {} + {0} == {0};
      assert Signalled(r[2].notEmpty, r[3].notEmpty);
    }
    assert Next(r[3], a[3], r[4], 0) by {
      assert {0} - {0} == {};
      assert r[3].calls - {0} == r[4].calls;
      assert Broadcast(IDLE) == IDLE;
      assert r[3].items[0..] == r[3].items;
    }
  }

  /** Nobody is ever stranded, in any run, iff every batch asks for at least one item. */
  lemma NobodyStrandedIff(minBatch: nat)
    ensures minBatch >= 1 <==>
      forall run: seq<Monitor<int>>, actions, capacity: nat, i: nat ::
        IsRun(run, actions, capacity, minBatch) && i < |run| ==> NobodyStranded(run[i])
  {
    if minBatch >= 1 {
      forall run: seq<Monitor<int>>, actions, capacity: nat, i: nat
        | IsRun(run, actions, capacity, minBatch) && i < |run|
        ensures NobodyStranded(run[i])
      {
        StrandedNever(run, actions, capacity, minBatch, i);
      }
    } else {
      ZeroBatchStrands();
    }
  }
}
