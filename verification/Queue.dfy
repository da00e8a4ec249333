/** The queue's methods; a method that would wait parks its thread and is resumed later. */
module Queue {
  import opened QueueModel

  /** How one critical section ends for its thread. */
  datatype Outcome<T> = Parked | Done | Failed | Got(batch: seq<T>)

  class Queue<T> {
    var items: seq<T>
    const capacity: nat
    var closed: bool
    var notEmpty: Cond
    var notFull: Cond
    ghost var calls: map<nat, Call<T>>
    ghost var pushed: seq<T>
    ghost var removed: seq<T>

    ghost function View(): Monitor<T>
      reads this
    {
      Monitor(items, capacity, closed, notEmpty, notFull, calls, pushed, removed)
    }

    constructor (capacity: nat)
      ensures View() == New(capacity)
    {
      items, this.capacity, closed, notEmpty, notFull := [], capacity, false, IDLE, IDLE;
      calls, pushed, removed := map[], [], [];
    }

    static method Signal(c: Cond) returns (c': Cond)
      ensures Signalled(c, c')
    {
      if c.waiting == {} {
        return c;
      }
      var t :| t in c.waiting;
      return Cond(c.waiting - {t}, c.woken + {t});
    }

    method Push(t: nat, item: T) returns (o: Outcome<T>)
      requires t !in calls
      modifies this
      ensures Next(old(View()), Enter(t, PushCall(item)), View(), 0)
      ensures old(closed) ==> o == Failed
      ensures !old(closed) && |old(items)| < capacity ==> o == Done && items == old(items) + [item]
      ensures !old(closed) && |old(items)| >= capacity ==> o == Parked && t in notFull.waiting && items == old(items)
      ensures old(closed) ==> items == old(items)
    {
      if closed {
        return Failed;
      }
      o := PushLoop(t, item);
    }

    /** From the head of the wait loop: on entry, and again after every wakeup. */
    method PushLoop(t: nat, item: T) returns (o: Outcome<T>)
      modifies this
      ensures AttemptPush(old(View()), t, item, View())
      ensures o == if old(closed) then Failed else if |old(items)| >= capacity then Parked else Done
      ensures items == if o == Done then old(items) + [item] else old(items)
    {
      if |items| >= capacity && !closed {
        notFull, calls := Park(notFull, t), calls[t := PushCall(item)];
        return Parked;
      }
      notFull, calls := Leave(notFull, t), calls - {t};
      if closed {
        return Failed;
      }
      items, pushed := items + [item], pushed + [item];
      notEmpty := Signal(notEmpty);
      return Done;
    }

    method ResumePush(t: nat, item: T) returns (o: Outcome<T>)
      requires t in calls && calls[t] == PushCall(item) && t in notFull.woken
      modifies this
      ensures Next(old(View()), Resume(t), View(), 0)
      ensures o == if old(closed) then Failed else if |old(items)| >= capacity then Parked else Done
      ensures items == if o == Done then old(items) + [item] else old(items)
    {
      o := PushLoop(t, item);
    }

    /** From the head of the wait loop of Pop or PopBatch. */
    method PopLoop(t: nat, call: Call<T>) returns (o: Outcome<T>)
      requires !call.PushCall? && (call.PopBatchCall? ==> call.maxSize >= 0)
      modifies this
      ensures AttemptPop(old(View()), t, call, View())
      ensures old(items) == [] ==> o == if old(closed) then Failed else Parked
      ensures old(items) != [] ==> o.Got? && o.batch + items == old(items)
      ensures old(items) != [] && call.PopCall? ==> |o.batch| == 1
      ensures old(items) != [] && call.PopBatchCall? ==>
        |o.batch| <= call.maxSize && (|o.batch| == call.maxSize || items == [])
    {
      if items == [] && !closed {
        notEmpty, calls := Park(notEmpty, t), calls[t := call];
        return Parked;
      }
      notEmpty, calls := Leave(notEmpty, t), calls - {t};
      if items == [] {
        return Failed;
      }
      match call
      case PopCall =>
        o := Got(items[..1]);
        removed := removed + items[..1];
        items := items[1..];
        notFull := Signal(notFull);
      case PopBatchCall(maxSize) =>
        var batchSize := |items|;
        if batchSize > maxSize {
          batchSize := maxSize;
        }
        o := Got(items[..batchSize]);
        removed := removed + items[..batchSize];
        items := items[batchSize..];
        notFull := Broadcast(notFull);
    }

    method Pop(t: nat) returns (o: Outcome<T>)
      requires t !in calls
      modifies this
      ensures Next(old(View()), Enter(t, PopCall), View(), 0)
      ensures old(items) != [] ==> o == Got([old(items)[0]]) && items == old(items)[1..]
      ensures old(items) == [] ==> o == if old(closed) then Failed else Parked
    {
      o := PopLoop(t, PopCall);
    }

    method PopBatch(t: nat, maxSize: nat) returns (o: Outcome<T>)
      requires t !in calls
      modifies this
      ensures Next(old(View()), Enter(t, PopBatchCall(maxSize)), View(), 0)
      ensures old(items) != [] ==> o.Got? && o.batch + items == old(items)
      ensures old(items) != [] ==> |o.batch| <= maxSize && (|o.batch| == maxSize || items == [])
      ensures old(items) == [] ==> o == if old(closed) then Failed else Parked
    {
      o := PopLoop(t, PopBatchCall(maxSize));
    }

    method ResumePop(t: nat, call: Call<T>) returns (o: Outcome<T>)
      requires t in calls && calls[t] == call && t in notEmpty.woken
      requires !call.PushCall? && (call.PopBatchCall? ==> call.maxSize >= 0)
      modifies this
      ensures Next(old(View()), Resume(t), View(), 0)
      ensures old(items) == [] ==> o == if old(closed) then Failed else Parked
      ensures old(items) != [] ==> o.Got? && o.batch + items == old(items)
      ensures old(items) != [] && call.PopCall? ==> |o.batch| == 1
      ensures old(items) != [] && call.PopBatchCall? ==>
        |o.batch| <= call.maxSize && (|o.batch| == call.maxSize || items == [])
    {
      o := PopLoop(t, call);
    }

    method TryPop() returns (o: Outcome<T>)
      modifies this
      ensures Next(old(View()), QueueModel.TryPop, View(), 0)
      ensures o == if old(items) == [] then Failed else Got([old(items)[0]])
      ensures items == if old(items) == [] then [] else old(items)[1..]
    {
      if items == [] {
        return Failed;
      }
      o := Got([items[0]]);
      removed := removed + items[..1];
      items := items[1..];
      notFull := Signal(notFull);
    }

    method TryPush(item: T) returns (ok: bool)
      modifies this
      ensures Next(old(View()), QueueModel.TryPush(item), View(), 0)
      ensures ok <==> !old(closed) && |old(items)| < capacity
      ensures items == if ok then old(items) + [item] else old(items)
    {
      if closed || |items| >= capacity {
        return false;
      }
      items, pushed := items + [item], pushed + [item];
      notEmpty := Signal(notEmpty);
      return true;
    }

    method Close()
      modifies this
      ensures Next(old(View()), QueueModel.Close, View(), 0)
      ensures closed && items == old(items)
    {
      if closed {
        return;
      }
      closed := true;
      notEmpty := Broadcast(notEmpty);
      notFull := Broadcast(notFull);
    }

    method Clear()
      modifies this
      ensures Next(old(View()), QueueModel.Clear, View(), 0)
      ensures items == []
    {
      removed := removed + items;
      items := [];
      notFull := Broadcast(notFull);
    }
  }
}
