/** What the queue code of lib/FreeRTOS-Kernel/queue.c does to a queue, as functions on values:
    the stored items as a bounded deque, and the counters, locks and event lists that the locking
    protocol (module QueueProtocol) is about. */
module QueueState {

  const UNLOCKED: int := -1          // queueUNLOCKED
  const LOCKED_UNMODIFIED: int := 0  // queueLOCKED_UNMODIFIED
  const INT8_MAX: int := 127         // queueINT8_MAX

  type Task = nat

  datatype Position = SendToBack | SendToFront | Overwrite

  /** The items after a send; Overwrite is used on queues of length one only. */
  function Put<T>(items: seq<T>, x: T, position: Position): seq<T> {
    match position
    case SendToBack => items + [x]
    case SendToFront => [x] + items
    case Overwrite => [x]
  }

  /** A send is accepted when there is room or it overwrites. */
  predicate Accepts(messages: nat, length: nat, position: Position) {
    messages < length || position == Overwrite
  }

  /** Everything of a queue but the items themselves.  The event lists hold the blocked tasks, the
      one to be woken first at the head. */
  datatype Control = Control(messages: nat, length: nat, tx: int, rx: int,
                             receivers: seq<Task>, senders: seq<Task>)
  {
    /** xTaskRemoveFromEventList on xTasksWaitingToReceive, when it is not empty. */
    function WakeReceiver(): Control {
      if receivers == [] then this else this.(receivers := receivers[1..])
    }

    function WakeSender(): Control {
      if senders == [] then this else this.(senders := senders[1..])
    }

    function Stored(position: Position): Control {
      this.(messages := if position == Overwrite && messages > 0 then messages else messages + 1)
    }

    function Removed(): Control
      requires messages > 0
    {
      this.(messages := messages - 1)
    }

    /** prvIncrementQueueTxLock / prvIncrementQueueRxLock: one more, but never above the number of tasks. */
    static function Increment(lock: int, numberOfTasks: nat): int {
      if lock < numberOfTasks then lock + 1 else lock
    }

    /** A task's send, in its critical section. */
    function Send(position: Position): Control { Stored(position).WakeReceiver() }

    /** An interrupt's send: a locked queue only counts it. */
    function SendFromISR(position: Position, numberOfTasks: nat): Control {
      if tx == UNLOCKED then Stored(position).WakeReceiver()
      else Stored(position).(tx := Increment(tx, numberOfTasks))
    }

    function Receive(): Control
      requires messages > 0
    {
      Removed().WakeSender()
    }

    function ReceiveFromISR(numberOfTasks: nat): Control
      requires messages > 0
    {
      if rx == UNLOCKED then Removed().WakeSender()
      else Removed().(rx := Increment(rx, numberOfTasks))
    }

    function Lock(): Control {
      this.(rx := if rx == UNLOCKED then LOCKED_UNMODIFIED else rx,
            tx := if tx == UNLOCKED then LOCKED_UNMODIFIED else tx)
    }

    /** How many tasks an unlock wakes: one per counted event while any is left. */
    static function Owed(lock: int, waiting: seq<Task>): nat {
      if lock <= 0 then 0 else if lock < |waiting| then lock else |waiting|
    }

    /** The first half of prvUnlockQueue. */
    function UnlockTx(): Control {
      this.(receivers := receivers[Owed(tx, receivers)..], tx := UNLOCKED)
    }

    function UnlockRx(): Control {
      this.(senders := senders[Owed(rx, senders)..], rx := UNLOCKED)
    }
  }

  /** A task's send wakes the first waiting receiver and nobody else, and touches no lock. */
  lemma SendWakesOne(q: Control, position: Position)
    ensures var s := q.Send(position);
            && s.receivers == (if q.receivers == [] then [] else q.receivers[1..]) && s.senders == q.senders
            && s.messages == (if position == Overwrite && q.messages > 0 then q.messages else q.messages + 1)
            && s.tx == q.tx && s.rx == q.rx && s.length == q.length
  {
  }

  lemma ReceiveWakesOne(q: Control)
    requires q.messages > 0
    ensures var s := q.Receive();
            && s.senders == (if q.senders == [] then [] else q.senders[1..]) && s.receivers == q.receivers
            && s.messages == q.messages - 1 && s.tx == q.tx && s.rx == q.rx && s.length == q.length
  {
  }

  /** An interrupt does the same to an unlocked queue; a locked one only counts it, and wakes nobody. */
  lemma InterruptCounts(q: Control, position: Position, numberOfTasks: nat)
    ensures q.tx == -1 ==> q.SendFromISR(position, numberOfTasks) == q.Send(position)
    ensures var s := q.SendFromISR(position, numberOfTasks);
            q.tx != -1 ==> s == q.Send(position).(receivers := q.receivers, tx := s.tx)
                           && (q.tx < numberOfTasks ==> s.tx == q.tx + 1) && (q.tx >= numberOfTasks ==> s.tx == q.tx)
    ensures q.messages > 0 && q.rx == -1 ==> q.ReceiveFromISR(numberOfTasks) == q.Receive()
    ensures q.messages > 0 && q.rx != -1 ==>
              var s := q.ReceiveFromISR(numberOfTasks);
              && s == q.Receive().(senders := q.senders, rx := s.rx)
              && (q.rx < numberOfTasks ==> s.rx == q.rx + 1) && (q.rx >= numberOfTasks ==> s.rx == q.rx)
  {
  }
}

/** The imperative queue: a ring of item slots with a write and a read pointer. */
module KernelQueue {
  import opened QueueState

  /** The slot of the k-th item: the read pointer rests one before the first. */
  ghost function Slot(length: nat, readFrom: nat, k: nat): (slot: nat)
    requires readFrom < length && k <= length
    ensures slot < length
  {
    var s := readFrom + 1 + k;
    if s < length then s else if s < 2 * length then s - length else s - 2 * length
  }

  /** The items between the read pointer and the write pointer. */
  ghost function Ring<T>(slots: seq<T>, readFrom: nat, count: nat): (items: seq<T>)
    requires readFrom < |slots| && count <= |slots|
    ensures |items| == count
  {
    seq(count, k requires 0 <= k < count => slots[Slot(|slots|, readFrom, k)])
  }

  /** Writing the slot after the last item appends it. */
  lemma RingBack<T>(slots: seq<T>, readFrom: nat, count: nat, x: T)
    requires readFrom < |slots| && count < |slots|
    ensures Ring(slots[Slot(|slots|, readFrom, count) := x], readFrom, count + 1) == Ring(slots, readFrom, count) + [x]
  {
    forall k | 0 <= k < count ensures Slot(|slots|, readFrom, k) != Slot(|slots|, readFrom, count) {}
  }

  /** Writing the slot the read pointer rests on, and stepping the pointer back, puts an item in front. */
  lemma RingFront<T>(slots: seq<T>, readFrom: nat, count: nat, x: T)
    requires readFrom < |slots| && count < |slots|
    ensures var back := if readFrom == 0 then |slots| - 1 else readFrom - 1;
            && Ring(slots[readFrom := x], back, count + 1) == [x] + Ring(slots, readFrom, count)
            && Slot(|slots|, back, count + 1) == Slot(|slots|, readFrom, count)
  {
    var back := if readFrom == 0 then |slots| - 1 else readFrom - 1;
    forall k | 0 <= k < count
      ensures Slot(|slots|, back, k + 1) == Slot(|slots|, readFrom, k) != readFrom
    {}
  }

  /** Where a send writes: behind the last item, or on the slot the read pointer rests on. */
  ghost function WriteSlot(length: nat, readFrom: nat, count: nat, position: Position): (slot: nat)
    requires readFrom < length && count <= length
    ensures slot < length
  {
    if position == SendToBack then Slot(length, readFrom, count) else readFrom
  }

  /** Where a send leaves the read pointer. */
  ghost function ReadFromAfter(length: nat, readFrom: nat, position: Position): (from: nat)
    requires readFrom < length
    ensures from < length
  {
    if position == SendToBack then readFrom else if readFrom == 0 then length - 1 else readFrom - 1
  }

  lemma RingPut<T>(slots: seq<T>, readFrom: nat, count: nat, x: T, position: Position)
    requires readFrom < |slots| && Accepts(count, |slots|, position) && count <= |slots|
    requires position == Overwrite ==> |slots| == 1
    ensures var from := ReadFromAfter(|slots|, readFrom, position);
            var now := if position == Overwrite then 1 else count + 1;
            && Ring(slots[WriteSlot(|slots|, readFrom, count, position) := x], from, now)
               == Put(Ring(slots, readFrom, count), x, position)
            && Slot(|slots|, from, now) == Slot(|slots|, readFrom, if position == SendToBack then count + 1 else count)
  {
    if position == SendToBack {
      RingBack(slots, readFrom, count, x);
    } else {
      RingFront(slots, readFrom, if position == Overwrite then 0 else count, x);
    }
  }

  /** Stepping the read pointer forward drops the first item, which is the one it then rests on. */
  lemma RingTake<T>(slots: seq<T>, readFrom: nat, count: nat)
    requires readFrom < |slots| && 0 < count <= |slots|
    ensures var next := if readFrom + 1 == |slots| then 0 else readFrom + 1;
            && Ring(slots, readFrom, count)[0] == slots[next]
            && Ring(slots, next, count - 1) == Ring(slots, readFrom, count)[1..]
            && Slot(|slots|, next, count - 1) == Slot(|slots|, readFrom, count)
  {
    var next := if readFrom + 1 == |slots| then 0 else readFrom + 1;
    forall k | 0 <= k < count - 1 ensures Slot(|slots|, next, k) == Slot(|slots|, readFrom, k + 1) {}
  }

  /** Pointers are slot numbers: pcHead is slot 0, pcTail is uxLength. */
  class Queue<T(0)> {
    const pcHead: array<T>
    var pcWriteTo: nat
    var pcReadFrom: nat
    var uxMessagesWaiting: nat
    var cTxLock: int
    var cRxLock: int
    var xTasksWaitingToReceive: seq<Task>
    var xTasksWaitingToSend: seq<Task>

    ghost predicate Valid()
      reads this, pcHead
    {
      && pcHead.Length > 0
      && pcWriteTo < pcHead.Length && pcReadFrom < pcHead.Length
      && uxMessagesWaiting <= pcHead.Length
      && pcWriteTo == Slot(pcHead.Length, pcReadFrom, uxMessagesWaiting)
    }

    /** The queue's items, oldest first. */
    ghost function Items(): (items: seq<T>)
      requires Valid()
      reads this, pcHead
      ensures |items| == uxMessagesWaiting
    {
      Ring(pcHead[..], pcReadFrom, uxMessagesWaiting)
    }

    ghost function View(): Control
      reads this
    {
      Control(uxMessagesWaiting, pcHead.Length, cTxLock, cRxLock, xTasksWaitingToReceive, xTasksWaitingToSend)
    }

    /** Creation: xQueueGenericReset on a new queue over its storage. */
    constructor (storage: array<T>)
      requires storage.Length > 0
      ensures Valid() && Items() == [] && pcHead == storage
      ensures View() == Control(0, storage.Length, UNLOCKED, UNLOCKED, [], [])
    {
      pcHead := storage;
      pcWriteTo, pcReadFrom := 0, storage.Length - 1;
      uxMessagesWaiting := 0;
      cTxLock, cRxLock := UNLOCKED, UNLOCKED;
      xTasksWaitingToReceive, xTasksWaitingToSend := [], [];
    }

    /** The body of prvCopyDataToQueue: one slot is written and one pointer moves. */
    method StoreSlot(item: T, xPosition: Position)
      requires Valid() && Accepts(uxMessagesWaiting, pcHead.Length, xPosition)
      modifies this`pcWriteTo, this`pcReadFrom, this`uxMessagesWaiting, pcHead
      ensures pcHead[..]
              == old(pcHead[..])[WriteSlot(pcHead.Length, old(pcReadFrom), old(uxMessagesWaiting), xPosition) := item]
      ensures pcReadFrom == ReadFromAfter(pcHead.Length, old(pcReadFrom), xPosition)
      ensures pcWriteTo == if xPosition != SendToBack then old(pcWriteTo)
                           else if old(pcWriteTo) + 1 == pcHead.Length then 0 else old(pcWriteTo) + 1
      ensures View() == old(View()).Stored(xPosition)
    {
      var messages := uxMessagesWaiting;
      if xPosition == SendToBack {
        pcHead[pcWriteTo] := item;
        pcWriteTo := pcWriteTo + 1;
        if pcWriteTo >= pcHead.Length { pcWriteTo := 0; }
      } else {
        pcHead[pcReadFrom] := item;
        if pcReadFrom == 0 { pcReadFrom := pcHead.Length - 1; } else { pcReadFrom := pcReadFrom - 1; }
        if xPosition == Overwrite {
          if messages > 0 { messages := messages - 1; }
        }
      }
      uxMessagesWaiting := messages + 1;
    }

    /** prvCopyDataToQueue. */
    method CopyDataToQueue(item: T, xPosition: Position)
      requires Valid() && Accepts(uxMessagesWaiting, pcHead.Length, xPosition)
      requires xPosition == Overwrite ==> pcHead.Length == 1
      modifies this`pcWriteTo, this`pcReadFrom, this`uxMessagesWaiting, pcHead
      ensures Valid() && Items() == Put(old(Items()), item, xPosition)
      ensures View() == old(View()).Stored(xPosition)
    {
      ghost var slots, readFrom, count := pcHead[..], pcReadFrom, uxMessagesWaiting;
      StoreSlot(item, xPosition);
      RingPut(slots, readFrom, count, item, xPosition);
    }

    /** prvCopyDataFromQueue together with the decrement its callers make. */
    method CopyDataFromQueue() returns (item: T)
      requires Valid() && uxMessagesWaiting > 0
      modifies this`pcReadFrom, this`uxMessagesWaiting
      ensures Valid() && item == old(Items())[0] && Items() == old(Items())[1..]
      ensures View() == old(View()).Removed()
    {
      RingTake(pcHead[..], pcReadFrom, uxMessagesWaiting);
      pcReadFrom := pcReadFrom + 1;
      if pcReadFrom >= pcHead.Length { pcReadFrom := 0; }
      item := pcHead[pcReadFrom];
      uxMessagesWaiting := uxMessagesWaiting - 1;
    }

    /** The critical section of xQueuePeek when there is a message: the read pointer is put back, and
        the wakeup is passed on to another waiting receiver. */
    method Peek() returns (item: T)
      requires Valid() && uxMessagesWaiting > 0
      modifies this`pcReadFrom, this`xTasksWaitingToReceive
      ensures Valid() && item == old(Items())[0] && Items() == old(Items()) && View() == old(View()).WakeReceiver()
    {
      RingTake(pcHead[..], pcReadFrom, uxMessagesWaiting);
      var pcOriginalReadPosition := pcReadFrom;
      pcReadFrom := pcReadFrom + 1;
      if pcReadFrom >= pcHead.Length { pcReadFrom := 0; }
      item := pcHead[pcReadFrom];
      pcReadFrom := pcOriginalReadPosition;
      if xTasksWaitingToReceive != [] { xTasksWaitingToReceive := xTasksWaitingToReceive[1..]; }
    }

    /** The critical section of xQueueGenericSend: false means the queue is full. */
    method TrySend(item: T, xCopyPosition: Position) returns (passed: bool)
      requires Valid() && (xCopyPosition == Overwrite ==> pcHead.Length == 1)
      modifies this, pcHead
      ensures Valid() && (passed <==> old(uxMessagesWaiting) < pcHead.Length || xCopyPosition == Overwrite)
      ensures Items() == if passed then Put(old(Items()), item, xCopyPosition) else old(Items())
      ensures View() == if passed then old(View()).Send(xCopyPosition) else old(View())
    {
      passed := uxMessagesWaiting < pcHead.Length || xCopyPosition == Overwrite;
      if passed {
        CopyDataToQueue(item, xCopyPosition);
        if xTasksWaitingToReceive != [] { xTasksWaitingToReceive := xTasksWaitingToReceive[1..]; }
      }
    }

    /** xQueueGenericSendFromISR (and, for what it does to the counters, xQueueGiveFromISR). */
    method SendFromISR(item: T, xCopyPosition: Position, uxNumberOfTasks: nat) returns (passed: bool)
      requires Valid() && (xCopyPosition == Overwrite ==> pcHead.Length == 1)
      modifies this, pcHead
      ensures Valid() && (passed <==> old(uxMessagesWaiting) < pcHead.Length || xCopyPosition == Overwrite)
      ensures Items() == if passed then Put(old(Items()), item, xCopyPosition) else old(Items())
      ensures View() == if passed then old(View()).SendFromISR(xCopyPosition, uxNumberOfTasks) else old(View())
    {
      passed := uxMessagesWaiting < pcHead.Length || xCopyPosition == Overwrite;
      if passed {
        var txLock := cTxLock;
        CopyDataToQueue(item, xCopyPosition);
        if txLock == UNLOCKED {
          if xTasksWaitingToReceive != [] { xTasksWaitingToReceive := xTasksWaitingToReceive[1..]; }
        } else {
          if txLock < uxNumberOfTasks { cTxLock := txLock + 1; }
        }
      }
    }

    /** The critical section of xQueueReceive. */
    method TryReceive() returns (passed: bool, item: T)
      requires Valid()
      modifies this
      ensures Valid() && passed == (old(uxMessagesWaiting) > 0)
      ensures if passed then item == old(Items())[0] && Items() == old(Items())[1..] else Items() == old(Items())
      ensures View() == if passed then old(View()).Receive() else old(View())
    {
      passed := uxMessagesWaiting > 0;
      item := *;
      if passed {
        item := CopyDataFromQueue();
        if xTasksWaitingToSend != [] { xTasksWaitingToSend := xTasksWaitingToSend[1..]; }
      }
    }

    /** xQueueReceiveFromISR. */
    method ReceiveFromISR(uxNumberOfTasks: nat) returns (passed: bool, item: T)
      requires Valid()
      modifies this
      ensures Valid() && passed == (old(uxMessagesWaiting) > 0)
      ensures if passed then item == old(Items())[0] && Items() == old(Items())[1..] else Items() == old(Items())
      ensures View() == if passed then old(View()).ReceiveFromISR(uxNumberOfTasks) else old(View())
    {
      passed := uxMessagesWaiting > 0;
      item := *;
      if passed {
        var rxLock := cRxLock;
        item := CopyDataFromQueue();
        if rxLock == UNLOCKED {
          if xTasksWaitingToSend != [] { xTasksWaitingToSend := xTasksWaitingToSend[1..]; }
        } else {
          if rxLock < uxNumberOfTasks { cRxLock := rxLock + 1; }
        }
      }
    }

    /** prvLockQueue. */
    method LockQueue()
      requires Valid()
      modifies this`cTxLock, this`cRxLock
      ensures Valid() && Items() == old(Items()) && View() == old(View()).Lock()
    {
      if cRxLock == UNLOCKED { cRxLock := LOCKED_UNMODIFIED; }
      if cTxLock == UNLOCKED { cTxLock := LOCKED_UNMODIFIED; }
    }

    /** The loop that pays the waiting receivers the wakeups they are owed. */
    method WakeReceivers(lock: int)
      modifies this`xTasksWaitingToReceive
      ensures xTasksWaitingToReceive == old(xTasksWaitingToReceive)[Control.Owed(lock, old(xTasksWaitingToReceive))..]
    {
      ghost var waiting, paid := xTasksWaitingToReceive, 0;
      var owed := lock;
      while owed > LOCKED_UNMODIFIED
        invariant 0 <= paid <= |waiting| && paid == lock - owed && (paid > 0 ==> owed >= 0)
        invariant xTasksWaitingToReceive == waiting[paid..]
        decreases owed
      {
        if xTasksWaitingToReceive != [] {
          xTasksWaitingToReceive := xTasksWaitingToReceive[1..];
        } else {
          break;
        }
        owed := owed - 1;
        paid := paid + 1;
      }
    }

    /** The loop that pays the waiting senders the wakeups they are owed. */
    method WakeSenders(lock: int)
      modifies this`xTasksWaitingToSend
      ensures xTasksWaitingToSend == old(xTasksWaitingToSend)[Control.Owed(lock, old(xTasksWaitingToSend))..]
    {
      ghost var waiting, paid := xTasksWaitingToSend, 0;
      var owed := lock;
      while owed > LOCKED_UNMODIFIED
        invariant 0 <= paid <= |waiting| && paid == lock - owed && (paid > 0 ==> owed >= 0)
        invariant xTasksWaitingToSend == waiting[paid..]
        decreases owed
      {
        if xTasksWaitingToSend != [] {
          xTasksWaitingToSend := xTasksWaitingToSend[1..];
        } else {
          break;
        }
        owed := owed - 1;
        paid := paid + 1;
      }
    }

    /** The two critical sections of prvUnlockQueue; interrupts may run between them. */
    method UnlockTx()
      requires Valid()
      modifies this`cTxLock, this`xTasksWaitingToReceive
      ensures Valid() && Items() == old(Items()) && View() == old(View()).UnlockTx()
    {
      WakeReceivers(cTxLock);
      cTxLock := UNLOCKED;
    }

    method UnlockRx()
      requires Valid()
      modifies this`cRxLock, this`xTasksWaitingToSend
      ensures Valid() && Items() == old(Items()) && View() == old(View()).UnlockRx()
    {
      WakeSenders(cRxLock);
      cRxLock := UNLOCKED;
    }
  }

  // ---------------------------------------------------------------- runs of the deque

  datatype Operation<T> = Send(x: T, position: Position) | Receive | Peek

  /** One operation on the items of a queue of the given length; a refused one changes nothing. */
  ghost function Apply<T>(items: seq<T>, length: nat, op: Operation<T>): (seq<T>, seq<T>) {
    match op
    case Send(x, position) => (if Accepts(|items|, length, position) then Put(items, x, position) else items, [])
    case Receive => if items == [] then (items, []) else (items[1..], [items[0]])
    case Peek => (items, [])
  }

  /** The items left after a run of operations and those received during it, in order. */
  ghost function Run<T>(items: seq<T>, length: nat, ops: seq<Operation<T>>): (seq<T>, seq<T>)
    decreases |ops|
  {
    if ops == [] then (items, [])
    else
      var (now, out) := Apply(items, length, ops[0]);
      var (left, later) := Run(now, length, ops[1..]);
      (left, out + later)
  }

  ghost function AcceptedNow<T>(items: seq<T>, length: nat, op: Operation<T>): seq<T> {
    if op.Send? && Accepts(|items|, length, op.position) then [op.x] else []
  }

  /** The items whose send was accepted during a run, in order. */
  ghost function Accepted<T>(items: seq<T>, length: nat, ops: seq<Operation<T>>): seq<T>
    decreases |ops|
  {
    if ops == [] then []
    else AcceptedNow(items, length, ops[0]) + Accepted(Apply(items, length, ops[0]).0, length, ops[1..])
  }

  ghost function OverwrittenNow<T>(items: seq<T>, op: Operation<T>): seq<T> {
    if op.Send? && op.position == Overwrite then items else []
  }

  /** The items that overwriting sends replaced. */
  ghost function Overwritten<T>(items: seq<T>, length: nat, ops: seq<Operation<T>>): seq<T>
    decreases |ops|
  {
    if ops == [] then []
    else OverwrittenNow(items, ops[0]) + Overwritten(Apply(items, length, ops[0]).0, length, ops[1..])
  }

  lemma ApplyBalances<T>(items: seq<T>, length: nat, op: Operation<T>)
    requires op.Send? ==> op.position == SendToBack
    ensures Apply(items, length, op).1 + Apply(items, length, op).0 == items + AcceptedNow(items, length, op)
  {
    if op.Receive? && items != [] {
      assert items == [items[0]] + items[1..];
    }
  }

  lemma {:induction false} RunBalances<T>(items: seq<T>, length: nat, ops: seq<Operation<T>>)
    requires forall op :: op in ops && op.Send? ==> op.position == SendToBack
    ensures Run(items, length, ops).1 + Run(items, length, ops).0 == items + Accepted(items, length, ops)
    decreases |ops|
  {
    if ops != [] {
      hide Apply, AcceptedNow;
      assert ops[0] in ops;
      ApplyBalances(items, length, ops[0]);
      var (now, out) := Apply(items, length, ops[0]);
      RunBalances(now, length, ops[1..]);
      var (left, later) := Run(now, length, ops[1..]);
      Regroup(out, later, left, now, Accepted(now, length, ops[1..]), items, AcceptedNow(items, length, ops[0]));
    }
  }

  lemma Regroup<T>(out: seq<T>, later: seq<T>, left: seq<T>, now: seq<T>, rest: seq<T>, items: seq<T>, first: seq<T>)
    requires later + left == now + rest && out + now == items + first
    ensures (out + later) + left == items + (first + rest)
  {
    assert (out + later) + left == out + (later + left);
    assert out + (now + rest) == (out + now) + rest;
    assert (items + first) + rest == items + (first + rest);
  }

  lemma ApplyConserves<T>(items: seq<T>, length: nat, op: Operation<T>)
    requires |items| <= length && length > 0
    ensures var (now, out) := Apply(items, length, op);
            && |now| <= length
            && multiset(out) + multiset(now) + multiset(OverwrittenNow(items, op))
               == multiset(items) + multiset(AcceptedNow(items, length, op))
  {
    if op.Receive? && items != [] {
      assert items == [items[0]] + items[1..];
    }
  }

  lemma {:induction false} RunConserves<T>(items: seq<T>, length: nat, ops: seq<Operation<T>>)
    requires |items| <= length && length > 0
    ensures multiset(Run(items, length, ops).1) + multiset(Run(items, length, ops).0)
            + multiset(Overwritten(items, length, ops))
            == multiset(items) + multiset(Accepted(items, length, ops))
    ensures |Run(items, length, ops).0| <= length
    decreases |ops|
  {
    if ops != [] {
      hide Apply, AcceptedNow, OverwrittenNow;
      ApplyConserves(items, length, ops[0]);
      var (now, out) := Apply(items, length, ops[0]);
      RunConserves(now, length, ops[1..]);
      var (left, later) := Run(now, length, ops[1..]);
      var first, rest := AcceptedNow(items, length, ops[0]), Accepted(now, length, ops[1..]);
      var gone, goneLater := OverwrittenNow(items, ops[0]), Overwritten(now, length, ops[1..]);
      AddCounts(multiset(out), multiset(later), multiset(left), multiset(now), multiset(rest), multiset(items),
                multiset(first), multiset(gone), multiset(goneLater));
      assert multiset(out + later) == multiset(out) + multiset(later);
      assert multiset(first + rest) == multiset(first) + multiset(rest);
      assert multiset(gone + goneLater) == multiset(gone) + multiset(goneLater);
    }
  }

  lemma AddCounts<T>(o: multiset<T>, l: multiset<T>, f: multiset<T>, n: multiset<T>, r: multiset<T>, i: multiset<T>,
                     g: multiset<T>, w: multiset<T>, v: multiset<T>)
    requires l + f + v == n + r && o + n + w == i + g
    ensures (o + l) + f + (w + v) == i + (g + r)
  {
    assert (o + l) + f + (w + v) == (o + w) + (l + f + v);
    assert (o + w) + (n + r) == (o + n + w) + r;
    assert (i + g) + r == i + (g + r);
  }

  // ---------------------------------------------------------------- runs of the ring

  /** What the pointers and the count say of the storage. */
  datatype RingState<T> = RingState(slots: seq<T>, readFrom: nat, count: nat)
  {
    ghost predicate Ok() { readFrom < |slots| && count <= |slots| }

    ghost function Items(): seq<T>
      requires Ok()
    {
      Ring(slots, readFrom, count)
    }
  }

  /** Overwriting is for queues of length one. */
  ghost predicate FitsLength<T>(op: Operation<T>, length: nat) {
    op.Send? && op.position == Overwrite ==> length == 1
  }

  /** The pointer and slot writes of an operation, and what it hands out for good. */
  ghost function Operate<T>(r: RingState<T>, op: Operation<T>): (RingState<T>, seq<T>)
    requires r.Ok()
  {
    match op
    case Send(x, position) =>
      if !Accepts(r.count, |r.slots|, position) then (r, [])
      else (RingState(r.slots[WriteSlot(|r.slots|, r.readFrom, r.count, position) := x],
                      ReadFromAfter(|r.slots|, r.readFrom, position), if position == Overwrite then 1 else r.count + 1), [])
    case Receive =>
      var next := if r.readFrom + 1 == |r.slots| then 0 else r.readFrom + 1;
      if r.count == 0 then (r, []) else (RingState(r.slots, next, r.count - 1), [r.slots[next]])
    case Peek => (r, [])
  }

  lemma OperateRefines<T>(r: RingState<T>, op: Operation<T>)
    requires r.Ok() && FitsLength(op, |r.slots|)
    ensures var (r', out) := Operate(r, op);
            && r'.Ok() && |r'.slots| == |r.slots| && (r'.Items(), out) == Apply(r.Items(), |r.slots|, op)
  {
    match op
    case Send(x, position) =>
      if Accepts(r.count, |r.slots|, position) { RingPut(r.slots, r.readFrom, r.count, x, position); }
    case Receive => if r.count > 0 { RingTake(r.slots, r.readFrom, r.count); }
    case Peek =>
  }

  ghost function RunRing<T>(r: RingState<T>, ops: seq<Operation<T>>): (run: (RingState<T>, seq<T>))
    requires r.Ok() && forall op :: op in ops ==> FitsLength(op, |r.slots|)
    ensures run.0.Ok() && |run.0.slots| == |r.slots|
    ensures (run.0.Items(), run.1) == Run(r.Items(), |r.slots|, ops)
    decreases |ops|
  {
    if ops == [] then (r, [])
    else
      assert ops[0] in ops;
      OperateRefines(r, ops[0]);
      var (now, out) := Operate(r, ops[0]);
      var (left, later) := RunRing(now, ops[1..]);
      (left, out + later)
  }

  /** First in, first out: over any run of sends to the back, receives and peeks on the ring, what comes
      out followed by what the pointers still enclose is what they enclosed followed by what was
      accepted, in order and without loss. */
  lemma FirstInFirstOut<T>(r: RingState<T>, ops: seq<Operation<T>>)
    requires r.Ok() && forall op :: op in ops && op.Send? ==> op.position == SendToBack
    ensures var (r', out) := RunRing(r, ops);
            out + r'.Items() == r.Items() + Accepted(r.Items(), |r.slots|, ops)
  {
    RunBalances(r.Items(), |r.slots|, ops);
  }

  /** Over any run at all, nothing is lost or duplicated but what an overwriting send replaces, and the
      queue never overfills. */
  lemma Conservation<T>(r: RingState<T>, ops: seq<Operation<T>>)
    requires r.Ok() && forall op :: op in ops ==> FitsLength(op, |r.slots|)
    ensures var (r', out) := RunRing(r, ops);
            && multiset(out) + multiset(r'.Items()) + multiset(Overwritten(r.Items(), |r.slots|, ops))
               == multiset(r.Items()) + multiset(Accepted(r.Items(), |r.slots|, ops))
            && |r'.Items()| <= |r.slots|
  {
    RunConserves(r.Items(), |r.slots|, ops);
  }

  /** A send is refused exactly when the ring is full and it does not overwrite; a refused one changes
      nothing, an accepted one adds one item unless it overwrites one. */
  lemma RefusedWhenFull<T>(r: RingState<T>, x: T, position: Position)
    requires r.Ok() && (position == Overwrite ==> |r.slots| == 1)
    ensures var r' := Operate(r, Send(x, position)).0;
            if r.count == |r.slots| && position != Overwrite then r' == r
            else r'.Ok() && r'.count == (if r.count == |r.slots| then r.count else r.count + 1)
                 && x in r'.Items()
  {
    OperateRefines(r, Send(x, position));
    if !(r.count == |r.slots| && position != Overwrite) {
      var put := Put(r.Items(), x, position);
      assert put[if position == SendToBack then |put| - 1 else 0] == x;
    }
  }

  /** What is sent to the front is received next, and the ring's items are then as before. */
  lemma LastInFirstOut<T>(r: RingState<T>, x: T)
    requires r.Ok() && r.count < |r.slots|
    ensures var sent := Operate(r, Send(x, SendToFront)).0;
            sent.Ok() && var (r', out) := Operate(sent, Receive); r'.Ok() && out == [x] && r'.Items() == r.Items()
  {
    OperateRefines(r, Send(x, SendToFront));
    var sent := Operate(r, Send(x, SendToFront)).0;
    OperateRefines(sent, Receive);
    assert ([x] + r.Items())[1..] == r.Items();
  }

  /** What overwrites is received next, and nothing is left. */
  lemma OverwriteThenReceive<T>(r: RingState<T>, x: T)
    requires r.Ok() && |r.slots| == 1
    ensures var sent := Operate(r, Send(x, Overwrite)).0;
            sent.Ok() && var (r', out) := Operate(sent, Receive); r'.Ok() && out == [x] && r'.Items() == []
  {
    OperateRefines(r, Send(x, Overwrite));
    OperateRefines(Operate(r, Send(x, Overwrite)).0, Receive);
  }
}
