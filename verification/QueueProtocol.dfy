/** The blocking protocol of lib/FreeRTOS-Kernel/queue.c as interleaved steps of tasks and
    interrupts.  Each step is one critical section, one macro or one scheduler call of
    xQueueGenericSend, xQueueReceive or xQueueSemaphoreTake; interrupts may occur between any two
    steps.  What a step does to the queue is the function of module QueueState that the code
    computes.  The main result is that no wakeup is lost. */
module QueueProtocol {
  import opened QueueState
  import opened Sequences

  datatype Direction = Receiving | Sending(position: Position)

  /** Why the queue is being unlocked: the task has put itself on an event list, the queue had
      changed, or the block time was over. */
  datatype Reason = Blocking | Retrying | Expired

  datatype Counter =
    | Idle                                   // not inside a queue call
    | Check(dir: Direction)                  // before the critical section at the loop head
    | Suspend(dir: Direction)                // before vTaskSuspendAll
    | LockQueue(dir: Direction)              // before prvLockQueue
    | CheckTimeOut(dir: Direction)           // before xTaskCheckForTimeOut
    | Recheck(dir: Direction)                // before prvIsQueueEmpty / prvIsQueueFull
    | Place(dir: Direction)                  // before vTaskPlaceOnEventList
    | UnlockTx(dir: Direction, why: Reason)  // before the first half of prvUnlockQueue
    | UnlockRx(dir: Direction, why: Reason)  // before its second half
    | Resume(dir: Direction, why: Reason)    // before xTaskResumeAll
    | Blocked(dir: Direction)                // placed; runs again once it is off the event list
    | LastLook(dir: Direction)               // a receiver whose time is over looks once more
  {
    /** Between vTaskSuspendAll and xTaskResumeAll. */
    predicate Inside() {
      LockQueue? || CheckTimeOut? || Recheck? || Place? || UnlockTx? || UnlockRx? || Resume?
    }

    /** The task has put itself on an event list and not looked at the queue since. */
    predicate Placed() {
      Blocked? || ((UnlockTx? || UnlockRx? || Resume?) && why == Blocking)
    }
  }

  /** `posts` and `takes` count what interrupts did since the queue was locked; the code only has
      the capped counters tx and rx. */
  datatype State = State(q: Control, pcs: map<Task, Counter>, suspendedBy: Option<Task>,
                         ghost posts: nat, ghost takes: nat)

  datatype Action =
    | Call(task: Task, dir: Direction)
    | Run(task: Task, choice: bool, at: nat)  // choice: block time zero / over; at: place in the event list
    | TickTimeOut(task: Task)                 // a blocked task's time runs out
    | SendISR(position: Position)
    | ReceiveISR

  // ---------------------------------------------------------------- steps

  ghost predicate CanRun(s: State, t: Task) {
    t in s.pcs && (s.suspendedBy == None || s.suspendedBy == Some(t))
  }

  ghost predicate OnList(s: State, t: Task) {
    t in s.q.receivers || t in s.q.senders
  }

  ghost predicate Enabled(s: State, a: Action) {
    match a
    case Call(t, dir) =>
      CanRun(s, t) && s.pcs[t] == Idle && (dir == Sending(Overwrite) ==> s.q.length == 1)
    case Run(t, _, at) =>
      CanRun(s, t) && s.pcs[t] != Idle && (s.pcs[t].Blocked? ==> !OnList(s, t))
      && at <= |if s.pcs[t].Place? && s.pcs[t].dir.Receiving? then s.q.receivers else s.q.senders|
    case TickTimeOut(t) => s.suspendedBy == None && t in s.pcs && s.pcs[t].Blocked? && OnList(s, t)
    case SendISR(position) =>
      Accepts(s.q.messages, s.q.length, position) && (position == Overwrite ==> s.q.length == 1)
    case ReceiveISR => s.q.messages > 0
  }

  ghost function Goto(s: State, t: Task, pc: Counter): State {
    s.(pcs := s.pcs[t := pc])
  }

  /** The critical section at the head of the loop: take part, give up, or go on to block. */
  ghost function CheckStep(s: State, t: Task, dir: Direction, giveUp: bool): State {
    if dir.Receiving? && s.q.messages > 0 then Goto(s, t, Idle).(q := s.q.Receive())
    else if dir.Sending? && Accepts(s.q.messages, s.q.length, dir.position) then
      Goto(s, t, Idle).(q := s.q.Send(dir.position))
    else if giveUp then Goto(s, t, Idle)
    else Goto(s, t, Suspend(dir))
  }

  ghost predicate MustWait(q: Control, dir: Direction) {
    if dir.Receiving? then q.messages == 0 else q.messages == q.length
  }

  /** vTaskPlaceOnEventList; the position in the list depends on task priorities. */
  ghost function PlaceOn(q: Control, t: Task, dir: Direction, at: nat): Control
    requires at <= |if dir.Receiving? then q.receivers else q.senders|
  {
    if dir.Receiving? then q.(receivers := InsertAt(q.receivers, at, t)) else q.(senders := InsertAt(q.senders, at, t))
  }

  ghost function RunStep(s: State, t: Task, choice: bool, at: nat): State
    requires Enabled(s, Run(t, choice, at))
  {
    match s.pcs[t]
    case Idle => s
    case Check(dir) => CheckStep(s, t, dir, choice)
    case Blocked(dir) => CheckStep(s, t, dir, choice)
    case Suspend(dir) => Goto(s, t, LockQueue(dir)).(suspendedBy := Some(t))
    case LockQueue(dir) => Goto(s, t, CheckTimeOut(dir)).(q := s.q.Lock())
    case CheckTimeOut(dir) => Goto(s, t, if choice then UnlockTx(dir, Expired) else Recheck(dir))
    case Recheck(dir) => Goto(s, t, if MustWait(s.q, dir) then Place(dir) else UnlockTx(dir, Retrying))
    case Place(dir) => Goto(s, t, UnlockTx(dir, Blocking)).(q := PlaceOn(s.q, t, dir, at))
    case UnlockTx(dir, why) => Goto(s, t, UnlockRx(dir, why)).(q := s.q.UnlockTx(), posts := 0)
    case UnlockRx(dir, why) => Goto(s, t, Resume(dir, why)).(q := s.q.UnlockRx(), takes := 0)
    case Resume(dir, why) =>
      Goto(s, t, match why
                 case Blocking => Blocked(dir)
                 case Retrying => Check(dir)
                 case Expired => if dir.Receiving? then LastLook(dir) else Idle).(suspendedBy := None)
    case LastLook(dir) => Goto(s, t, if MustWait(s.q, dir) then Idle else Check(dir))
  }

  ghost function Step(s: State, a: Action): State
    requires Enabled(s, a)
  {
    match a
    case Call(t, dir) => Goto(s, t, Check(dir))
    case Run(t, choice, at) => RunStep(s, t, choice, at)
    case TickTimeOut(t) =>
      Goto(s, t, Check(s.pcs[t].dir)).(q := s.q.(receivers := Without(s.q.receivers, t),
                                                 senders := Without(s.q.senders, t)))
    case SendISR(position) =>
      s.(q := s.q.SendFromISR(position, |s.pcs|), posts := if s.q.tx == UNLOCKED then 0 else s.posts + 1)
    case ReceiveISR =>
      s.(q := s.q.ReceiveFromISR(|s.pcs|), takes := if s.q.rx == UNLOCKED then 0 else s.takes + 1)
  }

  ghost predicate Initial(s: State) {
    && s.q == Control(0, s.q.length, UNLOCKED, UNLOCKED, [], []) && s.q.length > 0
    && (forall t :: t in s.pcs ==> s.pcs[t] == Idle)
    && s.suspendedBy == None && s.posts == 0 && s.takes == 0
    && |s.pcs| <= INT8_MAX
  }

  // ---------------------------------------------------------------- what every step keeps

  ghost function ListOf(q: Control, receiving: bool): seq<Task> {
    if receiving then q.receivers else q.senders
  }

  /** Tasks woken by an event that have not looked at the queue since. */
  ghost function Woken(s: State, receiving: bool): set<Task> {
    OffList(s.pcs, receiving, ListOf(s.q, receiving))
  }

  ghost predicate PlacedFor(pcs: map<Task, Counter>, t: Task, receiving: bool) {
    t in pcs && pcs[t].Placed() && pcs[t].dir.Receiving? == receiving
  }

  ghost function OffList(pcs: map<Task, Counter>, receiving: bool, list: seq<Task>): set<Task> {
    set t | t in pcs && PlacedFor(pcs, t, receiving) && t !in list
  }

  /** Only tasks that placed themselves are on the event lists, each once and on the right list. */
  ghost predicate ListsOk(s: State) {
    ListOk(s.pcs, true, s.q.receivers) && ListOk(s.pcs, false, s.q.senders)
  }

  ghost predicate ListOk(pcs: map<Task, Counter>, receiving: bool, list: seq<Task>) {
    Distinct(list) && forall t :: t in list ==> PlacedFor(pcs, t, receiving)
  }

  /** The lock counters against the position of the one task that may hold the lock. */
  ghost predicate LocksOk(s: State) {
    && (forall t :: t in s.pcs && s.pcs[t].Inside() ==> s.suspendedBy == Some(t))
    && (s.suspendedBy == None ==> s.q.tx == s.q.rx == UNLOCKED)
    && (s.suspendedBy.Some? ==>
          var t := s.suspendedBy.value;
          && t in s.pcs && s.pcs[t].Inside()
          && (s.q.tx == UNLOCKED <==> s.pcs[t].LockQueue? || s.pcs[t].UnlockRx? || s.pcs[t].Resume?)
          && (s.q.rx == UNLOCKED <==> s.pcs[t].LockQueue? || s.pcs[t].Resume?))
  }

  /** A lock counter is the number of events since locking, capped at the number of tasks. */
  ghost predicate Counts(lock: int, events: nat, numberOfTasks: nat) {
    lock == if lock == UNLOCKED then UNLOCKED else if events < numberOfTasks then events else numberOfTasks
  }

  ghost predicate CountersOk(s: State) {
    && s.q.messages <= s.q.length && s.q.length > 0 && |s.pcs| <= INT8_MAX
    && s.q.tx >= UNLOCKED && s.q.rx >= UNLOCKED
    && Counts(s.q.tx, s.posts, |s.pcs|) && Counts(s.q.rx, s.takes, |s.pcs|)
    && (s.q.tx == UNLOCKED ==> s.posts == 0) && (s.q.rx == UNLOCKED ==> s.takes == 0)
  }

  /** Only queues of length one are overwritten. */
  ghost predicate OverwritesOk(s: State) {
    forall t :: t in s.pcs && s.pcs[t] != Idle && s.pcs[t].dir == Sending(Overwrite) ==> s.q.length == 1
  }

  ghost predicate AboutToWait(s: State, receiving: bool) {
    || ListOf(s.q, receiving) != []
    || exists t :: t in s.pcs && s.pcs[t].Place? && s.pcs[t].dir.Receiving? == receiving
  }

  /** What the waiting tasks want: messages for receivers, free slots for senders. */
  ghost function Amount(q: Control, receiving: bool): int {
    if receiving then q.messages else q.length - q.messages
  }

  /** What interrupts added to it since the queue was locked. */
  ghost function Events(s: State, receiving: bool): nat {
    if receiving then s.posts else s.takes
  }

  /** While receivers wait, every message is matched by a receiver already woken that will look
      again, or by a counted post the unlock still has to pay for; likewise senders and free slots. */
  ghost predicate Served(s: State, receiving: bool) {
    AboutToWait(s, receiving) ==> Amount(s.q, receiving) <= |Woken(s, receiving)| + Events(s, receiving)
  }

  ghost predicate Inv(s: State) {
    ListsOk(s) && LocksOk(s) && CountersOk(s) && OverwritesOk(s) && Served(s, true) && Served(s, false)
  }

  // ---------------------------------------------------------------- counting woken tasks

  lemma {:induction false} SubsetCardinality(a: set<Task>, b: set<Task>)
    requires a <= b
    ensures |a| <= |b|
  {
    if a != {} {
      var x :| x in a;
      SubsetCardinality(a - {x}, b - {x});
    }
  }

  /** A task that moves on leaves the woken ones at most one poorer. */
  lemma OneMoves(pcs: map<Task, Counter>, receiving: bool, list: seq<Task>, t: Task, pc: Counter)
    requires t in pcs
    ensures var before, after := OffList(pcs, receiving, list), OffList(pcs[t := pc], receiving, list);
            && |after| >= |before| - 1
            && (t !in before || PlacedFor(pcs[t := pc], t, receiving) ==> |after| >= |before|)
  {
    var before, after := OffList(pcs, receiving, list), OffList(pcs[t := pc], receiving, list);
    SubsetCardinality(before - {t}, after);
    if t !in before { assert before - {t} == before; }
    if t in before && PlacedFor(pcs[t := pc], t, receiving) {
      SubsetCardinality(before, after);
    }
  }

  /** Taking k tasks off the front of an event list makes k more woken ones. */
  lemma {:induction false} FrontWoken(pcs: map<Task, Counter>, receiving: bool, list: seq<Task>, k: nat)
    requires k <= |list| && ListOk(pcs, receiving, list)
    ensures |OffList(pcs, receiving, list[k..])| == |OffList(pcs, receiving, list)| + k
    ensures ListOk(pcs, receiving, list[k..])
    decreases k
  {
    if k == 0 {
      assert list[0..] == list;
    } else {
      assert list[0] !in list[1..];
      assert forall u :: u in list <==> u == list[0] || u in list[1..];
      assert list[0] in list;
      assert OffList(pcs, receiving, list[1..]) == OffList(pcs, receiving, list) + {list[0]};
      FrontWoken(pcs, receiving, list[1..], k - 1);
      assert list[1..][k - 1..] == list[k..];
    }
  }

  // ---------------------------------------------------------------- preservation, invariant by invariant

  lemma ListGoto(pcs: map<Task, Counter>, receiving: bool, list: seq<Task>, t: Task, pc: Counter)
    requires ListOk(pcs, receiving, list) && t in pcs
    requires t !in list || PlacedFor(pcs[t := pc], t, receiving)
    ensures ListOk(pcs[t := pc], receiving, list)
  {
    forall u | u in list ensures PlacedFor(pcs[t := pc], u, receiving) {
      assert PlacedFor(pcs, u, receiving);
    }
  }

  ghost predicate Suffix(list: seq<Task>, list': seq<Task>) {
    |list'| <= |list| && list' == list[|list| - |list'|..]
  }

  lemma SuffixKept(pcs: map<Task, Counter>, receiving: bool, list: seq<Task>, list': seq<Task>)
    requires ListOk(pcs, receiving, list) && Suffix(list, list')
    ensures ListOk(pcs, receiving, list') && forall t :: t in list' ==> t in list
  {
    FrontWoken(pcs, receiving, list, |list| - |list'|);
  }

  lemma SuffixFrom(list: seq<Task>, k: nat)
    requires k <= |list|
    ensures Suffix(list, list[k..]) && Suffix(list, list)
  {
  }

  lemma CheckLists(s: State, t: Task, dir: Direction, giveUp: bool, receiving: bool)
    requires t in s.pcs
    ensures Suffix(ListOf(s.q, receiving), ListOf(CheckStep(s, t, dir, giveUp).q, receiving))
  {
    var list := ListOf(s.q, receiving);
    SuffixFrom(list, if list == [] then 0 else 1);
  }

  /** Apart from placing itself, a task takes tasks only off the front of the event lists. */
  lemma RunLists(s: State, t: Task, choice: bool, at: nat, receiving: bool)
    requires Enabled(s, Run(t, choice, at)) && !(s.pcs[t].Place? && s.pcs[t].dir.Receiving? == receiving)
    ensures Suffix(ListOf(s.q, receiving), ListOf(RunStep(s, t, choice, at).q, receiving))
  {
    hide Suffix, CheckStep;
    var list := ListOf(s.q, receiving);
    SuffixFrom(list, 0);
    match s.pcs[t]
    case Check(dir) => CheckLists(s, t, dir, choice, receiving);
    case Blocked(dir) => CheckLists(s, t, dir, choice, receiving);
    case UnlockTx(dir, why) => SuffixFrom(list, if receiving then Control.Owed(s.q.tx, list) else 0);
    case UnlockRx(dir, why) => SuffixFrom(list, if receiving then 0 else Control.Owed(s.q.rx, list));
    case _ =>
  }

  /** A step of task t moves t alone, and a placed task stays placed unless it looks at the queue. */
  lemma RunMoves(s: State, t: Task, choice: bool, at: nat)
    requires Enabled(s, Run(t, choice, at))
    ensures var s' := RunStep(s, t, choice, at);
            && t in s'.pcs && s'.pcs == s.pcs[t := s'.pcs[t]] && s'.pcs.Keys == s.pcs.Keys
            && s'.q.length == s.q.length
            && (s'.pcs[t] == Idle || (s.pcs[t] != Idle && s'.pcs[t].dir == s.pcs[t].dir))
            && (s.pcs[t].Placed() && !s.pcs[t].Blocked? ==> s'.pcs[t].Placed())
  {
    var s' := RunStep(s, t, choice, at);
    assert t in s'.pcs && s'.pcs == s.pcs[t := s'.pcs[t]];
    assert s.pcs[t := s'.pcs[t]].Keys == s.pcs.Keys;
  }

  /** A listed task that runs stays placed. */
  lemma ListedStays(s: State, t: Task, choice: bool, at: nat, receiving: bool)
    requires Enabled(s, Run(t, choice, at)) && t in ListOf(s.q, receiving) && PlacedFor(s.pcs, t, receiving)
    ensures PlacedFor(RunStep(s, t, choice, at).pcs, t, receiving)
  {
    hide RunStep;
    RunMoves(s, t, choice, at);
  }

  lemma ListKept(s: State, a: Action, receiving: bool)
    requires Inv(s) && Enabled(s, a)
    ensures var s' := Step(s, a); ListOk(s'.pcs, receiving, ListOf(s'.q, receiving))
  {
    var s' := Step(s, a);
    var list, list' := ListOf(s.q, receiving), ListOf(s'.q, receiving);
    assert ListOk(s.pcs, receiving, list);
    match a
    case Call(t, dir) => ListGoto(s.pcs, receiving, list, t, Check(dir));
    case SendISR(position) => SuffixKept(s.pcs, receiving, list, list');
    case ReceiveISR => SuffixKept(s.pcs, receiving, list, list');
    case TickTimeOut(t) =>
      WithoutMembers(list, t);
      WithoutDistinct(list, t);
      ListGoto(s.pcs, receiving, list', t, s'.pcs[t]);
    case Run(t, choice, at) => RunListKept(s, t, choice, at, receiving);
  }

  lemma RunListKept(s: State, t: Task, choice: bool, at: nat, receiving: bool)
    requires Enabled(s, Run(t, choice, at)) && ListOk(s.pcs, receiving, ListOf(s.q, receiving))
    ensures var s' := RunStep(s, t, choice, at); ListOk(s'.pcs, receiving, ListOf(s'.q, receiving))
  {
    var s' := RunStep(s, t, choice, at);
    var list, list' := ListOf(s.q, receiving), ListOf(s'.q, receiving);
    hide CheckStep;
    RunMoves(s, t, choice, at);
    if t in list {
      assert PlacedFor(s.pcs, t, receiving);
      ListedStays(s, t, choice, at, receiving);
    }
    if s.pcs[t].Place? && s.pcs[t].dir.Receiving? == receiving {
      InsertDistinct(list, at, t);
      ListGoto(s.pcs, receiving, list, t, s'.pcs[t]);
    } else {
      RunLists(s, t, choice, at, receiving);
      SuffixKept(s.pcs, receiving, list, list');
      ListGoto(s.pcs, receiving, list', t, s'.pcs[t]);
    }
  }

  lemma LocksKept(s: State, a: Action)
    requires LocksOk(s) && CountersOk(s) && Enabled(s, a)
    ensures LocksOk(Step(s, a))
  {
    match a
    case Call(t, dir) =>
    case SendISR(position) =>
    case ReceiveISR =>
    case TickTimeOut(t) =>
    case Run(t, choice, at) => RunLocksKept(s, t, choice, at);
  }

  lemma RunLocksKept(s: State, t: Task, choice: bool, at: nat)
    requires LocksOk(s) && CountersOk(s) && Enabled(s, Run(t, choice, at))
    ensures LocksOk(RunStep(s, t, choice, at))
  {
    match s.pcs[t]
    case Idle =>
    case Check(dir) =>
    case Blocked(dir) =>
    case Suspend(dir) =>
    case LockQueue(dir) =>
    case CheckTimeOut(dir) =>
    case Recheck(dir) =>
    case Place(dir) =>
    case UnlockTx(dir, why) =>
    case UnlockRx(dir, why) =>
    case Resume(dir, why) =>
    case LastLook(dir) =>
  }

  lemma CountersKept(s: State, a: Action)
    requires LocksOk(s) && CountersOk(s) && Enabled(s, a)
    ensures CountersOk(Step(s, a))
  {
    match a
    case Call(t, dir) => assert s.pcs[t := Check(dir)].Keys == s.pcs.Keys;
    case SendISR(position) =>
    case ReceiveISR =>
    case TickTimeOut(t) => assert s.pcs[t := Check(s.pcs[t].dir)].Keys == s.pcs.Keys;
    case Run(t, choice, at) => RunCountersKept(s, t, choice, at);
  }

  lemma RunCountersKept(s: State, t: Task, choice: bool, at: nat)
    requires LocksOk(s) && CountersOk(s) && Enabled(s, Run(t, choice, at))
    ensures CountersOk(RunStep(s, t, choice, at))
  {
    RunMoves(s, t, choice, at);
    match s.pcs[t]
    case Idle =>
    case Check(dir) =>
    case Blocked(dir) =>
    case Suspend(dir) =>
    case LockQueue(dir) =>
    case CheckTimeOut(dir) =>
    case Recheck(dir) =>
    case Place(dir) =>
    case UnlockTx(dir, why) =>
    case UnlockRx(dir, why) =>
    case Resume(dir, why) =>
    case LastLook(dir) =>
  }

  /** A step that leaves the queue alone, or only opens or closes the other direction's lock. */
  lemma QuietServed(s: State, t: Task, pc: Counter, s': State, receiving: bool)
    requires Inv(s) && t in s.pcs && s'.pcs == s.pcs[t := pc]
    requires ListOf(s'.q, receiving) == ListOf(s.q, receiving)
    requires Amount(s'.q, receiving) == Amount(s.q, receiving) && Events(s', receiving) == Events(s, receiving)
    requires PlacedFor(s.pcs, t, receiving) ==> PlacedFor(s'.pcs, t, receiving)
    requires pc.Place? && pc.dir.Receiving? == receiving ==> Amount(s.q, receiving) == 0
    ensures Served(s', receiving)
  {
    OneMoves(s.pcs, receiving, ListOf(s.q, receiving), t, pc);
    if AboutToWait(s', receiving) && !AboutToWait(s, receiving) {
      assert pc.Place? && pc.dir.Receiving? == receiving;
    }
  }

  /** While a task other than one inside the lock runs, nobody is about to place itself. */
  lemma NobodyPlacing(s: State, t: Task)
    requires LocksOk(s) && CanRun(s, t) && !s.pcs[t].Inside()
    ensures s.suspendedBy == None && forall u :: u in s.pcs ==> !s.pcs[u].Place?
  {
    assert forall u :: u in s.pcs && s.pcs[u].Place? ==> s.pcs[u].Inside();
  }

  /** What a look at the queue does for one direction: a task of that direction takes what it came
      for; one of the other direction adds one and wakes one. */
  lemma CheckTakes(s: State, t: Task, dir: Direction, giveUp: bool, receiving: bool)
    requires t in s.pcs && s.q.messages <= s.q.length && (dir == Sending(Overwrite) ==> s.q.length == 1)
    ensures var s', list := CheckStep(s, t, dir, giveUp), ListOf(s.q, receiving);
            && s'.pcs == s.pcs[t := s'.pcs[t]] && (s'.pcs[t] == Idle || s'.pcs[t] == Suspend(dir))
            && Events(s', receiving) == Events(s, receiving)
            && (if dir.Receiving? == receiving then
                  && ListOf(s'.q, receiving) == list
                  && Amount(s'.q, receiving) <= if Amount(s.q, receiving) > 0 then Amount(s.q, receiving) - 1 else 0
                else
                  || (ListOf(s'.q, receiving) == list && Amount(s'.q, receiving) == Amount(s.q, receiving))
                  || (ListOf(s'.q, receiving) == (if list == [] then [] else list[1..])
                      && Amount(s'.q, receiving) <= Amount(s.q, receiving) + 1))
  {
  }

  lemma CheckServed(s: State, t: Task, dir: Direction, giveUp: bool, receiving: bool)
    requires Inv(s) && CanRun(s, t) && !OnList(s, t)
    requires s.pcs[t] == Check(dir) || s.pcs[t] == Blocked(dir)
    ensures Served(CheckStep(s, t, dir, giveUp), receiving)
  {
    hide CheckStep;
    var s' := CheckStep(s, t, dir, giveUp);
    var list, list' := ListOf(s.q, receiving), ListOf(s'.q, receiving);
    NobodyPlacing(s, t);
    CheckTakes(s, t, dir, giveUp, receiving);
    OneMoves(s.pcs, receiving, list', t, s'.pcs[t]);
    assert ListOk(s.pcs, receiving, list);
    FrontWoken(s.pcs, receiving, list, |list| - |list'|);
    if AboutToWait(s', receiving) {
      assert list' != [] && list != [];
      assert Amount(s.q, receiving) <= |Woken(s, receiving)| + Events(s, receiving);
    }
  }

  lemma PlaceServed(s: State, t: Task, at: nat, receiving: bool)
    requires Inv(s) && Enabled(s, Run(t, false, at)) && s.pcs[t].Place?
    ensures Served(RunStep(s, t, false, at), receiving)
  {
    var s' := RunStep(s, t, false, at);
    if s.pcs[t].dir.Receiving? == receiving {
      var list := ListOf(s.q, receiving);
      assert t in list ==> PlacedFor(s.pcs, t, receiving);
      InsertDistinct(list, at, t);
      assert Woken(s', receiving) == Woken(s, receiving) by {
        assert forall u :: u in s.pcs && u != t ==> PlacedFor(s'.pcs, u, receiving) == PlacedFor(s.pcs, u, receiving);
      }
      assert AboutToWait(s, receiving);
    } else {
      QuietServed(s, t, s'.pcs[t], s', receiving);
    }
  }

  lemma {:induction false} TaskCount(ts: seq<Task>, tasks: set<Task>)
    requires Distinct(ts) && forall t :: t in ts ==> t in tasks
    ensures |ts| <= |tasks|
  {
    if ts != [] {
      assert ts[0] in ts && forall t :: t in ts[1..] ==> t in ts && t != ts[0];
      TaskCount(ts[1..], tasks - {ts[0]});
    }
  }

  /** The unlock pays: although the counters are capped, min(events, waiting) tasks are woken, from the
      front of their list. */
  lemma UnlockWakesAll(s: State, t: Task, choice: bool, at: nat)
    requires Inv(s) && Enabled(s, Run(t, choice, at))
    ensures var s', list := RunStep(s, t, choice, at), s.q.receivers;
            s.pcs[t].UnlockTx? ==> s'.q.receivers == list[if s.posts < |list| then s.posts else |list|..]
    ensures var s', list := RunStep(s, t, choice, at), s.q.senders;
            s.pcs[t].UnlockRx? ==> s'.q.senders == list[if s.takes < |list| then s.takes else |list|..]
  {
    ListFits(s, true);
    ListFits(s, false);
  }

  /** An event list is never longer than there are tasks. */
  lemma ListFits(s: State, receiving: bool)
    requires ListsOk(s)
    ensures |ListOf(s.q, receiving)| <= |s.pcs|
  {
    var list := ListOf(s.q, receiving);
    assert ListOk(s.pcs, receiving, list);
    TaskCount(list, s.pcs.Keys);
  }

  /** What an unlock does to its own direction. */
  lemma UnlockPays(s: State, t: Task, choice: bool, at: nat, receiving: bool)
    requires Inv(s) && Enabled(s, Run(t, choice, at))
    requires if receiving then s.pcs[t].UnlockTx? else s.pcs[t].UnlockRx?
    ensures var s', list, events := RunStep(s, t, choice, at), ListOf(s.q, receiving), Events(s, receiving);
            && ListOf(s'.q, receiving) == list[if events < |list| then events else |list|..]
            && Amount(s'.q, receiving) == Amount(s.q, receiving)
            && s'.pcs == s.pcs[t := s'.pcs[t]] && !s'.pcs[t].Place? && s'.pcs[t].dir == s.pcs[t].dir
            && (s'.pcs[t].Placed() <==> s.pcs[t].Placed())
  {
    UnlockWakesAll(s, t, choice, at);
  }

  lemma UnlockServed(s: State, t: Task, choice: bool, at: nat, receiving: bool)
    requires Inv(s) && Enabled(s, Run(t, choice, at))
    requires if receiving then s.pcs[t].UnlockTx? else s.pcs[t].UnlockRx?
    ensures Served(RunStep(s, t, choice, at), receiving)
  {
    hide RunStep;
    var s' := RunStep(s, t, choice, at);
    var list, list' := ListOf(s.q, receiving), ListOf(s'.q, receiving);
    UnlockPays(s, t, choice, at, receiving);
    assert ListOk(s.pcs, receiving, list);
    FrontWoken(s.pcs, receiving, list, |list| - |list'|);
    OneMoves(s.pcs, receiving, list', t, s'.pcs[t]);
    assert forall u :: u in s'.pcs ==> !s'.pcs[u].Place? by {
      assert forall u :: u in s.pcs && s.pcs[u].Place? ==> s.pcs[u].Inside();
    }
    if AboutToWait(s', receiving) {
      assert list' != [];
      assert Amount(s.q, receiving) <= |Woken(s, receiving)| + Events(s, receiving);
    }
  }

  lemma RunServed(s: State, t: Task, choice: bool, at: nat, receiving: bool)
    requires Inv(s) && Enabled(s, Run(t, choice, at))
    ensures Served(RunStep(s, t, choice, at), receiving)
  {
    var s' := RunStep(s, t, choice, at);
    match s.pcs[t]
    case Check(dir) =>
      assert !OnList(s, t) by {
        assert t in s.q.receivers ==> PlacedFor(s.pcs, t, true);
        assert t in s.q.senders ==> PlacedFor(s.pcs, t, false);
      }
      CheckServed(s, t, dir, choice, receiving);
    case Blocked(dir) => CheckServed(s, t, dir, choice, receiving);
    case Place(dir) => PlaceServed(s, t, at, receiving);
    case UnlockTx(dir, why) =>
      if receiving { UnlockServed(s, t, choice, at, receiving); } else { QuietServed(s, t, s'.pcs[t], s', receiving); }
    case UnlockRx(dir, why) =>
      if receiving { QuietServed(s, t, s'.pcs[t], s', receiving); } else { UnlockServed(s, t, choice, at, receiving); }
    case _ => QuietRunServed(s, t, choice, at, receiving);
  }

  /** The steps that touch neither the queue's contents nor its counters. */
  lemma QuietRunServed(s: State, t: Task, choice: bool, at: nat, receiving: bool)
    requires Inv(s) && Enabled(s, Run(t, choice, at))
    requires var pc := s.pcs[t];
             pc.Idle? || pc.Suspend? || pc.LockQueue? || pc.CheckTimeOut? || pc.Recheck? || pc.Resume? || pc.LastLook?
    ensures Served(RunStep(s, t, choice, at), receiving)
  {
    var s' := RunStep(s, t, choice, at);
    if s.pcs[t] != Idle { QuietServed(s, t, s'.pcs[t], s', receiving); }
  }

  lemma InterruptServed(s: State, a: Action, receiving: bool)
    requires Inv(s) && Enabled(s, a) && (a.SendISR? || a.ReceiveISR?)
    ensures Served(Step(s, a), receiving)
  {
    var s' := Step(s, a);
    var list, list' := ListOf(s.q, receiving), ListOf(s'.q, receiving);
    assert ListOk(s.pcs, receiving, list);
    FrontWoken(s.pcs, receiving, list, |list| - |list'|);
    assert (if receiving then s.q.tx else s.q.rx) == UNLOCKED ==> forall u :: u in s.pcs ==> !s.pcs[u].Place? by {
      assert forall u :: u in s.pcs && s.pcs[u].Place? ==> s.pcs[u].Inside();
    }
    assert AboutToWait(s', receiving) ==> AboutToWait(s, receiving);
  }

  lemma TimeOutServed(s: State, t: Task, receiving: bool)
    requires Inv(s) && Enabled(s, TickTimeOut(t))
    ensures Served(Step(s, TickTimeOut(t)), receiving)
  {
    var s' := Step(s, TickTimeOut(t));
    var list := ListOf(s.q, receiving);
    WithoutMembers(list, t);
    WithoutDistinct(list, t);
    assert ListOk(s.pcs, true, s.q.receivers) && ListOk(s.pcs, false, s.q.senders);
    assert Woken(s, receiving) <= Woken(s', receiving) by {
      assert forall u :: u in s.pcs && u != t ==> PlacedFor(s'.pcs, u, receiving) == PlacedFor(s.pcs, u, receiving);
      assert PlacedFor(s.pcs, t, receiving) ==> t in list;
    }
    SubsetCardinality(Woken(s, receiving), Woken(s', receiving));
    assert AboutToWait(s', receiving) ==> AboutToWait(s, receiving) by {
      if ListOf(s'.q, receiving) != [] { assert ListOf(s'.q, receiving)[0] in list; }
    }
  }

  lemma StepInv(s: State, a: Action)
    requires Inv(s) && Enabled(s, a)
    ensures Inv(Step(s, a))
  {
    ListKept(s, a, true);
    ListKept(s, a, false);
    LocksKept(s, a);
    CountersKept(s, a);
    OverwritesKept(s, a);
    ServedKept(s, a, true);
    ServedKept(s, a, false);
  }

  lemma ServedKept(s: State, a: Action, receiving: bool)
    requires Inv(s) && Enabled(s, a)
    ensures Served(Step(s, a), receiving)
  {
    match a
    case Call(t, dir) => QuietServed(s, t, Check(dir), Step(s, a), receiving);
    case SendISR(position) => InterruptServed(s, a, receiving);
    case ReceiveISR => InterruptServed(s, a, receiving);
    case TickTimeOut(t) => TimeOutServed(s, t, receiving);
    case Run(t, choice, at) => RunServed(s, t, choice, at, receiving);
  }

  lemma OverwritesKept(s: State, a: Action)
    requires OverwritesOk(s) && Enabled(s, a)
    ensures OverwritesOk(Step(s, a))
  {
    if a.Run? { RunOverwritesKept(s, a.task, a.choice, a.at); }
  }

  lemma RunOverwritesKept(s: State, t: Task, choice: bool, at: nat)
    requires OverwritesOk(s) && Enabled(s, Run(t, choice, at))
    ensures OverwritesOk(RunStep(s, t, choice, at))
  {
    RunMoves(s, t, choice, at);
    var s' := RunStep(s, t, choice, at);
    forall u | u in s'.pcs && s'.pcs[u] != Idle && s'.pcs[u].dir == Sending(Overwrite) ensures s'.q.length == 1 {
      assert s.pcs[u] != Idle && s.pcs[u].dir == Sending(Overwrite);
    }
  }

  // ---------------------------------------------------------------- runs

  ghost predicate Reaches(s: State, actions: seq<Action>, s': State)
    decreases |actions|
  {
    if actions == [] then s == s'
    else Enabled(s, actions[0]) && Reaches(Step(s, actions[0]), actions[1..], s')
  }

  lemma {:induction false} ReachableInv(s: State, actions: seq<Action>, s': State)
    requires Inv(s) && Reaches(s, actions, s')
    ensures Inv(s')
    decreases |actions|
  {
    if actions != [] {
      StepInv(s, actions[0]);
      ReachableInv(Step(s, actions[0]), actions[1..], s');
    }
  }

  lemma InitialInv(s: State)
    requires Initial(s)
    ensures Inv(s)
  {
  }

  /** No lost wakeup, under any interleaving of tasks and interrupts.  While a receiver waits there
      are never more messages than receivers already woken and posts still counted; so once nobody
      holds the lock and every woken receiver has looked again, no task waits for a message that is
      there.  Likewise for senders and free slots. */
  lemma NoLostWakeup(s: State, actions: seq<Action>, s': State)
    requires Initial(s) && Reaches(s, actions, s')
    ensures s'.q.receivers != [] ==> s'.q.messages <= |Woken(s', true)| + s'.posts
    ensures s'.q.senders != [] ==> s'.q.length - s'.q.messages <= |Woken(s', false)| + s'.takes
    ensures s'.suspendedBy == None && Woken(s', true) == {} && s'.q.messages > 0 ==> s'.q.receivers == []
    ensures s'.suspendedBy == None && Woken(s', false) == {} && s'.q.messages < s'.q.length ==> s'.q.senders == []
  {
    InitialInv(s);
    ReachableInv(s, actions, s');
  }

  /** With at most 127 tasks the int8_t lock counters never reach the value the code asserts
      against, at the moment an interrupt increments them. */
  lemma LockCountersFit(s: State, actions: seq<Action>, s': State)
    requires Initial(s) && Reaches(s, actions, s')
    ensures s'.q.tx < |s'.pcs| ==> s'.q.tx != 127
    ensures s'.q.rx < |s'.pcs| ==> s'.q.rx != 127
    ensures -1 <= s'.q.tx <= 127 && -1 <= s'.q.rx <= 127
  {
    InitialInv(s);
    ReachableInv(s, actions, s');
  }

  /** The lock is held only by a task that has the scheduler suspended, and by one at a time. */
  lemma LockIsExclusive(s: State, actions: seq<Action>, s': State, t: Task, u: Task)
    requires Initial(s) && Reaches(s, actions, s')
    requires t in s'.pcs && u in s'.pcs && s'.pcs[t].Inside() && s'.pcs[u].Inside()
    ensures t == u && s'.suspendedBy == Some(t)
  {
    InitialInv(s);
    ReachableInv(s, actions, s');
  }

  /** A new queue, with all tasks outside, is where the runs begin. */
  lemma RunsBeginNew(length: nat, pcs: map<Task, Counter>)
    requires length > 0 && |pcs| <= 127 && forall t :: t in pcs ==> pcs[t] == Idle
    ensures Initial(State(Control(0, length, -1, -1, [], []), pcs, None, 0, 0))
  {
  }

  /** What may happen at any time: interrupts send when there is room, or overwrite a queue of length one, and receive
      when there is a message; a blocked task still listed may run out of time unless the scheduler is suspended; and
      a task runs unless another one has suspended the scheduler, or it is blocked and still listed. */
  lemma WhatMayHappen(s: State, t: Task, dir: Direction, choice: bool)
    requires t in s.pcs
    ensures Enabled(s, SendISR(SendToBack)) <==> s.q.messages < s.q.length
    ensures Enabled(s, SendISR(SendToFront)) <==> s.q.messages < s.q.length
    ensures Enabled(s, SendISR(Overwrite)) <==> s.q.length == 1
    ensures Enabled(s, ReceiveISR) <==> s.q.messages > 0
    ensures var listed, mine := t in s.q.receivers || t in s.q.senders, s.suspendedBy == None || s.suspendedBy == Some(t);
            && (Enabled(s, TickTimeOut(t)) <==> s.suspendedBy == None && s.pcs[t].Blocked? && listed)
            && (Enabled(s, Call(t, dir)) <==> mine && s.pcs[t] == Idle && (dir == Sending(Overwrite) ==> s.q.length == 1))
            && (Enabled(s, Run(t, choice, 0)) <==> mine && s.pcs[t] != Idle && !(s.pcs[t].Blocked? && listed))
  {
  }

  // ---------------------------------------------------------------- what a call does in the end

  /** What a call came for is there: a message, or a free slot, or a message to overwrite. */
  ghost predicate Available(q: Control, dir: Direction) {
    match dir
    case Receiving => q.messages > 0
    case Sending(position) => q.messages < q.length || position == Overwrite
  }

  /** The task takes its message or leaves one, wakes the first task waiting for that, and returns. */
  ghost predicate TakesPart(s: State, t: Task, s': State)
    requires t in s.pcs && s.pcs[t] != Idle
  {
    && s'.pcs == s.pcs[t := Idle] && s'.suspendedBy == s.suspendedBy && s'.posts == s.posts && s'.takes == s.takes
    && s'.q.length == s.q.length && s'.q.tx == s.q.tx && s'.q.rx == s.q.rx
    && match s.pcs[t].dir
       case Receiving =>
         && s.q.messages > 0 && s'.q.messages == s.q.messages - 1 && s'.q.receivers == s.q.receivers
         && s'.q.senders == if s.q.senders == [] then [] else s.q.senders[1..]
       case Sending(position) =>
         && s'.q.messages == (if position == Overwrite && s.q.messages > 0 then s.q.messages else s.q.messages + 1)
         && (s.q.messages < s.q.length || position == Overwrite)
         && s'.q.senders == s.q.senders && s'.q.receivers == if s.q.receivers == [] then [] else s.q.receivers[1..]
  }

  /** At the head of its loop, and on waking, a task takes part at once if what it came for is there; else it
      leaves when it has no time left, and otherwise goes on to block. */
  lemma HeadOfLoop(s: State, t: Task, choice: bool, at: nat)
    requires Enabled(s, Run(t, choice, at)) && (s.pcs[t].Check? || s.pcs[t].Blocked?) && s.q.messages <= s.q.length
    ensures var s', dir := RunStep(s, t, choice, at), s.pcs[t].dir;
            if Available(s.q, dir) then TakesPart(s, t, s')
            else s' == s.(pcs := s.pcs[t := if choice then Idle else Suspend(dir)])
  {
    match s.pcs[t].dir
    case Receiving => if s.q.messages > 0 { ReceiveWakesOne(s.q); }
    case Sending(position) => SendWakesOne(s.q, position);
  }

  /** The state with task t at pc, and what the steps of one call change besides. */
  ghost function Now(s: State, t: Task, pc: Counter, q: Control, holder: Option<Task>): State {
    s.(pcs := s.pcs[t := pc], q := q, suspendedBy := holder)
  }

  ghost predicate Goes(s: State, a: Action, s': State) {
    Enabled(s, a) && Step(s, a) == s'
  }

  lemma Prepend(s: State, a: Action, s1: State, rest: seq<Action>, s': State)
    requires Goes(s, a, s1) && Reaches(s1, rest, s')
    ensures Reaches(s, [a] + rest, s')
  {
    assert ([a] + rest)[1..] == rest;
  }

  /** Nobody is inside the lock, no event is uncounted, and task t is not in a call. */
  ghost predicate Quiet(s: State, t: Task) {
    && t in s.pcs && s.pcs[t] == Idle && s.suspendedBy == None && s.posts == 0 && s.takes == 0
    && s.q.tx == s.q.rx == -1 && s.q.messages <= s.q.length && t !in s.q.receivers && t !in s.q.senders
  }

  lemma QuietHolds(s: State, t: Task)
    requires Inv(s) && t in s.pcs && s.pcs[t] == Idle && s.suspendedBy == None
    ensures Quiet(s, t)
  {
    assert ListOk(s.pcs, true, s.q.receivers) && ListOk(s.pcs, false, s.q.senders);
  }

  /** From the call to inside the lock, when what it came for is not there. */
  lemma EntersLock(s: State, t: Task, dir: Direction)
    requires Quiet(s, t) && !Available(s.q, dir) && (dir == Sending(Overwrite) ==> s.q.length == 1)
    ensures Goes(s, Call(t, dir), Now(s, t, Check(dir), s.q, None))
    ensures Goes(Now(s, t, Check(dir), s.q, None), Run(t, false, 0), Now(s, t, Suspend(dir), s.q, None))
    ensures Goes(Now(s, t, Suspend(dir), s.q, None), Run(t, false, 0), Now(s, t, LockQueue(dir), s.q, Some(t)))
    ensures Goes(Now(s, t, LockQueue(dir), s.q, Some(t)), Run(t, false, 0),
                 Now(s, t, CheckTimeOut(dir), s.q.(tx := 0, rx := 0), Some(t)))
  {
    Overwritten(s, t, Idle, Check(dir));
    Overwritten(s, t, Check(dir), Suspend(dir));
    Overwritten(s, t, Suspend(dir), LockQueue(dir));
    Overwritten(s, t, LockQueue(dir), CheckTimeOut(dir));
  }

  lemma Overwritten(s: State, t: Task, pc: Counter, pc': Counter)
    ensures s.pcs[t := pc][t := pc'] == s.pcs[t := pc']
  {
  }

  /** Inside the lock with time left: the task puts itself on its list. */
  lemma PutsItselfDown(s: State, t: Task, dir: Direction, q: Control, at: nat)
    requires t in s.pcs && (if dir.Receiving? then q.messages == 0 else q.messages == q.length)
    requires at <= if dir.Receiving? then |q.receivers| else |q.senders|
    ensures Goes(Now(s, t, CheckTimeOut(dir), q, Some(t)), Run(t, false, 0), Now(s, t, Recheck(dir), q, Some(t)))
    ensures Goes(Now(s, t, Recheck(dir), q, Some(t)), Run(t, false, 0), Now(s, t, Place(dir), q, Some(t)))
    ensures Goes(Now(s, t, Place(dir), q, Some(t)), Run(t, false, at),
                 Now(s, t, UnlockTx(dir, Blocking), WithWaiter(q, t, dir, at), Some(t)))
  {
    Overwritten(s, t, CheckTimeOut(dir), Recheck(dir));
    Overwritten(s, t, Recheck(dir), Place(dir));
    Overwritten(s, t, Place(dir), UnlockTx(dir, Blocking));
  }

  /** Out of the lock again, when no interrupt came. */
  lemma LeavesLock(s: State, t: Task, dir: Direction, why: Reason, q: Control)
    requires t in s.pcs && s.posts == 0 && s.takes == 0 && q.tx == 0 && q.rx == 0
    ensures Goes(Now(s, t, UnlockTx(dir, why), q, Some(t)), Run(t, false, 0),
                 Now(s, t, UnlockRx(dir, why), q.(tx := -1), Some(t)))
    ensures Goes(Now(s, t, UnlockRx(dir, why), q.(tx := -1), Some(t)), Run(t, false, 0),
                 Now(s, t, Resume(dir, why), q.(tx := -1, rx := -1), Some(t)))
    ensures var pc := if why == Blocking then Blocked(dir) else if why == Retrying then Check(dir)
                      else if dir.Receiving? then LastLook(dir) else Idle;
            Goes(Now(s, t, Resume(dir, why), q.(tx := -1, rx := -1), Some(t)), Run(t, false, 0),
                 Now(s, t, pc, q.(tx := -1, rx := -1), None))
  {
    Overwritten(s, t, UnlockTx(dir, why), UnlockRx(dir, why));
    Overwritten(s, t, UnlockRx(dir, why), Resume(dir, why));
    assert q.receivers[0..] == q.receivers && q.senders[0..] == q.senders;
    Overwritten(s, t, Resume(dir, why), Blocked(dir));
    Overwritten(s, t, Resume(dir, why), Check(dir));
    Overwritten(s, t, Resume(dir, why), LastLook(dir));
    Overwritten(s, t, Resume(dir, why), Idle);
  }

  lemma NowReaches(s: State)
    ensures Reaches(s, [], s)
  {
  }

  /** Steps of task t with time left. */
  ghost predicate Patient(actions: seq<Action>, t: Task) {
    forall a :: a in actions ==> a.Run? && a.task == t && !a.choice
  }

  /** The event list of a direction with the task in it. */
  ghost function WithWaiter(q: Control, t: Task, dir: Direction, at: nat): Control
    requires at <= if dir.Receiving? then |q.receivers| else |q.senders|
  {
    if dir.Receiving? then q.(receivers := InsertAt(q.receivers, at, t)) else q.(senders := InsertAt(q.senders, at, t))
  }

  /** A task that calls receive on an empty queue, or send on a full one, with time left and nobody else
      acting, blocks: the run ends with it on the event list it should be on, at the position its priority
      gives it, and with the queue unlocked and otherwise as it was. */
  lemma BlocksWhenAlone(s: State, t: Task, dir: Direction, at: nat) returns (actions: seq<Action>, s': State)
    requires Inv(s) && t in s.pcs && s.pcs[t] == Idle && s.suspendedBy == None && dir != Sending(Overwrite)
    requires if dir.Receiving? then s.q.messages == 0 else s.q.messages == s.q.length
    requires at <= if dir.Receiving? then |s.q.receivers| else |s.q.senders|
    ensures Reaches(s, [Call(t, dir)] + actions, s') && Patient(actions, t)
    ensures s'.pcs == s.pcs[t := Blocked(dir)] && s'.suspendedBy == None
    ensures dir.Receiving? ==> s'.q == s.q.(receivers := InsertAt(s.q.receivers, at, t))
    ensures dir.Sending? ==> s'.q == s.q.(senders := InsertAt(s.q.senders, at, t))
  {
    QuietHolds(s, t);
    var q := s.q.(tx := 0, rx := 0);
    s' := Now(s, t, Blocked(dir), WithWaiter(s.q, t, dir, at), None);
    assert WithWaiter(q, t, dir, at).(tx := -1, rx := -1) == WithWaiter(s.q, t, dir, at);
    var rest := Places(s, t, dir, q, at, s');
    hide Inv, Reaches;
    actions := Locks(s, t, dir, rest, s');
  }

  /** The run from the check for the time to blocking. */
  lemma Places(s: State, t: Task, dir: Direction, q: Control, at: nat, s': State) returns (actions: seq<Action>)
    requires t in s.pcs && s.posts == 0 && s.takes == 0 && q.tx == 0 && q.rx == 0
    requires if dir.Receiving? then q.messages == 0 else q.messages == q.length
    requires at <= if dir.Receiving? then |q.receivers| else |q.senders|
    requires s' == Now(s, t, Blocked(dir), WithWaiter(q, t, dir, at).(tx := -1, rx := -1), None)
    ensures Reaches(Now(s, t, CheckTimeOut(dir), q, Some(t)), actions, s') && Patient(actions, t)
  {
    var run, q' := Run(t, false, 0), WithWaiter(q, t, dir, at);
    PutsItselfDown(s, t, dir, q, at);
    var out := Unlocks(s, t, dir, Blocking, q', s');
    hide Goes, Reaches;
    Prepend(Now(s, t, Place(dir), q, Some(t)), Run(t, false, at), Now(s, t, UnlockTx(dir, Blocking), q', Some(t)), out, s');
    actions := [Run(t, false, at)] + out;
    Prepend(Now(s, t, Recheck(dir), q, Some(t)), run, Now(s, t, Place(dir), q, Some(t)), actions, s');
    actions := [run] + actions;
    Prepend(Now(s, t, CheckTimeOut(dir), q, Some(t)), run, Now(s, t, Recheck(dir), q, Some(t)), actions, s');
    actions := [run] + actions;
  }

  /** The run from the call to the check for the time, continued. */
  lemma Locks(s: State, t: Task, dir: Direction, rest: seq<Action>, s': State) returns (actions: seq<Action>)
    requires Quiet(s, t) && !Available(s.q, dir) && (dir == Sending(Overwrite) ==> s.q.length == 1)
    requires Reaches(Now(s, t, CheckTimeOut(dir), s.q.(tx := 0, rx := 0), Some(t)), rest, s')
    ensures Reaches(s, [Call(t, dir)] + actions, s')
    ensures actions == [Run(t, false, 0)] + ([Run(t, false, 0)] + ([Run(t, false, 0)] + rest))
  {
    var run, q := Run(t, false, 0), s.q.(tx := 0, rx := 0);
    EntersLock(s, t, dir);
    hide Goes, Reaches, Quiet, Available;
    Prepend(Now(s, t, LockQueue(dir), s.q, Some(t)), run, Now(s, t, CheckTimeOut(dir), q, Some(t)), rest, s');
    Prepend(Now(s, t, Suspend(dir), s.q, None), run, Now(s, t, LockQueue(dir), s.q, Some(t)), [run] + rest, s');
    Prepend(Now(s, t, Check(dir), s.q, None), run, Now(s, t, Suspend(dir), s.q, None), [run] + ([run] + rest), s');
    Prepend(s, Call(t, dir), Now(s, t, Check(dir), s.q, None), [run] + ([run] + ([run] + rest)), s');
    actions := [run] + ([run] + ([run] + rest));
  }

  /** The run through the unlock. */
  lemma Unlocks(s: State, t: Task, dir: Direction, why: Reason, q: Control, s': State) returns (actions: seq<Action>)
    requires t in s.pcs && s.posts == 0 && s.takes == 0 && q.tx == 0 && q.rx == 0
    requires var pc := if why == Blocking then Blocked(dir) else if why == Retrying then Check(dir)
                       else if dir.Receiving? then LastLook(dir) else Idle;
             s' == Now(s, t, pc, q.(tx := -1, rx := -1), None)
    ensures Reaches(Now(s, t, UnlockTx(dir, why), q, Some(t)), actions, s')
    ensures forall a :: a in actions ==> a == Run(t, false, 0)
  {
    var run := Run(t, false, 0);
    LeavesLock(s, t, dir, why, q);
    NowReaches(s');
    hide Goes, Reaches;
    Prepend(Now(s, t, Resume(dir, why), q.(tx := -1, rx := -1), Some(t)), run, s', [], s');
    Prepend(Now(s, t, UnlockRx(dir, why), q.(tx := -1), Some(t)), run,
            Now(s, t, Resume(dir, why), q.(tx := -1, rx := -1), Some(t)), [run] + [], s');
    Prepend(Now(s, t, UnlockTx(dir, why), q, Some(t)), run, Now(s, t, UnlockRx(dir, why), q.(tx := -1), Some(t)),
            [run] + ([run] + []), s');
    actions := [run] + ([run] + ([run] + []));
  }

  // ---------------------------------------------------------------- giving up

  /** A call whose time is over by the time it checks leaves everything as it was. */
  lemma TimesOutWhenAlone(s: State, t: Task, dir: Direction) returns (actions: seq<Action>)
    requires Inv(s) && t in s.pcs && s.pcs[t] == Idle && s.suspendedBy == None && dir != Sending(Overwrite)
    requires if dir.Receiving? then s.q.messages == 0 else s.q.messages == s.q.length
    ensures Reaches(s, [Call(t, dir)] + actions, s) && forall a :: a in actions ==> a.Run? && a.task == t
  {
    QuietHolds(s, t);
    var out := Expires(s, t, dir);
    hide Inv, Reaches;
    actions := Locks(s, t, dir, out, s);
  }

  /** From the check that finds the time over to the end of the call. */
  lemma Expires(s: State, t: Task, dir: Direction) returns (actions: seq<Action>)
    requires Quiet(s, t) && (dir.Receiving? ==> s.q.messages == 0)
    ensures Reaches(Now(s, t, CheckTimeOut(dir), s.q.(tx := 0, rx := 0), Some(t)), actions, s)
    ensures forall a :: a in actions ==> a.Run? && a.task == t
  {
    var q := s.q.(tx := 0, rx := 0);
    var checked, expired := Now(s, t, CheckTimeOut(dir), q, Some(t)), Now(s, t, UnlockTx(dir, Expired), q, Some(t));
    var end := Now(s, t, if dir.Receiving? then LastLook(dir) else Idle, s.q, None);
    assert q.(tx := -1, rx := -1) == s.q;
    var out := Unlocks(s, t, dir, Expired, q, end);
    TimeIsOver(s, t, dir, q);
    LooksOnce(s, t, dir);
    NowReaches(s);
    hide Quiet, Reaches, Goes, Now;
    if dir.Receiving? {
      Prepend(end, Run(t, false, 0), s, [], s);
      out := Continues(expired, out, end, [Run(t, false, 0)] + [], s);
    }
    Prepend(checked, Run(t, true, 0), expired, out, s);
    actions := [Run(t, true, 0)] + out;
  }

  lemma TimeIsOver(s: State, t: Task, dir: Direction, q: Control)
    requires t in s.pcs
    ensures Goes(Now(s, t, CheckTimeOut(dir), q, Some(t)), Run(t, true, 0), Now(s, t, UnlockTx(dir, Expired), q, Some(t)))
  {
    Overwritten(s, t, CheckTimeOut(dir), UnlockTx(dir, Expired));
  }

  lemma LooksOnce(s: State, t: Task, dir: Direction)
    requires Quiet(s, t)
    ensures Now(s, t, Idle, s.q, None) == s
    ensures dir.Receiving? && s.q.messages == 0 ==> Goes(Now(s, t, LastLook(dir), s.q, None), Run(t, false, 0), s)
  {
    Overwritten(s, t, LastLook(dir), Idle);
    assert s.pcs[t := Idle] == s.pcs;
  }

  lemma {:induction false} Continues(s: State, actions: seq<Action>, s1: State, more: seq<Action>, s': State)
    returns (all: seq<Action>)
    requires Reaches(s, actions, s1) && Reaches(s1, more, s')
    ensures all == actions + more && Reaches(s, all, s')
    decreases |actions|
  {
    hide Enabled, Step;
    all := actions + more;
    if actions == [] {
      assert all == more;
    } else {
      var rest := Continues(Step(s, actions[0]), actions[1..], s1, more, s');
      assert all[1..] == rest;
    }
  }

  /** Exactly when a step ends a call: at the head of the loop when what it came for is there or no time is
      left, after a last look at an empty queue, and, for a send, when it is out of the lock again and its
      time was over.  Only the first takes part, and a receiver gives up only on an empty queue. */
  lemma LeavesExactly(s: State, t: Task, choice: bool, at: nat)
    requires Enabled(s, Run(t, choice, at)) && s.q.messages <= s.q.length
    ensures var s', pc := RunStep(s, t, choice, at), s.pcs[t];
            s'.pcs[t] == Idle <==>
            || ((pc.Check? || pc.Blocked?) && (Available(s.q, pc.dir) || choice))
            || (pc.LastLook? && if pc.dir.Receiving? then s.q.messages == 0 else s.q.messages == s.q.length)
            || (pc.Resume? && pc.why == Expired && pc.dir.Sending?)
    ensures var s', pc := RunStep(s, t, choice, at), s.pcs[t];
            s'.pcs[t] == Idle ==>
              || TakesPart(s, t, s')
              || (s'.q == s.q && s'.pcs == s.pcs[t := Idle]
                  && (pc.dir.Receiving? && !pc.Resume? ==> s.q.messages == 0)
                  && (pc.dir.Sending? && !pc.Resume? ==> s.q.messages == s.q.length))
  {
    if s.pcs[t].Check? || s.pcs[t].Blocked? { HeadOfLoop(s, t, choice, at); }
  }

  /** The time of the call is not over. */
  ghost predicate TimeLeft(pc: Counter) {
    !pc.LastLook? && (pc.UnlockTx? || pc.UnlockRx? || pc.Resume? ==> pc.why != Expired)
  }

  ghost predicate EndsCall(s: State, a: Action, t: Task)
    requires Enabled(s, a)
  {
    t in s.pcs && s.pcs[t] != Idle && t in Step(s, a).pcs && Step(s, a).pcs[t] == Idle
  }

  /** Whenever the run ends a call of task t, that call took part. */
  ghost predicate NeverGivesUp(s: State, actions: seq<Action>, t: Task)
    decreases |actions|
  {
    actions == [] ||
    (Enabled(s, actions[0])
     && (EndsCall(s, actions[0], t) ==> TakesPart(s, t, Step(s, actions[0])))
     && NeverGivesUp(Step(s, actions[0]), actions[1..], t))
  }

  /** Nobody gives up early: over any run, with any other tasks and interrupts, in which the time of task t
      is not found to be over, every call of t that ends has taken part. */
  lemma {:induction false} NoGiveUpEarly(s: State, actions: seq<Action>, s': State, t: Task)
    requires Inv(s) && Reaches(s, actions, s') && t in s.pcs && TimeLeft(s.pcs[t])
    requires forall a :: a in actions && a.Run? && a.task == t ==> !a.choice
    ensures NeverGivesUp(s, actions, t) && t in s'.pcs && TimeLeft(s'.pcs[t])
    decreases |actions|
  {
    if actions != [] {
      assert actions[0] in actions;
      StepInv(s, actions[0]);
      StepTakesPart(s, actions[0], t);
      hide Inv, Enabled, Step, TakesPart, TimeLeft, EndsCall;
      NoGiveUpEarly(Step(s, actions[0]), actions[1..], s', t);
    }
  }

  lemma StepTakesPart(s: State, a: Action, t: Task)
    requires Inv(s) && Enabled(s, a) && t in s.pcs && TimeLeft(s.pcs[t]) && (a.Run? && a.task == t ==> !a.choice)
    ensures t in Step(s, a).pcs && TimeLeft(Step(s, a).pcs[t])
    ensures EndsCall(s, a, t) ==> TakesPart(s, t, Step(s, a))
  {
    if a.Run? {
      RunMoves(s, a.task, a.choice, a.at);
      if a.task == t {
        LeavesExactly(s, t, a.choice, a.at);
        RunHasTimeLeft(s, t, a.choice, a.at);
      }
    }
  }

  lemma RunHasTimeLeft(s: State, t: Task, choice: bool, at: nat)
    requires Enabled(s, Run(t, choice, at)) && TimeLeft(s.pcs[t]) && !choice && s.q.messages <= s.q.length
    ensures var s' := RunStep(s, t, choice, at);
            TimeLeft(s'.pcs[t]) && (s'.pcs[t] == Idle && s.pcs[t] != Idle ==> TakesPart(s, t, s'))
  {
    if s.pcs[t].Check? || s.pcs[t].Blocked? { HeadOfLoop(s, t, choice, at); }
  }

  /** A task whose time runs out while it is blocked goes back to the head of its loop, off both lists;
      everybody else keeps their place. */
  lemma TimeOutWakes(s: State, t: Task)
    requires Enabled(s, TickTimeOut(t))
    ensures var s' := Step(s, TickTimeOut(t));
            && s'.pcs == s.pcs[t := Check(s.pcs[t].dir)] && t !in s'.q.receivers && t !in s'.q.senders
            && (forall u :: u != t ==>
                  (u in s'.q.receivers <==> u in s.q.receivers) && (u in s'.q.senders <==> u in s.q.senders))
            && s'.q.messages == s.q.messages
  {
    WithoutMembers(s.q.receivers, t);
    WithoutMembers(s.q.senders, t);
  }

  /** A send may report a full queue when there is room: an interrupt received while the queue was locked,
      and the time was over by then. */
  lemma SenderGivesUpWithRoom(s: State, t: Task) returns (actions: seq<Action>, s': State)
    requires Inv(s) && t in s.pcs && s.pcs[t] == Idle && s.suspendedBy == None
    requires s.q.messages == s.q.length && s.q.senders == []
    ensures Reaches(s, [Call(t, Sending(SendToBack))] + actions, s')
    ensures s' == s.(q := s.q.(messages := s.q.length - 1))
  {
    var dir := Sending(SendToBack);
    QuietHolds(s, t);
    var q := s.q.(tx := 0, rx := 0);
    var q1 := q.(messages := q.length - 1, rx := 1);
    var left := s.q.(messages := s.q.length - 1);
    var checked := Now(s, t, CheckTimeOut(dir), q, Some(t));
    var received := Now(s, t, CheckTimeOut(dir), q1, Some(t)).(takes := 1);
    s' := s.(q := left);
    ReceivesInLock(s, t, dir);
    var out := ExpiresInLock(s, t, dir, q1, left, s');
    hide Inv, Reaches, Goes;
    Prepend(checked, ReceiveISR, received, out, s');
    actions := Locks(s, t, dir, [ReceiveISR] + out, s');
  }

  lemma ReceivesInLock(s: State, t: Task, dir: Direction)
    requires Quiet(s, t) && s.q.messages == s.q.length > 0
    ensures var q := s.q.(tx := 0, rx := 0);
            Goes(Now(s, t, CheckTimeOut(dir), q, Some(t)), ReceiveISR,
                 Now(s, t, CheckTimeOut(dir), q.(messages := q.length - 1, rx := 1), Some(t)).(takes := 1))
  {
    var q := s.q.(tx := 0, rx := 0);
    assert |s.pcs[t := CheckTimeOut(dir)]| > 0 by { assert t in s.pcs[t := CheckTimeOut(dir)]; }
    InterruptCounts(q, SendToBack, |s.pcs[t := CheckTimeOut(dir)]|);
  }

  lemma ExpiresInLock(s: State, t: Task, dir: Direction, q1: Control, left: Control, s': State)
    returns (actions: seq<Action>)
    requires Quiet(s, t) && dir.Sending? && q1.tx == 0 && q1.rx == 1 && q1.senders == []
    requires left == q1.(tx := -1, rx := -1) && s' == s.(q := left)
    ensures Reaches(Now(s, t, CheckTimeOut(dir), q1, Some(t)).(takes := 1), actions, s')
  {
    var u0 := Now(s, t, CheckTimeOut(dir), q1, Some(t)).(takes := 1);
    var u1 := Now(s, t, UnlockTx(dir, Expired), q1, Some(t)).(takes := 1);
    var u2 := Now(s, t, UnlockRx(dir, Expired), q1.(tx := -1), Some(t)).(takes := 1);
    var u3 := Now(s, t, Resume(dir, Expired), left, Some(t));
    ExpiryGoes(s, t, dir, q1, left, s');
    var run, none: seq<Action> := Run(t, false, 0), [];
    NowReaches(s');
    hide Goes, Reaches, Now;
    Prepend(u3, run, s', none, s');
    Prepend(u2, run, u3, [run] + none, s');
    Prepend(u1, run, u2, [run] + ([run] + none), s');
    Prepend(u0, Run(t, true, 0), u1, [run] + ([run] + ([run] + none)), s');
    actions := [Run(t, true, 0)] + ([run] + ([run] + ([run] + none)));
  }

  lemma ExpiryGoes(s: State, t: Task, dir: Direction, q1: Control, left: Control, s': State)
    requires Quiet(s, t) && dir.Sending? && q1.tx == 0 && q1.rx == 1 && q1.senders == []
    requires left == q1.(tx := -1, rx := -1) && s' == s.(q := left)
    ensures Goes(Now(s, t, CheckTimeOut(dir), q1, Some(t)).(takes := 1), Run(t, true, 0),
                 Now(s, t, UnlockTx(dir, Expired), q1, Some(t)).(takes := 1))
    ensures Goes(Now(s, t, UnlockTx(dir, Expired), q1, Some(t)).(takes := 1), Run(t, false, 0),
                 Now(s, t, UnlockRx(dir, Expired), q1.(tx := -1), Some(t)).(takes := 1))
    ensures Goes(Now(s, t, UnlockRx(dir, Expired), q1.(tx := -1), Some(t)).(takes := 1), Run(t, false, 0),
                 Now(s, t, Resume(dir, Expired), left, Some(t)))
    ensures Goes(Now(s, t, Resume(dir, Expired), left, Some(t)), Run(t, false, 0), s')
  {
    Overwritten(s, t, CheckTimeOut(dir), UnlockTx(dir, Expired));
    Overwritten(s, t, UnlockTx(dir, Expired), UnlockRx(dir, Expired));
    Overwritten(s, t, UnlockRx(dir, Expired), Resume(dir, Expired));
    Overwritten(s, t, Resume(dir, Expired), Idle);
    assert s.pcs[t := Idle] == s.pcs && q1.receivers[0..] == q1.receivers && q1.senders[0..] == [];
  }
}
